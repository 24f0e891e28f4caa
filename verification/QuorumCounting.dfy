/** The count form as a boolean expansion, and what a report of expired evidence means. */
module QuorumCounting {
  import opened Names
  import opened QuorumSyntax
  import opened QuorumRoundTrip
  import opened QuorumNormal
  import opened Kleene
  import QuorumEquivalence
  import opened Evidence
  import opened Predicates

  // ---- the expansion ----

  function AppendEach(cs: seq<seq<string>>, name: string): (r: seq<seq<string>>)
    ensures |r| == |cs|
    ensures forall i :: 0 <= i < |cs| ==> r[i] == cs[i] + [name]
  {
    seq(|cs|, i requires 0 <= i < |cs| => cs[i] + [name])
  }

  /** All ways to choose `k` of the subjects. */
  function Choices(names: seq<string>, k: nat): (cs: seq<seq<string>>)
    ensures k <= |names| ==> cs != []
    ensures forall i :: 0 <= i < |cs| ==> |cs[i]| == k
    decreases |names|
  {
    if k == 0 then [[]]
    else if names == [] then []
    else
      var front := names[..|names| - 1];
      Choices(front, k) + AppendEach(Choices(front, k - 1), names[|names| - 1])
  }

  function AllOf(names: seq<string>): Expr
    requires names != []
  {
    if |names| == 1 then Subject(names[0])
    else Binary(And, AllOf(names[..|names| - 1]), Subject(names[|names| - 1]))
  }

  function AnyOf(cs: seq<seq<string>>): Expr
    requires cs != [] && forall i :: 0 <= i < |cs| ==> cs[i] != []
  {
    if |cs| == 1 then AllOf(cs[0])
    else Binary(Or, AnyOf(cs[..|cs| - 1]), AllOf(cs[|cs| - 1]))
  }

  /** `a & b | a & c | b & c`, for any subjects and any threshold. */
  function Expansion(names: seq<string>, k: nat): Expr
    requires 1 <= k <= |names|
  {
    AnyOf(Choices(names, k))
  }

  // ---- counting against the expansion ----

  ghost predicate AllTrue(names: seq<string>, v: string -> Tri) {
    forall i :: 0 <= i < |names| ==> v(names[i]) == True
  }

  function CountTrue(names: seq<string>, v: string -> Tri): nat {
    if names == [] then 0
    else CountTrue(names[..|names| - 1], v) + if v(names[|names| - 1]) == True then 1 else 0
  }

  ghost predicate SomeTrue(cs: seq<seq<string>>, v: string -> Tri) {
    exists i :: 0 <= i < |cs| && AllTrue(cs[i], v)
  }

  lemma SomeTrueConcat(a: seq<seq<string>>, b: seq<seq<string>>, v: string -> Tri)
    ensures SomeTrue(a + b, v) <==> SomeTrue(a, v) || SomeTrue(b, v)
  {
    if SomeTrue(a, v) {
      var i :| 0 <= i < |a| && AllTrue(a[i], v);
      assert (a + b)[i] == a[i];
    }
    if SomeTrue(b, v) {
      var i :| 0 <= i < |b| && AllTrue(b[i], v);
      assert (a + b)[|a| + i] == b[i];
    }
    if SomeTrue(a + b, v) {
      var i :| 0 <= i < |a + b| && AllTrue((a + b)[i], v);
      assert (a + b)[i] == if i < |a| then a[i] else b[i - |a|];
    }
  }

  lemma AllTrueSnoc(c: seq<string>, name: string, v: string -> Tri)
    ensures AllTrue(c + [name], v) <==> AllTrue(c, v) && v(name) == True
  {
    if AllTrue(c + [name], v) {
      assert (c + [name])[|c|] == name;
      assert forall i :: 0 <= i < |c| ==> (c + [name])[i] == c[i];
    }
  }

  lemma SomeTrueAppendEach(cs: seq<seq<string>>, name: string, v: string -> Tri)
    ensures SomeTrue(AppendEach(cs, name), v) <==> SomeTrue(cs, v) && v(name) == True
  {
    var r := AppendEach(cs, name);
    forall i | 0 <= i < |cs|
      ensures AllTrue(r[i], v) <==> AllTrue(cs[i], v) && v(name) == True
    {
      AllTrueSnoc(cs[i], name, v);
    }
    if SomeTrue(cs, v) && v(name) == True {
      var i :| 0 <= i < |cs| && AllTrue(cs[i], v);
      assert AllTrue(r[i], v);
    }
  }

  /** Some choice of `k` subjects is true throughout exactly when at least `k` subjects are true. */
  lemma {:induction false} ChoiceMeetsCount(names: seq<string>, k: nat, v: string -> Tri)
    ensures SomeTrue(Choices(names, k), v) <==> CountTrue(names, v) >= k
    decreases |names|
  {
    if k == 0 {
      assert AllTrue(Choices(names, k)[0], v);
    } else if names != [] {
      var front, last := names[..|names| - 1], names[|names| - 1];
      ChoiceMeetsCount(front, k, v);
      ChoiceMeetsCount(front, k - 1, v);
      SomeTrueAppendEach(Choices(front, k - 1), last, v);
      SomeTrueConcat(Choices(front, k), AppendEach(Choices(front, k - 1), last), v);
    }
  }

  predicate Folded(names: seq<string>) {
    forall i :: 0 <= i < |names| ==> NormalizeIdentifier(names[i]) == names[i]
  }

  lemma {:induction false} AllOfMeans(c: seq<string>, v: string -> Tri)
    requires c != [] && Folded(c)
    ensures Evaluate(AllOf(c), v) == True <==> AllTrue(c, v)
  {
    if |c| > 1 {
      AllOfMeans(c[..|c| - 1], v);
      AllTrueSnoc(c[..|c| - 1], c[|c| - 1], v);
      assert c == c[..|c| - 1] + [c[|c| - 1]];
    }
  }

  lemma {:induction false} AnyOfMeans(cs: seq<seq<string>>, v: string -> Tri)
    requires cs != [] && forall i :: 0 <= i < |cs| ==> cs[i] != [] && Folded(cs[i])
    ensures Evaluate(AnyOf(cs), v) == True <==> SomeTrue(cs, v)
  {
    var last := cs[|cs| - 1];
    AllOfMeans(last, v);
    SomeTrueLast(cs, v);
    if |cs| > 1 {
      AnyOfMeans(cs[..|cs| - 1], v);
    }
  }

  lemma SomeTrueLast(cs: seq<seq<string>>, v: string -> Tri)
    requires cs != []
    ensures SomeTrue(cs, v) <==> SomeTrue(cs[..|cs| - 1], v) || AllTrue(cs[|cs| - 1], v)
  {
    var last := cs[|cs| - 1];
    SomeTrueConcat(cs[..|cs| - 1], [last], v);
    assert cs == cs[..|cs| - 1] + [last];
    assert SomeTrue([last], v) <==> AllTrue([last][0], v);
  }

  lemma {:induction false} ChoicesFolded(names: seq<string>, k: nat)
    requires Folded(names)
    ensures forall i :: 0 <= i < |Choices(names, k)| ==> Folded(Choices(names, k)[i])
    decreases |names|
  {
    if k > 0 && names != [] {
      var front, last := names[..|names| - 1], names[|names| - 1];
      ChoicesFolded(front, k);
      ChoicesFolded(front, k - 1);
      assert NormalizeIdentifier(last) == last;
    }
  }

  lemma ExpansionMeansCount(names: seq<string>, k: nat, v: string -> Tri)
    requires 1 <= k <= |names| && Folded(names)
    ensures Evaluate(Expansion(names, k), v) == True <==> CountTrue(names, v) >= k
  {
    ChoicesFolded(names, k);
    AnyOfMeans(Choices(names, k), v);
    ChoiceMeetsCount(names, k, v);
  }

  // ---- readings ----

  lemma {:induction false} CountsAreReadings(names: seq<string>, facts: Facts, index: Index, now: Clock)
    ensures CountTrue(names, n => Reading(facts, n, index, now, Enforce)) == CountPresent(names, facts, index, now)
    ensures CountTrue(names, n => Reading(facts, n, index, now, AssumeFresh)) == CountTruthy(names, facts)
  {
    if names != [] {
      CountsAreReadings(names[..|names| - 1], facts, index, now);
    }
  }

  lemma {:induction false} LeavesBound(e: Expr, names: set<string>)
    requires forall i :: 0 <= i < |Leaves(e)| ==> NormalizeIdentifier(Leaves(e)[i]) in names
    ensures SubjectsWithin(e, names)
  {
    match e
    case Malformed =>
    case Subject(name) => assert Leaves(e)[0] == name;
    case Not(x) =>
      assert Leaves(e) == Leaves(x);
      LeavesBound(x, names);
    case Binary(_, l, r) =>
      assert forall i :: 0 <= i < |Leaves(l)| ==> Leaves(e)[i] == Leaves(l)[i];
      assert forall i :: 0 <= i < |Leaves(r)| ==> Leaves(e)[|Leaves(l)| + i] == Leaves(r)[i];
      LeavesBound(l, names);
      LeavesBound(r, names);
  }

  /** Assuming freshness changes nothing when no subject is stale. */
  lemma OnlyStalenessDiffers(e: Expr, facts: Facts, index: Index, now: Clock)
    requires !AnyStale(e, facts, index, now)
    ensures EvalQuorum(e, facts, index, now, Enforce) == EvalQuorum(e, facts, index, now, AssumeFresh)
  {
    var names := set i | 0 <= i < |Leaves(e)| :: NormalizeIdentifier(Leaves(e)[i]);
    LeavesBound(e, names);
    EvaluateCongruent(e, n => Reading(facts, n, index, now, Enforce), n => Reading(facts, n, index, now, AssumeFresh), names);
  }

  /** What an expression check reports, without looking for stale subjects. */
  lemma ExpressionReport(e: Expr, facts: Facts, index: Index, now: Clock)
    ensures EvaluateExpression(e, facts, index, now) ==
            if EvalQuorum(e, facts, index, now, Enforce) == True then Check(true, NoReason)
            else Shortfall(EvalQuorum(e, facts, index, now, AssumeFresh) == True)
  {
    if !AnyStale(e, facts, index, now) {
      OnlyStalenessDiffers(e, facts, index, now);
    }
  }

  /** Normalising an expression changes neither the verdict nor the reason of its check, whatever the
      facts, the index and the clock. */
  lemma NormalisedCheckIsTheSame(e: Expr, facts: Facts, index: Index, now: Clock)
    ensures EvaluateExpression(Norm(e), facts, index, now) == EvaluateExpression(e, facts, index, now)
    ensures EvalQuorum(Norm(e), facts, index, now, AssumeFresh) == EvalQuorum(e, facts, index, now, AssumeFresh)
  {
    QuorumEquivalence.NormKeepsMeaning(e, n => Reading(facts, n, index, now, Enforce));
    QuorumEquivalence.NormKeepsMeaning(e, n => Reading(facts, n, index, now, AssumeFresh));
    ExpressionReport(e, facts, index, now);
    ExpressionReport(Norm(e), facts, index, now);
  }

  /** `count(S) >= k` and its expansion always give the same check, verdict and reason alike. */
  lemma CountIsItsExpansion(names: seq<string>, k: nat, facts: Facts, index: Index, now: Clock)
    requires 1 <= k <= |names| && Folded(names)
    ensures EvaluatePredicate(Count(names, k), facts, index, now) ==
            EvaluatePredicate(Quorum(Expansion(names, k)), facts, index, now)
  {
    var e := Expansion(names, k);
    ExpansionMeansCount(names, k, n => Reading(facts, n, index, now, Enforce));
    ExpansionMeansCount(names, k, n => Reading(facts, n, index, now, AssumeFresh));
    CountsAreReadings(names, facts, index, now);
    ExpressionReport(e, facts, index, now);
  }

  // ---- expired as a counterfactual ----

  ghost predicate Declared(index: Index, s: Signal) {
    (exists n :: n in index.signals && index.signals[n] == s) ||
    (exists n, i :: n in index.collectors && 0 <= i < |index.collectors[n]| && index.collectors[n][i] == s)
  }

  /** The facts after every declared signal is observed again, at its current value, at the clock. */
  ghost predicate Reobserved(f: Facts, g: Facts, index: Index, now: int) {
    (forall s :: Declared(index, s) ==> Key(ObservedAt, s.name) in g && g[Key(ObservedAt, s.name)] == TimeV(now)) &&
    (forall key :: (forall s :: Declared(index, s) ==> key != Key(ObservedAt, s.name)) ==> SameAt(f, g, key))
  }

  /** No declared absolute expiry has passed. */
  ghost predicate NothingLapsed(index: Index, now: int) {
    forall s :: Declared(index, s) && s.expiry.Until? ==> s.expiry.instant.Some? && now <= s.expiry.instant.value
  }

  ghost predicate CleanIndex(index: Index) {
    forall s :: Declared(index, s) ==> Clean(s.name)
  }

  lemma ReobservedIsFresh(f: Facts, g: Facts, index: Index, now: int, s: Signal)
    requires Reobserved(f, g, index, now) && NothingLapsed(index, now) && Declared(index, s)
    ensures !Expired(s, g, At(now))
  {
    if s.expiry.Ttl? && s.expiry.seconds > 0 {
      assert s.expiry.seconds * Second >= 0;
    }
  }

  lemma NothingStale(f: Facts, g: Facts, index: Index, now: int, n: string)
    requires Reobserved(f, g, index, now) && NothingLapsed(index, now)
    ensures !Stale(n, g, index, At(now))
  {
    if n in index.signals {
      ReobservedIsFresh(f, g, index, now, index.signals[n]);
    }
    if n in index.collectors {
      forall i | 0 <= i < |index.collectors[n]|
        ensures !Expired(index.collectors[n][i], g, At(now))
      {
        ReobservedIsFresh(f, g, index, now, index.collectors[n][i]);
      }
    }
  }

  lemma KeyKept(f: Facts, g: Facts, index: Index, now: int, p: Prefix, n: string)
    requires Reobserved(f, g, index, now) && CleanIndex(index) && Clean(n) && p != ObservedAt
    ensures SameAt(f, g, Key(p, n))
  {
    forall s | Declared(index, s)
      ensures Key(p, n) != Key(ObservedAt, s.name)
    {
      KeysDistinct(p, n, ObservedAt, s.name);
    }
  }

  lemma ValuesKept(f: Facts, g: Facts, index: Index, now: int, n: string)
    requires Reobserved(f, g, index, now) && CleanIndex(index) && Clean(n)
    ensures SubjectValue(f, n) == SubjectValue(g, n)
  {
    var keys := AliasKeys(n);
    forall i | 0 <= i < |keys|
      ensures SameAt(f, g, keys[i])
    {
      var prefixes := [Plain, Provider, ProviderColon, RuleOf, ClusterOf];
      assert keys[i] == Key(prefixes[i], n) && prefixes[i] != ObservedAt;
      KeyKept(f, g, index, now, prefixes[i], n);
    }
    SameFirstValue(f, g, keys);
  }

  /** Re-observing turns the assumed readings into real ones. */
  lemma ReobservedReading(f: Facts, g: Facts, index: Index, now: int, n: string)
    requires Reobserved(f, g, index, now) && NothingLapsed(index, now) && CleanIndex(index) && Clean(n)
    ensures Reading(g, n, index, At(now), Enforce) == Reading(f, n, index, At(now), AssumeFresh)
    ensures Present(g, n, index, At(now)) == Truthy(f, n)
  {
    NothingStale(f, g, index, now, n);
    ValuesKept(f, g, index, now, n);
  }

  lemma {:induction false} ReobservedCount(names: seq<string>, f: Facts, g: Facts, index: Index, now: int)
    requires Reobserved(f, g, index, now) && NothingLapsed(index, now) && CleanIndex(index)
    requires forall n :: n in names ==> Clean(n)
    ensures CountPresent(names, g, index, At(now)) == CountTruthy(names, f)
  {
    if names != [] {
      ReobservedCount(names[..|names| - 1], f, g, index, now);
      ReobservedReading(f, g, index, now, names[|names| - 1]);
    }
  }

  predicate IsQuorum(p: Predicate, names: set<string>) {
    (p.Count? && forall n :: n in p.providers ==> n in names) || (p.Quorum? && SubjectsWithin(p.expression, names))
  }

  /** At any real clock, an unmet quorum of either form reports expired if and only if it passes once
      every signal is re-observed at the clock with the value it already carries. */
  lemma ExpiredIsCounterfactual(p: Predicate, names: set<string>, f: Facts, g: Facts, index: Index, now: int)
    requires IsQuorum(p, names) && forall n :: n in names ==> Clean(n)
    requires Reobserved(f, g, index, now) && NothingLapsed(index, now) && CleanIndex(index)
    requires !EvaluatePredicate(p, f, index, At(now)).passed
    ensures EvaluatePredicate(p, f, index, At(now)).reason == ExpiredEvidence <==> EvaluatePredicate(p, g, index, At(now)).passed
  {
    if p.Count? {
      ReobservedCount(p.providers, f, g, index, now);
    } else {
      var e := p.expression;
      ExpressionReport(e, f, index, At(now));
      forall n | n in names
        ensures Reading(g, n, index, At(now), Enforce) == Reading(f, n, index, At(now), AssumeFresh)
      {
        ReobservedReading(f, g, index, now, n);
      }
      EvaluateCongruent(e, n => Reading(g, n, index, At(now), Enforce), n => Reading(f, n, index, At(now), AssumeFresh), names);
    }
  }

  // ---- re-observation ----

  /** Each declared signal is the one the index holds under its name. */
  ghost predicate Keyed(index: Index) {
    forall s :: Declared(index, s) ==> s.name in index.signals && index.signals[s.name] == s
  }

  /** The facts with every declared signal observed at the clock. */
  lemma Reobserve(f: Facts, index: Index, now: int) returns (g: Facts)
    requires Keyed(index)
    ensures Reobserved(f, g, index, now)
  {
    var dated := set n | n in index.signals :: Key(ObservedAt, index.signals[n].name);
    g := map key | key in f.Keys + dated :: if key in dated then TimeV(now) else f[key];
    forall s | Declared(index, s)
      ensures Key(ObservedAt, s.name) in dated
    {
      assert s.name in index.signals;
    }
    forall n | n in index.signals
      ensures Declared(index, index.signals[n])
    {
    }
  }

  lemma OneProvider(n: string, f: Facts, index: Index, now: int)
    requires Clean(n) && Truthy(f, n) && Stale(n, f, index, At(now))
    ensures EvaluatePredicate(Count([n], 1), f, index, At(now)) == Shortfall(true)
  {
    assert [n][..0] == [];
    assert CountPresent([], f, index, At(now)) == 0 && CountTruthy([], f) == 0;
    assert CountPresent([n], f, index, At(now)) == 0 && CountTruthy([n], f) == 1;
  }
}
