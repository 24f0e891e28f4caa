/** What happens when a supplier leaves evidence out: exactly when no check of a rule gains by it. */
module Withholding {
  import opened Names
  import opened QuorumSyntax
  import opened QuorumRoundTrip
  import opened Kleene
  import opened Evidence
  import opened Predicates
  import opened Bundles
  import opened Analysis
  import opened Layering
  import opened EvidenceMonotone
  import opened StaleEvidence

  // ---- leaving evidence out ----

  /** A spelling, observation time included, of one of the names. */
  ghost predicate Spells(names: set<string>, key: string) {
    exists n, p :: n in names && key == Key(p, n)
  }

  /** `g` without anything supplied for the names. */
  ghost function Withheld(g: Facts, names: set<string>): Facts {
    map key | key in g && !Spells(names, key) :: g[key]
  }

  /** Some signal of the collector that is not withheld is in play and stale. */
  ghost predicate StaleWitness(b: Bundle, g: Facts, names: set<string>, c: string, now: Clock) {
    c in BundleIndex(b).collectors &&
    exists i :: 0 <= i < |BundleIndex(b).collectors[c]| && WitnessAt(BundleIndex(b).collectors[c][i], g, names, now)
  }

  ghost predicate WitnessAt(s: Signal, g: Facts, names: set<string>, now: Clock) {
    s.name !in names && InPlay(s, g) && Expired(s, g, now)
  }

  /** What the value of a name can decide: an expression reads any value, but cannot name what is spelled like an
      operator, and a count sees only what is truthy. */
  predicate Visible(g: Facts, c: string) {
    SubjectValue(g, c).Some? && (Truthy(g, c) || !IsOperatorWord(c))
  }

  /** A collector that keeps a visible value and was stale keeps a stale signal. */
  ghost predicate GainsNothing(b: Bundle, g: Facts, names: set<string>, now: Clock) {
    forall c {:trigger StaleWitness(b, g, names, c, now)} ::
      c in CollectorNames(b) && c !in names && Visible(g, c) && Stale(c, g, BundleIndex(b), now) ==>
      StaleWitness(b, g, names, c, now)
  }

  // ---- what is left ----

  lemma WithheldGone(g: Facts, names: set<string>, n: string)
    requires n in names
    ensures n !in Withheld(g, names) && SubjectValue(Withheld(g, names), n) == None
    ensures forall p :: Key(p, n) !in Withheld(g, names)
  {
    forall p
      ensures Key(p, n) !in Withheld(g, names)
    {
      assert Spells(names, Key(p, n));
    }
    AbsentSubject(Withheld(g, names), n);
  }

  lemma WithheldKeeps(b: Bundle, g: Facts, names: set<string>, n: string)
    requires CleanNames(b) && names <= EvidenceNames(b) && n in EvidenceNames(b) && n !in names
    ensures SameEverywhere(g, Withheld(g, names), n) && SameView(g, Withheld(g, names), n)
  {
    forall p
      ensures SameAt(g, Withheld(g, names), Key(p, n))
    {
      if Spells(names, Key(p, n)) {
        var m, q :| m in names && Key(p, n) == Key(q, m);
        KeysDistinct(p, n, q, m);
      }
    }
    EverywhereIsView(g, Withheld(g, names), n);
  }

  lemma SignalIsEvidence(b: Bundle, n: string)
    requires n in BundleIndex(b).signals
    ensures n in EvidenceNames(b) && BundleIndex(b).signals[n].name == n
  {
    IndexNames(b);
  }

  lemma FieldStaysAsOld(b: Bundle, g: Facts, names: set<string>, n: string, now: Clock)
    requires CleanNames(b) && names <= EvidenceNames(b) && n in EvidenceNames(b) && n !in names
    ensures FieldExpired(n, g, BundleIndex(b), now) == FieldExpired(n, Withheld(g, names), BundleIndex(b), now)
  {
    if n in BundleIndex(b).signals {
      SignalIsEvidence(b, n);
      WithheldKeeps(b, g, names, n);
      assert SameAt(g, Withheld(g, names), Key(ObservedAt, n));
    }
  }

  /** A signal is in play and stale in what is left exactly when it was, and is not withheld itself. */
  lemma WitnessRemains(b: Bundle, g: Facts, names: set<string>, s: Signal, now: Clock)
    requires CleanNames(b) && names <= EvidenceNames(b) && s.name in SignalNames(b)
    ensures InPlay(s, Withheld(g, names)) && Expired(s, Withheld(g, names), now) <==> WitnessAt(s, g, names, now)
  {
    assert Key(Plain, s.name) == s.name;
    if s.name in names {
      WithheldGone(g, names, s.name);
      assert Key(ObservedAt, s.name) !in Withheld(g, names);
    } else {
      WithheldKeeps(b, g, names, s.name);
      assert SameAt(g, Withheld(g, names), Key(ObservedAt, s.name)) && SameAt(g, Withheld(g, names), Key(Plain, s.name));
    }
  }

  lemma CollectorStaysStale(b: Bundle, g: Facts, names: set<string>, c: string, now: Clock)
    requires CleanNames(b) && names <= EvidenceNames(b)
    ensures CollectorStale(c, Withheld(g, names), BundleIndex(b), now) <==> StaleWitness(b, g, names, c, now)
    ensures StaleWitness(b, g, names, c, now) ==> CollectorStale(c, g, BundleIndex(b), now)
  {
    if c in BundleIndex(b).collectors {
      var signals := BundleIndex(b).collectors[c];
      IndexNames(b);
      forall i | 0 <= i < |signals|
        ensures InPlay(signals[i], Withheld(g, names)) && Expired(signals[i], Withheld(g, names), now) <==>
                WitnessAt(signals[i], g, names, now)
      {
        WitnessRemains(b, g, names, signals[i], now);
      }
    }
  }

  /** Staleness of a name that is not withheld, in what is left. */
  lemma StaleRemains(b: Bundle, g: Facts, names: set<string>, n: string, now: Clock)
    requires CleanNames(b) && Unambiguous(SymbolsOf(b)) && names <= EvidenceNames(b) && n in EvidenceNames(b) && n !in names
    ensures Stale(n, Withheld(g, names), BundleIndex(b), now) ==> Stale(n, g, BundleIndex(b), now)
    ensures n !in CollectorNames(b) ==> Stale(n, Withheld(g, names), BundleIndex(b), now) == Stale(n, g, BundleIndex(b), now)
    ensures n in CollectorNames(b) ==> Stale(n, Withheld(g, names), BundleIndex(b), now) == StaleWitness(b, g, names, n, now)
  {
    FieldStaysAsOld(b, g, names, n, now);
    CollectorStaysStale(b, g, names, n, now);
    NamesAreDisjoint(b);
    IndexNames(b);
  }

  // ---- the exact condition ----

  lemma WithheldKeepsSubject(b: Bundle, g: Facts, names: set<string>, n: string, now: Clock)
    requires CleanNames(b) && Unambiguous(SymbolsOf(b)) && names <= EvidenceNames(b) && n in EvidenceNames(b)
    ensures KeepsSubject(Withheld(g, names), g, n, BundleIndex(b), now) <==>
            (n in CollectorNames(b) && n !in names && Visible(g, n) && Stale(n, g, BundleIndex(b), now) ==>
             StaleWitness(b, g, names, n, now))
  {
    if n in names {
      WithheldGone(g, names, n);
    } else {
      WithheldKeeps(b, g, names, n);
      StaleRemains(b, g, names, n, now);
      KeptSubject(Withheld(g, names), g, n, BundleIndex(b), now);
    }
  }

  /** A subject with one value in both fact maps is kept unless a visible value has turned stale. */
  lemma KeptSubject(f: Facts, g: Facts, n: string, index: Index, now: Clock)
    requires SubjectValue(f, n) == SubjectValue(g, n)
    ensures KeepsSubject(f, g, n, index, now) <==> (Visible(g, n) && Stale(n, g, index, now) ==> Stale(n, f, index, now))
  {
  }

  lemma WithheldKeepsField(b: Bundle, g: Facts, names: set<string>, n: string, now: Clock)
    requires CleanNames(b) && names <= EvidenceNames(b) && n in FieldNames(b)
    ensures KeepsField(Withheld(g, names), g, n, BundleIndex(b), now)
  {
    if n in names {
      WithheldGone(g, names, n);
    } else {
      WithheldKeeps(b, g, names, n);
      FieldStaysAsOld(b, g, names, n, now);
    }
  }

  /** The full facts supplement the withheld ones exactly when no stale collector loses all its stale signals. */
  lemma WithheldIsSupplemented(b: Bundle, g: Facts, names: set<string>, now: Clock)
    requires CleanNames(b) && Unambiguous(SymbolsOf(b)) && names <= EvidenceNames(b)
    ensures Supplements(b, Withheld(g, names), g, now) <==> GainsNothing(b, g, names, now)
  {
    forall n | n in FieldNames(b)
      ensures KeepsField(Withheld(g, names), g, n, BundleIndex(b), now)
    {
      WithheldKeepsField(b, g, names, n, now);
    }
    forall n | n in EvidenceNames(b)
      ensures KeepsSubject(Withheld(g, names), g, n, BundleIndex(b), now) <==>
              (n in CollectorNames(b) && n !in names && Visible(g, n) && Stale(n, g, BundleIndex(b), now) ==>
               StaleWitness(b, g, names, n, now))
    {
      WithheldKeepsSubject(b, g, names, n, now);
    }
    assert forall c :: c in CollectorNames(b) ==> c in EvidenceNames(b);
  }

  // ---- the condition is exact for single predicates ----

  /** No predicate a rule may hold passes on what is left and fails on the full facts. */
  ghost predicate NoPredicateGains(b: Bundle, g: Facts, names: set<string>, now: Clock) {
    forall p :: Normalized(p) && InScope(p, RuleScope(b)) && Independent(p, AllCollectors(b.rules)) ==>
      EvaluatePredicate(p, Withheld(g, names), BundleIndex(b), now).passed ==> EvaluatePredicate(p, g, BundleIndex(b), now).passed
  }

  lemma CountGains(c: string, f: Facts, g: Facts, index: Index, now: Clock)
    requires SameView(g, f, c) && Stale(c, g, index, now) && !Stale(c, f, index, now) && Truthy(g, c)
    ensures EvaluatePredicate(Count([c], 1), f, index, now).passed && !EvaluatePredicate(Count([c], 1), g, index, now).passed
  {
    OneProviderCounts(c, f, index, now);
    OneProviderCounts(c, g, index, now);
  }

  lemma NegationReads(c: string, f: Facts, index: Index, now: Clock)
    requires IsCanonical(c)
    ensures EvalQuorum(Not(Subject(c)), f, index, now, Enforce) == TriNot(Reading(f, c, index, now, Enforce))
  {
    CanonicalIsFixed(c);
    assert Evaluate(Not(Subject(c)), n => Reading(f, n, index, now, Enforce)) ==
           TriNot(Evaluate(Subject(c), n => Reading(f, n, index, now, Enforce)));
  }

  lemma NegationGains(c: string, f: Facts, g: Facts, index: Index, now: Clock)
    requires SameView(g, f, c) && Stale(c, g, index, now) && !Stale(c, f, index, now)
    requires SubjectValue(g, c).Some? && !Truthy(g, c) && IsCanonical(c)
    ensures EvaluatePredicate(Quorum(Not(Subject(c))), f, index, now).passed
    ensures !EvaluatePredicate(Quorum(Not(Subject(c))), g, index, now).passed
  {
    assert Reading(f, c, index, now, Enforce) == False && Reading(g, c, index, now, Enforce) == Unknown;
    NegationReads(c, f, index, now);
    NegationReads(c, g, index, now);
  }

  lemma NegationOfCollector(c: string, scope: Scope, cs: seq<Collector>)
    requires IsCanonical(c) && !IsOperatorWord(c) && c in scope.collectors
    ensures var p := Quorum(Not(Subject(c))); Normalized(p) && InScope(p, scope) && Independent(p, cs)
  {
    CanonicalIsFixed(c);
    assert Leaves(Not(Subject(c))) == Leaves(Subject(c)) == [c];
    OneSubjectIsIndependent(Quorum(Not(Subject(c))), c, cs);
  }

  lemma PredicateOfCollector(b: Bundle, c: string, cs: seq<Collector>)
    requires CleanNames(b) && c in CollectorNames(b)
    ensures IsCanonical(c)
    ensures var p := Count([c], 1); Normalized(p) && InScope(p, RuleScope(b)) && Independent(p, cs)
    ensures var p := Quorum(Not(Subject(c)));
            !IsOperatorWord(c) ==> Normalized(p) && InScope(p, RuleScope(b)) && Independent(p, cs)
  {
    assert c in EvidenceNames(b) + PublishedNames(b);
    assert Clean(c);
    CountOfOne(c, RuleScope(b));
    OneSubjectIsIndependent(Count([c], 1), c, cs);
    if !IsOperatorWord(c) {
      NegationOfCollector(c, RuleScope(b), cs);
    }
  }

  /** A collector whose stale signals are all withheld lets some predicate gain: the count of it when its
      value is truthy, the negation of it when not. */
  lemma SomePredicateGains(b: Bundle, g: Facts, names: set<string>, c: string, now: Clock) returns (p: Predicate)
    requires CleanNames(b) && Unambiguous(SymbolsOf(b)) && names <= EvidenceNames(b)
    requires c in CollectorNames(b) && c !in names && Visible(g, c) && Stale(c, g, BundleIndex(b), now)
    requires !StaleWitness(b, g, names, c, now)
    ensures Normalized(p) && InScope(p, RuleScope(b)) && Independent(p, AllCollectors(b.rules))
    ensures EvaluatePredicate(p, Withheld(g, names), BundleIndex(b), now).passed
    ensures !EvaluatePredicate(p, g, BundleIndex(b), now).passed
  {
    WithheldKeeps(b, g, names, c);
    StaleRemains(b, g, names, c, now);
    PredicateOfCollector(b, c, AllCollectors(b.rules));
    if Truthy(g, c) {
      p := Count([c], 1);
      CountGains(c, Withheld(g, names), g, BundleIndex(b), now);
    } else {
      p := Quorum(Not(Subject(c)));
      NegationGains(c, Withheld(g, names), g, BundleIndex(b), now);
    }
  }

  lemma PredicateDoesNotGain(b: Bundle, g: Facts, names: set<string>, p: Predicate, now: Clock)
    requires CleanNames(b) && Unambiguous(SymbolsOf(b)) && names <= EvidenceNames(b) && GainsNothing(b, g, names, now)
    requires Normalized(p) && InScope(p, RuleScope(b))
    ensures EvaluatePredicate(p, Withheld(g, names), BundleIndex(b), now).passed ==> EvaluatePredicate(p, g, BundleIndex(b), now).passed
  {
    WithheldIsSupplemented(b, g, names, now);
    RulePredicatesMonotone(b, [p]);
    assert p in [p];
    PredicateRises(b, RuleScope(b), p, Withheld(g, names), g, now);
  }

  /** The condition is what decides whether leaving evidence out can turn some check a rule may hold from failed
      to passed. */
  lemma NoPredicateGainsExactly(b: Bundle, g: Facts, names: set<string>, now: Clock)
    requires CleanNames(b) && Unambiguous(SymbolsOf(b)) && names <= EvidenceNames(b)
    ensures NoPredicateGains(b, g, names, now) <==> GainsNothing(b, g, names, now)
  {
    if GainsNothing(b, g, names, now) {
      forall p | Normalized(p) && InScope(p, RuleScope(b)) && Independent(p, AllCollectors(b.rules))
        ensures EvaluatePredicate(p, Withheld(g, names), BundleIndex(b), now).passed ==> EvaluatePredicate(p, g, BundleIndex(b), now).passed
      {
        PredicateDoesNotGain(b, g, names, p, now);
      }
    } else {
      var c :| c in CollectorNames(b) && c !in names && Visible(g, c) && Stale(c, g, BundleIndex(b), now) && !StaleWitness(b, g, names, c, now);
      var p := SomePredicateGains(b, g, names, c, now);
    }
  }
}
