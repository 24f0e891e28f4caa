/** Stale evidence counts exactly as much as no evidence: a fact map and the same map without its stale
    values supplement each other. */
module StaleEvidence {
  import opened Evidence
  import opened Predicates
  import opened Bundles
  import opened Analysis
  import opened Layering
  import opened EvidenceMonotone

  // ---- evidence that supplements each other decides alike, check by check ----

  ghost predicate SameFlags(cs: seq<Check>, ds: seq<Check>) {
    |cs| == |ds| && forall i :: 0 <= i < |cs| ==> cs[i].passed == ds[i].passed
  }

  lemma FlagsAgree(b: Bundle, scope: Scope, ps: seq<Predicate>, f: Facts, g: Facts, now: Clock)
    requires Unambiguous(SymbolsOf(b)) && ScopeOf(b, scope)
    requires LevelRelated(b, scope, f, g, now) && LevelRelated(b, scope, g, f, now)
    requires AllInScope(ps, scope) && MonotoneIn(ps, PublishedNames(b))
    ensures SameFlags(Checks(ps, f, BundleIndex(b), now), Checks(ps, g, BundleIndex(b), now))
  {
    forall i | 0 <= i < |ps|
      ensures Checks(ps, f, BundleIndex(b), now)[i].passed == Checks(ps, g, BundleIndex(b), now)[i].passed
    {
      PredicateRises(b, scope, ps[i], f, g, now);
      PredicateRises(b, scope, ps[i], g, f, now);
    }
  }

  /** Each fact map supplements the other. */
  ghost predicate Equivalent(b: Bundle, f: Facts, g: Facts, now: Clock) {
    Supplements(b, f, g, now) && Supplements(b, g, f, now)
  }

  lemma RuleFlagsAgree(b: Bundle, i: nat, f: Facts, g: Facts, now: Clock)
    requires WellShaped(b) && Unambiguous(SymbolsOf(b)) && Equivalent(b, f, g, now) && i < |b.rules|
    ensures SameFlags(RulesOn(b, f, now)[i].checks, RulesOn(b, g, now)[i].checks)
  {
    assert RuleShape(b.rules[i], b);
    RulePredicatesMonotone(b, b.rules[i].predicates);
    FlagsAgree(b, RuleScope(b), b.rules[i].predicates, f, g, now);
  }

  lemma ClusterFlagsAgree(b: Bundle, i: nat, f: Facts, g: Facts, now: Clock)
    requires WellShaped(b) && WellNamed(b) && Monotone(b) && Equivalent(b, f, g, now) && i < |b.clusters|
    ensures SameFlags(ClustersOn(b, f, now)[i].checks, ClustersOn(b, g, now)[i].checks)
  {
    assert ClusterShape(b.clusters[i], b);
    ClusterLevel(b, f, g, now);
    ClusterLevel(b, g, f, now);
    FlagsAgree(b, ClusterScope(b), b.clusters[i].predicates, AfterRules(b, f, now), AfterRules(b, g, now), now);
  }

  lemma GlobalFlagsAgree(b: Bundle, f: Facts, g: Facts, now: Clock)
    requires WellShaped(b) && WellNamed(b) && Monotone(b) && Equivalent(b, f, g, now)
    ensures SameFlags(GlobalsOn(b, f, now), GlobalsOn(b, g, now))
  {
    GlobalLevel(b, f, g, now);
    GlobalLevel(b, g, f, now);
    FlagsAgree(b, GlobalScope(b), b.predicates, AfterClusters(b, f, now), AfterClusters(b, g, now), now);
  }

  // ---- deleting what is stale ----

  /** The spellings under which stale signals and collectors supply values. */
  ghost predicate StaleKey(b: Bundle, f: Facts, now: Clock, key: string) {
    exists n, p :: n in EvidenceNames(b) && Stale(n, f, BundleIndex(b), now) && p != ObservedAt && key == Key(p, n)
  }

  /** `f` without any value supplied for a stale signal or collector. Observation times stay. */
  ghost function Purge(b: Bundle, f: Facts, now: Clock): Facts {
    map key | key in f && !StaleKey(b, f, now, key) :: f[key]
  }

  lemma AbsentSubject(g: Facts, n: string)
    requires forall p :: p != ObservedAt ==> Key(p, n) !in g
    ensures n !in g && SubjectValue(g, n) == None
  {
    assert Key(Plain, n) !in g && Key(Provider, n) !in g && Key(ProviderColon, n) !in g && Key(RuleOf, n) !in g && Key(ClusterOf, n) !in g;
    AbsentValue(g, AliasKeys(n));
  }

  lemma PurgeRemoves(b: Bundle, f: Facts, now: Clock, n: string)
    requires n in EvidenceNames(b) && Stale(n, f, BundleIndex(b), now)
    ensures n !in Purge(b, f, now) && SubjectValue(Purge(b, f, now), n) == None
  {
    forall p | p != ObservedAt
      ensures Key(p, n) !in Purge(b, f, now)
    {
      assert StaleKey(b, f, now, Key(p, n));
    }
    AbsentSubject(Purge(b, f, now), n);
  }

  lemma {:induction false} AbsentValue(g: Facts, keys: seq<string>)
    requires forall i :: 0 <= i < |keys| ==> keys[i] !in g
    ensures FirstValue(g, keys) == None
  {
    if keys != [] {
      assert keys[0] !in g;
      AbsentValue(g, keys[1..]);
    }
  }

  lemma PurgeKeeps(b: Bundle, f: Facts, now: Clock, p: Prefix, n: string)
    requires CleanNames(b) && n in EvidenceNames(b)
    requires p == ObservedAt || !Stale(n, f, BundleIndex(b), now)
    ensures SameAt(f, Purge(b, f, now), Key(p, n))
  {
    if StaleKey(b, f, now, Key(p, n)) {
      var m, q :| m in EvidenceNames(b) && Stale(m, f, BundleIndex(b), now) && q != ObservedAt && Key(p, n) == Key(q, m);
      KeysDistinct(p, n, q, m);
    }
  }

  lemma PurgeKeepsFresh(b: Bundle, f: Facts, now: Clock, n: string)
    requires CleanNames(b) && n in EvidenceNames(b) && !Stale(n, f, BundleIndex(b), now)
    ensures SameView(f, Purge(b, f, now), n)
  {
    forall p
      ensures SameAt(f, Purge(b, f, now), Key(p, n))
    {
      PurgeKeeps(b, f, now, p, n);
    }
    EverywhereIsView(f, Purge(b, f, now), n);
  }

  /** Every declared signal is dated as before, and is in play only if it was before. */
  lemma PurgeKeepsAge(b: Bundle, f: Facts, now: Clock, s: Signal)
    requires CleanNames(b) && s.name in SignalNames(b)
    ensures Expired(s, f, now) == Expired(s, Purge(b, f, now), now)
    ensures InPlay(s, Purge(b, f, now)) ==> InPlay(s, f)
  {
    assert s.name in EvidenceNames(b);
    PurgeKeeps(b, f, now, ObservedAt, s.name);
  }

  lemma PurgeKeepsExpiry(b: Bundle, f: Facts, now: Clock, n: string)
    requires CleanNames(b)
    ensures FieldExpired(n, f, BundleIndex(b), now) == FieldExpired(n, Purge(b, f, now), BundleIndex(b), now)
  {
    if n in BundleIndex(b).signals {
      IndexNames(b);
      PurgeKeepsAge(b, f, now, BundleIndex(b).signals[n]);
    }
  }

  lemma PurgeKeepsCollectors(b: Bundle, f: Facts, now: Clock, n: string)
    requires CleanNames(b) && CollectorStale(n, Purge(b, f, now), BundleIndex(b), now)
    ensures CollectorStale(n, f, BundleIndex(b), now)
  {
    var signals := BundleIndex(b).collectors[n];
    var i :| 0 <= i < |signals| && InPlay(signals[i], Purge(b, f, now)) && Expired(signals[i], Purge(b, f, now), now);
    assert signals[i].name in SignalNames(b) by { IndexNames(b); }
    PurgeKeepsAge(b, f, now, signals[i]);
  }

  lemma PurgeKeepsStale(b: Bundle, f: Facts, now: Clock, n: string)
    requires CleanNames(b) && !Stale(n, f, BundleIndex(b), now)
    ensures !Stale(n, Purge(b, f, now), BundleIndex(b), now)
  {
    PurgeKeepsExpiry(b, f, now, n);
    if CollectorStale(n, Purge(b, f, now), BundleIndex(b), now) {
      PurgeKeepsCollectors(b, f, now, n);
    }
  }

  /** What two fact maps must share at `n` for neither to know more than the other. */
  ghost predicate Matched(f: Facts, g: Facts, n: string, index: Index, now: Clock) {
    if Stale(n, f, index, now) then n !in g && SubjectValue(g, n) == None
    else SameView(f, g, n) && !Stale(n, g, index, now)
  }

  lemma PurgeMatches(b: Bundle, f: Facts, now: Clock, n: string)
    requires CleanNames(b) && n in EvidenceNames(b)
    ensures Matched(f, Purge(b, f, now), n, BundleIndex(b), now)
  {
    if Stale(n, f, BundleIndex(b), now) {
      PurgeRemoves(b, f, now, n);
    } else {
      PurgeKeepsFresh(b, f, now, n);
      PurgeKeepsStale(b, f, now, n);
    }
  }

  lemma FieldIsStaleByItself(b: Bundle, f: Facts, n: string, now: Clock)
    requires Unambiguous(SymbolsOf(b)) && n in FieldNames(b)
    ensures Stale(n, f, BundleIndex(b), now) == FieldExpired(n, f, BundleIndex(b), now)
  {
    FieldIsNoCollector(b, n);
  }

  lemma MatchedIsEquivalent(b: Bundle, f: Facts, g: Facts, now: Clock)
    requires Unambiguous(SymbolsOf(b))
    requires forall n :: n in EvidenceNames(b) ==> Matched(f, g, n, BundleIndex(b), now)
    ensures Equivalent(b, f, g, now)
  {
    forall n | n in FieldNames(b)
      ensures KeepsField(f, g, n, BundleIndex(b), now) && KeepsField(g, f, n, BundleIndex(b), now)
    {
      assert Matched(f, g, n, BundleIndex(b), now);
      FieldIsStaleByItself(b, f, n, now);
      FieldIsStaleByItself(b, g, n, now);
    }
    forall n | n in EvidenceNames(b)
      ensures KeepsSubject(f, g, n, BundleIndex(b), now) && KeepsSubject(g, f, n, BundleIndex(b), now)
    {
      assert Matched(f, g, n, BundleIndex(b), now);
    }
  }

  lemma PurgeIsEquivalent(b: Bundle, f: Facts, now: Clock)
    requires CleanNames(b) && Unambiguous(SymbolsOf(b))
    ensures Equivalent(b, f, Purge(b, f, now), now)
  {
    forall n | n in EvidenceNames(b)
      ensures Matched(f, Purge(b, f, now), n, BundleIndex(b), now)
    {
      PurgeMatches(b, f, now, n);
    }
    MatchedIsEquivalent(b, f, Purge(b, f, now), now);
  }

  /** Stale evidence is worth exactly nothing: for every clock, deleting every value supplied for a
      stale signal or collector leaves the verdict of every check at every level, and the bundle's
      authorization, as they were. */
  lemma StaleIsAbsent(b: Bundle, f: Facts, now: Clock)
    requires Accepted(b) && CleanNames(b)
    ensures var d, e := EvalBundle(b, f, now), EvalBundle(b, Purge(b, f, now), now);
            d.authorized == e.authorized && SameFlags(d.globals, e.globals) &&
            (forall i :: 0 <= i < |b.rules| ==> SameFlags(d.rules[i].checks, e.rules[i].checks)) &&
            (forall i :: 0 <= i < |b.clusters| ==> SameFlags(d.clusters[i].checks, e.clusters[i].checks))
  {
    var g := Purge(b, f, now);
    PurgeIsEquivalent(b, f, now);
    SupplementingKeepsAuthorization(b, f, g, now);
    SupplementingKeepsAuthorization(b, g, f, now);
    LoopIsSimultaneous(b, f, now);
    LoopIsSimultaneous(b, g, now);
    GlobalFlagsAgree(b, f, g, now);
    forall i | 0 <= i < |b.rules|
      ensures SameFlags(RulesOn(b, f, now)[i].checks, RulesOn(b, g, now)[i].checks)
    {
      RuleFlagsAgree(b, i, f, g, now);
    }
    forall i | 0 <= i < |b.clusters|
      ensures SameFlags(ClustersOn(b, f, now)[i].checks, ClustersOn(b, g, now)[i].checks)
    {
      ClusterFlagsAgree(b, i, f, g, now);
    }
  }
}
