/** Consequences of the simultaneous reading: facts supplied under a rule's or cluster's name are
    never consulted, and the order in which rules and clusters are declared decides nothing: every
    trace, every check and the decision of a bundle are those of any of its reorderings. */
module LayerIndependence {
  import opened Evidence
  import opened Predicates
  import opened Bundles
  import opened Analysis
  import opened Layering

  // ---- what the working facts hold ----

  /** `w` carries a verdict under the plain name `n`, which is the spelling consulted first. */
  ghost predicate Holds(w: Facts, n: string, value: bool) {
    n in w && w[n] == BoolV(value)
  }

  lemma HoldsIsView(w: Facts, n: string, value: bool)
    requires Holds(w, n, value)
    ensures SubjectValue(w, n) == Some(BoolV(value)) && Truthy(w, n) == value
  {
  }

  ghost predicate RuleVerdictsHold(b: Bundle, w: Facts, f: Facts, now: Clock) {
    forall i :: 0 <= i < |b.rules| ==> Holds(w, b.rules[i].name, RulesOn(b, f, now)[i].authorized)
  }

  ghost predicate ClusterVerdictsHold(b: Bundle, w: Facts, f: Facts, now: Clock) {
    forall i :: 0 <= i < |b.clusters| ==> Holds(w, b.clusters[i].name, ClustersOn(b, f, now)[i].authorized)
  }

  lemma RuleVerdictNames(b: Bundle, f: Facts, now: Clock)
    ensures var vs := RuleVerdicts(RulesOn(b, f, now));
            |vs| == |b.rules| && (forall i :: 0 <= i < |vs| ==> vs[i].name == b.rules[i].name) &&
            forall v :: v in vs ==> v.name in RuleNames(b)
  {
    var vs := RuleVerdicts(RulesOn(b, f, now));
    forall i | 0 <= i < |vs|
      ensures vs[i].name == b.rules[i].name && vs[i].name in RuleNames(b)
    {
    }
  }

  lemma ClusterVerdictNames(b: Bundle, f: Facts, now: Clock)
    ensures var vs := ClusterVerdicts(ClustersOn(b, f, now));
            |vs| == |b.clusters| && (forall i :: 0 <= i < |vs| ==> vs[i].name == b.clusters[i].name) &&
            forall v :: v in vs ==> v.name in ClusterNames(b)
  {
    var vs := ClusterVerdicts(ClustersOn(b, f, now));
    forall i | 0 <= i < |vs|
      ensures vs[i].name == b.clusters[i].name && vs[i].name in ClusterNames(b)
    {
    }
  }

  lemma AfterRulesHolds(b: Bundle, f: Facts, now: Clock)
    requires WellNamed(b)
    ensures SameEvidence(b, f, AfterRules(b, f, now))
    ensures RuleVerdictsHold(b, AfterRules(b, f, now), f, now)
  {
    var vs := RuleVerdicts(RulesOn(b, f, now));
    RuleVerdictNames(b, f, now);
    PublishingKeepsEvidence(b, f, RuleOf, vs);
    forall i | 0 <= i < |b.rules|
      ensures Holds(AfterRules(b, f, now), b.rules[i].name, RulesOn(b, f, now)[i].authorized)
    {
      PublishAllSets(f, RuleOf, vs, i);
    }
  }

  lemma AfterClustersEvidence(b: Bundle, f: Facts, now: Clock)
    requires WellNamed(b)
    ensures SameEvidence(b, f, AfterClusters(b, f, now))
  {
    AfterRulesHolds(b, f, now);
    ClusterVerdictNames(b, f, now);
    PublishingKeepsEvidence(b, AfterRules(b, f, now), ClusterOf, ClusterVerdicts(ClustersOn(b, f, now)));
    EvidenceTransitive(b, f, AfterRules(b, f, now), AfterClusters(b, f, now));
  }

  lemma AfterClustersRules(b: Bundle, f: Facts, now: Clock)
    requires WellNamed(b)
    ensures RuleVerdictsHold(b, AfterClusters(b, f, now), f, now)
  {
    var w := AfterRules(b, f, now);
    AfterRulesHolds(b, f, now);
    ClusterVerdictNames(b, f, now);
    ClustersKeepRules(b, w, ClusterVerdicts(ClustersOn(b, f, now)));
    forall i | 0 <= i < |b.rules|
      ensures Holds(AfterClusters(b, f, now), b.rules[i].name, RulesOn(b, f, now)[i].authorized)
    {
      assert b.rules[i].name in RuleNames(b);
      assert SameView(w, AfterClusters(b, f, now), b.rules[i].name);
    }
  }

  lemma AfterClustersHolds(b: Bundle, f: Facts, now: Clock)
    requires WellNamed(b)
    ensures SameEvidence(b, f, AfterClusters(b, f, now))
    ensures RuleVerdictsHold(b, AfterClusters(b, f, now), f, now)
    ensures ClusterVerdictsHold(b, AfterClusters(b, f, now), f, now)
  {
    var vs := ClusterVerdicts(ClustersOn(b, f, now));
    AfterClustersEvidence(b, f, now);
    AfterClustersRules(b, f, now);
    ClusterVerdictNames(b, f, now);
    forall i | 0 <= i < |b.clusters|
      ensures Holds(AfterClusters(b, f, now), b.clusters[i].name, ClustersOn(b, f, now)[i].authorized)
    {
      PublishAllSets(AfterRules(b, f, now), ClusterOf, vs, i);
    }
  }

  lemma EvidenceTransitive(b: Bundle, f: Facts, g: Facts, h: Facts)
    requires SameEvidence(b, f, g) && SameEvidence(b, g, h)
    ensures SameEvidence(b, f, h)
  {
    forall n, p | n in EvidenceNames(b)
      ensures SameAt(f, h, Key(p, n))
    {
      assert SameEverywhere(f, g, n) && SameEverywhere(g, h, n);
    }
  }

  lemma EvidenceSymmetric(b: Bundle, f: Facts, g: Facts)
    requires SameEvidence(b, f, g)
    ensures SameEvidence(b, g, f)
  {
    forall n, p | n in EvidenceNames(b)
      ensures SameAt(g, f, Key(p, n))
    {
      assert SameEverywhere(f, g, n);
    }
  }

  /** Working facts built on the same evidence carry the same evidence. */
  lemma SameBase(b: Bundle, f: Facts, g: Facts, w: Facts, v: Facts)
    requires SameEvidence(b, f, g) && SameEvidence(b, f, w) && SameEvidence(b, g, v)
    ensures SameEvidence(b, w, v)
  {
    EvidenceSymmetric(b, f, w);
    EvidenceTransitive(b, w, f, g);
    EvidenceTransitive(b, w, g, v);
  }

  lemma SameVerdictView(w: Facts, v: Facts, n: string, value: bool)
    requires Holds(w, n, value) && Holds(v, n, value)
    ensures SameView(w, v, n)
  {
    HoldsIsView(w, n, value);
    HoldsIsView(v, n, value);
  }

  // ---- supplied facts under published names do not matter ----

  lemma SameRules(b: Bundle, f: Facts, g: Facts, now: Clock)
    requires WellShaped(b) && SameEvidence(b, f, g)
    ensures RulesOn(b, f, now) == RulesOn(b, g, now)
  {
    forall i | 0 <= i < |b.rules|
      ensures RulesOn(b, f, now)[i] == RulesOn(b, g, now)[i]
    {
      RuleSeesEvidence(b, b.rules[i], f, g, now);
    }
  }

  lemma RuleViews(b: Bundle, w: Facts, v: Facts, f: Facts, g: Facts, now: Clock)
    requires RuleVerdictsHold(b, w, f, now) && RuleVerdictsHold(b, v, g, now) && RulesOn(b, f, now) == RulesOn(b, g, now)
    ensures forall n :: n in RuleNames(b) ==> SameView(w, v, n)
  {
    forall n | n in RuleNames(b)
      ensures SameView(w, v, n)
    {
      var r :| r in b.rules && r.name == n;
      var i :| 0 <= i < |b.rules| && b.rules[i] == r;
      SameVerdictView(w, v, n, RulesOn(b, f, now)[i].authorized);
    }
  }

  lemma ClusterViews(b: Bundle, w: Facts, v: Facts, f: Facts, g: Facts, now: Clock)
    requires ClusterVerdictsHold(b, w, f, now) && ClusterVerdictsHold(b, v, g, now) && ClustersOn(b, f, now) == ClustersOn(b, g, now)
    ensures forall n :: n in ClusterNames(b) ==> SameView(w, v, n)
  {
    forall n | n in ClusterNames(b)
      ensures SameView(w, v, n)
    {
      var c :| c in b.clusters && c.name == n;
      var i :| 0 <= i < |b.clusters| && b.clusters[i] == c;
      SameVerdictView(w, v, n, ClustersOn(b, f, now)[i].authorized);
    }
  }

  lemma SameClusters(b: Bundle, f: Facts, g: Facts, now: Clock)
    requires WellShaped(b) && WellNamed(b) && SameEvidence(b, f, g)
    ensures ClustersOn(b, f, now) == ClustersOn(b, g, now)
  {
    SameRules(b, f, g, now);
    var w, v := AfterRules(b, f, now), AfterRules(b, g, now);
    AfterRulesHolds(b, f, now);
    AfterRulesHolds(b, g, now);
    SameBase(b, f, g, w, v);
    RuleViews(b, w, v, f, g, now);
    forall i | 0 <= i < |b.clusters|
      ensures ClustersOn(b, f, now)[i] == ClustersOn(b, g, now)[i]
    {
      ClusterSeesRules(b, b.clusters[i], w, v, now, ByName(RulesOn(b, f, now)));
    }
  }

  lemma SameGlobals(b: Bundle, f: Facts, g: Facts, now: Clock)
    requires WellShaped(b) && WellNamed(b) && SameEvidence(b, f, g)
    ensures GlobalsOn(b, f, now) == GlobalsOn(b, g, now)
  {
    SameRules(b, f, g, now);
    SameClusters(b, f, g, now);
    var w, v := AfterClusters(b, f, now), AfterClusters(b, g, now);
    AfterClustersHolds(b, f, now);
    AfterClustersHolds(b, g, now);
    SameBase(b, f, g, w, v);
    RuleViews(b, w, v, f, g, now);
    ClusterViews(b, w, v, f, g, now);
    EvidenceViews(b, w, v);
    PredicatesRead(b);
    SameChecks(b.predicates, w, v, BundleIndex(b), now, EvidenceNames(b) + PublishedNames(b));
  }

  /** The whole evaluation is a function of the facts stored under declared signals and collectors:
      whatever a caller stores under a rule's or cluster's spellings, or under undeclared names,
      changes nothing. */
  lemma OnlyEvidenceDecides(b: Bundle, f: Facts, g: Facts, now: Clock)
    requires PassesStructure(b) && CleanNames(b)
    requires SameEvidence(b, f, g)
    ensures EvalBundle(b, f, now) == EvalBundle(b, g, now)
  {
    LoopIsSimultaneous(b, f, now);
    LoopIsSimultaneous(b, g, now);
    SameRules(b, f, g, now);
    SameClusters(b, f, g, now);
    SameGlobals(b, f, g, now);
  }

  // ---- declaration order ----

  /** The same rules, clusters and final policy, declared in any order. */
  ghost predicate Reordered(b: Bundle, c: Bundle) {
    (forall r :: r in b.rules <==> r in c.rules) && |b.rules| == |c.rules| &&
    (forall k :: k in b.clusters <==> k in c.clusters) && |b.clusters| == |c.clusters| &&
    b.predicates == c.predicates
  }

  lemma SameSignalSameContract(b: Bundle, s: Signal, t: Signal)
    requires Unambiguous(SymbolsOf(b)) && ConsistentExpiry(AllSignals(AllCollectors(b.rules)))
    requires s in AllSignals(AllCollectors(b.rules)) && t in AllSignals(AllCollectors(b.rules)) && s.name == t.name
    ensures s == t
  {
    var all := AllSignals(AllCollectors(b.rules));
    var i, j :| 0 <= i < |all| && 0 <= j < |all| && all[i] == s && all[j] == t;
    assert s.expiry == t.expiry;
    DeclaredSignal(b, s);
    DeclaredSignal(b, t);
    SameSymbolSameType(SymbolsOf(b), Symbol(SignalSymbol, s.name, s.kind), Symbol(SignalSymbol, t.name, t.kind));
  }

  lemma SameSymbolSameType(symbols: seq<Symbol>, x: Symbol, y: Symbol)
    requires Unambiguous(symbols) && x in symbols && y in symbols
    requires x.name == y.name && x.kind == y.kind == SignalSymbol
    ensures x == y
  {
    var k, l :| 0 <= k < |symbols| && 0 <= l < |symbols| && symbols[k] == x && symbols[l] == y;
    assert (k < l ==> Agree(symbols, k, l)) && (l < k ==> Agree(symbols, l, k));
  }

  lemma DeclaredSignal(b: Bundle, s: Signal)
    requires s in AllSignals(AllCollectors(b.rules))
    ensures Symbol(SignalSymbol, s.name, s.kind) in SymbolsOf(b)
  {
    AllCollectorsAre(b.rules);
    AllSignalsAre(AllCollectors(b.rules));
    var c :| c in AllCollectors(b.rules) && s in c.signals;
    var r :| r in b.rules && c in r.collectors;
    DeclaredInRule(b, r, c);
  }

  lemma {:induction false} IndexOfCollector(cs: seq<Collector>, c: Collector)
    requires DistinctCollectors(cs) && c in cs
    ensures c.name in IndexCollectors(cs) && IndexCollectors(cs)[c.name] == c.signals
  {
    var front, last := cs[..|cs| - 1], cs[|cs| - 1];
    assert cs == front + [last];
    assert forall d :: d in front ==> d.name != last.name;
    if c != last {
      IndexOfCollector(front, c);
    } else {
      IndexedCollectors(front);
    }
  }

  lemma SameContents(b: Bundle, c: Bundle)
    requires Reordered(b, c)
    ensures forall x :: x in AllCollectors(b.rules) <==> x in AllCollectors(c.rules)
    ensures forall s :: s in AllSignals(AllCollectors(b.rules)) <==> s in AllSignals(AllCollectors(c.rules))
  {
    AllCollectorsAre(b.rules);
    AllCollectorsAre(c.rules);
    AllSignalsAre(AllCollectors(b.rules));
    AllSignalsAre(AllCollectors(c.rules));
  }

  lemma SameSignalIndex(b: Bundle, c: Bundle)
    requires Unambiguous(SymbolsOf(b)) && ConsistentExpiry(AllSignals(AllCollectors(b.rules))) && Reordered(b, c)
    ensures BundleIndex(b).signals == BundleIndex(c).signals
  {
    SameContents(b, c);
    var s, t := AllSignals(AllCollectors(b.rules)), AllSignals(AllCollectors(c.rules));
    IndexedSignals(s);
    IndexedSignals(t);
    forall n | n in IndexSignals(s)
      ensures IndexSignals(s)[n] == IndexSignals(t)[n]
    {
      SameSignalSameContract(b, IndexSignals(s)[n], IndexSignals(t)[n]);
    }
  }

  lemma SameCollectorIndex(b: Bundle, c: Bundle)
    requires DistinctCollectors(AllCollectors(b.rules)) && DistinctCollectors(AllCollectors(c.rules)) && Reordered(b, c)
    ensures BundleIndex(b).collectors == BundleIndex(c).collectors
  {
    SameContents(b, c);
    var k, k' := BundleIndex(b).collectors, BundleIndex(c).collectors;
    IndexedCollectors(AllCollectors(b.rules));
    IndexedCollectors(AllCollectors(c.rules));
    assert forall n :: n in k <==> n in k';
    forall n | n in k
      ensures k[n] == k'[n]
    {
      var x :| x in AllCollectors(b.rules) && x.name == n;
      IndexOfCollector(AllCollectors(b.rules), x);
      IndexOfCollector(AllCollectors(c.rules), x);
    }
  }

  lemma SameIndex(b: Bundle, c: Bundle)
    requires PassesStructure(b) && PassesStructure(c) && Reordered(b, c)
    ensures BundleIndex(b) == BundleIndex(c)
  {
    SameSignalIndex(b, c);
    SameCollectorIndex(b, c);
  }

  lemma {:induction false} ByNameFinds(ts: seq<RuleTrace>, i: nat)
    requires i < |ts| && forall j, k :: 0 <= j < k < |ts| ==> ts[j].name != ts[k].name
    ensures ts[i].name in ByName(ts) && ByName(ts)[ts[i].name] == ts[i]
  {
    if i < |ts| - 1 {
      ByNameFinds(ts[..|ts| - 1], i);
    }
  }

  lemma {:induction false} ByNameOnly(ts: seq<RuleTrace>, n: string)
    ensures n in ByName(ts) ==> exists i :: 0 <= i < |ts| && ts[i].name == n
  {
    if ts != [] && n in ByName(ts) && ts[|ts| - 1].name != n {
      ByNameOnly(ts[..|ts| - 1], n);
      var i :| 0 <= i < |ts| - 1 && ts[..|ts| - 1][i].name == n;
      assert ts[i].name == n;
    }
  }

  /** Where a rule of `b` stands in a reordering of `b`. */
  ghost predicate RulePlaces(b: Bundle, c: Bundle, n: string, i: nat, j: nat) {
    i < |b.rules| && j < |c.rules| && b.rules[i] == c.rules[j] && b.rules[i].name == n
  }

  lemma FindRule(b: Bundle, c: Bundle, n: string) returns (i: nat, j: nat)
    requires Reordered(b, c) && n in RuleNames(b)
    ensures RulePlaces(b, c, n, i, j)
  {
    var r :| r in b.rules && r.name == n;
    i :| 0 <= i < |b.rules| && b.rules[i] == r;
    j :| 0 <= j < |c.rules| && c.rules[j] == r;
  }

  /** Two reorderings with one index: the facts every further comparison needs. */
  ghost predicate Twins(b: Bundle, c: Bundle) {
    Reordered(b, c) && BundleIndex(b) == BundleIndex(c) && WellNamed(b) && WellNamed(c) && WellShaped(b)
  }

  lemma SameNames(b: Bundle, c: Bundle)
    requires Reordered(b, c) && BundleIndex(b) == BundleIndex(c)
    ensures EvidenceNames(b) == EvidenceNames(c) && PublishedNames(b) == PublishedNames(c)
  {
    assert SignalNames(b) == SignalNames(c) && CollectorNames(b) == CollectorNames(c);
    assert RuleNames(b) == RuleNames(c) && ClusterNames(b) == ClusterNames(c);
  }

  lemma NamedFromStructure(b: Bundle)
    requires PassesStructure(b) && CleanNames(b)
    ensures WellNamed(b)
  {
  }

  lemma MakeTwins(b: Bundle, c: Bundle)
    requires PassesStructure(b) && PassesStructure(c) && CleanNames(b) && Reordered(b, c)
    ensures Twins(b, c)
  {
    SameIndex(b, c);
    SameNames(b, c);
    NamedFromStructure(b);
    NamedFromStructure(c);
  }

  lemma SameTrace(b: Bundle, c: Bundle, f: Facts, now: Clock, n: string, i: nat, j: nat)
    requires BundleIndex(b) == BundleIndex(c) && RulePlaces(b, c, n, i, j)
    ensures RulesOn(b, f, now)[i] == RulesOn(c, f, now)[j] && RulesOn(b, f, now)[i].name == n
  {
  }

  lemma DistinctTraces(b: Bundle, f: Facts, now: Clock)
    requires DistinctRules(b)
    ensures forall j, k :: 0 <= j < k < |RulesOn(b, f, now)| ==> RulesOn(b, f, now)[j].name != RulesOn(b, f, now)[k].name
  {
    forall j, k | 0 <= j < k < |RulesOn(b, f, now)|
      ensures RulesOn(b, f, now)[j].name != RulesOn(b, f, now)[k].name
    {
      assert RulesOn(b, f, now)[j].name == b.rules[j].name && RulesOn(b, f, now)[k].name == b.rules[k].name;
    }
  }

  lemma SameMember(b: Bundle, c: Bundle, f: Facts, now: Clock, n: string)
    requires Reordered(b, c) && BundleIndex(b) == BundleIndex(c) && DistinctRules(b) && DistinctRules(c) && n in RuleNames(b)
    ensures MemberOf(n, ByName(RulesOn(b, f, now))) == MemberOf(n, ByName(RulesOn(c, f, now)))
  {
    var i, j := FindRule(b, c, n);
    SameTrace(b, c, f, now, n, i, j);
    DistinctTraces(b, f, now);
    DistinctTraces(c, f, now);
    ByNameFinds(RulesOn(b, f, now), i);
    ByNameFinds(RulesOn(c, f, now), j);
  }

  lemma {:induction false} SameMembers(b: Bundle, c: Bundle, f: Facts, now: Clock, rules: seq<string>)
    requires Reordered(b, c) && BundleIndex(b) == BundleIndex(c) && DistinctRules(b) && DistinctRules(c)
    requires forall n :: n in rules ==> n in RuleNames(b)
    ensures Members(rules, ByName(RulesOn(b, f, now))) == Members(rules, ByName(RulesOn(c, f, now)))
  {
    if rules != [] {
      SameMembers(b, c, f, now, rules[..|rules| - 1]);
      SameMember(b, c, f, now, rules[|rules| - 1]);
    }
  }

  lemma ReorderedRuleViews(b: Bundle, c: Bundle, w: Facts, v: Facts, f: Facts, now: Clock)
    requires Twins(b, c) && RuleVerdictsHold(b, w, f, now) && RuleVerdictsHold(c, v, f, now)
    ensures forall n :: n in RuleNames(b) ==> SameView(w, v, n)
  {
    forall n | n in RuleNames(b)
      ensures SameView(w, v, n)
    {
      var i, j := FindRule(b, c, n);
      SameTrace(b, c, f, now, n, i, j);
      SameVerdictView(w, v, n, RulesOn(b, f, now)[i].authorized);
    }
  }

  lemma ReorderedEvidence(b: Bundle, c: Bundle, f: Facts, w: Facts, v: Facts)
    requires Reordered(b, c) && SameEvidence(b, f, w) && SameEvidence(c, f, v)
    ensures SameEvidence(b, w, v)
  {
    assert SignalNames(b) == SignalNames(c) && CollectorNames(b) == CollectorNames(c);
    assert SameEvidence(b, f, v) && SameEvidence(b, f, f);
    SameBase(b, f, f, w, v);
  }

  lemma ReorderedCluster(b: Bundle, c: Bundle, k: Cluster, f: Facts, now: Clock)
    requires Twins(b, c) && k in b.clusters
    ensures EvalCluster(k, AfterRules(b, f, now), BundleIndex(b), now, ByName(RulesOn(b, f, now))) ==
            EvalCluster(k, AfterRules(c, f, now), BundleIndex(c), now, ByName(RulesOn(c, f, now)))
  {
    var w, v := AfterRules(b, f, now), AfterRules(c, f, now);
    AfterRulesHolds(b, f, now);
    AfterRulesHolds(c, f, now);
    ReorderedEvidence(b, c, f, w, v);
    ReorderedRuleViews(b, c, w, v, f, now);
    ClusterSeesRules(b, k, w, v, now, ByName(RulesOn(b, f, now)));
    assert ClusterShape(k, b);
    SameMembers(b, c, f, now, k.rules);
  }

  lemma SameClusterTrace(b: Bundle, c: Bundle, f: Facts, now: Clock, i: nat, j: nat)
    requires Twins(b, c) && i < |b.clusters| && j < |c.clusters| && b.clusters[i] == c.clusters[j]
    ensures ClustersOn(b, f, now)[i] == ClustersOn(c, f, now)[j]
  {
    ReorderedCluster(b, c, b.clusters[i], f, now);
  }

  lemma FindCluster(b: Bundle, c: Bundle, n: string) returns (i: nat, j: nat)
    requires Reordered(b, c) && n in ClusterNames(b)
    ensures i < |b.clusters| && j < |c.clusters| && b.clusters[i] == c.clusters[j] && b.clusters[i].name == n
  {
    var k :| k in b.clusters && k.name == n;
    i :| 0 <= i < |b.clusters| && b.clusters[i] == k;
    j :| 0 <= j < |c.clusters| && c.clusters[j] == k;
  }

  lemma ReorderedClusterView(b: Bundle, c: Bundle, w: Facts, v: Facts, f: Facts, now: Clock, n: string)
    requires Twins(b, c) && ClusterVerdictsHold(b, w, f, now) && ClusterVerdictsHold(c, v, f, now) && n in ClusterNames(b)
    ensures SameView(w, v, n)
  {
    var i, j := FindCluster(b, c, n);
    SameClusterTrace(b, c, f, now, i, j);
    assert Holds(w, b.clusters[i].name, ClustersOn(b, f, now)[i].authorized);
    assert Holds(v, c.clusters[j].name, ClustersOn(c, f, now)[j].authorized);
    SameVerdictView(w, v, n, ClustersOn(b, f, now)[i].authorized);
  }

  lemma ReorderedClusterViews(b: Bundle, c: Bundle, w: Facts, v: Facts, f: Facts, now: Clock)
    requires Twins(b, c) && ClusterVerdictsHold(b, w, f, now) && ClusterVerdictsHold(c, v, f, now)
    ensures forall n :: n in ClusterNames(b) ==> SameView(w, v, n)
  {
    forall n | n in ClusterNames(b)
      ensures SameView(w, v, n)
    {
      ReorderedClusterView(b, c, w, v, f, now, n);
    }
  }

  lemma ReorderedGlobals(b: Bundle, c: Bundle, f: Facts, now: Clock)
    requires Twins(b, c)
    ensures GlobalsOn(b, f, now) == GlobalsOn(c, f, now)
  {
    var w, v := AfterClusters(b, f, now), AfterClusters(c, f, now);
    AfterClustersHolds(b, f, now);
    AfterClustersHolds(c, f, now);
    ReorderedEvidence(b, c, f, w, v);
    ReorderedRuleViews(b, c, w, v, f, now);
    ReorderedClusterViews(b, c, w, v, f, now);
    EvidenceViews(b, w, v);
    PredicatesRead(b);
    SameChecks(b.predicates, w, v, BundleIndex(b), now, EvidenceNames(b) + PublishedNames(b));
  }

  /** All rules authorize, and all clusters do. */
  ghost predicate EveryRule(b: Bundle, f: Facts, now: Clock) {
    forall i :: 0 <= i < |b.rules| ==> RulesOn(b, f, now)[i].authorized
  }

  ghost predicate EveryCluster(b: Bundle, f: Facts, now: Clock) {
    forall i :: 0 <= i < |b.clusters| ==> ClustersOn(b, f, now)[i].authorized
  }

  lemma TracesCounted(b: Bundle, f: Facts, now: Clock)
    ensures |RulesOn(b, f, now)| == |b.rules| && |ClustersOn(b, f, now)| == |b.clusters|
  {
  }

  lemma RuleTwin(b: Bundle, c: Bundle, i: nat) returns (j: nat)
    requires Reordered(b, c) && i < |b.rules|
    ensures j < |c.rules| && c.rules[j] == b.rules[i]
  {
    assert b.rules[i] in c.rules;
    j :| 0 <= j < |c.rules| && c.rules[j] == b.rules[i];
  }

  lemma ClusterTwin(b: Bundle, c: Bundle, i: nat) returns (j: nat)
    requires Reordered(b, c) && i < |b.clusters|
    ensures j < |c.clusters| && c.clusters[j] == b.clusters[i]
  {
    assert b.clusters[i] in c.clusters;
    j :| 0 <= j < |c.clusters| && c.clusters[j] == b.clusters[i];
  }

  lemma ReorderedRuleVerdict(b: Bundle, c: Bundle, f: Facts, now: Clock)
    requires Reordered(b, c) && BundleIndex(b) == BundleIndex(c) && EveryRule(b, f, now)
    ensures EveryRule(c, f, now)
  {
    forall j | 0 <= j < |c.rules|
      ensures RulesOn(c, f, now)[j].authorized
    {
      var i := RuleTwin(c, b, j);
      SameTrace(b, c, f, now, b.rules[i].name, i, j);
    }
  }

  lemma ReorderedClusterVerdict(b: Bundle, c: Bundle, f: Facts, now: Clock)
    requires Twins(b, c) && EveryCluster(b, f, now)
    ensures EveryCluster(c, f, now)
  {
    forall j | 0 <= j < |c.clusters|
      ensures ClustersOn(c, f, now)[j].authorized
    {
      var i := ClusterTwin(c, b, j);
      SameClusterTrace(b, c, f, now, i, j);
    }
  }

  lemma ReorderedVerdict(b: Bundle, c: Bundle, f: Facts, now: Clock)
    requires Twins(b, c) && Twins(c, b)
    ensures EveryRule(b, f, now) == EveryRule(c, f, now)
    ensures EveryCluster(b, f, now) == EveryCluster(c, f, now)
  {
    if EveryRule(b, f, now) { ReorderedRuleVerdict(b, c, f, now); }
    if EveryRule(c, f, now) { ReorderedRuleVerdict(c, b, f, now); }
    if EveryCluster(b, f, now) { ReorderedClusterVerdict(b, c, f, now); }
    if EveryCluster(c, f, now) { ReorderedClusterVerdict(c, b, f, now); }
  }

  lemma TwinsSymmetric(b: Bundle, c: Bundle)
    requires Twins(b, c) && WellShaped(c)
    ensures Twins(c, b)
  {
  }

  lemma SimultaneousDecision(b: Bundle, f: Facts, now: Clock)
    requires b.rules != []
    ensures EvalSimultaneous(b, f, now).authorized ==
            if b.predicates != [] then AllPass(GlobalsOn(b, f, now)) else EveryRule(b, f, now) && EveryCluster(b, f, now)
  {
  }

  lemma OneCheck(r: Rule, p: Predicate, f: Facts, index: Index, now: Clock)
    requires r.predicates == [p]
    ensures EvalRule(r, f, index, now).authorized == EvaluatePredicate(p, f, index, now).passed
  {
    var cs := Checks(r.predicates, f, index, now);
    assert cs == [EvaluatePredicate(p, f, index, now)];
    assert AllPass(cs) == cs[0].passed;
  }

  // ---- the outcome of the bundle ----

  ghost predicate RuleReports(ts: seq<RuleTrace>, reason: Reason) {
    exists i :: 0 <= i < |ts| && Reports(ts[i].checks, reason)
  }

  ghost predicate ClusterReports(ts: seq<ClusterTrace>, reason: Reason) {
    exists i :: 0 <= i < |ts| && Reports(ts[i].checks, reason)
  }

  lemma ReportsConcat(a: seq<Check>, b: seq<Check>, reason: Reason)
    ensures Reports(a + b, reason) <==> Reports(a, reason) || Reports(b, reason)
  {
    if Reports(a, reason) {
      var i :| 0 <= i < |a| && a[i].reason == reason;
      assert (a + b)[i] == a[i];
    }
    if Reports(b, reason) {
      var i :| 0 <= i < |b| && b[i].reason == reason;
      assert (a + b)[|a| + i] == b[i];
    }
  }

  lemma {:induction false} RuleChecksReport(ts: seq<RuleTrace>, reason: Reason)
    ensures Reports(RuleChecks(ts), reason) <==> RuleReports(ts, reason)
  {
    if ts != [] {
      var front, last := ts[..|ts| - 1], ts[|ts| - 1];
      RuleChecksReport(front, reason);
      ReportsConcat(RuleChecks(front), last.checks, reason);
      RuleReportsLast(ts, reason);
    }
  }

  lemma RuleReportsLast(ts: seq<RuleTrace>, reason: Reason)
    requires ts != []
    ensures RuleReports(ts, reason) <==> RuleReports(ts[..|ts| - 1], reason) || Reports(ts[|ts| - 1].checks, reason)
  {
    var front := ts[..|ts| - 1];
    assert forall i :: 0 <= i < |front| ==> front[i] == ts[i];
  }

  lemma {:induction false} ClusterChecksReport(ts: seq<ClusterTrace>, reason: Reason)
    ensures Reports(ClusterChecks(ts), reason) <==> ClusterReports(ts, reason)
  {
    if ts != [] {
      var front, last := ts[..|ts| - 1], ts[|ts| - 1];
      ClusterChecksReport(front, reason);
      ReportsConcat(ClusterChecks(front), last.checks, reason);
      ClusterReportsLast(ts, reason);
    }
  }

  lemma ClusterReportsLast(ts: seq<ClusterTrace>, reason: Reason)
    requires ts != []
    ensures ClusterReports(ts, reason) <==> ClusterReports(ts[..|ts| - 1], reason) || Reports(ts[|ts| - 1].checks, reason)
  {
    var front := ts[..|ts| - 1];
    assert forall i :: 0 <= i < |front| ==> front[i] == ts[i];
  }

  lemma BundleReports(rs: seq<RuleTrace>, ks: seq<ClusterTrace>, gs: seq<Check>, reason: Reason)
    ensures Reports(RuleChecks(rs) + ClusterChecks(ks) + gs, reason) <==>
            RuleReports(rs, reason) || ClusterReports(ks, reason) || Reports(gs, reason)
  {
    ReportsConcat(RuleChecks(rs) + ClusterChecks(ks), gs, reason);
    ReportsConcat(RuleChecks(rs), ClusterChecks(ks), reason);
    RuleChecksReport(rs, reason);
    ClusterChecksReport(ks, reason);
  }

  lemma ReorderedRuleReports(b: Bundle, c: Bundle, f: Facts, now: Clock, reason: Reason)
    requires Reordered(b, c) && BundleIndex(b) == BundleIndex(c) && RuleReports(RulesOn(b, f, now), reason)
    ensures RuleReports(RulesOn(c, f, now), reason)
  {
    var ts, us := RulesOn(b, f, now), RulesOn(c, f, now);
    TracesCounted(b, f, now);
    TracesCounted(c, f, now);
    var i :| 0 <= i < |ts| && Reports(ts[i].checks, reason);
    var j := RuleTwin(b, c, i);
    SameTrace(b, c, f, now, b.rules[i].name, i, j);
    assert us[j] == ts[i];
  }

  lemma ReorderedClusterReports(b: Bundle, c: Bundle, f: Facts, now: Clock, reason: Reason)
    requires Twins(b, c) && ClusterReports(ClustersOn(b, f, now), reason)
    ensures ClusterReports(ClustersOn(c, f, now), reason)
  {
    var ts, us := ClustersOn(b, f, now), ClustersOn(c, f, now);
    TracesCounted(b, f, now);
    TracesCounted(c, f, now);
    var i :| 0 <= i < |ts| && Reports(ts[i].checks, reason);
    var j := ClusterTwin(b, c, i);
    SameClusterTrace(b, c, f, now, i, j);
    assert us[j] == ts[i];
  }

  /** A reason is reported somewhere in one order exactly when it is in the other. */
  lemma ReorderedReports(b: Bundle, c: Bundle, f: Facts, now: Clock, reason: Reason)
    requires Twins(b, c) && Twins(c, b) && GlobalsOn(b, f, now) == GlobalsOn(c, f, now)
    ensures Reports(EvalSimultaneous(b, f, now).checks, reason) <==> Reports(EvalSimultaneous(c, f, now).checks, reason)
  {
    BundleReports(RulesOn(b, f, now), ClustersOn(b, f, now), GlobalsOn(b, f, now), reason);
    BundleReports(RulesOn(c, f, now), ClustersOn(c, f, now), GlobalsOn(c, f, now), reason);
    SameRuleReports(b, c, f, now, reason);
    SameClusterReports(b, c, f, now, reason);
  }

  lemma SameRuleReports(b: Bundle, c: Bundle, f: Facts, now: Clock, reason: Reason)
    requires Reordered(b, c) && Reordered(c, b) && BundleIndex(b) == BundleIndex(c)
    ensures RuleReports(RulesOn(b, f, now), reason) <==> RuleReports(RulesOn(c, f, now), reason)
  {
    if RuleReports(RulesOn(b, f, now), reason) { ReorderedRuleReports(b, c, f, now, reason); }
    if RuleReports(RulesOn(c, f, now), reason) { ReorderedRuleReports(c, b, f, now, reason); }
  }

  lemma SameClusterReports(b: Bundle, c: Bundle, f: Facts, now: Clock, reason: Reason)
    requires Twins(b, c) && Twins(c, b)
    ensures ClusterReports(ClustersOn(b, f, now), reason) <==> ClusterReports(ClustersOn(c, f, now), reason)
  {
    if ClusterReports(ClustersOn(b, f, now), reason) { ReorderedClusterReports(b, c, f, now, reason); }
    if ClusterReports(ClustersOn(c, f, now), reason) { ReorderedClusterReports(c, b, f, now, reason); }
  }

  lemma SameReportsSameResult(authorized: bool, cs: seq<Check>, ds: seq<Check>)
    requires forall reason :: Reports(cs, reason) <==> Reports(ds, reason)
    ensures BundleResult(authorized, cs) == BundleResult(authorized, ds)
  {
  }

  lemma ReorderedOutcome(b: Bundle, c: Bundle, f: Facts, now: Clock)
    requires Twins(b, c) && Twins(c, b) && GlobalsOn(b, f, now) == GlobalsOn(c, f, now)
    requires EvalSimultaneous(b, f, now).authorized == EvalSimultaneous(c, f, now).authorized
    ensures EvalSimultaneous(b, f, now).result == EvalSimultaneous(c, f, now).result
  {
    var d, e := EvalSimultaneous(b, f, now), EvalSimultaneous(c, f, now);
    forall reason
      ensures Reports(d.checks, reason) <==> Reports(e.checks, reason)
    {
      ReorderedReports(b, c, f, now, reason);
    }
    SameReportsSameResult(d.authorized, d.checks, e.checks);
  }

  lemma ReorderedAspect(b: Bundle, c: Bundle)
    requires Reordered(b, c)
    ensures Aspect(b) == Aspect(c)
  {
    if |b.rules| == 1 {
      assert b.rules[0] in c.rules;
    }
  }

  /** Reordering declarations keeps every rule's trace, every cluster's trace, every final check, the
      decision, the outcome and the aspect. */
  lemma OrderDecidesNothing(b: Bundle, c: Bundle, f: Facts, now: Clock)
    requires PassesStructure(b) && PassesStructure(c) && CleanNames(b) && Reordered(b, c)
    ensures var d, e := EvalBundle(b, f, now), EvalBundle(c, f, now);
            d.authorized == e.authorized && d.result == e.result && d.aspect == e.aspect && d.globals == e.globals &&
            (forall i, j :: 0 <= i < |b.rules| && 0 <= j < |c.rules| && b.rules[i] == c.rules[j] ==> d.rules[i] == e.rules[j]) &&
            (forall i, j :: 0 <= i < |b.clusters| && 0 <= j < |c.clusters| && b.clusters[i] == c.clusters[j] ==> d.clusters[i] == e.clusters[j])
  {
    MakeTwins(b, c);
    TwinsSymmetric(b, c);
    LoopIsSimultaneous(b, f, now);
    LoopIsSimultaneous(c, f, now);
    ReorderedGlobals(b, c, f, now);
    ReorderedVerdict(b, c, f, now);
    SimultaneousDecision(b, f, now);
    SimultaneousDecision(c, f, now);
    ReorderedOutcome(b, c, f, now);
    ReorderedAspect(b, c);
    forall i, j | 0 <= i < |b.rules| && 0 <= j < |c.rules| && b.rules[i] == c.rules[j]
      ensures RulesOn(b, f, now)[i] == RulesOn(c, f, now)[j]
    {
      SameTrace(b, c, f, now, b.rules[i].name, i, j);
    }
    forall i, j | 0 <= i < |b.clusters| && 0 <= j < |c.clusters| && b.clusters[i] == c.clusters[j]
      ensures ClustersOn(b, f, now)[i] == ClustersOn(c, f, now)[j]
    {
      SameClusterTrace(b, c, f, now, i, j);
    }
  }
}
