/** The publishing loop computes what a simultaneous reading of the layers computes. */
module Layering {
  import opened Names
  import opened QuorumSyntax
  import opened QuorumRoundTrip
  import opened QuorumNormal
  import opened Evidence
  import opened Predicates
  import opened Bundles
  import opened Analysis

  // ---- the simultaneous reading ----

  datatype Verdict = Verdict(name: string, value: bool)

  function PublishAll(facts: Facts, p: Prefix, vs: seq<Verdict>): Facts {
    if vs == [] then facts
    else
      var last := vs[|vs| - 1];
      Publish(PublishAll(facts, p, vs[..|vs| - 1]), p, last.name, last.value)
  }

  function EachRule(rules: seq<Rule>, facts: Facts, index: Index, now: Clock): (ts: seq<RuleTrace>)
    ensures |ts| == |rules|
    ensures forall i :: 0 <= i < |rules| ==> ts[i] == EvalRule(rules[i], facts, index, now)
  {
    seq(|rules|, i requires 0 <= i < |rules| => EvalRule(rules[i], facts, index, now))
  }

  function EachCluster(clusters: seq<Cluster>, facts: Facts, index: Index, now: Clock, byName: map<string, RuleTrace>): (ts: seq<ClusterTrace>)
    ensures |ts| == |clusters|
    ensures forall i :: 0 <= i < |clusters| ==> ts[i] == EvalCluster(clusters[i], facts, index, now, byName)
  {
    seq(|clusters|, i requires 0 <= i < |clusters| => EvalCluster(clusters[i], facts, index, now, byName))
  }

  function RuleVerdicts(ts: seq<RuleTrace>): (vs: seq<Verdict>)
    ensures |vs| == |ts|
    ensures forall i :: 0 <= i < |ts| ==> vs[i] == Verdict(ts[i].name, ts[i].authorized)
  {
    seq(|ts|, i requires 0 <= i < |ts| => Verdict(ts[i].name, ts[i].authorized))
  }

  function ClusterVerdicts(ts: seq<ClusterTrace>): (vs: seq<Verdict>)
    ensures |vs| == |ts|
    ensures forall i :: 0 <= i < |ts| ==> vs[i] == Verdict(ts[i].name, ts[i].authorized)
  {
    seq(|ts|, i requires 0 <= i < |ts| => Verdict(ts[i].name, ts[i].authorized))
  }

  function RulesOn(b: Bundle, facts: Facts, now: Clock): seq<RuleTrace> {
    EachRule(b.rules, facts, BundleIndex(b), now)
  }

  function AfterRules(b: Bundle, facts: Facts, now: Clock): Facts {
    PublishAll(facts, RuleOf, RuleVerdicts(RulesOn(b, facts, now)))
  }

  function ClustersOn(b: Bundle, facts: Facts, now: Clock): seq<ClusterTrace> {
    EachCluster(b.clusters, AfterRules(b, facts, now), BundleIndex(b), now, ByName(RulesOn(b, facts, now)))
  }

  function AfterClusters(b: Bundle, facts: Facts, now: Clock): Facts {
    PublishAll(AfterRules(b, facts, now), ClusterOf, ClusterVerdicts(ClustersOn(b, facts, now)))
  }

  function GlobalsOn(b: Bundle, facts: Facts, now: Clock): seq<Check> {
    Checks(b.predicates, AfterClusters(b, facts, now), BundleIndex(b), now)
  }

  function EvalSimultaneous(b: Bundle, facts: Facts, now: Clock): Evaluation {
    Conclude(b, RulesOn(b, facts, now), ClustersOn(b, facts, now), GlobalsOn(b, facts, now))
  }

  // ---- what one predicate reads ----

  /** Two fact maps look the same to a predicate that consults `n`. */
  ghost predicate SameView(f: Facts, g: Facts, n: string) {
    SameAt(f, g, n) && SubjectValue(f, n) == SubjectValue(g, n)
  }

  /** Two fact maps date every declared signal alike. */
  ghost predicate SameAge(f: Facts, g: Facts, index: Index) {
    (forall n :: n in index.signals ==> SameDating(f, g, index.signals[n])) &&
    (forall n, i :: n in index.collectors && 0 <= i < |index.collectors[n]| ==> SameDating(f, g, index.collectors[n][i]))
  }

  ghost predicate SameDating(f: Facts, g: Facts, s: Signal) {
    SameAt(f, g, s.name) && SameAt(f, g, Key(ObservedAt, s.name))
  }

  predicate ReadsWithin(p: Predicate, names: set<string>) {
    match p
    case Need(field, _, _) => field in names
    case NeedSignal(field, _, reference) => field in names && reference in names
    case Block(field) => field in names
    case Temporal(field, relation) => field in names && (ReferenceOf(relation).FieldRef? ==> ReferenceOf(relation).field in names)
    case Count(providers, _) => forall n :: n in providers ==> n in names
    case Quorum(e) => SubjectsWithin(e, names)
  }

  lemma SameExpired(s: Signal, f: Facts, g: Facts, now: Clock)
    requires SameDating(f, g, s)
    ensures Expired(s, f, now) == Expired(s, g, now) && InPlay(s, f) == InPlay(s, g)
  {
  }

  lemma SameStale(n: string, f: Facts, g: Facts, index: Index, now: Clock)
    requires SameAge(f, g, index)
    ensures FieldExpired(n, f, index, now) == FieldExpired(n, g, index, now)
    ensures Stale(n, f, index, now) == Stale(n, g, index, now)
  {
    if n in index.signals {
      SameExpired(index.signals[n], f, g, now);
    }
    if n in index.collectors {
      forall i | 0 <= i < |index.collectors[n]|
        ensures Expired(index.collectors[n][i], f, now) == Expired(index.collectors[n][i], g, now)
        ensures InPlay(index.collectors[n][i], f) == InPlay(index.collectors[n][i], g)
      {
        SameExpired(index.collectors[n][i], f, g, now);
      }
    }
  }

  lemma {:induction false} SameCounts(names: seq<string>, f: Facts, g: Facts, index: Index, now: Clock)
    requires SameAge(f, g, index) && forall n :: n in names ==> SameView(f, g, n)
    ensures CountPresent(names, f, index, now) == CountPresent(names, g, index, now)
    ensures CountTruthy(names, f) == CountTruthy(names, g)
  {
    if names != [] {
      var last := names[|names| - 1];
      SameCounts(names[..|names| - 1], f, g, index, now);
      assert SameView(f, g, last);
      SameStale(last, f, g, index, now);
    }
  }

  lemma SameExpression(e: Expr, f: Facts, g: Facts, index: Index, now: Clock, names: set<string>)
    requires SameAge(f, g, index) && SubjectsWithin(e, names) && forall n :: n in names ==> SameView(f, g, n)
    ensures EvalQuorum(e, f, index, now, Enforce) == EvalQuorum(e, g, index, now, Enforce)
    ensures EvalQuorum(e, f, index, now, AssumeFresh) == EvalQuorum(e, g, index, now, AssumeFresh)
    ensures AnyStale(e, f, index, now) == AnyStale(e, g, index, now)
  {
    forall n
      ensures Stale(n, f, index, now) == Stale(n, g, index, now)
    {
      SameStale(n, f, g, index, now);
    }
    SameEvaluation(e, f, g, index, now, names, Enforce);
    SameEvaluation(e, f, g, index, now, names, AssumeFresh);
  }

  lemma SameEvaluation(e: Expr, f: Facts, g: Facts, index: Index, now: Clock, names: set<string>, mode: Freshness)
    requires SubjectsWithin(e, names) && forall n :: n in names ==> SameView(f, g, n)
    requires forall n :: Stale(n, f, index, now) == Stale(n, g, index, now)
    ensures EvalQuorum(e, f, index, now, mode) == EvalQuorum(e, g, index, now, mode)
  {
    EvaluateCongruent(e, n => Reading(f, n, index, now, mode), n => Reading(g, n, index, now, mode), names);
  }

  /** A predicate cannot tell apart two fact maps that look the same at the names it reads. */
  lemma SamePredicate(p: Predicate, f: Facts, g: Facts, index: Index, now: Clock, names: set<string>)
    requires SameAge(f, g, index) && ReadsWithin(p, names) && forall n :: n in names ==> SameView(f, g, n)
    ensures EvaluatePredicate(p, f, index, now) == EvaluatePredicate(p, g, index, now)
  {
    match p
    case Count(providers, _) => SameCounts(providers, f, g, index, now);
    case Quorum(e) => SameExpression(e, f, g, index, now, names);
    case Temporal(field, relation) => SameTemporal(field, relation, f, g, index, now);
    case NeedSignal(field, _, reference) =>
      assert SameView(f, g, field) && SameView(f, g, reference);
      SameStale(field, f, g, index, now);
      SameStale(reference, f, g, index, now);
    case Need(field, _, _) => SameStale(field, f, g, index, now);
    case Block(field) => SameStale(field, f, g, index, now);
  }

  lemma SameTemporal(field: string, relation: Relation, f: Facts, g: Facts, index: Index, now: Clock)
    requires SameAge(f, g, index) && SameView(f, g, field)
    requires ReferenceOf(relation).FieldRef? ==> SameView(f, g, ReferenceOf(relation).field)
    ensures EvaluateTemporal(field, relation, f, index, now) == EvaluateTemporal(field, relation, g, index, now)
  {
    SameStale(field, f, g, index, now);
    var r := ReferenceOf(relation);
    if r.FieldRef? {
      SameStale(r.field, f, g, index, now);
    }
    assert ResolveReference(r, f, index, now) == ResolveReference(r, g, index, now);
  }

  lemma {:induction false} SameChecks(ps: seq<Predicate>, f: Facts, g: Facts, index: Index, now: Clock, names: set<string>)
    requires SameAge(f, g, index) && forall n :: n in names ==> SameView(f, g, n)
    requires forall p :: p in ps ==> ReadsWithin(p, names)
    ensures Checks(ps, f, index, now) == Checks(ps, g, index, now)
  {
    forall i | 0 <= i < |ps|
      ensures EvaluatePredicate(ps[i], f, index, now) == EvaluatePredicate(ps[i], g, index, now)
    {
      SamePredicate(ps[i], f, g, index, now, names);
    }
  }

  // ---- scopes bound what is read ----

  lemma {:induction false} LeavesWithin(e: Expr, names: set<string>)
    requires NormalForm(e) && forall n :: n in Leaves(e) ==> n in names
    ensures SubjectsWithin(e, names)
  {
    match e
    case Subject(name) => CanonicalIsFixed(name);
    case Not(x) => LeavesWithin(x, names);
    case Binary(_, l, r) => LeavesWithin(l, names); LeavesWithin(r, names);
  }

  lemma {:induction false} AllCollectorsAre(rules: seq<Rule>)
    ensures forall c :: c in AllCollectors(rules) <==> exists r :: r in rules && c in r.collectors
  {
    if rules != [] {
      AllCollectorsAre(rules[..|rules| - 1]);
      assert rules == rules[..|rules| - 1] + [rules[|rules| - 1]];
    }
  }

  lemma {:induction false} AllSignalsAre(collectors: seq<Collector>)
    ensures forall s :: s in AllSignals(collectors) <==> exists c :: c in collectors && s in c.signals
  {
    if collectors != [] {
      AllSignalsAre(collectors[..|collectors| - 1]);
      assert collectors == collectors[..|collectors| - 1] + [collectors[|collectors| - 1]];
    }
  }

  lemma {:induction false} CollectorIndexSignals(collectors: seq<Collector>, n: string, i: nat)
    requires n in IndexCollectors(collectors) && i < |IndexCollectors(collectors)[n]|
    ensures IndexCollectors(collectors)[n][i] in AllSignals(collectors)
  {
    if collectors != [] {
      var front, last := collectors[..|collectors| - 1], collectors[|collectors| - 1];
      var m := IndexCollectors(front);
      if n in m && i < |m[n]| {
        CollectorIndexSignals(front, n, i);
      }
    }
  }

  /** The index holds exactly the declared signals and collectors. */
  lemma IndexNames(b: Bundle)
    ensures forall n :: n in BundleIndex(b).signals <==> n in SignalNames(b)
    ensures forall n :: n in BundleIndex(b).signals ==> BundleIndex(b).signals[n].name == n
    ensures forall n :: n in BundleIndex(b).collectors <==> n in CollectorNames(b)
    ensures forall n, i :: n in BundleIndex(b).collectors && 0 <= i < |BundleIndex(b).collectors[n]| ==>
              BundleIndex(b).collectors[n][i].name in SignalNames(b)
  {
    var cs := AllCollectors(b.rules);
    AllCollectorsAre(b.rules);
    AllSignalsAre(cs);
    IndexedSignals(AllSignals(cs));
    IndexedCollectors(cs);
    forall s | s in AllSignals(cs)
      ensures s.name in SignalNames(b)
    {
      var c :| c in cs && s in c.signals;
      var r :| r in b.rules && c in r.collectors;
    }
    forall n | n in SignalNames(b)
      ensures n in BundleIndex(b).signals
    {
      var r, c, s :| r in b.rules && c in r.collectors && s in c.signals && s.name == n;
      assert c in cs;
    }
    forall n | n in CollectorNames(b)
      ensures n in BundleIndex(b).collectors
    {
      var r, c :| r in b.rules && c in r.collectors && c.name == n;
      assert c in cs;
    }
    forall n, i | n in BundleIndex(b).collectors && 0 <= i < |BundleIndex(b).collectors[n]|
      ensures BundleIndex(b).collectors[n][i].name in SignalNames(b)
    {
      CollectorIndexSignals(cs, n, i);
    }
  }

  /** A predicate that passes the scope check reads only names visible in that scope. */
  lemma ScopeBoundsReads(b: Bundle, p: Predicate, scope: Scope, names: set<string>)
    requires Normalized(p) && InScope(p, scope)
    requires scope.signals == SignalKinds(b) && scope.collectors == CollectorNames(b)
    requires EvidenceNames(b) + scope.rules + scope.clusters <= names
    ensures ReadsWithin(p, names)
  {
    KindedNames(b, scope, names);
    if p.Quorum? {
      LeavesWithin(p.expression, names);
    }
  }

  lemma KindedNames(b: Bundle, scope: Scope, names: set<string>)
    requires scope.signals == SignalKinds(b) && scope.collectors == CollectorNames(b)
    requires EvidenceNames(b) + scope.rules + scope.clusters <= names
    ensures forall n :: KindOf(n, scope).Some? || n in scope.signals || n in scope.collectors ==> n in names
  {
    IndexNames(b);
  }

  lemma PredicatesRead(b: Bundle)
    requires WellShaped(b)
    ensures forall r, p :: r in b.rules && p in r.predicates ==> ReadsWithin(p, EvidenceNames(b))
    ensures forall c, p :: c in b.clusters && p in c.predicates ==> ReadsWithin(p, EvidenceNames(b) + RuleNames(b))
    ensures forall p :: p in b.predicates ==> ReadsWithin(p, EvidenceNames(b) + PublishedNames(b))
  {
    forall r, p | r in b.rules && p in r.predicates
      ensures ReadsWithin(p, EvidenceNames(b))
    {
      assert RuleShape(r, b);
      ScopeBoundsReads(b, p, RuleScope(b), EvidenceNames(b));
    }
    forall c, p | c in b.clusters && p in c.predicates
      ensures ReadsWithin(p, EvidenceNames(b) + RuleNames(b))
    {
      assert ClusterShape(c, b);
      ScopeBoundsReads(b, p, ClusterScope(b), EvidenceNames(b) + RuleNames(b));
    }
    forall p | p in b.predicates
      ensures ReadsWithin(p, EvidenceNames(b) + PublishedNames(b))
    {
      ScopeBoundsReads(b, p, GlobalScope(b), EvidenceNames(b) + PublishedNames(b));
    }
  }

  // ---- publishing touches only the published names ----

  lemma PublishKeeps(f: Facts, p: Prefix, m: string, v: bool, q: Prefix, n: string)
    requires Clean(m) && Clean(n) && m != n
    ensures SameAt(f, Publish(f, p, m, v), Key(q, n))
  {
    KeysDistinct(Plain, m, q, n);
    KeysDistinct(p, m, q, n);
  }

  lemma {:induction false} PublishAllKeeps(f: Facts, p: Prefix, vs: seq<Verdict>, q: Prefix, n: string)
    requires Clean(n) && forall v :: v in vs ==> Clean(v.name) && v.name != n
    ensures SameAt(f, PublishAll(f, p, vs), Key(q, n))
  {
    if vs != [] {
      var last := vs[|vs| - 1];
      PublishAllKeeps(f, p, vs[..|vs| - 1], q, n);
      PublishKeeps(PublishAll(f, p, vs[..|vs| - 1]), p, last.name, last.value, q, n);
    }
  }

  lemma {:induction false} PublishAllSets(f: Facts, p: Prefix, vs: seq<Verdict>, i: nat)
    requires i < |vs| && forall v :: v in vs ==> Clean(v.name)
    requires forall j, k :: 0 <= j < k < |vs| ==> vs[j].name != vs[k].name
    ensures vs[i].name in PublishAll(f, p, vs) && PublishAll(f, p, vs)[vs[i].name] == BoolV(vs[i].value)
  {
    var front, last := vs[..|vs| - 1], vs[|vs| - 1];
    KeysDistinct(p, last.name, Plain, last.name);
    if i < |front| {
      assert front[i] == vs[i];
      PublishAllSets(f, p, front, i);
      PublishKeeps(PublishAll(f, p, front), p, last.name, last.value, Plain, vs[i].name);
    }
  }

  /** All derived keys of `n` hold the same in both maps. */
  ghost predicate SameEverywhere(f: Facts, g: Facts, n: string) {
    forall p :: SameAt(f, g, Key(p, n))
  }

  lemma EverywhereIsView(f: Facts, g: Facts, n: string)
    requires SameEverywhere(f, g, n)
    ensures SameView(f, g, n) && SameAt(f, g, Key(ObservedAt, n))
  {
    assert SameAt(f, g, Key(Plain, n)) && SameAt(f, g, Key(Provider, n)) && SameAt(f, g, Key(ProviderColon, n));
    assert SameAt(f, g, Key(RuleOf, n)) && SameAt(f, g, Key(ClusterOf, n)) && SameAt(f, g, Key(ObservedAt, n));
    SameFirstValue(f, g, AliasKeys(n));
  }

  /** Both maps carry the same evidence for every declared signal and collector. */
  ghost predicate SameEvidence(b: Bundle, f: Facts, g: Facts) {
    forall n :: n in EvidenceNames(b) ==> SameEverywhere(f, g, n)
  }

  lemma EvidenceViews(b: Bundle, f: Facts, g: Facts)
    requires SameEvidence(b, f, g)
    ensures SameAge(f, g, BundleIndex(b)) && forall n :: n in EvidenceNames(b) ==> SameView(f, g, n)
  {
    forall n | n in EvidenceNames(b)
      ensures SameView(f, g, n) && SameAt(f, g, Key(ObservedAt, n))
    {
      EverywhereIsView(f, g, n);
    }
    assert forall n :: n in SignalNames(b) ==> n in EvidenceNames(b);
    DatedAlike(b, f, g);
  }

  lemma DatedAlike(b: Bundle, f: Facts, g: Facts)
    requires forall n :: n in SignalNames(b) ==> SameAt(f, g, n) && SameAt(f, g, Key(ObservedAt, n))
    ensures SameAge(f, g, BundleIndex(b))
  {
    IndexNames(b);
    var index := BundleIndex(b);
    forall n | n in index.signals
      ensures SameDating(f, g, index.signals[n])
    {
    }
    forall n, i | n in index.collectors && 0 <= i < |index.collectors[n]|
      ensures SameDating(f, g, index.collectors[n][i])
    {
      assert index.collectors[n][i].name in SignalNames(b);
    }
  }

  lemma PublishingKeepsEvidence(b: Bundle, f: Facts, p: Prefix, vs: seq<Verdict>)
    requires Unambiguous(SymbolsOf(b)) && CleanNames(b)
    requires forall v :: v in vs ==> v.name in PublishedNames(b)
    ensures SameEvidence(b, f, PublishAll(f, p, vs))
  {
    NamesAreDisjoint(b);
    forall n, q | n in EvidenceNames(b)
      ensures SameAt(f, PublishAll(f, p, vs), Key(q, n))
    {
      PublishAllKeeps(f, p, vs, q, n);
    }
  }

  // ---- the loop refines the simultaneous reading ----

  lemma RuleSeesEvidence(b: Bundle, r: Rule, f: Facts, g: Facts, now: Clock)
    requires WellShaped(b) && r in b.rules && SameEvidence(b, f, g)
    ensures EvalRule(r, f, BundleIndex(b), now) == EvalRule(r, g, BundleIndex(b), now)
  {
    EvidenceViews(b, f, g);
    PredicatesRead(b);
    SameChecks(r.predicates, f, g, BundleIndex(b), now, EvidenceNames(b));
  }

  lemma ClusterSeesRules(b: Bundle, c: Cluster, f: Facts, g: Facts, now: Clock, byName: map<string, RuleTrace>)
    requires WellShaped(b) && c in b.clusters && SameEvidence(b, f, g)
    requires forall n :: n in RuleNames(b) ==> SameView(f, g, n)
    ensures EvalCluster(c, f, BundleIndex(b), now, byName) == EvalCluster(c, g, BundleIndex(b), now, byName)
  {
    EvidenceViews(b, f, g);
    PredicatesRead(b);
    SameChecks(c.predicates, f, g, BundleIndex(b), now, EvidenceNames(b) + RuleNames(b));
  }

  lemma PublishRuleLast(f: Facts, ts: seq<RuleTrace>, t: RuleTrace)
    ensures PublishAll(f, RuleOf, RuleVerdicts(ts + [t])) == Publish(PublishAll(f, RuleOf, RuleVerdicts(ts)), RuleOf, t.name, t.authorized)
  {
    assert RuleVerdicts(ts + [t])[..|ts|] == RuleVerdicts(ts);
  }

  lemma PublishClusterLast(w: Facts, ts: seq<ClusterTrace>, t: ClusterTrace)
    ensures PublishAll(w, ClusterOf, ClusterVerdicts(ts + [t])) == Publish(PublishAll(w, ClusterOf, ClusterVerdicts(ts)), ClusterOf, t.name, t.authorized)
  {
    assert ClusterVerdicts(ts + [t])[..|ts|] == ClusterVerdicts(ts);
  }

  lemma EachRuleLast(rules: seq<Rule>, f: Facts, index: Index, now: Clock)
    requires rules != []
    ensures EachRule(rules, f, index, now) == EachRule(rules[..|rules| - 1], f, index, now) + [EvalRule(rules[|rules| - 1], f, index, now)]
  {
    var all, front := EachRule(rules, f, index, now), EachRule(rules[..|rules| - 1], f, index, now);
    assert forall i :: 0 <= i < |front| ==> front[i] == all[i];
  }

  lemma EachClusterLast(clusters: seq<Cluster>, w: Facts, index: Index, now: Clock, byName: map<string, RuleTrace>)
    requires clusters != []
    ensures EachCluster(clusters, w, index, now, byName) ==
            EachCluster(clusters[..|clusters| - 1], w, index, now, byName) + [EvalCluster(clusters[|clusters| - 1], w, index, now, byName)]
  {
  }

  lemma {:induction false} RunRulesIsSimultaneous(b: Bundle, rules: seq<Rule>, f: Facts, now: Clock)
    requires PassesStructure(b) && CleanNames(b) && forall r :: r in rules ==> r in b.rules
    ensures var ts := EachRule(rules, f, BundleIndex(b), now);
            RunRules(rules, f, BundleIndex(b), now) == (ts, PublishAll(f, RuleOf, RuleVerdicts(ts)))
  {
    if rules != [] {
      var front := rules[..|rules| - 1];
      var vs := RuleVerdicts(EachRule(front, f, BundleIndex(b), now));
      RunRulesIsSimultaneous(b, front, f, now);
      PublishingKeepsEvidence(b, f, RuleOf, vs);
      RuleSeesEvidence(b, rules[|rules| - 1], f, PublishAll(f, RuleOf, vs), now);
      EachRuleLast(rules, f, BundleIndex(b), now);
      PublishRuleLast(f, EachRule(front, f, BundleIndex(b), now), EvalRule(rules[|rules| - 1], f, BundleIndex(b), now));
    } else {
      assert EachRule(rules, f, BundleIndex(b), now) == [];
    }
  }

  lemma VerdictsAreClusters(b: Bundle, front: seq<Cluster>, w: Facts, now: Clock, byName: map<string, RuleTrace>)
    requires forall c :: c in front ==> c in b.clusters
    ensures forall v :: v in ClusterVerdicts(EachCluster(front, w, BundleIndex(b), now, byName)) ==> v.name in ClusterNames(b)
  {
    var vs := ClusterVerdicts(EachCluster(front, w, BundleIndex(b), now, byName));
    forall i | 0 <= i < |vs|
      ensures vs[i].name in ClusterNames(b)
    {
      assert vs[i].name == front[i].name && front[i] in front;
    }
  }

  /** What the clusters before it have published changes nothing for the next one. */
  lemma LastClusterSees(b: Bundle, front: seq<Cluster>, last: Cluster, w: Facts, now: Clock, byName: map<string, RuleTrace>)
    requires PassesStructure(b) && CleanNames(b) && last in b.clusters && forall c :: c in front ==> c in b.clusters
    ensures var working := PublishAll(w, ClusterOf, ClusterVerdicts(EachCluster(front, w, BundleIndex(b), now, byName)));
            EvalCluster(last, working, BundleIndex(b), now, byName) == EvalCluster(last, w, BundleIndex(b), now, byName)
  {
    var vs := ClusterVerdicts(EachCluster(front, w, BundleIndex(b), now, byName));
    VerdictsAreClusters(b, front, w, now, byName);
    PublishingKeepsEvidence(b, w, ClusterOf, vs);
    ClustersKeepRules(b, w, vs);
    ClusterSeesRules(b, last, w, PublishAll(w, ClusterOf, vs), now, byName);
  }

  lemma {:induction false} RunClustersIsSimultaneous(b: Bundle, clusters: seq<Cluster>, w: Facts, now: Clock, byName: map<string, RuleTrace>)
    requires PassesStructure(b) && CleanNames(b) && forall c :: c in clusters ==> c in b.clusters
    ensures var ts := EachCluster(clusters, w, BundleIndex(b), now, byName);
            RunClusters(clusters, w, BundleIndex(b), now, byName) == (ts, PublishAll(w, ClusterOf, ClusterVerdicts(ts)))
  {
    if clusters != [] {
      var front, last := clusters[..|clusters| - 1], clusters[|clusters| - 1];
      RunClustersIsSimultaneous(b, front, w, now, byName);
      LastClusterSees(b, front, last, w, now, byName);
      EachClusterLast(clusters, w, BundleIndex(b), now, byName);
      PublishClusterLast(w, EachCluster(front, w, BundleIndex(b), now, byName), EvalCluster(last, w, BundleIndex(b), now, byName));
    } else {
      assert EachCluster(clusters, w, BundleIndex(b), now, byName) == [];
    }
  }

  lemma ClustersKeepRules(b: Bundle, w: Facts, vs: seq<Verdict>)
    requires Unambiguous(SymbolsOf(b)) && CleanNames(b)
    requires forall v :: v in vs ==> v.name in ClusterNames(b)
    ensures forall n :: n in RuleNames(b) ==> SameView(w, PublishAll(w, ClusterOf, vs), n)
  {
    NamesAreDisjoint(b);
    forall n | n in RuleNames(b)
      ensures SameView(w, PublishAll(w, ClusterOf, vs), n)
    {
      forall q
        ensures SameAt(w, PublishAll(w, ClusterOf, vs), Key(q, n))
      {
        PublishAllKeeps(w, ClusterOf, vs, q, n);
      }
      EverywhereIsView(w, PublishAll(w, ClusterOf, vs), n);
    }
  }

  /** Every trace, check and outcome of the sequential run is that of the simultaneous reading. */
  lemma LoopIsSimultaneous(b: Bundle, f: Facts, now: Clock)
    requires PassesStructure(b) && CleanNames(b)
    ensures EvalBundle(b, f, now) == EvalSimultaneous(b, f, now)
  {
    RunRulesIsSimultaneous(b, b.rules, f, now);
    RunClustersIsSimultaneous(b, b.clusters, AfterRules(b, f, now), now, ByName(RulesOn(b, f, now)));
  }
}
