/** Bundles and their layered evaluation into mutable working facts. */
module Bundles {
  import opened Evidence
  import opened Predicates

  datatype Collector = Collector(name: string, source: string, signals: seq<Signal>)

  datatype Rule = Rule(name: string, target: string, collectors: seq<Collector>, predicates: seq<Predicate>)

  datatype Cluster = Cluster(name: string, rules: seq<string>, predicates: seq<Predicate>)

  datatype Bundle = Bundle(rules: seq<Rule>, clusters: seq<Cluster>, predicates: seq<Predicate>)

  datatype Outcome = Authorized | Denied | Blocked | InsufficientEvidence | ExpiredOutcome | NoOutcome

  datatype RuleTrace = RuleTrace(name: string, aspect: string, result: Outcome, authorized: bool, checks: seq<Check>)

  datatype Member = Member(rule: string, authorized: bool, result: Outcome)

  datatype ClusterTrace = ClusterTrace(name: string, result: Outcome, authorized: bool, members: seq<Member>, checks: seq<Check>)

  datatype Evaluation = Evaluation(
    authorized: bool, result: Outcome, aspect: string,
    rules: seq<RuleTrace>, clusters: seq<ClusterTrace>, globals: seq<Check>, checks: seq<Check>)

  // ---- the evidence index ----

  function AllCollectors(rules: seq<Rule>): seq<Collector> {
    if rules == [] then [] else AllCollectors(rules[..|rules| - 1]) + rules[|rules| - 1].collectors
  }

  function AllSignals(collectors: seq<Collector>): seq<Signal> {
    if collectors == [] then [] else AllSignals(collectors[..|collectors| - 1]) + collectors[|collectors| - 1].signals
  }

  /** Later declarations of a name replace earlier ones. */
  function IndexSignals(signals: seq<Signal>): map<string, Signal> {
    if signals == [] then map[]
    else
      var last := signals[|signals| - 1];
      IndexSignals(signals[..|signals| - 1])[last.name := last]
  }

  lemma {:induction false} IndexedSignals(signals: seq<Signal>)
    ensures forall s :: s in signals ==> s.name in IndexSignals(signals)
    ensures forall n :: n in IndexSignals(signals) ==> IndexSignals(signals)[n] in signals && IndexSignals(signals)[n].name == n
  {
    if signals != [] {
      IndexedSignals(signals[..|signals| - 1]);
      assert signals == signals[..|signals| - 1] + [signals[|signals| - 1]];
    }
  }

  lemma {:induction false} IndexedCollectors(collectors: seq<Collector>)
    ensures forall c :: c in collectors ==> c.name in IndexCollectors(collectors)
    ensures forall n :: n in IndexCollectors(collectors) ==> exists c :: c in collectors && c.name == n
  {
    if collectors != [] {
      IndexedCollectors(collectors[..|collectors| - 1]);
      assert collectors == collectors[..|collectors| - 1] + [collectors[|collectors| - 1]];
    }
  }

  function IndexCollectors(collectors: seq<Collector>): map<string, seq<Signal>> {
    if collectors == [] then map[]
    else
      var last := collectors[|collectors| - 1];
      var m := IndexCollectors(collectors[..|collectors| - 1]);
      m[last.name := (if last.name in m then m[last.name] else []) + last.signals]
  }

  function BundleIndex(b: Bundle): Index {
    Index(IndexSignals(AllSignals(AllCollectors(b.rules))), IndexCollectors(AllCollectors(b.rules)))
  }

  // ---- checks and outcomes ----

  function Checks(ps: seq<Predicate>, facts: Facts, index: Index, now: Clock): (cs: seq<Check>)
    ensures |cs| == |ps|
    ensures forall i :: 0 <= i < |ps| ==> cs[i] == EvaluatePredicate(ps[i], facts, index, now)
  {
    if ps == [] then []
    else Checks(ps[..|ps| - 1], facts, index, now) + [EvaluatePredicate(ps[|ps| - 1], facts, index, now)]
  }

  predicate AllPass(cs: seq<Check>) {
    forall i :: 0 <= i < |cs| ==> cs[i].passed
  }

  predicate Reports(cs: seq<Check>, reason: Reason) {
    exists i :: 0 <= i < |cs| && cs[i].reason == reason
  }

  function BundleResult(authorized: bool, cs: seq<Check>): Outcome {
    if authorized then Authorized
    else if Reports(cs, ExpiredEvidence) then ExpiredOutcome
    else if Reports(cs, ActiveBlocker) then Blocked
    else if Reports(cs, UnknownFact) || Reports(cs, QuorumNotMet) then InsufficientEvidence
    else Denied
  }

  function Severity(o: Outcome): nat {
    match o
    case ExpiredOutcome => 4 case Blocked => 3 case InsufficientEvidence => 2 case Denied => 1 case _ => 0
  }

  // ---- one rule, one cluster ----

  function EvalRule(r: Rule, facts: Facts, index: Index, now: Clock): RuleTrace {
    var cs := Checks(r.predicates, facts, index, now);
    RuleTrace(r.name, r.target, BundleResult(AllPass(cs), cs), AllPass(cs), cs)
  }

  /** A rule that has no trace counts as unauthorized for want of evidence. */
  function MemberOf(rule: string, byName: map<string, RuleTrace>): Member {
    if rule in byName
    then Member(rule, byName[rule].authorized,
                if byName[rule].result == NoOutcome then InsufficientEvidence else byName[rule].result)
    else Member(rule, false, InsufficientEvidence)
  }

  function Members(rules: seq<string>, byName: map<string, RuleTrace>): (ms: seq<Member>)
    ensures |ms| == |rules|
    ensures forall i :: 0 <= i < |rules| ==> ms[i] == MemberOf(rules[i], byName)
  {
    if rules == [] then [] else Members(rules[..|rules| - 1], byName) + [MemberOf(rules[|rules| - 1], byName)]
  }

  predicate AllMembers(ms: seq<Member>) {
    forall i :: 0 <= i < |ms| ==> ms[i].authorized
  }

  /** The most severe outcome among the unauthorized members, starting from the cluster's own. */
  function RaiseResult(result: Outcome, ms: seq<Member>): Outcome {
    if ms == [] then result
    else
      var soFar := RaiseResult(result, ms[..|ms| - 1]);
      var m := ms[|ms| - 1];
      if !m.authorized && Severity(m.result) > Severity(soFar) then m.result else soFar
  }

  function EvalCluster(c: Cluster, facts: Facts, index: Index, now: Clock, byName: map<string, RuleTrace>): ClusterTrace {
    var ms := Members(c.rules, byName);
    var cs := Checks(c.predicates, facts, index, now);
    var authorized := AllMembers(ms) && AllPass(cs);
    var own := BundleResult(authorized, cs);
    ClusterTrace(c.name, if authorized then own else RaiseResult(own, ms), authorized, ms, cs)
  }

  // ---- the layered run ----

  function Publish(facts: Facts, p: Prefix, name: string, value: bool): Facts {
    facts[name := BoolV(value)][Key(p, name) := BoolV(value)]
  }

  function RunRules(rules: seq<Rule>, facts: Facts, index: Index, now: Clock): (r: (seq<RuleTrace>, Facts))
    ensures |r.0| == |rules|
  {
    if rules == [] then ([], facts)
    else
      var (traces, working) := RunRules(rules[..|rules| - 1], facts, index, now);
      var t := EvalRule(rules[|rules| - 1], working, index, now);
      (traces + [t], Publish(working, RuleOf, t.name, t.authorized))
  }

  function ByName(traces: seq<RuleTrace>): map<string, RuleTrace> {
    if traces == [] then map[]
    else ByName(traces[..|traces| - 1])[traces[|traces| - 1].name := traces[|traces| - 1]]
  }

  function RunClusters(clusters: seq<Cluster>, facts: Facts, index: Index, now: Clock, byName: map<string, RuleTrace>): (r: (seq<ClusterTrace>, Facts))
    ensures |r.0| == |clusters|
  {
    if clusters == [] then ([], facts)
    else
      var (traces, working) := RunClusters(clusters[..|clusters| - 1], facts, index, now, byName);
      var t := EvalCluster(clusters[|clusters| - 1], working, index, now, byName);
      (traces + [t], Publish(working, ClusterOf, t.name, t.authorized))
  }

  function RuleChecks(ts: seq<RuleTrace>): seq<Check> {
    if ts == [] then [] else RuleChecks(ts[..|ts| - 1]) + ts[|ts| - 1].checks
  }

  function ClusterChecks(ts: seq<ClusterTrace>): seq<Check> {
    if ts == [] then [] else ClusterChecks(ts[..|ts| - 1]) + ts[|ts| - 1].checks
  }

  predicate BundleAuthorized(rules: seq<RuleTrace>, clusters: seq<ClusterTrace>, globals: seq<Check>, hasGlobal: bool) {
    if !hasGlobal && rules == [] && clusters == [] then false
    else if hasGlobal then AllPass(globals)
    else
      (forall i :: 0 <= i < |clusters| ==> clusters[i].authorized) &&
      (forall i :: 0 <= i < |rules| ==> rules[i].authorized)
  }

  function Aspect(b: Bundle): string {
    if |b.rules| == 1 && b.clusters == [] && b.predicates == [] then b.rules[0].target else "rule_bundle"
  }

  function Conclude(b: Bundle, rules: seq<RuleTrace>, clusters: seq<ClusterTrace>, globals: seq<Check>): Evaluation {
    var authorized := BundleAuthorized(rules, clusters, globals, b.predicates != []);
    var checks := RuleChecks(rules) + ClusterChecks(clusters) + globals;
    Evaluation(authorized, BundleResult(authorized, checks), Aspect(b), rules, clusters, globals, checks)
  }

  function EvalBundle(b: Bundle, facts: Facts, now: Clock): Evaluation {
    var index := BundleIndex(b);
    var (rules, afterRules) := RunRules(b.rules, facts, index, now);
    var (clusters, working) := RunClusters(b.clusters, afterRules, index, now, ByName(rules));
    Conclude(b, rules, clusters, Checks(b.predicates, working, index, now))
  }

  // ---- the evaluator as it runs ----

  method EvaluateOne(p: Predicate, facts: Facts, index: Index, now: Clock) returns (check: Check)
    ensures check == EvaluatePredicate(p, facts, index, now)
  {
    if p.Count? {
      check := TallyCount(p.providers, p.threshold, facts, index, now);
    } else {
      check := EvaluatePredicate(p, facts, index, now);
    }
  }

  lemma ChecksSnoc(ps: seq<Predicate>, i: nat, facts: Facts, index: Index, now: Clock)
    requires i < |ps|
    ensures Checks(ps[..i + 1], facts, index, now) == Checks(ps[..i], facts, index, now) + [EvaluatePredicate(ps[i], facts, index, now)]
  {
    assert ps[..i + 1][..i] == ps[..i];
  }

  lemma AllPassSnoc(cs: seq<Check>, c: Check)
    ensures AllPass(cs + [c]) == (AllPass(cs) && c.passed)
  {
    assert forall k :: 0 <= k < |cs| ==> (cs + [c])[k] == cs[k];
    assert (cs + [c])[|cs|] == c;
  }

  method EvaluateChecks(ps: seq<Predicate>, facts: Facts, index: Index, now: Clock) returns (cs: seq<Check>, allPass: bool)
    ensures cs == Checks(ps, facts, index, now) && allPass == AllPass(cs)
  {
    cs := [];
    allPass := true;
    for i := 0 to |ps|
      invariant cs == Checks(ps[..i], facts, index, now) && allPass == AllPass(cs)
    {
      var check := EvaluateOne(ps[i], facts, index, now);
      ChecksSnoc(ps, i, facts, index, now);
      AllPassSnoc(cs, check);
      if !check.passed {
        allPass := false;
      }
      cs := cs + [check];
    }
    assert ps[..|ps|] == ps;
  }

  method EvaluateBundleRule(r: Rule, facts: Facts, index: Index, now: Clock) returns (t: RuleTrace)
    ensures t == EvalRule(r, facts, index, now)
  {
    var cs, authorized := EvaluateChecks(r.predicates, facts, index, now);
    t := RuleTrace(r.name, r.target, BundleResult(authorized, cs), authorized, cs);
  }

  method CollectMembers(rules: seq<string>, byName: map<string, RuleTrace>) returns (ms: seq<Member>, all: bool)
    ensures ms == Members(rules, byName) && all == AllMembers(ms)
  {
    ms := [];
    all := true;
    for i := 0 to |rules|
      invariant ms == Members(rules[..i], byName) && all == AllMembers(ms)
    {
      var m := MemberOf(rules[i], byName);
      if !m.authorized {
        all := false;
      }
      assert rules[..i + 1][..i] == rules[..i];
      ghost var before := ms;
      ms := ms + [m];
      assert forall k :: 0 <= k < |before| ==> ms[k] == before[k];
      assert ms[i] == m;
    }
    assert rules[..|rules|] == rules;
  }

  method EvaluateBundleCluster(c: Cluster, facts: Facts, index: Index, now: Clock, byName: map<string, RuleTrace>) returns (t: ClusterTrace)
    ensures t == EvalCluster(c, facts, index, now, byName)
  {
    var ms, allMembers := CollectMembers(c.rules, byName);
    var cs, allPass := EvaluateChecks(c.predicates, facts, index, now);
    var authorized := allMembers && allPass;
    var own := BundleResult(authorized, cs);
    var result := own;
    if !authorized {
      for i := 0 to |ms|
        invariant result == RaiseResult(own, ms[..i])
      {
        assert ms[..i + 1][..i] == ms[..i];
        if !ms[i].authorized && Severity(ms[i].result) > Severity(result) {
          result := ms[i].result;
        }
      }
      assert ms[..|ms|] == ms;
    }
    t := ClusterTrace(c.name, result, authorized, ms, cs);
  }

  /** The working fact map is updated in place as each rule and cluster publishes. */
  lemma RunNextCluster(clusters: seq<Cluster>, i: nat, facts: Facts, index: Index, now: Clock, byName: map<string, RuleTrace>)
    requires i < |clusters|
    ensures var (traces, working) := RunClusters(clusters[..i], facts, index, now, byName);
            var t := EvalCluster(clusters[i], working, index, now, byName);
            RunClusters(clusters[..i + 1], facts, index, now, byName) ==
            (traces + [t], Publish(working, ClusterOf, t.name, t.authorized))
  {
    assert clusters[..i + 1][..i] == clusters[..i];
  }

  class Evaluator {
    const index: Index
    const now: Clock
    var working: Facts

    constructor (index: Index, now: Clock, facts: Facts)
      ensures this.index == index && this.now == now && working == facts
    {
      this.index := index;
      this.now := now;
      working := facts;
    }

    method Rules(rules: seq<Rule>) returns (traces: seq<RuleTrace>, byName: map<string, RuleTrace>)
      modifies this
      ensures (traces, working) == RunRules(rules, old(working), index, now)
      ensures byName == ByName(traces)
    {
      traces := [];
      byName := map[];
      for i := 0 to |rules|
        invariant (traces, working) == RunRules(rules[..i], old(working), index, now)
        invariant byName == ByName(traces)
      {
        var t := EvaluateBundleRule(rules[i], working, index, now);
        assert rules[..i + 1][..i] == rules[..i];
        assert (traces + [t])[..|traces|] == traces;
        traces := traces + [t];
        byName := byName[t.name := t];
        working := working[t.name := BoolV(t.authorized)];
        working := working[Key(RuleOf, t.name) := BoolV(t.authorized)];
      }
      assert rules[..|rules|] == rules;
    }

    method Clusters(clusters: seq<Cluster>, byName: map<string, RuleTrace>) returns (traces: seq<ClusterTrace>)
      modifies this
      ensures (traces, working) == RunClusters(clusters, old(working), index, now, byName)
    {
      traces := [];
      for i := 0 to |clusters|
        invariant (traces, working) == RunClusters(clusters[..i], old(working), index, now, byName)
      {
        var t := EvaluateBundleCluster(clusters[i], working, index, now, byName);
        RunNextCluster(clusters, i, old(working), index, now, byName);
        traces := traces + [t];
        working := working[t.name := BoolV(t.authorized)];
        working := working[Key(ClusterOf, t.name) := BoolV(t.authorized)];
      }
      assert clusters[..|clusters|] == clusters;
    }
  }

  method EvaluateBundleAt(b: Bundle, facts: Facts, now: Clock) returns (e: Evaluation)
    ensures e == EvalBundle(b, facts, now)
  {
    var evaluator := new Evaluator(BundleIndex(b), now, facts);
    var rules, byName := evaluator.Rules(b.rules);
    var clusters := evaluator.Clusters(b.clusters, byName);
    var globals, _ := EvaluateChecks(b.predicates, evaluator.working, evaluator.index, now);
    e := Conclude(b, rules, clusters, globals);
  }
}
