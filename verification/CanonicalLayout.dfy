/** The statements a bundle is rendered as build that same bundle again, in the indented canonical
    layout and in the fully braced one. */
module CanonicalLayout {
  import opened QuorumSyntax
  import opened Evidence
  import opened Predicates
  import D = Documents
  import opened DocumentBuilder

  // ---- the layouts ----

  /** Body lines stand `indent` columns in; `braced` puts every block in braces. */
  datatype Style = Style(indent: nat, braced: bool)

  /** How many fields the rendered predicate has. */
  function FieldCount(p: Predicate): nat {
    match p
    case Quorum(e) => 1 + |Tokens(e)|
    case Block(_) => 2
    case Temporal(_, relation) => if relation.Before? || relation.After? then 4 else if relation.AgeLte? || relation.AgeGte? then 5 else 6
    case _ => 4
  }

  function Closing(braced: bool): seq<Statement> {
    if braced then [CloseOnly] else []
  }

  function PredicateLines(ps: seq<D.PredicateObject>, indent: nat): seq<Statement> {
    if ps == [] then []
    else [Statement(indent, false, PredicateLine(ps[0].parsed, FieldCount(ps[0].parsed)))] + PredicateLines(ps[1..], indent)
  }

  function SignalLines(signals: seq<D.SignalObject>, indent: nat): seq<Statement> {
    if signals == [] then [] else [Statement(indent, false, SignalLine(signals[0]))] + SignalLines(signals[1..], indent)
  }

  function CollectorLines(c: D.CollectorObject, y: Style): seq<Statement> {
    [Statement(y.indent, y.braced, CollectorLine(c.header))] + SignalLines(c.signals, y.indent + 1) + Closing(y.braced)
  }

  function CollectorsLines(cs: seq<D.CollectorObject>, y: Style): seq<Statement> {
    if cs == [] then [] else CollectorLines(cs[0], y) + CollectorsLines(cs[1..], y)
  }

  function RuleLines(r: D.RuleObject, top: nat, y: Style): seq<Statement> {
    [Statement(top, y.braced, RuleLine(r.name, "")), Statement(y.indent, false, TargetLine(r.target))] +
    CollectorsLines(r.collectors, y) + PredicateLines(r.predicates, y.indent) + Closing(y.braced)
  }

  function RulesLines(rs: seq<D.RuleObject>, top: nat, y: Style): seq<Statement> {
    if rs == [] then [] else RuleLines(rs[0], top, y) + RulesLines(rs[1..], top, y)
  }

  function ClusterLines(c: D.ClusterObject, top: nat, y: Style): seq<Statement> {
    [Statement(top, y.braced, ClusterLine(c.name)), Statement(y.indent, false, MembersLine(c.rules))] +
    PredicateLines(c.predicates, y.indent) + Closing(y.braced)
  }

  function ClustersLines(cs: seq<D.ClusterObject>, top: nat, y: Style): seq<Statement> {
    if cs == [] then [] else ClusterLines(cs[0], top, y) + ClustersLines(cs[1..], top, y)
  }

  function HeaderLines(d: D.Document, y: Style): seq<Statement> {
    [Statement(0, false, VersionLine)] +
    (if d.package == "" then [] else [Statement(0, false, PackageLine(d.package))]) +
    (if d.name == "" then [] else [Statement(0, y.braced, BundleLine(d.name))])
  }

  /** Inside a bundle's braces top-level statements may stand anywhere; elsewhere they stand at column 0. */
  function TopIndent(d: D.Document, y: Style): nat {
    if y.braced && d.name != "" then y.indent else 0
  }

  /** Globals, then rules, then clusters. */
  function Layout(d: D.Document, y: Style): seq<Statement> {
    HeaderLines(d, y) + PredicateLines(d.predicates, TopIndent(d, y)) + RulesLines(d.rules, TopIndent(d, y), y) +
    ClustersLines(d.clusters, TopIndent(d, y), y) + Closing(y.braced && d.name != "")
  }

  /** What `canonicalBundleText` lays out: a tab per level, no braces. */
  function CanonicalStatements(d: D.Document): seq<Statement> {
    Layout(d, Style(1, false))
  }

  // ---- the documents that are laid out ----

  predicate NothingCarved(ps: seq<D.PredicateObject>) {
    forall i :: 0 <= i < |ps| ==> !ps[i].carvedOut
  }

  predicate ConcreteRule(r: D.RuleObject) {
    !r.isAbstract && r.parent == "" && r.target != "" && NothingCarved(r.predicates)
  }

  predicate ConcreteCluster(c: D.ClusterObject) {
    c.rules != [] && NothingCarved(c.predicates)
  }

  /** A compiled bundle seen as a document: inheritance expanded, nothing carved out. */
  predicate Concrete(d: D.Document) {
    d.abstracts == [] && NothingCarved(d.predicates) &&
    (forall i :: 0 <= i < |d.rules| ==> ConcreteRule(d.rules[i])) &&
    (forall i :: 0 <= i < |d.clusters| ==> ConcreteCluster(d.clusters[i]))
  }

  // ---- quorum content ----

  function Cost(ps: seq<D.PredicateObject>): nat {
    if ps == [] then 0 else QuorumFields(PredicateLine(ps[0].parsed, FieldCount(ps[0].parsed))) + Cost(ps[1..])
  }

  function RulesCost(rs: seq<D.RuleObject>): nat {
    if rs == [] then 0 else Cost(rs[0].predicates) + RulesCost(rs[1..])
  }

  function ClustersCost(cs: seq<D.ClusterObject>): nat {
    if cs == [] then 0 else Cost(cs[0].predicates) + ClustersCost(cs[1..])
  }

  function DocumentCost(d: D.Document): nat {
    Cost(d.predicates) + RulesCost(d.rules) + ClustersCost(d.clusters)
  }

  // ---- running segments ----

  /** From `s` the statements `a` lead to `t`, whatever follows them. */
  ghost predicate Leads(s: State, a: seq<Statement>, t: State) {
    forall b {:trigger Run(s, a + b)} :: Run(s, a + b) == Run(t, b)
  }

  lemma Chain(s: State, a: seq<Statement>, t: State, b: seq<Statement>, u: State)
    requires Leads(s, a, t) && Leads(t, b, u)
    ensures Leads(s, a + b, u)
  {
    forall c
      ensures Run(s, (a + b) + c) == Run(u, c)
    {
      assert (a + b) + c == a + (b + c);
      assert Run(s, a + (b + c)) == Run(t, b + c);
    }
  }

  lemma RunOne(s: State, st: Statement, t: State)
    requires Step(s, st) == D.Ok(t)
    ensures Leads(s, [st], t)
  {
    forall b
      ensures Run(s, [st] + b) == Run(t, b)
    {
      assert ([st] + b)[0] == st && ([st] + b)[1..] == b;
    }
  }

  lemma RunNone(s: State)
    ensures Leads(s, [], s)
  {
    forall b
      ensures Run(s, [] + b) == Run(s, b)
    {
      assert [] + b == b;
    }
  }

  /** When nothing follows, the run ends there. */
  lemma RunAll(s: State, a: seq<Statement>, t: State)
    requires Leads(s, a, t)
    ensures Run(s, a) == D.Ok(t)
  {
    assert a + [] == a;
  }

  /** A rule is open and its body lines are read into it. */
  predicate InBody(s: State) {
    s.rule.Some? && s.cluster == None && s.quorumFields <= MaxBundleQuorumFields
  }

  /** The state once the pending collector is filed; indentation bookkeeping aside. */
  function View(s: State): State {
    FlushCollector(s).(indented := false)
  }

  function Settled(doc: D.Document, r: D.RuleObject, stack: seq<Block>, total: nat): State {
    State(doc, Some(r), None, None, stack, false, total)
  }

  lemma {:induction false} RunSignals(s: State, signals: seq<D.SignalObject>, indent: nat) returns (t: State)
    requires InBody(s) && s.collector.Some?
    ensures Leads(s, SignalLines(signals, indent), t)
    ensures t == s.(collector := Some(s.collector.value.(signals := s.collector.value.signals + signals)), indented := t.indented)
    ensures s.indented ==> t.indented
    decreases |signals|
  {
    if signals == [] {
      t := s;
      RunNone(s);
      assert s.collector.value.signals + signals == s.collector.value.signals;
    } else {
      var st := Statement(indent, false, SignalLine(signals[0]));
      var mid := Step(s, st).value;
      assert Step(s, st) == RuleStep(s.(quorumFields := s.quorumFields), indent, false, SignalLine(signals[0]));
      t := RunSignals(mid, signals[1..], indent);
      RunOne(s, st, mid);
      Chain(s, [st], mid, SignalLines(signals[1..], indent), t);
      assert s.collector.value.signals + [signals[0]] + signals[1..] == s.collector.value.signals + signals;
    }
  }

  lemma StartCollector(s: State, header: D.CollectorHeader, y: Style) returns (t: State)
    requires InBody(s)
    ensures Leads(s, [Statement(y.indent, y.braced, CollectorLine(header))], t)
    ensures t == Push(FlushCollector(s).(collector := Some(D.CollectorObject(header, []))), y.braced, CollectorBlock).(indented := t.indented)
    ensures s.indented ==> t.indented
  {
    var st := Statement(y.indent, y.braced, CollectorLine(header));
    assert Step(s, st) == RuleStep(s.(quorumFields := s.quorumFields), y.indent, y.braced, CollectorLine(header));
    t := Step(s, st).value;
    RunOne(s, st, t);
  }

  lemma CloseLast(s: State, stack: seq<Block>, block: Block) returns (t: State)
    requires s.stack == stack + [block]
    ensures Leads(s, [CloseOnly], t) && CloseBlock(s) == D.Ok(t)
    ensures t.stack == stack
  {
    assert s.stack[..|s.stack| - 1] == stack && s.stack[|s.stack| - 1] == block;
    t := CloseBlock(s).value;
    RunOne(s, CloseOnly, t);
  }

  lemma RunCollector(s: State, c: D.CollectorObject, y: Style) returns (t: State)
    requires InBody(s)
    ensures Leads(s, CollectorLines(c, y), t)
    ensures InBody(t) && View(t) == View(s).(rule := Some(View(s).rule.value.(collectors := View(s).rule.value.collectors + [c])))
    ensures s.indented ==> t.indented
  {
    var a := StartCollector(s, c.header, y);
    var b := RunSignals(a, c.signals, y.indent + 1);
    var head := Statement(y.indent, y.braced, CollectorLine(c.header));
    assert [] + c.signals == c.signals;
    Chain(s, [head], a, SignalLines(c.signals, y.indent + 1), b);
    if y.braced {
      t := CloseLast(b, s.stack, CollectorBlock);
      assert t == FlushCollector(b.(stack := s.stack));
    } else {
      t := b;
      RunNone(b);
    }
    Chain(s, [head] + SignalLines(c.signals, y.indent + 1), b, Closing(y.braced), t);
  }

  lemma {:induction false} RunCollectors(s: State, cs: seq<D.CollectorObject>, y: Style) returns (t: State)
    requires InBody(s)
    ensures Leads(s, CollectorsLines(cs, y), t)
    ensures InBody(t) && View(t) == View(s).(rule := Some(View(s).rule.value.(collectors := View(s).rule.value.collectors + cs)))
    ensures s.indented ==> t.indented
    decreases |cs|
  {
    if cs == [] {
      t := s;
      RunNone(s);
      assert View(s).rule.value.collectors + cs == View(s).rule.value.collectors;
    } else {
      var mid := RunCollector(s, cs[0], y);
      t := RunCollectors(mid, cs[1..], y);
      Chain(s, CollectorLines(cs[0], y), mid, CollectorsLines(cs[1..], y), t);
      assert View(s).rule.value.collectors + [cs[0]] + cs[1..] == View(s).rule.value.collectors + cs;
    }
  }

  /** Between `s` and `t` the open rule has gained `added`, at the cost of the predicate lines `ps`. */
  ghost predicate Adds(s: State, t: State, ps: seq<D.PredicateObject>, added: seq<D.PredicateObject>) {
    InBody(s) && InBody(t) && t.stack == s.stack && (s.indented ==> t.indented) &&
    View(t) == View(s).(rule := Some(View(s).rule.value.(predicates := View(s).rule.value.predicates + added)),
                        quorumFields := s.quorumFields + Cost(ps))
  }

  lemma AddsNone(s: State)
    requires InBody(s)
    ensures Adds(s, s, [], [])
  {
    assert View(s).rule.value.predicates + [] == View(s).rule.value.predicates;
  }

  lemma AddsMore(s: State, mid: State, t: State, ps: seq<D.PredicateObject>, one: D.PredicateObject, more: seq<D.PredicateObject>)
    requires ps != [] && Adds(s, mid, [ps[0]], [one]) && Adds(mid, t, ps[1..], more)
    ensures Adds(s, t, ps, [one] + more)
  {
    PredicateLinesSplit(ps, 0);
    assert (View(s).rule.value.predicates + [one]) + more == View(s).rule.value.predicates + ([one] + more);
  }

  /** One predicate line inside a rule body that is indented or braced. */
  lemma RunRulePredicate(s: State, p: D.PredicateObject, indent: nat) returns (t: State)
    requires InBody(s) && (indent > 0 || InRuleBlock(s.stack)) && !p.carvedOut
    requires s.quorumFields + Cost([p]) <= MaxBundleQuorumFields
    ensures Leads(s, PredicateLines([p], indent), t) && Adds(s, t, [p], [p])
  {
    var line := PredicateLine(p.parsed, FieldCount(p.parsed));
    var st := Statement(indent, false, line);
    var charged := s.(quorumFields := s.quorumFields + QuorumFields(line));
    assert Cost([p]) == QuorumFields(line) by { assert [p][1..] == []; }
    assert Step(s, st) == RuleStep(charged, indent, false, line);
    t := RuleStep(charged, indent, false, line).value;
    RunOne(s, st, t);
    assert PredicateLines([p], indent) == [st] by { assert [p][1..] == []; }
    assert p == D.PredicateObject(p.parsed, false);
  }

  lemma PredicateLinesSplit(ps: seq<D.PredicateObject>, indent: nat)
    requires ps != []
    ensures PredicateLines(ps, indent) == PredicateLines([ps[0]], indent) + PredicateLines(ps[1..], indent)
    ensures Cost(ps) == Cost([ps[0]]) + Cost(ps[1..])
  {
    assert [ps[0]][1..] == [];
  }

  lemma {:induction false} RunRulePredicates(s: State, ps: seq<D.PredicateObject>, indent: nat) returns (t: State)
    requires InBody(s) && (indent > 0 || InRuleBlock(s.stack)) && NothingCarved(ps)
    requires s.quorumFields + Cost(ps) <= MaxBundleQuorumFields
    ensures Leads(s, PredicateLines(ps, indent), t) && Adds(s, t, ps, ps)
    decreases |ps|
  {
    if ps == [] {
      t := s;
      RunNone(s);
      AddsNone(s);
    } else {
      PredicateLinesSplit(ps, indent);
      var mid := RunRulePredicate(s, ps[0], indent);
      t := RunRulePredicates(mid, ps[1..], indent);
      Chain(s, PredicateLines([ps[0]], indent), mid, PredicateLines(ps[1..], indent), t);
      AddsMore(s, mid, t, ps, ps[0], ps[1..]);
      assert [ps[0]] + ps[1..] == ps;
    }
  }

  // ---- top level ----

  /** The document once everything open is filed. */
  function Filed(s: State): D.Document {
    FlushCluster(FlushRule(s)).doc
  }

  /** The next top-level statement at column `top` is read as one. */
  predicate Ready(s: State, top: nat, braced: bool) {
    !(s.rule.Some? && s.cluster.Some?) && s.quorumFields <= MaxBundleQuorumFields &&
    if braced then s.rule == None && s.cluster == None && s.collector == None && (s.stack == [BundleBlock] || (s.stack == [] && top == 0))
    else s.stack == [] && top == 0
  }

  lemma FiledOnce(s: State)
    requires !(s.rule.Some? && s.cluster.Some?)
    ensures FlushRule(FlushCluster(s)) == FlushCluster(FlushRule(s))
  {
  }

  lemma RunTarget(s: State, target: string, indent: nat) returns (t: State)
    requires InBody(s) && s.rule.value.target == "" && (indent > 0 || InRuleBlock(s.stack))
    ensures Leads(s, [Statement(indent, false, TargetLine(target))], t)
    ensures t == s.(rule := Some(s.rule.value.(target := target)), indented := s.indented || indent > 0)
  {
    var st := Statement(indent, false, TargetLine(target));
    assert Step(s, st) == RuleStep(s.(quorumFields := s.quorumFields), indent, false, TargetLine(target));
    t := RuleStep(s.(quorumFields := s.quorumFields), indent, false, TargetLine(target)).value;
    RunOne(s, st, t);
  }

  lemma RunRuleBody(s: State, r: D.RuleObject, y: Style) returns (t: State)
    requires InBody(s) && s.rule == Some(D.RuleObject(r.name, false, "", "", [], [])) && s.collector == None
    requires ConcreteRule(r) && (y.indent > 0 || InRuleBlock(s.stack))
    requires s.quorumFields + Cost(r.predicates) <= MaxBundleQuorumFields
    ensures Leads(s, [Statement(y.indent, false, TargetLine(r.target))] + CollectorsLines(r.collectors, y) + PredicateLines(r.predicates, y.indent), t)
    ensures InBody(t) && View(t) == Settled(s.doc, r, s.stack, s.quorumFields + Cost(r.predicates))
    ensures y.indent > 0 ==> t.indented
  {
    var b := RunRuleHead(s, r, y);
    t := RunRulePredicates(b, r.predicates, y.indent);
    assert [] + r.predicates == r.predicates;
    Chain(s, [Statement(y.indent, false, TargetLine(r.target))] + CollectorsLines(r.collectors, y), b, PredicateLines(r.predicates, y.indent), t);
  }

  /** The target and the collectors of a rule body. */
  lemma RunRuleHead(s: State, r: D.RuleObject, y: Style) returns (t: State)
    requires InBody(s) && s.rule == Some(D.RuleObject(r.name, false, "", "", [], [])) && s.collector == None
    requires y.indent > 0 || InRuleBlock(s.stack)
    ensures Leads(s, [Statement(y.indent, false, TargetLine(r.target))] + CollectorsLines(r.collectors, y), t)
    ensures InBody(t) && t.stack == s.stack && t.quorumFields == s.quorumFields && (y.indent > 0 ==> t.indented)
    ensures View(t) == Settled(s.doc, D.RuleObject(r.name, false, "", r.target, r.collectors, []), s.stack, s.quorumFields)
  {
    var a := RunTarget(s, r.target, y.indent);
    t := RunCollectors(a, r.collectors, y);
    Chain(s, [Statement(y.indent, false, TargetLine(r.target))], a, CollectorsLines(r.collectors, y), t);
    assert [] + r.collectors == r.collectors;
    assert View(t).stack == t.stack && View(t).quorumFields == t.quorumFields;
  }

  lemma StartRule(s: State, name: string, top: nat, braced: bool) returns (t: State)
    requires Ready(s, top, braced)
    ensures Leads(s, [Statement(top, braced, RuleLine(name, ""))], t)
    ensures t == State(Filed(s), Some(D.RuleObject(name, false, "", "", [], [])), None, None,
                       if braced then s.stack + [RuleBlock] else s.stack, false, s.quorumFields)
  {
    var st := Statement(top, braced, RuleLine(name, ""));
    FiledOnce(s);
    t := OpenRule(s.(quorumFields := s.quorumFields), D.RuleObject(name, false, "", "", [], []), braced, RuleBlock);
    assert Step(s, st) == D.Ok(t);
    RunOne(s, st, t);
  }

  lemma SettledIsFiled(t: State, doc: D.Document, r: D.RuleObject, stack: seq<Block>, total: nat)
    requires t.cluster == None && View(t) == Settled(doc, r, stack, total) && !r.isAbstract
    ensures t.stack == stack && t.quorumFields == total && Filed(t) == doc.(rules := doc.rules + [r])
  {
  }

  lemma CloseRule(s: State, doc: D.Document, r: D.RuleObject, stack: seq<Block>, total: nat) returns (t: State)
    requires s.cluster == None && View(s) == Settled(doc, r, stack + [RuleBlock], total) && !r.isAbstract
    ensures Leads(s, [CloseOnly], t)
    ensures t.rule == None && t.cluster == None && t.collector == None && t.stack == stack && t.quorumFields == total
    ensures t.doc == doc.(rules := doc.rules + [r])
  {
    assert s.stack == View(s).stack;
    t := CloseLast(s, stack, RuleBlock);
    assert t == FlushRule(s.(stack := stack));
  }

  lemma RunRule(s: State, r: D.RuleObject, top: nat, y: Style) returns (t: State)
    requires Ready(s, top, y.braced) && ConcreteRule(r) && (y.braced || y.indent > 0)
    requires s.quorumFields + Cost(r.predicates) <= MaxBundleQuorumFields
    ensures Leads(s, RuleLines(r, top, y), t)
    ensures Ready(t, top, y.braced) && t.stack == s.stack
    ensures Filed(t) == Filed(s).(rules := Filed(s).rules + [r]) && t.quorumFields == s.quorumFields + Cost(r.predicates)
  {
    var first := Statement(top, y.braced, RuleLine(r.name, ""));
    var body := [Statement(y.indent, false, TargetLine(r.target))] + CollectorsLines(r.collectors, y) + PredicateLines(r.predicates, y.indent);
    var a := StartRule(s, r.name, top, y.braced);
    assert y.braced ==> RuleBlock in a.stack;
    var b := RunRuleBody(a, r, y);
    Chain(s, [first], a, body, b);
    t := EndRule(b, Filed(s), r, s.stack, b.quorumFields, y.braced);
    Chain(s, [first] + body, b, Closing(y.braced), t);
    RuleLinesAre(r, top, y);
  }

  lemma RuleLinesAre(r: D.RuleObject, top: nat, y: Style)
    ensures RuleLines(r, top, y) ==
            [Statement(top, y.braced, RuleLine(r.name, ""))] +
            ([Statement(y.indent, false, TargetLine(r.target))] + CollectorsLines(r.collectors, y) + PredicateLines(r.predicates, y.indent)) +
            Closing(y.braced)
  {
  }

  lemma EndRule(s: State, doc: D.Document, r: D.RuleObject, stack: seq<Block>, total: nat, braced: bool) returns (t: State)
    requires s.cluster == None && View(s) == Settled(doc, r, if braced then stack + [RuleBlock] else stack, total) && !r.isAbstract
    ensures Leads(s, Closing(braced), t)
    ensures t.cluster == None && t.stack == stack && t.quorumFields == total && Filed(t) == doc.(rules := doc.rules + [r])
    ensures braced ==> t.rule == None && t.collector == None
  {
    if braced {
      t := CloseRule(s, doc, r, stack, total);
    } else {
      t := s;
      RunNone(s);
      SettledIsFiled(s, doc, r, stack, total);
    }
  }

  lemma HeadTail<T>(before: seq<T>, xs: seq<T>)
    requires xs != []
    ensures before + [xs[0]] + xs[1..] == before + xs
  {
  }

  /** The loop stands between top-level statements, having filed `doc` and counted `total` quorum fields. */
  predicate Between(s: State, doc: D.Document, total: nat, stack: seq<Block>, top: nat, braced: bool) {
    Ready(s, top, braced) && Filed(s) == doc && s.quorumFields == total && s.stack == stack
  }

  lemma NextRule(s: State, doc: D.Document, total: nat, stack: seq<Block>, r: D.RuleObject, top: nat, y: Style) returns (t: State)
    requires Between(s, doc, total, stack, top, y.braced) && ConcreteRule(r) && (y.braced || y.indent > 0)
    requires total + Cost(r.predicates) <= MaxBundleQuorumFields
    ensures Leads(s, RuleLines(r, top, y), t)
    ensures Between(t, doc.(rules := doc.rules + [r]), total + Cost(r.predicates), stack, top, y.braced)
  {
    t := RunRule(s, r, top, y);
  }

  lemma {:induction false} RunRules(s: State, doc: D.Document, total: nat, stack: seq<Block>, rs: seq<D.RuleObject>, top: nat, y: Style) returns (t: State)
    requires Between(s, doc, total, stack, top, y.braced)
    requires (forall i :: 0 <= i < |rs| ==> ConcreteRule(rs[i])) && (y.braced || y.indent > 0)
    requires total + RulesCost(rs) <= MaxBundleQuorumFields
    ensures Leads(s, RulesLines(rs, top, y), t)
    ensures Between(t, doc.(rules := doc.rules + rs), total + RulesCost(rs), stack, top, y.braced)
    decreases |rs|
  {
    if rs == [] {
      t := s;
      RunNone(s);
      assert doc.rules + rs == doc.rules;
    } else {
      var mid := NextRule(s, doc, total, stack, rs[0], top, y);
      HeadTail(doc.rules, rs);
      t := RunRules(mid, doc.(rules := doc.rules + [rs[0]]), total + Cost(rs[0].predicates), stack, rs[1..], top, y);
      Chain(s, RuleLines(rs[0], top, y), mid, RulesLines(rs[1..], top, y), t);
    }
  }

  // ---- clusters ----

  predicate InCluster(s: State, indent: nat) {
    s.quorumFields <= MaxBundleQuorumFields &&
    s.cluster.Some? && s.rule == None && s.collector == None && (indent > 0 || s.stack != []) && s.stack != [BundleBlock]
  }

  lemma RunClusterPredicate(s: State, p: D.PredicateObject, indent: nat) returns (t: State)
    requires InCluster(s, indent) && !p.carvedOut && s.quorumFields + Cost([p]) <= MaxBundleQuorumFields
    ensures Leads(s, PredicateLines([p], indent), t)
    ensures t == s.(cluster := Some(s.cluster.value.(predicates := s.cluster.value.predicates + [p])), quorumFields := s.quorumFields + Cost([p]))
  {
    var line := PredicateLine(p.parsed, FieldCount(p.parsed));
    var st := Statement(indent, false, line);
    var charged := s.(quorumFields := s.quorumFields + QuorumFields(line));
    assert Cost([p]) == QuorumFields(line) && PredicateLines([p], indent) == [st] by { assert [p][1..] == []; }
    assert Step(s, st) == ClusterStep(charged, line);
    t := ClusterStep(charged, line).value;
    RunOne(s, st, t);
    assert p == D.PredicateObject(p.parsed, false);
  }

  lemma {:induction false} RunClusterPredicates(s: State, ps: seq<D.PredicateObject>, indent: nat) returns (t: State)
    requires InCluster(s, indent) && NothingCarved(ps)
    requires s.quorumFields + Cost(ps) <= MaxBundleQuorumFields
    ensures Leads(s, PredicateLines(ps, indent), t)
    ensures t == s.(cluster := Some(s.cluster.value.(predicates := s.cluster.value.predicates + ps)), quorumFields := s.quorumFields + Cost(ps))
    decreases |ps|
  {
    if ps == [] {
      t := s;
      RunNone(s);
      assert s.cluster.value.predicates + ps == s.cluster.value.predicates;
    } else {
      PredicateLinesSplit(ps, indent);
      var mid := RunClusterPredicate(s, ps[0], indent);
      t := RunClusterPredicates(mid, ps[1..], indent);
      Chain(s, PredicateLines([ps[0]], indent), mid, PredicateLines(ps[1..], indent), t);
      HeadTail(s.cluster.value.predicates, ps);
    }
  }

  lemma StartCluster(s: State, name: string, top: nat, braced: bool) returns (t: State)
    requires Ready(s, top, braced)
    ensures Leads(s, [Statement(top, braced, ClusterLine(name))], t)
    ensures t == State(Filed(s), None, Some(D.ClusterObject(name, [], [])), None,
                       if braced then s.stack + [ClusterBlock] else s.stack, s.indented, s.quorumFields)
  {
    var st := Statement(top, braced, ClusterLine(name));
    var line: Line := ClusterLine(name);
    assert Step(s, st) == TopStep(s.(quorumFields := s.quorumFields), braced, line);
    t := TopStep(s.(quorumFields := s.quorumFields), braced, line).value;
    RunOne(s, st, t);
  }

  lemma RunMembers(s: State, members: seq<string>, indent: nat) returns (t: State)
    requires InCluster(s, indent) && s.cluster.value.rules == []
    ensures Leads(s, [Statement(indent, false, MembersLine(members))], t)
    ensures t == s.(cluster := Some(s.cluster.value.(rules := members)))
  {
    var st := Statement(indent, false, MembersLine(members));
    assert Step(s, st) == ClusterStep(s.(quorumFields := s.quorumFields), MembersLine(members));
    t := ClusterStep(s.(quorumFields := s.quorumFields), MembersLine(members)).value;
    RunOne(s, st, t);
  }

  lemma CloseCluster(s: State, stack: seq<Block>) returns (t: State)
    requires s.stack == stack + [ClusterBlock]
    ensures Leads(s, [CloseOnly], t) && t == FlushCluster(s.(stack := stack))
  {
    t := CloseLast(s, stack, ClusterBlock);
  }

  lemma RunClusterBody(s: State, c: D.ClusterObject, indent: nat) returns (t: State)
    requires InCluster(s, indent) && s.cluster.value == D.ClusterObject(c.name, [], []) && NothingCarved(c.predicates)
    requires s.quorumFields + Cost(c.predicates) <= MaxBundleQuorumFields
    ensures Leads(s, [Statement(indent, false, MembersLine(c.rules))] + PredicateLines(c.predicates, indent), t)
    ensures t == s.(cluster := Some(c), quorumFields := s.quorumFields + Cost(c.predicates))
  {
    var b := RunMembers(s, c.rules, indent);
    t := RunClusterPredicates(b, c.predicates, indent);
    assert [] + c.predicates == c.predicates;
    Chain(s, [Statement(indent, false, MembersLine(c.rules))], b, PredicateLines(c.predicates, indent), t);
  }

  lemma RunCluster(s: State, c: D.ClusterObject, top: nat, y: Style) returns (t: State)
    requires Ready(s, top, y.braced) && ConcreteCluster(c) && (y.braced || y.indent > 0)
    requires s.quorumFields + Cost(c.predicates) <= MaxBundleQuorumFields
    ensures Leads(s, ClusterLines(c, top, y), t)
    ensures Ready(t, top, y.braced) && t.stack == s.stack
    ensures Filed(t) == Filed(s).(clusters := Filed(s).clusters + [c]) && t.quorumFields == s.quorumFields + Cost(c.predicates)
  {
    var first := Statement(top, y.braced, ClusterLine(c.name));
    var second := Statement(y.indent, false, MembersLine(c.rules));
    var a := StartCluster(s, c.name, top, y.braced);
    assert y.braced ==> a.stack[|a.stack| - 1] == ClusterBlock;
    var body := [second] + PredicateLines(c.predicates, y.indent);
    var e := RunClusterBody(a, c, y.indent);
    Chain(s, [first], a, body, e);
    if y.braced {
      t := CloseCluster(e, s.stack);
    } else {
      t := e;
      RunNone(e);
    }
    Chain(s, [first] + body, e, Closing(y.braced), t);
    assert ClusterLines(c, top, y) == [first] + body + Closing(y.braced);
  }

  lemma NextCluster(s: State, doc: D.Document, total: nat, stack: seq<Block>, c: D.ClusterObject, top: nat, y: Style) returns (t: State)
    requires Between(s, doc, total, stack, top, y.braced) && ConcreteCluster(c) && (y.braced || y.indent > 0)
    requires total + Cost(c.predicates) <= MaxBundleQuorumFields
    ensures Leads(s, ClusterLines(c, top, y), t)
    ensures Between(t, doc.(clusters := doc.clusters + [c]), total + Cost(c.predicates), stack, top, y.braced)
  {
    t := RunCluster(s, c, top, y);
  }

  lemma {:induction false} RunClusters(s: State, doc: D.Document, total: nat, stack: seq<Block>, cs: seq<D.ClusterObject>, top: nat, y: Style) returns (t: State)
    requires Between(s, doc, total, stack, top, y.braced)
    requires (forall i :: 0 <= i < |cs| ==> ConcreteCluster(cs[i])) && (y.braced || y.indent > 0)
    requires total + ClustersCost(cs) <= MaxBundleQuorumFields
    ensures Leads(s, ClustersLines(cs, top, y), t)
    ensures Between(t, doc.(clusters := doc.clusters + cs), total + ClustersCost(cs), stack, top, y.braced)
    decreases |cs|
  {
    if cs == [] {
      t := s;
      RunNone(s);
      assert doc.clusters + cs == doc.clusters;
    } else {
      var mid := NextCluster(s, doc, total, stack, cs[0], top, y);
      HeadTail(doc.clusters, cs);
      t := RunClusters(mid, doc.(clusters := doc.clusters + [cs[0]]), total + Cost(cs[0].predicates), stack, cs[1..], top, y);
      Chain(s, ClusterLines(cs[0], top, y), mid, ClustersLines(cs[1..], top, y), t);
    }
  }

  // ---- header and globals ----

  lemma RunGlobal(s: State, p: D.PredicateObject, top: nat, braced: bool) returns (t: State)
    requires Ready(s, top, braced) && s.rule == None && s.cluster == None && s.collector == None && !p.carvedOut
    requires s.quorumFields + Cost([p]) <= MaxBundleQuorumFields
    ensures Leads(s, PredicateLines([p], top), t)
    ensures t == s.(doc := s.doc.(predicates := s.doc.predicates + [p]), quorumFields := s.quorumFields + Cost([p]))
  {
    var line := PredicateLine(p.parsed, FieldCount(p.parsed));
    var st := Statement(top, false, line);
    var charged := s.(quorumFields := s.quorumFields + QuorumFields(line));
    assert Cost([p]) == QuorumFields(line) && PredicateLines([p], top) == [st] by { assert [p][1..] == []; }
    assert Step(s, st) == TopStep(charged, false, line);
    t := TopStep(charged, false, line).value;
    RunOne(s, st, t);
    assert p == D.PredicateObject(p.parsed, false);
  }

  lemma {:induction false} RunGlobals(s: State, ps: seq<D.PredicateObject>, top: nat, braced: bool) returns (t: State)
    requires Ready(s, top, braced) && s.rule == None && s.cluster == None && s.collector == None && NothingCarved(ps)
    requires s.quorumFields + Cost(ps) <= MaxBundleQuorumFields
    ensures Leads(s, PredicateLines(ps, top), t)
    ensures t == s.(doc := s.doc.(predicates := s.doc.predicates + ps), quorumFields := s.quorumFields + Cost(ps))
    decreases |ps|
  {
    if ps == [] {
      t := s;
      RunNone(s);
      assert s.doc.predicates + ps == s.doc.predicates;
    } else {
      PredicateLinesSplit(ps, top);
      var mid := RunGlobal(s, ps[0], top, braced);
      t := RunGlobals(mid, ps[1..], top, braced);
      Chain(s, PredicateLines([ps[0]], top), mid, PredicateLines(ps[1..], top), t);
      HeadTail(s.doc.predicates, ps);
    }
  }

  lemma RunVersion(s: State)
    requires s.rule == None && s.stack == [] && s.quorumFields <= MaxBundleQuorumFields
    ensures Leads(s, [Statement(0, false, VersionLine)], s)
  {
    var st := Statement(0, false, VersionLine);
    assert Step(s, st) == TopStep(s.(quorumFields := s.quorumFields), false, VersionLine);
    RunOne(s, st, s);
  }

  lemma NamePackage(s: State, package: string) returns (t: State)
    requires s.doc.package == "" && s.rule == None && s.stack == [] && s.quorumFields <= MaxBundleQuorumFields
    ensures Leads(s, if package == "" then [] else [Statement(0, false, PackageLine(package))], t)
    ensures t == s.(doc := s.doc.(package := package))
  {
    t := s.(doc := s.doc.(package := package));
    if package == "" {
      RunNone(s);
    } else {
      var st := Statement(0, false, PackageLine(package));
      var line: Line := PackageLine(package);
      assert Step(s, st) == TopStep(s.(quorumFields := s.quorumFields), false, line);
      RunOne(s, st, t);
    }
  }

  lemma RunHeader(d: D.Document, y: Style) returns (t: State)
    ensures Leads(Start, HeaderLines(d, y), t)
    ensures t == Start.(doc := EmptyDocument.(package := d.package, name := d.name),
                        stack := if y.braced && d.name != "" then [BundleBlock] else [])
  {
    var a := [Statement(0, false, VersionLine)];
    RunVersion(Start);
    var b := if d.package == "" then [] else [Statement(0, false, PackageLine(d.package))];
    var s := NamePackage(Start, d.package);
    Chain(Start, a, Start, b, s);
    var c := if d.name == "" then [] else [Statement(0, y.braced, BundleLine(d.name))];
    if d.name != "" {
      t := NameBundle(s, d.name, y.braced);
    } else {
      t := s;
      RunNone(s);
    }
    Chain(Start, a + b, s, c, t);
  }

  lemma NameBundle(s: State, name: string, braced: bool) returns (t: State)
    requires s.doc.name == "" && s.rule == None && s.stack == [] && s.quorumFields <= MaxBundleQuorumFields
    ensures Leads(s, [Statement(0, braced, BundleLine(name))], t)
    ensures t == s.(doc := s.doc.(name := name), stack := if braced then [BundleBlock] else [])
  {
    var st := Statement(0, braced, BundleLine(name));
    var line: Line := BundleLine(name);
    assert Step(s, st) == TopStep(s.(quorumFields := s.quorumFields), braced, line);
    t := TopStep(s.(quorumFields := s.quorumFields), braced, line).value;
    assert [] + [BundleBlock] == [BundleBlock];
    RunOne(s, st, t);
  }

  // ---- expansion leaves concrete rules alone ----

  lemma ExpandOneMore(rules: seq<D.RuleObject>, r: D.RuleObject, abstracts: D.Abstracts, done: seq<D.RuleObject>, e: D.RuleObject)
    requires D.ExpandEach(rules, abstracts) == D.Ok(done) && D.Expand(r, abstracts, {}) == D.Ok(e)
    ensures D.ExpandEach(rules + [r], abstracts) == D.Ok(done + [e])
  {
    assert (rules + [r])[..|rules|] == rules;
  }

  lemma RootStays(r: D.RuleObject, abstracts: D.Abstracts)
    requires r.parent == ""
    ensures D.Expand(r, abstracts, {}) == D.Ok(r)
  {
  }

  lemma {:induction false} ConcreteExpands(rs: seq<D.RuleObject>)
    requires forall i :: 0 <= i < |rs| ==> ConcreteRule(rs[i])
    ensures D.ExpandEach(rs, map[]) == D.Ok(rs)
  {
    if rs != [] {
      var front, last := rs[..|rs| - 1], rs[|rs| - 1];
      ConcreteExpands(front);
      RootStays(last, map[]);
      ExpandOneMore(front, last, map[], front, last);
      assert rs == front + [last];
    }
  }

  // ---- main results ----

  /** Everything before the rules. */
  lemma RunPreamble(d: D.Document, y: Style) returns (t: State)
    requires Concrete(d) && Cost(d.predicates) <= MaxBundleQuorumFields
    ensures Leads(Start, HeaderLines(d, y) + PredicateLines(d.predicates, TopIndent(d, y)), t)
    ensures Between(t, d.(rules := [], clusters := []), Cost(d.predicates), if y.braced && d.name != "" then [BundleBlock] else [], TopIndent(d, y), y.braced)
  {
    var a := RunHeader(d, y);
    t := RunGlobals(a, d.predicates, TopIndent(d, y), y.braced);
    Chain(Start, HeaderLines(d, y), a, PredicateLines(d.predicates, TopIndent(d, y)), t);
    assert [] + d.predicates == d.predicates;
  }

  lemma CloseBundle(s: State, d: D.Document, total: nat, top: nat, y: Style) returns (t: State)
    requires Between(s, d, total, if y.braced && d.name != "" then [BundleBlock] else [], top, y.braced)
    ensures Leads(s, Closing(y.braced && d.name != ""), t)
    ensures t.stack == [] && Filed(t) == d
  {
    if y.braced && d.name != "" {
      t := CloseLast(s, [], BundleBlock);
    } else {
      t := s;
      RunNone(s);
    }
  }

  /** Laying a compiled bundle out and building the statements again gives the same document, with
      nothing carved out of place: braced at any indentation, or indented without braces. */
  lemma LayoutRebuilds(d: D.Document, y: Style)
    requires Concrete(d) && DocumentCost(d) <= MaxBundleQuorumFields
    requires y.braced || y.indent > 0
    ensures Build(Layout(d, y)) == D.Ok(d)
  {
    var top := TopIndent(d, y);
    var stack := if y.braced && d.name != "" then [BundleBlock] else [];
    var p := HeaderLines(d, y) + PredicateLines(d.predicates, top);
    var r, k := RulesLines(d.rules, top, y), ClustersLines(d.clusters, top, y);
    var a := RunPreamble(d, y);
    var b := RunRules(a, d.(rules := [], clusters := []), Cost(d.predicates), stack, d.rules, top, y);
    assert [] + d.rules == d.rules && [] + d.clusters == d.clusters;
    var c := RunClusters(b, d.(clusters := []), Cost(d.predicates) + RulesCost(d.rules), stack, d.clusters, top, y);
    var t := CloseBundle(c, d, DocumentCost(d), top, y);
    FourLegs(p, a, r, b, k, c, Closing(y.braced && d.name != ""), t);
    ConcreteFinishes(Layout(d, y), t, d);
  }

  lemma ConcreteFinishes(lines: seq<Statement>, t: State, d: D.Document)
    requires Run(Start, lines) == D.Ok(t) && t.stack == [] && Filed(t) == d && Concrete(d)
    ensures Build(lines) == D.Ok(d)
  {
    ConcreteExpands(d.rules);
  }

  // ---- the carve-out ----

  function CarvedOut(ps: seq<D.PredicateObject>): seq<D.PredicateObject> {
    if ps == [] then [] else [ps[0].(carvedOut := true)] + CarvedOut(ps[1..])
  }

  lemma RunCarvedOne(s: State, p: D.PredicateObject) returns (t: State)
    requires InBody(s) && s.indented && s.stack == []
    requires s.quorumFields + Cost([p]) <= MaxBundleQuorumFields
    ensures Leads(s, PredicateLines([p], 0), t) && Adds(s, t, [p], [p.(carvedOut := true)])
  {
    var line := PredicateLine(p.parsed, FieldCount(p.parsed));
    var st := Statement(0, false, line);
    var charged := s.(quorumFields := s.quorumFields + QuorumFields(line));
    assert Cost([p]) == QuorumFields(line) by { assert [p][1..] == []; }
    assert ForcedIntoRule(charged, 0, line);
    assert Step(s, st) == RuleStep(charged, 0, false, line);
    t := RuleStep(charged, 0, false, line).value;
    RunOne(s, st, t);
    assert PredicateLines([p], 0) == [st] by { assert [p][1..] == []; }
  }

  lemma {:induction false} RunCarvedOut(s: State, ps: seq<D.PredicateObject>) returns (t: State)
    requires InBody(s) && s.indented && s.stack == []
    requires s.quorumFields + Cost(ps) <= MaxBundleQuorumFields
    ensures Leads(s, PredicateLines(ps, 0), t) && Adds(s, t, ps, CarvedOut(ps))
    decreases |ps|
  {
    if ps == [] {
      t := s;
      RunNone(s);
      AddsNone(s);
    } else {
      PredicateLinesSplit(ps, 0);
      var mid := RunCarvedOne(s, ps[0]);
      t := RunCarvedOut(mid, ps[1..]);
      Chain(s, PredicateLines([ps[0]], 0), mid, PredicateLines(ps[1..], 0), t);
      AddsMore(s, mid, t, ps, ps[0].(carvedOut := true), CarvedOut(ps[1..]));
    }
  }

  /** An indented rule whose body is still open. */
  lemma RunOpenRule(s: State, r: D.RuleObject, indent: nat) returns (t: State)
    requires Ready(s, 0, false) && ConcreteRule(r) && indent > 0
    requires s.quorumFields + Cost(r.predicates) <= MaxBundleQuorumFields
    ensures Leads(s, RuleLines(r, 0, Style(indent, false)), t)
    ensures InBody(t) && t.indented && t.stack == [] && View(t) == Settled(Filed(s), r, [], s.quorumFields + Cost(r.predicates))
  {
    var y := Style(indent, false);
    var first := Statement(0, false, RuleLine(r.name, ""));
    var body := [Statement(indent, false, TargetLine(r.target))] + CollectorsLines(r.collectors, y) + PredicateLines(r.predicates, indent);
    var a := StartRule(s, r.name, 0, false);
    t := RunRuleBody(a, r, y);
    Chain(s, [first], a, body, t);
    assert t.stack == View(t).stack;
    assert RuleLines(r, 0, y) == [first] + body;
  }

  /** A final policy written at column 0 right after an indented rule body does not stay global: every
      predicate of it is absorbed into that rule and marked. */
  lemma TrailingPolicyIsAbsorbed(d: D.Document, r: D.RuleObject, indent: nat)
    requires Concrete(d) && d.clusters == [] && ConcreteRule(r) && indent > 0
    requires Cost(d.predicates) + RulesCost(d.rules) + Cost(r.predicates) <= MaxBundleQuorumFields
    ensures var y := Style(indent, false);
            var lines := HeaderLines(d, y) + RulesLines(d.rules, 0, y) + RuleLines(r, 0, y) + PredicateLines(d.predicates, 0);
            Build(lines) == D.Ok(d.(predicates := [], rules := d.rules + [r.(predicates := r.predicates + CarvedOut(d.predicates))]))
  {
    var y := Style(indent, false);
    var h, rs, last := HeaderLines(d, y), RulesLines(d.rules, 0, y), RuleLines(r, 0, y);
    var before := d.(predicates := []);
    var a, b := RunToLastRule(d, indent);
    var absorbed := r.(predicates := r.predicates + CarvedOut(d.predicates));
    var c, t := RunAbsorbing(b, before, r, d.predicates, indent);
    FourLegs(h, a, rs, b, last, c, PredicateLines(d.predicates, 0), t);
    RootExpands(d.rules, absorbed);
    OpenRuleFinishes(h + rs + last + PredicateLines(d.predicates, 0), t, before, absorbed);
  }

  lemma RunToLastRule(d: D.Document, indent: nat) returns (a: State, b: State)
    requires Concrete(d) && d.clusters == [] && indent > 0 && RulesCost(d.rules) <= MaxBundleQuorumFields
    ensures Leads(Start, HeaderLines(d, Style(indent, false)), a)
    ensures Leads(a, RulesLines(d.rules, 0, Style(indent, false)), b)
    ensures Between(b, d.(predicates := []), RulesCost(d.rules), [], 0, false)
  {
    var y := Style(indent, false);
    a := RunHeader(d, y);
    b := RunRules(a, d.(rules := [], predicates := []), 0, [], d.rules, 0, y);
    assert [] + d.rules == d.rules;
  }

  lemma RunAbsorbing(b: State, before: D.Document, r: D.RuleObject, ps: seq<D.PredicateObject>, indent: nat) returns (c: State, t: State)
    requires Between(b, before, b.quorumFields, [], 0, false) && ConcreteRule(r) && indent > 0
    requires b.quorumFields + Cost(r.predicates) + Cost(ps) <= MaxBundleQuorumFields
    ensures Leads(b, RuleLines(r, 0, Style(indent, false)), c) && Leads(c, PredicateLines(ps, 0), t)
    ensures t.cluster == None
    ensures View(t) == Settled(before, r.(predicates := r.predicates + CarvedOut(ps)), [], t.quorumFields)
  {
    c := RunOpenRule(b, r, indent);
    t := RunCarvedOut(c, ps);
  }

  lemma FourLegs(h: seq<Statement>, a: State, rs: seq<Statement>, b: State, last: seq<Statement>, c: State, ps: seq<Statement>, t: State)
    requires Leads(Start, h, a) && Leads(a, rs, b) && Leads(b, last, c) && Leads(c, ps, t)
    ensures Run(Start, h + rs + last + ps) == D.Ok(t)
  {
    Chain(Start, h, a, rs, b);
    Chain(Start, h + rs, b, last, c);
    Chain(Start, h + rs + last, c, ps, t);
    RunAll(Start, h + rs + last + ps, t);
  }

  /** A document whose last rule is still open when the statements end. */
  lemma OpenRuleFinishes(lines: seq<Statement>, t: State, doc: D.Document, r: D.RuleObject)
    requires Run(Start, lines) == D.Ok(t) && t.cluster == None && View(t) == Settled(doc, r, [], t.quorumFields)
    requires !r.isAbstract && doc.abstracts == [] && D.ExpandEach(doc.rules + [r], map[]) == D.Ok(doc.rules + [r])
    ensures Build(lines) == D.Ok(doc.(rules := doc.rules + [r]))
  {
    SettledIsFiled(t, doc, r, [], t.quorumFields);
  }

  lemma RootExpands(rs: seq<D.RuleObject>, last: D.RuleObject)
    requires (forall i :: 0 <= i < |rs| ==> ConcreteRule(rs[i])) && last.parent == ""
    ensures D.ExpandEach(rs + [last], map[]) == D.Ok(rs + [last])
  {
    ConcreteExpands(rs);
    RootStays(last, map[]);
    ExpandOneMore(rs, last, map[], rs, last);
  }
}
