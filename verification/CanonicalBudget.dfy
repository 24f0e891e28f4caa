/** Which canonical layouts the builder accepts: exactly those whose quorum content fits its budget. */
module CanonicalBudget {
  import D = Documents
  import opened DocumentBuilder
  import opened CanonicalLayout

  // ---- what a run is charged ----

  function LineCost(st: Statement): nat {
    if st.Statement? then QuorumFields(st.line) else 0
  }

  function LinesCost(sts: seq<Statement>): nat {
    if sts == [] then 0 else LineCost(sts[0]) + LinesCost(sts[1..])
  }

  lemma DispatchKeepsCharge(s: State, indent: nat, opens: bool, line: Line)
    ensures Dispatch(s, indent, opens, line).Ok? ==> Dispatch(s, indent, opens, line).value.quorumFields == s.quorumFields
  {
  }

  lemma StepCharges(s: State, st: Statement)
    requires s.quorumFields <= MaxBundleQuorumFields && Step(s, st).Ok?
    ensures Step(s, st).value.quorumFields == s.quorumFields + LineCost(st) <= MaxBundleQuorumFields
  {
    if st.Statement? {
      DispatchKeepsCharge(Charged(s, QuorumFields(st.line)).value, st.indent, st.opens, st.line);
    }
  }

  /** A run that succeeds was charged for every quorum line, and stayed within the budget. */
  lemma {:induction false} RunCharges(s: State, sts: seq<Statement>)
    requires s.quorumFields <= MaxBundleQuorumFields && Run(s, sts).Ok?
    ensures Run(s, sts).value.quorumFields == s.quorumFields + LinesCost(sts) <= MaxBundleQuorumFields
    decreases |sts|
  {
    if sts != [] {
      StepCharges(s, sts[0]);
      RunCharges(Step(s, sts[0]).value, sts[1..]);
    }
  }

  // ---- what a layout costs ----

  lemma {:induction false} LinesCostConcat(a: seq<Statement>, b: seq<Statement>)
    ensures LinesCost(a + b) == LinesCost(a) + LinesCost(b)
  {
    if a == [] {
      assert a + b == b;
    } else {
      assert (a + b)[1..] == a[1..] + b;
      LinesCostConcat(a[1..], b);
    }
  }

  lemma LineCosts(st: Statement)
    ensures LinesCost([st]) == LineCost(st)
  {
    assert [st][1..] == [];
  }

  lemma ClosingCosts(braced: bool)
    ensures LinesCost(Closing(braced)) == 0
  {
    LineCosts(CloseOnly);
  }

  lemma {:induction false} PredicateLinesCost(ps: seq<D.PredicateObject>, indent: nat)
    ensures LinesCost(PredicateLines(ps, indent)) == Cost(ps)
    decreases |ps|
  {
    if ps != [] {
      var st := Statement(indent, false, PredicateLine(ps[0].parsed, FieldCount(ps[0].parsed)));
      LineCosts(st);
      PredicateLinesCost(ps[1..], indent);
      LinesCostConcat([st], PredicateLines(ps[1..], indent));
    }
  }

  lemma {:induction false} SignalLinesCost(signals: seq<D.SignalObject>, indent: nat)
    ensures LinesCost(SignalLines(signals, indent)) == 0
    decreases |signals|
  {
    if signals != [] {
      var st := Statement(indent, false, SignalLine(signals[0]));
      LineCosts(st);
      SignalLinesCost(signals[1..], indent);
      LinesCostConcat([st], SignalLines(signals[1..], indent));
    }
  }

  lemma CollectorLinesCost(c: D.CollectorObject, y: Style)
    ensures LinesCost(CollectorLines(c, y)) == 0
  {
    var head := [Statement(y.indent, y.braced, CollectorLine(c.header))];
    LineCosts(head[0]);
    SignalLinesCost(c.signals, y.indent + 1);
    ClosingCosts(y.braced);
    LinesCostConcat(head, SignalLines(c.signals, y.indent + 1));
    LinesCostConcat(head + SignalLines(c.signals, y.indent + 1), Closing(y.braced));
  }

  lemma {:induction false} CollectorsLinesCost(cs: seq<D.CollectorObject>, y: Style)
    ensures LinesCost(CollectorsLines(cs, y)) == 0
    decreases |cs|
  {
    if cs != [] {
      CollectorLinesCost(cs[0], y);
      CollectorsLinesCost(cs[1..], y);
      LinesCostConcat(CollectorLines(cs[0], y), CollectorsLines(cs[1..], y));
    }
  }

  lemma RuleLinesCost(r: D.RuleObject, top: nat, y: Style)
    ensures LinesCost(RuleLines(r, top, y)) == Cost(r.predicates)
  {
    var a, b := Statement(top, y.braced, RuleLine(r.name, "")), Statement(y.indent, false, TargetLine(r.target));
    var cs, ps := CollectorsLines(r.collectors, y), PredicateLines(r.predicates, y.indent);
    LineCosts(a);
    LineCosts(b);
    assert [a, b] == [a] + [b];
    LinesCostConcat([a], [b]);
    CollectorsLinesCost(r.collectors, y);
    PredicateLinesCost(r.predicates, y.indent);
    ClosingCosts(y.braced);
    LinesCostConcat([a, b], cs);
    LinesCostConcat([a, b] + cs, ps);
    LinesCostConcat([a, b] + cs + ps, Closing(y.braced));
  }

  lemma {:induction false} RulesLinesCost(rs: seq<D.RuleObject>, top: nat, y: Style)
    ensures LinesCost(RulesLines(rs, top, y)) == RulesCost(rs)
    decreases |rs|
  {
    if rs != [] {
      RuleLinesCost(rs[0], top, y);
      RulesLinesCost(rs[1..], top, y);
      LinesCostConcat(RuleLines(rs[0], top, y), RulesLines(rs[1..], top, y));
    }
  }

  lemma ClusterLinesCost(c: D.ClusterObject, top: nat, y: Style)
    ensures LinesCost(ClusterLines(c, top, y)) == Cost(c.predicates)
  {
    var a, b := Statement(top, y.braced, ClusterLine(c.name)), Statement(y.indent, false, MembersLine(c.rules));
    var ps := PredicateLines(c.predicates, y.indent);
    LineCosts(a);
    LineCosts(b);
    assert [a, b] == [a] + [b];
    LinesCostConcat([a], [b]);
    PredicateLinesCost(c.predicates, y.indent);
    ClosingCosts(y.braced);
    LinesCostConcat([a, b], ps);
    LinesCostConcat([a, b] + ps, Closing(y.braced));
  }

  lemma {:induction false} ClustersLinesCost(cs: seq<D.ClusterObject>, top: nat, y: Style)
    ensures LinesCost(ClustersLines(cs, top, y)) == ClustersCost(cs)
    decreases |cs|
  {
    if cs != [] {
      ClusterLinesCost(cs[0], top, y);
      ClustersLinesCost(cs[1..], top, y);
      LinesCostConcat(ClusterLines(cs[0], top, y), ClustersLines(cs[1..], top, y));
    }
  }

  lemma HeaderLinesCost(d: D.Document, y: Style)
    ensures LinesCost(HeaderLines(d, y)) == 0
  {
    var a, b, c := Statement(0, false, VersionLine), Statement(0, false, PackageLine(d.package)), Statement(0, y.braced, BundleLine(d.name));
    var package := if d.package == "" then [] else [b];
    LineCosts(a);
    LineCosts(b);
    LineCosts(c);
    LinesCostConcat([a], package);
    LinesCostConcat([a] + package, if d.name == "" then [] else [c]);
  }

  /** The statements of a layout are charged exactly what the document's quorum content comes to. */
  lemma LayoutCosts(d: D.Document, y: Style)
    ensures LinesCost(Layout(d, y)) == DocumentCost(d)
  {
    var top := TopIndent(d, y);
    var h, ps := HeaderLines(d, y), PredicateLines(d.predicates, top);
    var rs, ks := RulesLines(d.rules, top, y), ClustersLines(d.clusters, top, y);
    HeaderLinesCost(d, y);
    PredicateLinesCost(d.predicates, top);
    RulesLinesCost(d.rules, top, y);
    ClustersLinesCost(d.clusters, top, y);
    ClosingCosts(y.braced && d.name != "");
    LinesCostConcat(h, ps);
    LinesCostConcat(h + ps, rs);
    LinesCostConcat(h + ps + rs, ks);
    LinesCostConcat(h + ps + rs + ks, Closing(y.braced && d.name != ""));
  }

  // ---- main results ----

  /** A layout of a compiled bundle builds that bundle when its quorum content fits the budget, and is
      refused when it does not. */
  lemma LayoutRebuildsExactly(d: D.Document, y: Style)
    requires Concrete(d) && (y.braced || y.indent > 0)
    ensures Build(Layout(d, y)) == if DocumentCost(d) <= MaxBundleQuorumFields then D.Ok(d) else D.Err
  {
    LayoutCosts(d, y);
    if DocumentCost(d) <= MaxBundleQuorumFields {
      LayoutRebuilds(d, y);
    }
    if Run(Start, Layout(d, y)).Ok? {
      RunCharges(Start, Layout(d, y));
    }
  }

  /** The canonical text of a compiled bundle rebuilds it exactly when its quorum content fits the budget. */
  lemma CanonicalRebuildsExactly(d: D.Document)
    requires Concrete(d)
    ensures Build(CanonicalStatements(d)) == if DocumentCost(d) <= MaxBundleQuorumFields then D.Ok(d) else D.Err
  {
    LayoutRebuildsExactly(d, Style(1, false));
  }
}
