/** The canonical text of a compiled bundle, from its characters back to the document. */
module CanonicalText {
  import opened Lexer
  import opened Syntax
  import opened WordLines
  import D = Documents
  import opened DocumentBuilder
  import opened CanonicalLayout
  import opened CanonicalBudget
  import opened LineParsing
  import opened SourceText
  import opened CanonicalWords
  import opened LinesReadBack

  // ---- the canonical text ----

  /** A line for the statement, with an empty line before every rule and cluster. */
  function Written(st: Statement, pr: Printer): seq<TextLine>
    requires st.Statement?
  {
    (if st.line.RuleLine? || st.line.ClusterLine? then [Blank] else []) + [RowOf(st, pr)]
  }

  predicate Open(sts: seq<Statement>) {
    forall i :: 0 <= i < |sts| ==> sts[i].Statement?
  }

  function WrittenLines(sts: seq<Statement>, pr: Printer): seq<TextLine>
    requires Open(sts)
  {
    if sts == [] then [] else Written(sts[0], pr) + WrittenLines(sts[1..], pr)
  }

  // ---- every line of the layout can be written ----

  /** A statement that opens no block and whose line can be written. */
  ghost predicate Says(st: Statement, lib: Library, pr: Printer) {
    st.Statement? && !st.opens && Writable(st.line, lib, pr)
  }

  ghost predicate AllSay(sts: seq<Statement>, lib: Library, pr: Printer) {
    forall i :: 0 <= i < |sts| ==> Says(sts[i], lib, pr)
  }

  lemma AllSayConcat(a: seq<Statement>, b: seq<Statement>, lib: Library, pr: Printer)
    requires AllSay(a, lib, pr) && AllSay(b, lib, pr)
    ensures AllSay(a + b, lib, pr)
  {
  }

  ghost predicate WritablePredicates(ps: seq<D.PredicateObject>, lib: Library, pr: Printer) {
    forall i :: 0 <= i < |ps| ==> WritablePredicate(ps[i].parsed, lib, pr)
  }

  ghost predicate WritableCollector(c: D.CollectorObject, lib: Library, pr: Printer) {
    WritableHeader(c.header, lib, pr) && forall i :: 0 <= i < |c.signals| ==> WritableSignal(c.signals[i], lib, pr)
  }

  ghost predicate WritableRule(r: D.RuleObject, lib: Library, pr: Printer) {
    Writable(RuleLine(r.name, ""), lib, pr) && Writable(TargetLine(r.target), lib, pr) &&
    (forall i :: 0 <= i < |r.collectors| ==> WritableCollector(r.collectors[i], lib, pr)) &&
    WritablePredicates(r.predicates, lib, pr)
  }

  ghost predicate WritableCluster(c: D.ClusterObject, lib: Library, pr: Printer) {
    Writable(ClusterLine(c.name), lib, pr) && Writable(MembersLine(c.rules), lib, pr) && WritablePredicates(c.predicates, lib, pr)
  }

  /** Names are canonical, predicates in compiled form, and literals ones the library reads back. */
  ghost predicate WritableDocument(d: D.Document, lib: Library, pr: Printer) {
    (d.package == "" || Writable(PackageLine(d.package), lib, pr)) && (d.name == "" || Writable(BundleLine(d.name), lib, pr)) &&
    WritablePredicates(d.predicates, lib, pr) &&
    (forall i :: 0 <= i < |d.rules| ==> WritableRule(d.rules[i], lib, pr)) &&
    (forall i :: 0 <= i < |d.clusters| ==> WritableCluster(d.clusters[i], lib, pr))
  }

  lemma {:induction false} PredicateLinesSay(ps: seq<D.PredicateObject>, indent: nat, lib: Library, pr: Printer)
    requires WritablePredicates(ps, lib, pr)
    ensures AllSay(PredicateLines(ps, indent), lib, pr)
  {
    if ps != [] {
      var st := Statement(indent, false, PredicateLine(ps[0].parsed, FieldCount(ps[0].parsed)));
      OneSays(st, lib, pr);
      PredicateLinesSay(ps[1..], indent, lib, pr);
      AllSayConcat([st], PredicateLines(ps[1..], indent), lib, pr);
    }
  }

  lemma {:induction false} SignalLinesSay(signals: seq<D.SignalObject>, indent: nat, lib: Library, pr: Printer)
    requires forall i :: 0 <= i < |signals| ==> WritableSignal(signals[i], lib, pr)
    ensures AllSay(SignalLines(signals, indent), lib, pr)
  {
    if signals != [] {
      var st := Statement(indent, false, SignalLine(signals[0]));
      OneSays(st, lib, pr);
      SignalLinesSay(signals[1..], indent, lib, pr);
      AllSayConcat([st], SignalLines(signals[1..], indent), lib, pr);
    }
  }

  lemma OneSays(st: Statement, lib: Library, pr: Printer)
    requires Says(st, lib, pr)
    ensures AllSay([st], lib, pr)
  {
  }

  lemma CollectorSays(c: D.CollectorObject, indent: nat, lib: Library, pr: Printer)
    requires WritableCollector(c, lib, pr)
    ensures AllSay(CollectorLines(c, Style(indent, false)), lib, pr)
  {
    var head := Statement(indent, false, CollectorLine(c.header));
    OneSays(head, lib, pr);
    SignalLinesSay(c.signals, indent + 1, lib, pr);
    AllSayConcat([head], SignalLines(c.signals, indent + 1), lib, pr);
    OpenCollector(c, indent);
  }

  lemma OpenCollector(c: D.CollectorObject, indent: nat)
    ensures CollectorLines(c, Style(indent, false)) == [Statement(indent, false, CollectorLine(c.header))] + SignalLines(c.signals, indent + 1)
  {
  }

  lemma {:induction false} CollectorsSay(cs: seq<D.CollectorObject>, indent: nat, lib: Library, pr: Printer)
    requires forall i :: 0 <= i < |cs| ==> WritableCollector(cs[i], lib, pr)
    ensures AllSay(CollectorsLines(cs, Style(indent, false)), lib, pr)
  {
    if cs != [] {
      CollectorSays(cs[0], indent, lib, pr);
      CollectorsSay(cs[1..], indent, lib, pr);
      AllSayConcat(CollectorLines(cs[0], Style(indent, false)), CollectorsLines(cs[1..], Style(indent, false)), lib, pr);
    }
  }

  lemma RuleSays(r: D.RuleObject, indent: nat, lib: Library, pr: Printer)
    requires WritableRule(r, lib, pr)
    ensures AllSay(RuleLines(r, 0, Style(indent, false)), lib, pr)
  {
    var head := [Statement(0, false, RuleLine(r.name, "")), Statement(indent, false, TargetLine(r.target))];
    var cs, ps := CollectorsLines(r.collectors, Style(indent, false)), PredicateLines(r.predicates, indent);
    assert AllSay(head, lib, pr);
    CollectorsSay(r.collectors, indent, lib, pr);
    PredicateLinesSay(r.predicates, indent, lib, pr);
    AllSayConcat(head, cs, lib, pr);
    AllSayConcat(head + cs, ps, lib, pr);
    assert RuleLines(r, 0, Style(indent, false)) == head + cs + ps;
  }

  lemma {:induction false} RulesSay(rs: seq<D.RuleObject>, indent: nat, lib: Library, pr: Printer)
    requires forall i :: 0 <= i < |rs| ==> WritableRule(rs[i], lib, pr)
    ensures AllSay(RulesLines(rs, 0, Style(indent, false)), lib, pr)
  {
    if rs != [] {
      RuleSays(rs[0], indent, lib, pr);
      RulesSay(rs[1..], indent, lib, pr);
      AllSayConcat(RuleLines(rs[0], 0, Style(indent, false)), RulesLines(rs[1..], 0, Style(indent, false)), lib, pr);
    }
  }

  lemma ClusterSays(c: D.ClusterObject, indent: nat, lib: Library, pr: Printer)
    requires WritableCluster(c, lib, pr)
    ensures AllSay(ClusterLines(c, 0, Style(indent, false)), lib, pr)
  {
    var head := [Statement(0, false, ClusterLine(c.name)), Statement(indent, false, MembersLine(c.rules))];
    assert AllSay(head, lib, pr);
    PredicateLinesSay(c.predicates, indent, lib, pr);
    AllSayConcat(head, PredicateLines(c.predicates, indent), lib, pr);
    assert ClusterLines(c, 0, Style(indent, false)) == head + PredicateLines(c.predicates, indent);
  }

  lemma {:induction false} ClustersSay(cs: seq<D.ClusterObject>, indent: nat, lib: Library, pr: Printer)
    requires forall i :: 0 <= i < |cs| ==> WritableCluster(cs[i], lib, pr)
    ensures AllSay(ClustersLines(cs, 0, Style(indent, false)), lib, pr)
  {
    if cs != [] {
      ClusterSays(cs[0], indent, lib, pr);
      ClustersSay(cs[1..], indent, lib, pr);
      AllSayConcat(ClusterLines(cs[0], 0, Style(indent, false)), ClustersLines(cs[1..], 0, Style(indent, false)), lib, pr);
    }
  }

  lemma HeaderSays(d: D.Document, indent: nat, lib: Library, pr: Printer)
    requires WritableDocument(d, lib, pr)
    ensures AllSay(HeaderLines(d, Style(indent, false)), lib, pr)
  {
    var version := [Statement(0, false, VersionLine)];
    var package := if d.package == "" then [] else [Statement(0, false, PackageLine(d.package))];
    var bundle := if d.name == "" then [] else [Statement(0, false, BundleLine(d.name))];
    assert AllSay(version, lib, pr) && AllSay(package, lib, pr) && AllSay(bundle, lib, pr);
    AllSayConcat(version, package, lib, pr);
    AllSayConcat(version + package, bundle, lib, pr);
  }

  lemma CanonicalSays(d: D.Document, lib: Library, pr: Printer)
    requires WritableDocument(d, lib, pr)
    ensures AllSay(CanonicalStatements(d), lib, pr) && CanonicalStatements(d) != []
  {
    var y := Style(1, false);
    var h, ps, rs, cs := HeaderLines(d, y), PredicateLines(d.predicates, 0), RulesLines(d.rules, 0, y), ClustersLines(d.clusters, 0, y);
    HeaderSays(d, 1, lib, pr);
    PredicateLinesSay(d.predicates, 0, lib, pr);
    RulesSay(d.rules, 1, lib, pr);
    ClustersSay(d.clusters, 1, lib, pr);
    AllSayConcat(h, ps, lib, pr);
    AllSayConcat(h + ps, rs, lib, pr);
    AllSayConcat(h + ps + rs, cs, lib, pr);
    assert CanonicalStatements(d) == h + ps + rs + cs;
  }

  // ---- the text reads back ----

  /** `canonicalBundleText` */
  ghost function BundleText(d: D.Document, lib: Library, pr: Printer): string
    requires WritableDocument(d, lib, pr)
  {
    CanonicalSays(d, lib, pr);
    Text(WrittenLines(CanonicalStatements(d), pr))
  }

  function RowOf(st: Statement, pr: Printer): TextLine
    requires st.Statement?
  {
    Row(st.indent, CanonicalWords.LineText(st.line, pr), LineFields(st.line, pr))
  }

  function RowsOf(sts: seq<Statement>, pr: Printer): (rows: seq<TextLine>)
    requires Open(sts)
    ensures |rows| == |sts| && forall i :: 0 <= i < |sts| ==> rows[i] == RowOf(sts[i], pr)
  {
    if sts == [] then [] else [RowOf(sts[0], pr)] + RowsOf(sts[1..], pr)
  }

  lemma WrittenReads(st: Statement, lib: Library, pr: Printer)
    requires Says(st, lib, pr)
    ensures AllRead(Written(st, pr)) && Written(st, pr) != []
  {
    WritableLineReads(st.line, lib, pr);
  }

  lemma {:induction false} WrittenRows(sts: seq<Statement>, lib: Library, pr: Printer)
    requires AllSay(sts, lib, pr)
    ensures AllRead(WrittenLines(sts, pr)) && (sts != [] ==> WrittenLines(sts, pr) != [])
    ensures Rows(WrittenLines(sts, pr)) == RowsOf(sts, pr)
  {
    if sts != [] {
      var a, b := Written(sts[0], pr), WrittenLines(sts[1..], pr);
      WrittenReads(sts[0], lib, pr);
      WrittenRows(sts[1..], lib, pr);
      RowsConcat(a, b);
      AllReadConcat(a, b);
      OneRow(sts[0], pr);
    }
  }

  lemma AllReadConcat(a: seq<TextLine>, b: seq<TextLine>)
    requires AllRead(a) && AllRead(b)
    ensures AllRead(a + b)
  {
  }

  lemma {:induction false} RowsConcat(a: seq<TextLine>, b: seq<TextLine>)
    ensures Rows(a + b) == Rows(a) + Rows(b)
  {
    if a == [] {
      assert a + b == b;
    } else {
      assert (a + b)[0] == a[0] && (a + b)[1..] == a[1..] + b;
      RowsConcat(a[1..], b);
    }
  }

  lemma OneRow(st: Statement, pr: Printer)
    requires st.Statement?
    ensures Rows(Written(st, pr)) == [RowOf(st, pr)]
  {
    var row := RowOf(st, pr);
    assert [row][1..] == [] && Rows([row]) == [row];
    if st.line.RuleLine? || st.line.ClusterLine? {
      assert ([Blank] + [row])[1..] == [row];
    }
  }

  lemma RowIsStatement(ts: seq<LexToken>, st: Statement, lib: Library, pr: Printer)
    requires Says(st, lib, pr) && IsRow(ts, RowOf(st, pr))
    ensures StatementOf(ts, lib) == st
  {
    LineReadsBack(st.line, lib, pr);
  }

  lemma AreRowsTail(lexed: seq<seq<LexToken>>, rows: seq<TextLine>)
    requires rows != [] && AreRows(lexed, rows)
    ensures lexed != [] && rows[0].Row? && IsRow(lexed[0], rows[0]) && AreRows(lexed[1..], rows[1..])
  {
  }

  lemma RowsAreNotEmpty(lexed: seq<seq<LexToken>>, rows: seq<TextLine>)
    requires AreRows(lexed, rows)
    ensures NoneEmpty(lexed)
  {
    forall i | 0 <= i < |lexed|
      ensures lexed[i] != []
    {
      assert IsRow(lexed[i], rows[i]);
    }
  }

  lemma StatementsCons(lexed: seq<seq<LexToken>>, lib: Library)
    requires lexed != [] && NoneEmpty(lexed)
    ensures StatementsOf(lexed, lib) == [StatementOf(lexed[0], lib)] + StatementsOf(lexed[1..], lib)
  {
  }

  lemma {:induction false} RowsAreStatements(lexed: seq<seq<LexToken>>, sts: seq<Statement>, lib: Library, pr: Printer)
    requires AllSay(sts, lib, pr) && AreRows(lexed, RowsOf(sts, pr)) && NoneEmpty(lexed)
    ensures StatementsOf(lexed, lib) == sts
  {
    if sts != [] {
      AreRowsTail(lexed, RowsOf(sts, pr));
      assert RowsOf(sts, pr)[1..] == RowsOf(sts[1..], pr);
      RowIsStatement(lexed[0], sts[0], lib, pr);
      RowsAreStatements(lexed[1..], sts[1..], lib, pr);
      StatementsCons(lexed, lib);
      assert sts == [sts[0]] + sts[1..];
    }
  }

  /** Lexing the canonical text, splitting it into statements and reading their fields gives the statements it was
      written from. */
  lemma CanonicalTextReads(d: D.Document, lib: Library, pr: Printer)
    requires WritableDocument(d, lib, pr)
    ensures BuildSource(BundleText(d, lib, pr), lib) == Build(CanonicalStatements(d))
  {
    var sts := CanonicalStatements(d);
    CanonicalSays(d, lib, pr);
    var ls := WrittenLines(sts, pr);
    WrittenRows(sts, lib, pr);
    var ts := TextReads(ls, 1);
    var end := LexToken(Eof, "", Move(Place(1, 1), Text(ls)));
    assert AreRows(Statements(ts + [end], []), Rows(ls));
    RowsAreNotEmpty(Statements(ts + [end], []), Rows(ls));
    RowsAreStatements(Statements(ts + [end], []), sts, lib, pr);
  }

  /** The canonical text of a compiled bundle builds that bundle when its quorum content fits the budget, and is
      refused when it does not. */
  lemma CanonicalTextRebuilds(d: D.Document, lib: Library, pr: Printer)
    requires Concrete(d) && WritableDocument(d, lib, pr)
    ensures BuildSource(BundleText(d, lib, pr), lib) == if DocumentCost(d) <= MaxBundleQuorumFields then D.Ok(d) else D.Err
  {
    CanonicalTextReads(d, lib, pr);
    CanonicalRebuildsExactly(d);
  }
}
