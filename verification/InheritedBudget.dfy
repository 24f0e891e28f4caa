/** A document that compiles and whose canonical text does not: inherited quorums are charged once in the source
    and once per heir in the canonical text, so a bundle can outgrow the source it was compiled from. */
module InheritedBudget {
  import opened Names
  import opened Evidence
  import D = Documents
  import opened DocumentBuilder
  import opened CanonicalLayout
  import opened CanonicalBudget
  import opened CompiledDocuments
  import opened Syntax
  import opened LineParsing
  import opened SourceText
  import opened CanonicalWords
  import opened CanonicalText
  import SmallBundle
  import opened HeirBundle

  const Asked: D.PredicateObject := D.PredicateObject(SmallBundle.Gate, false)

  function Gates(n: nat): (ps: seq<D.PredicateObject>)
    ensures |ps| == n && forall i :: 0 <= i < n ==> ps[i] == Asked
  {
    if n == 0 then [] else [Asked] + Gates(n - 1)
  }

  lemma {:induction false} GatesCost(n: nat)
    ensures Cost(Gates(n)) == 4 * n && NothingCarved(Gates(n))
  {
    if n > 0 {
      GatesCost(n - 1);
      assert Gates(n)[1..] == Gates(n - 1);
    }
  }

  /** A collector with one signal. */
  function Declares(name: string, source: string, signal: string): D.CollectorObject {
    D.CollectorObject(D.CollectorHeader(name, "p", "k", source, ""), [D.SignalObject(signal, "number", "f", "", false, "ttl", "60s")])
  }

  function Base(n: nat): D.RuleObject {
    D.RuleObject("a", true, "", "", [], Gates(n))
  }

  function Heir(name: string, c: D.CollectorObject): D.RuleObject {
    D.RuleObject(name, false, "a", "t", [c], [])
  }

  const Braced: Style := Style(1, true)

  function BaseLines(n: nat): seq<Statement> {
    [Statement(0, true, AbstractLine("a", ""))] + PredicateLines(Gates(n), 1) + [CloseOnly]
  }

  function HeirLines(name: string, c: D.CollectorObject): seq<Statement> {
    [Statement(0, true, RuleLine(name, "a"))] + [Statement(1, false, TargetLine("t"))] + CollectorsLines([c], Braced) + [CloseOnly]
  }

  const First: D.CollectorObject := Declares("c", "u", "s")

  const Second: D.CollectorObject := Declares("d", "v", "e")

  /** An abstract rule with `n` quorums on one collector, and two rules that extend it, each with a collector of its
      own. */
  function Family(n: nat): seq<Statement> {
    BaseLines(n) + HeirLines("x", First) + HeirLines("y", Second)
  }

  /** Between two top-level blocks. */
  predicate AtRest(s: State) {
    s.rule == None && s.cluster == None && s.collector == None && s.stack == [] && s.quorumFields <= MaxBundleQuorumFields
  }

  lemma OpenBlockRule(s: State, line: Line, r: D.RuleObject) returns (t: State)
    requires AtRest(s) && r.collectors == [] && r.predicates == [] && r.target == ""
    requires (r.isAbstract && line == AbstractLine(r.name, r.parent)) || (!r.isAbstract && line == RuleLine(r.name, r.parent))
    ensures Leads(s, [Statement(0, true, line)], t)
    ensures t == s.(rule := Some(r), stack := [RuleBlock], indented := false)
  {
    var st := Statement(0, true, line);
    assert Step(s, st) == TopStep(s.(quorumFields := s.quorumFields), true, line);
    t := TopStep(s.(quorumFields := s.quorumFields), true, line).value;
    assert [] + [RuleBlock] == [RuleBlock];
    RunOne(s, st, t);
  }

  lemma RunBase(s: State, n: nat) returns (t: State)
    requires AtRest(s) && s.quorumFields + 4 * n <= MaxBundleQuorumFields
    ensures Leads(s, BaseLines(n), t)
    ensures AtRest(t) && t.doc == s.doc.(abstracts := s.doc.abstracts + [Base(n)])
  {
    var open := [Statement(0, true, AbstractLine("a", ""))];
    var a := OpenBlockRule(s, AbstractLine("a", ""), D.RuleObject("a", true, "", "", [], []));
    GatesCost(n);
    var b := RunRulePredicates(a, Gates(n), 1);
    assert [] + Gates(n) == Gates(n);
    assert b.stack == [] + [RuleBlock];
    t := CloseLast(b, [], RuleBlock);
    BaseFiled(a, b, n, t);
    Chain(s, open, a, PredicateLines(Gates(n), 1), b);
    Chain(s, open + PredicateLines(Gates(n), 1), b, [CloseOnly], t);
  }

  lemma BaseFiled(a: State, b: State, n: nat, t: State)
    requires a.rule == Some(D.RuleObject("a", true, "", "", [], [])) && a.collector == None
    requires Adds(a, b, Gates(n), Gates(n)) && b.stack == [RuleBlock] && CloseBlock(b) == D.Ok(t)
    ensures AtRest(t) && t.doc == a.doc.(abstracts := a.doc.abstracts + [Base(n)])
  {
    assert b.stack[..0] == [] && [] + Gates(n) == Gates(n);
    assert View(b).rule == Some(Base(n)) && View(b).doc == a.doc;
  }

  lemma RunHeir(s: State, name: string, c: D.CollectorObject) returns (t: State)
    requires AtRest(s)
    ensures Leads(s, HeirLines(name, c), t)
    ensures AtRest(t) && t.doc == s.doc.(rules := s.doc.rules + [Heir(name, c)])
  {
    var open, target := [Statement(0, true, RuleLine(name, "a"))], [Statement(1, false, TargetLine("t"))];
    var a := OpenBlockRule(s, RuleLine(name, "a"), D.RuleObject(name, false, "a", "", [], []));
    var b := RunTarget(a, "t", 1);
    var e := RunCollectors(b, [c], Braced);
    assert [] + [c] == [c] && e.stack == View(e).stack == [] + [RuleBlock];
    t := CloseLast(e, [], RuleBlock);
    HeirFiled(b, e, name, c, t);
    Chain(s, open, a, target, b);
    Chain(s, open + target, b, CollectorsLines([c], Braced), e);
    Chain(s, open + target + CollectorsLines([c], Braced), e, [CloseOnly], t);
  }

  lemma HeirFiled(b: State, e: State, name: string, c: D.CollectorObject, t: State)
    requires b.rule == Some(D.RuleObject(name, false, "a", "t", [], [])) && b.collector == None && InBody(b) && InBody(e)
    requires View(e) == View(b).(rule := Some(Heir(name, c))) && e.stack == [RuleBlock] && CloseBlock(e) == D.Ok(t)
    ensures AtRest(t) && t.doc == b.doc.(rules := b.doc.rules + [Heir(name, c)])
  {
    assert e.stack[..0] == [];
    assert e.quorumFields == View(e).quorumFields;
  }

  lemma ThreeBlocks(s: State, p: seq<Statement>, a: State, q: seq<Statement>, b: State, r: seq<Statement>, t: State)
    requires Leads(s, p, a) && Leads(a, q, b) && Leads(b, r, t)
    ensures Run(s, p + q + r) == D.Ok(t)
  {
    Chain(s, p, a, q, b);
    Chain(s, p + q, b, r, t);
    RunAll(s, p + q + r, t);
  }

  lemma BlocksRun(s: State, n: nat, x: string, c: D.CollectorObject, y: string, d: D.CollectorObject) returns (t: State)
    requires AtRest(s) && s.quorumFields + 4 * n <= MaxBundleQuorumFields
    ensures Run(s, BaseLines(n) + HeirLines(x, c) + HeirLines(y, d)) == D.Ok(t) && AtRest(t)
    ensures t.doc == s.doc.(abstracts := s.doc.abstracts + [Base(n)], rules := s.doc.rules + [Heir(x, c)] + [Heir(y, d)])
  {
    var a := RunBase(s, n);
    var b := RunHeir(a, x, c);
    t := RunHeir(b, y, d);
    ThreeBlocks(s, BaseLines(n), a, HeirLines(x, c), b, HeirLines(y, d), t);
  }

  lemma FamilyRuns(n: nat) returns (t: State)
    requires 4 * n <= MaxBundleQuorumFields
    ensures Run(Start, Family(n)) == D.Ok(t) && AtRest(t)
    ensures t.doc == EmptyDocument.(abstracts := [Base(n)], rules := [Heir("x", First), Heir("y", Second)])
  {
    t := BlocksRun(Start, n, "x", First, "y", Second);
    assert [] + [Base(n)] == [Base(n)] && [] + [Heir("x", First)] + [Heir("y", Second)] == [Heir("x", First), Heir("y", Second)];
  }

  // ---- expansion ----

  /** What an heir becomes: it carries every quorum of the abstract rule. */
  function Expanded(name: string, c: D.CollectorObject, n: nat): D.RuleObject {
    D.RuleObject(name, false, "", "t", [c], Gates(n))
  }

  lemma FixedNames()
    ensures NormalizeIdentifier("a") == "a" && NormalizeIdentifier("") == ""
  {
    assert Lower("a") == "a" && Lower("") == "";
  }

  lemma HeirExpands(name: string, c: D.CollectorObject, n: nat, abstracts: D.Abstracts)
    requires abstracts == map["a" := Base(n)]
    ensures D.Expand(Heir(name, c), abstracts, {}) == D.Ok(Expanded(name, c, n))
  {
    FixedNames();
    var base, heir := Base(n), Heir(name, c);
    assert base.(parent := "") == base;
    assert D.Expand(abstracts["a"], abstracts, {} + {"a"}) == D.Ok(base);
    assert base.collectors + heir.collectors == [c] && Gates(n) + [] == Gates(n);
    assert D.Merge(heir, base) == Expanded(name, c, n);
  }

  lemma BaseIndexed(n: nat)
    ensures D.AbstractIndex([Base(n)]) == D.Ok(map["a" := Base(n)])
  {
    FixedNames();
    var base := Base(n);
    assert base.(name := "a", parent := "") == base;
    assert [base][..0] == [];
    assert map[]["a" := base] == map["a" := base];
  }

  lemma TwoExpand(x: D.RuleObject, y: D.RuleObject, abstracts: D.Abstracts, u: D.RuleObject, v: D.RuleObject)
    requires D.Expand(x, abstracts, {}) == D.Ok(u) && D.Expand(y, abstracts, {}) == D.Ok(v)
    ensures D.ExpandEach([x, y], abstracts) == D.Ok([u, v])
  {
    ExpandOneMore([], x, abstracts, [], u);
    assert [] + [x] == [x] && [] + [u] == [u];
    ExpandOneMore([x], y, abstracts, [u], v);
    assert [x] + [y] == [x, y] && [u] + [v] == [u, v];
  }

  lemma HeirsExpand(n: nat)
    ensures D.ExpandEach([Heir("x", First), Heir("y", Second)], map["a" := Base(n)]) ==
            D.Ok([Expanded("x", First, n), Expanded("y", Second, n)])
  {
    var abstracts: D.Abstracts := map["a" := Base(n)];
    HeirExpands("x", First, n, abstracts);
    HeirExpands("y", Second, n, abstracts);
    TwoExpand(Heir("x", First), Heir("y", Second), abstracts, Expanded("x", First, n), Expanded("y", Second, n));
  }

  /** What the builder makes of the family: inheritance written out, the abstract rule kept beside it. */
  function FamilyDocument(n: nat): D.Document {
    EmptyDocument.(abstracts := [Base(n)], rules := [Expanded("x", First, n), Expanded("y", Second, n)])
  }

  lemma FamilyBuilds(n: nat)
    requires 4 * n <= MaxBundleQuorumFields
    ensures Build(Family(n)) == D.Ok(FamilyDocument(n))
  {
    var t := FamilyRuns(n);
    BaseIndexed(n);
    HeirsExpand(n);
    assert FlushCluster(FlushRule(t)).doc == t.doc;
  }

  // ---- the bundle ----

  lemma DeclaresReads(name: string, source: string, signal: string)
    ensures CollectorReads(Declares(name, source, signal), Reporter(name, source, signal))
  {
    SmallBundle.LetterIsClean("p");
    SmallBundle.LetterIsClean("k");
    assert KindText(NumberKind) == "number";
  }

  lemma FamilyReads(n: nat)
    ensures Reads(FamilyDocument(n), Heirs(n))
  {
    DeclaresReads("c", "u", "s");
    DeclaresReads("d", "v", "e");
    assert PredicatesRead(Gates(n), Same(n));
    assert RuleReads(Expanded("x", First, n), Watcher(n)) && RuleReads(Expanded("y", Second, n), Listener(n));
  }

  /** The document the compiled bundle is laid out from: no abstract rule is left. */
  function Compiled(d: D.Document): D.Document {
    d.(abstracts := [])
  }

  lemma CompiledFamilyCosts(n: nat)
    ensures Concrete(Compiled(FamilyDocument(n))) && DocumentCost(Compiled(FamilyDocument(n))) == 8 * n
  {
    var x, y := Expanded("x", First, n), Expanded("y", Second, n);
    GatesCost(n);
    assert [x, y][1..] == [y] && [y][1..] == [];
    assert RulesCost([y]) == 4 * n;
  }

  /** Statements that fit the budget build a document that compiles, and the canonical text of the bundle it
      compiles to is refused. */
  lemma InheritedQuorumsOverrun(n: nat)
    requires 4 * n <= MaxBundleQuorumFields < 8 * n
    ensures Build(Family(n)) == D.Ok(FamilyDocument(n)) && CompilesTo(FamilyDocument(n), Heirs(n))
    ensures Concrete(Compiled(FamilyDocument(n))) && CompilesTo(Compiled(FamilyDocument(n)), Heirs(n))
    ensures Build(CanonicalStatements(Compiled(FamilyDocument(n)))) == D.Err
  {
    FamilyBuilds(n);
    FamilyReads(n);
    HeirsCompile(n);
    CompiledFamilyCosts(n);
    CanonicalRebuildsExactly(Compiled(FamilyDocument(n)));
  }

  // ---- the canonical text itself ----

  /** The library reads back the one number of the family. */
  predicate ReadsOne(lib: Library, pr: Printer) {
    IsDigits(pr.digits(1)) && lib.number(pr.digits(1)) == Some(1.0)
  }

  lemma DeclaresIsWritable(name: string, source: string, signal: string, lib: Library, pr: Printer)
    requires |name| == |source| == |signal| == 1 && 'a' <= name[0] <= 'z' && 'a' <= source[0] <= 'z' && 'a' <= signal[0] <= 'z'
    ensures WritableCollector(Declares(name, source, signal), lib, pr)
  {
    SmallBundle.LetterIsClean(name);
    SmallBundle.LetterIsClean(signal);
    SmallBundle.LetterIsClean("p");
    SmallBundle.LetterIsClean("k");
    SmallBundle.MinuteIsReadable();
    assert Lower("60s") == "60s";
  }

  lemma GatesAreWritable(n: nat, lib: Library, pr: Printer)
    requires ReadsOne(lib, pr)
    ensures WritablePredicates(Gates(n), lib, pr)
  {
    SmallBundle.LetterIsClean("c");
    assert WritablePredicate(SmallBundle.Gate, lib, pr);
  }

  lemma ExpandedIsWritable(name: string, c: D.CollectorObject, n: nat, lib: Library, pr: Printer)
    requires |name| == 1 && 'a' <= name[0] <= 'z' && ReadsOne(lib, pr) && WritableCollector(c, lib, pr)
    ensures WritableRule(Expanded(name, c, n), lib, pr)
  {
    SmallBundle.LetterIsClean(name);
    SmallBundle.LetterIsClean("t");
    GatesAreWritable(n, lib, pr);
  }

  lemma FamilyIsWritable(n: nat, lib: Library, pr: Printer)
    requires ReadsOne(lib, pr)
    ensures WritableDocument(Compiled(FamilyDocument(n)), lib, pr)
  {
    DeclaresIsWritable("c", "u", "s", lib, pr);
    DeclaresIsWritable("d", "v", "e", lib, pr);
    ExpandedIsWritable("x", First, n, lib, pr);
    ExpandedIsWritable("y", Second, n, lib, pr);
  }

  /** The text that `canonicalBundleText` writes for the compiled family is no source text of anything. */
  lemma InheritedTextOverruns(n: nat, lib: Library, pr: Printer)
    requires 4 * n <= MaxBundleQuorumFields < 8 * n && ReadsOne(lib, pr)
    ensures WritableDocument(Compiled(FamilyDocument(n)), lib, pr)
    ensures BuildSource(BundleText(Compiled(FamilyDocument(n)), lib, pr), lib) == D.Err
  {
    FamilyIsWritable(n, lib, pr);
    CompiledFamilyCosts(n);
    CanonicalTextRebuilds(Compiled(FamilyDocument(n)), lib, pr);
  }
}
