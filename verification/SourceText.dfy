/** From a source text to a document: lexing, splitting, reading fields, building. */
module SourceText {
  import opened Lexer
  import opened Syntax
  import D = Documents
  import opened DocumentBuilder
  import opened LineParsing

  predicate Holds(ts: seq<LexToken>, kind: Kind) {
    exists i :: 0 <= i < |ts| && ts[i].kind == kind
  }

  /** A lexed statement as the builder takes it. */
  function StatementOf(ts: seq<LexToken>, lib: Library): Statement
    requires ts != []
  {
    if |ts| == 1 && ts[0].kind == RBrace then CloseOnly
    else if Holds(ts, RBrace) then StrayClose
    else Statement(if ts[0].place.column == 0 then 0 else ts[0].place.column - 1, Holds(ts, LBrace), ReadLine(SyntaxFields(ts), lib))
  }

  predicate NoneEmpty(sts: seq<seq<LexToken>>) {
    forall i :: 0 <= i < |sts| ==> sts[i] != []
  }

  function StatementsOf(sts: seq<seq<LexToken>>, lib: Library): seq<Statement>
    requires NoneEmpty(sts)
  {
    if sts == [] then [] else [StatementOf(sts[0], lib)] + StatementsOf(sts[1..], lib)
  }

  /** The statements of the lexed text. */
  function SourceStatements(ts: seq<LexToken>, lib: Library): seq<Statement> {
    StatementsAreLines(ts, []);
    StatementsOf(Statements(ts, []), lib)
  }

  function BuildSource(source: string, lib: Library): D.Result<D.Document> {
    match Lex(source)
    case Failed => D.Err
    case Tokens(ts) => Build(SourceStatements(ts, lib))
  }

  method TakeStatement(ts: seq<LexToken>, lib: Library) returns (st: Statement)
    requires ts != []
    ensures st == StatementOf(ts, lib)
  {
    if |ts| == 1 && ts[0].kind == RBrace {
      return CloseOnly;
    }
    if exists i :: 0 <= i < |ts| && ts[i].kind == RBrace {
      return StrayClose;
    }
    var fields := FieldsOfStatement(ts);
    st := Statement(if ts[0].place.column == 0 then 0 else ts[0].place.column - 1, Holds(ts, LBrace), ReadLine(fields, lib));
  }

  lemma {:induction false} StatementsOfSnoc(a: seq<seq<LexToken>>, ts: seq<LexToken>, lib: Library)
    requires ts != [] && NoneEmpty(a)
    ensures NoneEmpty(a + [ts])
    ensures StatementsOf(a + [ts], lib) == StatementsOf(a, lib) + [StatementOf(ts, lib)]
  {
    if a == [] {
      assert [] + [ts] == [ts] && [ts][1..] == [];
    } else {
      assert (a + [ts])[0] == a[0] && (a + [ts])[1..] == a[1..] + [ts];
      StatementsOfSnoc(a[1..], ts, lib);
    }
  }

  method TakeStatements(lines: seq<seq<LexToken>>, lib: Library) returns (sts: seq<Statement>)
    requires NoneEmpty(lines)
    ensures sts == StatementsOf(lines, lib)
  {
    sts := [];
    for i := 0 to |lines|
      invariant sts == StatementsOf(lines[..i], lib)
    {
      var st := TakeStatement(lines[i], lib);
      StatementsOfSnoc(lines[..i], lines[i], lib);
      assert lines[..i + 1] == lines[..i] + [lines[i]];
      sts := sts + [st];
    }
    assert lines[..|lines|] == lines;
  }

  /** `ParseDocument` */
  method ParseDocument(source: string, lib: Library) returns (r: D.Result<D.Document>)
    ensures r == BuildSource(source, lib)
  {
    var scanner := new Scanner(source);
    assert source[0..] == source;
    var lexed := scanner.LexAll();
    if lexed.Failed? {
      return D.Err;
    }
    StatementsAreLines(lexed.tokens, []);
    var lines := SyntaxStatements(lexed.tokens);
    var sts := TakeStatements(lines, lib);
    r := BuildDocument(sts);
  }
}
