/** From source text to quorum fields, and why what parses normalises. */
module LexedSource {
  import opened Names
  import opened QuorumSyntax
  import opened QuorumRoundTrip
  import opened QuorumText
  import opened QuorumNormal
  import opened QuorumCompile
  import Lexer
  import opened Syntax

  // ---- what the lexer yields ----

  /** How the literal of a token is spelled. */
  predicate Spelled(t: Lexer.LexToken) {
    match t.kind
    case String => t.literal != "" && (t.literal[0] == '"' || t.literal[0] == '\'')
    case Identifier => Bare(t.literal)
    case Number => Bare(t.literal)
    case Bool => Bare(t.literal)
    case Operator => OneLexeme(t.literal) || t.literal == "!="
    case _ => true
  }

  predicate Bare(s: string) {
    forall i :: 0 <= i < |s| ==> !IsSeparator(s[i])
  }

  lemma LexemeIsSpelled(s: string, at: Lexer.Place)
    requires s != "" && Lexer.FirstLexeme(s).Emit?
    ensures var x := Lexer.FirstLexeme(s); Spelled(Lexer.LexToken(x.kind, x.literal, at))
  {
    var x := Lexer.FirstLexeme(s);
    if Lexer.StartsAtom(s[0]) && s[0] != '#' && s[0] != '"' && s[0] != '\'' {
      var k := Lexer.AtomLength(s);
      assert forall i :: 0 <= i < k ==> !Lexer.EndsAtom(s[i]);
      assert forall i :: 0 <= i < |x.literal| ==> x.literal[i] == s[i];
    }
  }

  /** Every token of a lexed text is spelled as its kind says. */
  lemma {:induction false} LexedIsSpelled(s: string, p: Lexer.Place)
    requires Lexer.LexFrom(s, p).Tokens?
    ensures forall t :: t in Lexer.LexFrom(s, p).tokens ==> Spelled(t)
    decreases |s|
  {
    if s != "" {
      var x := Lexer.FirstLexeme(s);
      LexedIsSpelled(s[x.len..], Lexer.Move(p, s[..x.len]));
      if x.Emit? {
        LexemeIsSpelled(s, p);
      }
    }
  }

  // ---- the fields of a statement ----

  /** `count(` in any letter case at the front of a field. */
  predicate OpensCall(f: string) {
    |f| > 5 && f[5] == '(' && Lower(f[..5]) == "count"
  }

  predicate Quoted(f: string) {
    f != "" && (f[0] == '"' || f[0] == '\'')
  }

  predicate Shaped(f: string) {
    OneLexeme(f) || f == "!=" || Quoted(f) || OpensCall(f)
  }

  lemma {:induction false} CallBodyGrows(ts: seq<Lexer.LexToken>, text: string)
    ensures text <= CallBody(ts, text)
    decreases |ts|
  {
    if ts != [] {
      var next := if ts[0].kind == Lexer.Comma then text + ", "
                  else if ts[0].kind == Lexer.LParen then text + "("
                  else if ts[0].kind == Lexer.RParen then text + ")"
                  else (if NeedsCallSpace(text) then text + " " else text) + ts[0].literal;
      CallBodyGrows(ts[1..], next);
      assert text <= next;
    }
  }

  lemma CallOpens(ts: seq<Lexer.LexToken>)
    requires CallLength(ts) > 0
    ensures OpensCall(CallText(ts))
  {
    var name := ts[0].literal;
    var text := name + "(";
    CallBodyGrows(ts[2..CallLength(ts) - 1], text);
    assert |Lower(name)| == |name| == 5;
    assert CallText(ts)[..5] == name && CallText(ts)[5] == '(';
  }

  /** What a statement on one line yields, field by field. */
  lemma {:induction false} FieldsAreShaped(ts: seq<Lexer.LexToken>)
    requires OnOneLine(ts) && forall t :: t in ts ==> Spelled(t)
    ensures forall f :: f in SyntaxFields(ts) ==> Shaped(f)
    decreases |ts|
  {
    if ts != [] {
      StepIsShaped(ts);
      var rest := ts[Syntax.FieldStep(ts).1..];
      assert forall i :: 0 <= i < |rest| ==> rest[i] == ts[Syntax.FieldStep(ts).1 + i];
      FieldsAreShaped(rest);
    }
  }

  lemma StepIsShaped(ts: seq<Lexer.LexToken>)
    requires ts != [] && OnOneLine(ts) && Spelled(ts[0])
    ensures forall f :: f in Syntax.FieldStep(ts).0 ==> Shaped(f)
  {
    if CallLength(ts) > 0 {
      CallOpens(ts);
    }
  }

  // ---- cutting at `+` ----

  lemma {:induction false} SplitStaysBare(field: string, part: string)
    requires Bare(field) && Bare(part)
    ensures forall f :: f in SplitPlus(field, part) ==> Bare(f)
    decreases |field|
  {
    if field != "" {
      if field[0] == '+' {
        SplitStaysBare(field[1..], "");
        assert Bare("+");
      } else {
        SplitStaysBare(field[1..], part + [field[0]]);
      }
    }
  }

  /** The first piece keeps the text before the first `+`. */
  lemma {:induction false} SplitKeepsHead(field: string, part: string, head: string)
    requires head <= part + field && part + head != "" && '+' !in head && |part| <= |head|
    ensures SplitPlus(field, part) != [] && head <= SplitPlus(field, part)[0]
    decreases |field|
  {
    if |part| == |head| {
      assert part == head;
      SplitKeepsPart(field, part);
    } else {
      assert field[0] == head[|part|];
      assert part + [field[0]] + field[1..] == part + field;
      SplitKeepsHead(field[1..], part + [field[0]], head);
    }
  }

  lemma {:induction false} SplitKeepsPart(field: string, part: string)
    requires part != ""
    ensures SplitPlus(field, part) != [] && part <= SplitPlus(field, part)[0]
    decreases |field|
  {
    if field != "" && field[0] != '+' {
      SplitKeepsPart(field[1..], part + [field[0]]);
    }
  }

  function Pieces(f: string): seq<string> {
    if '+' in f then SplitPlus(f, "") else [f]
  }

  lemma {:induction false} PieceOf(fields: seq<string>, g: string) returns (f: string)
    requires g in SplitPlusFields(fields)
    ensures f in fields && g in Pieces(f)
  {
    if g in Pieces(fields[0]) {
      f := fields[0];
    } else {
      f := PieceOf(fields[1..], g);
    }
  }

  lemma {:induction false} PiecesAreFields(fields: seq<string>, f: string)
    requires f in fields
    ensures forall g :: g in Pieces(f) ==> g in SplitPlusFields(fields)
  {
    if fields[0] != f {
      PiecesAreFields(fields[1..], f);
    }
  }

  // ---- what never parses ----

  lemma {:induction false} FieldTokensIn(fields: seq<string>, f: string) returns (a: seq<Token>, b: seq<Token>)
    requires f in fields
    ensures AllTokens(fields) == a + FieldTokens(f) + b
  {
    if fields[0] == f {
      a, b := [], AllTokens(fields[1..]);
    } else {
      var c;
      c, b := FieldTokensIn(fields[1..], f);
      a := FieldTokens(fields[0]) + c;
      assert FieldTokens(fields[0]) + (c + FieldTokens(f) + b) == a + FieldTokens(f) + b;
    }
  }

  /** In fields that parse, every word names a subject. */
  lemma ParsedWordsAreNames(fields: seq<string>, f: string, w: string)
    requires ParseFields(fields).Ok? && f in fields && w in Words(FieldTokens(f))
    ensures IsIdentifier(w)
  {
    var a, b := FieldTokensIn(fields, f);
    WordsConcat(a + FieldTokens(f), b);
    WordsConcat(a, FieldTokens(f));
    ParseBounds(Capped(AllTokens(fields)));
    var e := ParseFields(fields).value;
    assert w in Leaves(e);
    LeavesOfWellFormed(e);
  }

  lemma ParsedFieldsHoldNoCall(fields: seq<string>, f: string)
    requires ParseFields(fields).Ok? && f in fields
    ensures !CallAt(FieldTokens(f), 0)
  {
    var a, b := FieldTokensIn(fields, f);
    ParseBounds(Capped(AllTokens(fields)));
    ParsedHasNoCall(AllTokens(fields), |a|);
    CallShifts(a, FieldTokens(f), b);
  }

  lemma CallShifts(a: seq<Token>, ts: seq<Token>, b: seq<Token>)
    ensures CallAt(ts, 0) ==> CallAt(a + ts + b, |a|)
  {
  }

  lemma {:induction false} ScanKeepsWord(s: string, word: string)
    requires word != ""
    ensures Scan(s, word) != [] && Scan(s, word)[0].Word? && word <= Scan(s, word)[0].text
    decreases |s|
  {
    if s != "" && !IsQuorumSymbol(s[0]) {
      ScanKeepsWord(s[1..], word + [s[0]]);
    }
  }

  lemma {:induction false} ScanWordThenSymbol(name: string, c: char, rest: string, word: string)
    requires (forall i :: 0 <= i < |name| ==> !IsQuorumSymbol(name[i])) && IsQuorumSymbol(c) && word + name != ""
    ensures Scan(name + [c] + rest, word) == [Word(word + name), SymbolToken(c)] + Scan(rest, "")
    decreases |name|
  {
    var s := name + [c] + rest;
    if name == "" {
      assert s[0] == c && s[1..] == rest && word + name == word;
    } else {
      assert s[0] == name[0] && s[1..] == name[1..] + [c] + rest;
      assert word + [name[0]] + name[1..] == word + name;
      ScanWordThenSymbol(name[1..], c, rest, word + [name[0]]);
    }
  }

  lemma {:induction false} FirstStays(s: string)
    requires s != "" && !IsSpace(s[0])
    ensures TrimRight(s) != "" && TrimRight(s)[0] == s[0]
    decreases |s|
  {
    if IsSpace(s[|s| - 1]) {
      FirstStays(s[..|s| - 1]);
    }
  }

  /** A field that starts with a quote scans to a word no subject can have. */
  lemma QuotedIsNoName(f: string) returns (w: string)
    requires Quoted(f)
    ensures w in Words(FieldTokens(f)) && !IsIdentifier(w)
  {
    assert Lower(f)[0] == f[0] && !IsOperatorWord(f);
    ScanKeepsWord(f[1..], [f[0]]);
    var ts := Scan(f, "");
    assert ts == Scan(f[1..], "" + [f[0]]) && "" + [f[0]] == [f[0]];
    var text := ts[0].text;
    FirstStays(text);
    w := NormalizeIdentifier(text);
    assert [f[0]][0] == f[0] && text[0] == f[0];
    assert TrimLeft(text) == text;
    assert w[0] == LowerChar(TrimRight(text)[0]) == f[0];
    assert Words(ts) == [w] + Words(ts[1..]);
  }

  lemma CallIsCall(f: string)
    requires OpensCall(f)
    ensures CallAt(FieldTokens(f), 0)
  {
    var name, rest := f[..5], f[6..];
    assert f == name + ['('] + rest;
    CountLetters(name);
    assert |Lower(f)| == |f| > 5 && !IsOperatorWord(f);
    ScanWordThenSymbol(name, '(', rest, "");
  }

  lemma CountLetters(name: string)
    requires Lower(name) == "count"
    ensures |name| == 5 && '+' !in name && forall i :: 0 <= i < |name| ==> !IsQuorumSymbol(name[i])
  {
    assert |Lower(name)| == |name|;
    forall i | 0 <= i < |name|
      ensures name[i] != '+' && !IsQuorumSymbol(name[i])
    {
      assert LowerChar(name[i]) == Lower(name)[i] == "count"[i];
    }
  }

  /** Fields with a string literal in them never parse as an expression. */
  lemma QuotedNeverParses(fields: seq<string>, f: string)
    requires f in fields && Quoted(f)
    ensures ParseFields(SplitPlusFields(fields)).Err?
  {
    if '+' in f {
      assert [f[0]] <= "" + f;
      SplitKeepsHead(f, "", [f[0]]);
    }
    var g := Pieces(f)[0];
    PiecesAreFields(fields, f);
    var w := QuotedIsNoName(g);
    if ParseFields(SplitPlusFields(fields)).Ok? {
      ParsedWordsAreNames(SplitPlusFields(fields), g, w);
    }
  }

  /** Nor do fields with a `count(...)` call in them. */
  lemma CallNeverParses(fields: seq<string>, f: string)
    requires f in fields && OpensCall(f)
    ensures ParseFields(SplitPlusFields(fields)).Err?
  {
    CountLetters(f[..5]);
    if '+' in f {
      assert f[..6] == f[..5] + "(" && f[..6] <= "" + f;
      SplitKeepsHead(f, "", f[..6]);
    }
    var g := Pieces(f)[0];
    assert g[..5] == f[..5] && g[5] == '(';
    PiecesAreFields(fields, f);
    CallIsCall(g);
    if ParseFields(SplitPlusFields(fields)).Ok? {
      ParsedFieldsHoldNoCall(SplitPlusFields(fields), g);
    }
  }

  // ---- what parses normalises ----

  lemma BangThenBare(f: string, text: string)
    requires f == "!" + text && text != "" && Bare(text) && !IsOperatorWord(f)
    ensures Words(FieldTokens(f)) == [NormalizeIdentifier(text)]
  {
    assert f[1..] == text && "" + text == text;
    ScanTextOfField(text, "");
    ScanTextOfWord(text, "");
    assert f[0] == '!' && Scan(f, "") == Flush("") + [Bang] + Scan(text, "");
    assert Scan(f, "") == [Bang] + [Word(text)];
    WordsConcat([Bang], [Word(text)]);
    assert [Bang][1..] == [] && [Word(text)][1..] == [];
  }

  lemma NotEqualHoldsNoWord(f: string)
    requires f == "!="
    ensures forall w :: w in Words(FieldTokens(f)) ==> !IsOperatorWord(w)
  {
    var text := "=";
    assert f == "!" + text;
    assert Lower(f)[0] == '!' && |Lower(Lower(text))| == 1;
    BangThenBare(f, text);
    NoSpaceFolds(text);
  }

  lemma ShapedPieceHoldsNoOperator(f: string, g: string)
    requires (OneLexeme(f) || f == "!=") && g in Pieces(f)
    ensures forall w :: w in Words(FieldTokens(g)) ==> !IsOperatorWord(w)
  {
    if f == "!=" {
      NotEqualHoldsNoWord(f);
    } else {
      if '+' in f {
        SplitStaysBare(f, "");
      }
      LexemeTokens(g);
    }
  }

  lemma {:induction false} WordsOfFields(fields: seq<string>)
    requires forall f, w :: f in fields && w in Words(FieldTokens(f)) ==> !IsOperatorWord(w)
    ensures forall w :: w in Words(AllTokens(fields)) ==> !IsOperatorWord(w)
  {
    if fields != [] {
      WordsOfFields(fields[1..]);
      WordsConcat(FieldTokens(fields[0]), AllTokens(fields[1..]));
    }
  }

  lemma ShapedFieldsNormalize(fields: seq<string>)
    requires forall f :: f in fields ==> Shaped(f)
    ensures var q := SplitPlusFields(fields);
            ParseFields(q).Ok? ==> ParseQuorumExpression(q) == Ok(Norm(ParseFields(q).value))
  {
    var q := SplitPlusFields(fields);
    if ParseFields(q).Ok? {
      forall g, w | g in q && w in Words(FieldTokens(g))
        ensures !IsOperatorWord(w)
      {
        var f := PieceOf(fields, g);
        if Quoted(f) { QuotedNeverParses(fields, f); }
        if OpensCall(f) { CallNeverParses(fields, f); }
        ShapedPieceHoldsNoOperator(f, g);
      }
      WordsOfFields(q);
      TextPathNormalizes(q);
    }
  }

  /** The expression fields of a statement: everything behind the keyword, cut at `+`. */
  function ExpressionFields(statement: seq<Lexer.LexToken>): seq<string>
    requires SyntaxFields(statement) != []
  {
    SplitPlusFields(SyntaxFields(statement)[1..])
  }

  /** Whatever source text is lexed, and whichever of its statements is taken: if what stands behind the
      keyword parses as a quorum expression, it normalises. */
  lemma SourceNormalizes(source: string, statement: seq<Lexer.LexToken>)
    requires Lexer.Lex(source).Tokens? && statement in Statements(Lexer.Lex(source).tokens, [])
    requires SyntaxFields(statement) != []
    ensures var q := ExpressionFields(statement);
            ParseFields(q).Ok? ==> ParseQuorumExpression(q) == Ok(Norm(ParseFields(q).value))
  {
    var ts := Lexer.Lex(source).tokens;
    LexedIsSpelled(source, Lexer.Place(1, 1));
    StatementsHoldLines(ts, []);
    StatementTokens(ts, statement);
    FieldsAreShaped(statement);
    ShapedFieldsNormalize(SyntaxFields(statement)[1..]);
  }

  lemma {:induction false} JoinedHolds(statements: seq<seq<Lexer.LexToken>>, s: seq<Lexer.LexToken>)
    requires s in statements
    ensures forall t :: t in s ==> t in Syntax.Joined(statements)
  {
    if s != statements[0] {
      JoinedHolds(statements[1..], s);
    }
  }

  lemma {:induction false} KeptIsThere(ts: seq<Lexer.LexToken>)
    ensures forall t :: t in Kept(ts) ==> t in ts
  {
    if ts != [] {
      KeptIsThere(ts[1..]);
    }
  }

  lemma StatementTokens(ts: seq<Lexer.LexToken>, statement: seq<Lexer.LexToken>)
    requires statement in Statements(ts, [])
    ensures forall t :: t in statement ==> t in ts
  {
    StatementsHoldLines(ts, []);
    JoinedHolds(Statements(ts, []), statement);
    KeptIsThere(ts);
    assert [] + Kept(ts) == Kept(ts);
  }
}
