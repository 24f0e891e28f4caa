/** Lexing a canonical quorum line gives the tokens that splitting it gives. */
module QuorumLexed {
  import opened Names
  import opened QuorumSyntax
  import opened QuorumParser
  import opened QuorumRoundTrip
  import opened QuorumText
  import opened QuorumNormal
  import opened QuorumCompile
  import Lexer
  import opened Syntax
  import opened LexedLines
  import opened WordLines

  /** Text made of names, blanks and quorum symbols, where `&` and `|` are followed by a blank. */
  predicate Plain(s: string) {
    forall i :: 0 <= i < |s| ==> PlainAt(s, i)
  }

  predicate PlainAt(s: string, i: nat)
    requires i < |s|
  {
    (IsNameChar(s[i]) || s[i] == ' ' || IsQuorumSymbol(s[i])) &&
    (s[i] == '&' || s[i] == '|' ==> i + 1 < |s| && s[i + 1] == ' ')
  }

  lemma PlainConcat(a: string, b: string)
    requires Plain(a) && Plain(b)
    ensures Plain(a + b)
  {
    forall i | 0 <= i < |a + b|
      ensures PlainAt(a + b, i)
    {
      if i < |a| {
        assert PlainAt(a, i);
      } else {
        assert PlainAt(b, i - |a|);
      }
    }
  }

  lemma PlainParens(wrap: bool, s: string)
    requires Plain(s)
    ensures Plain(Parens(wrap, s))
  {
    if wrap {
      PlainConcat("(", s);
      PlainConcat("(" + s, ")");
    }
  }

  lemma PlainOp(op: Op)
    ensures Plain(OpText(op))
  {
  }

  lemma {:induction false} RenderIsPlain(e: Expr)
    requires Complete(e)
    ensures Plain(Render(e))
  {
    match e
    case Subject(name) =>
    case Not(x) =>
      RenderIsPlain(x);
      PlainParens(x.Binary?, Render(x));
      PlainConcat("!", Parens(x.Binary?, Render(x)));
    case Binary(op, l, r) =>
      var a, b := Parens(Wraps(op, l), Render(l)), Parens(Wraps(op, r), Render(r));
      RenderIsPlain(l);
      RenderIsPlain(r);
      PlainParens(Wraps(op, l), Render(l));
      PlainParens(Wraps(op, r), Render(r));
      PlainOp(op);
      PlainConcat(a, OpText(op));
      PlainConcat(a + OpText(op), b);
  }

  predicate MatchesText(kind: Lexer.Kind, literal: string, q: Token) {
    match q
    case Word(text) => literal == text && kind == Lexer.AtomKind(text)
    case Open => kind == Lexer.LParen
    case Close => kind == Lexer.RParen
    case _ => kind == Lexer.Operator && literal == TokenText(q)
  }

  predicate Matches(t: Lexer.LexToken, q: Token) {
    MatchesText(t.kind, t.literal, q)
  }

  predicate AllMatch(ts: seq<Lexer.LexToken>, qs: seq<Token>) {
    |ts| == |qs| && forall i :: 0 <= i < |ts| ==> Matches(ts[i], qs[i])
  }

  lemma SymbolThenRest(s: string)
    requires s != "" && IsSeparator(s[0])
    ensures ScanText(s, "") == SeparatorTokens(s[0]) + ScanText(s[1..], "")
  {
    assert s == "" + [s[0]] + s[1..];
    ScanTextSplits("", s[0], s[1..], "");
  }

  lemma WordAlone(s: string)
    requires s != "" && forall i :: 0 <= i < |s| ==> !IsSeparator(s[i])
    ensures ScanText(s, "") == [Word(s)]
  {
    ScanTextOfWord(s, "");
    assert "" + s == s;
  }

  lemma SplitAt(s: string, k: nat)
    requires k < |s|
    ensures s == s[..k] + [s[k]] + s[k + 1..] && s[k..] == [s[k]] + s[k + 1..]
  {
  }

  lemma WordBeforeSeparator(word: string, c: char, rest: string)
    requires word != "" && (forall i :: 0 <= i < |word| ==> !IsSeparator(word[i])) && IsSeparator(c)
    ensures ScanText(word + [c] + rest, "") == [Word(word)] + ScanText([c] + rest, "")
  {
    WordAlone(word);
    ScanTextSplits(word, c, rest, "");
    Regroup([Word(word)], SeparatorTokens(c), ScanText(rest, ""));
    SymbolThenRest([c] + rest);
    assert ([c] + rest)[1..] == rest;
  }

  lemma WordThenRest(s: string, k: nat)
    requires 0 < k <= |s| && forall i :: 0 <= i < k ==> !IsSeparator(s[i])
    requires k < |s| ==> IsSeparator(s[k])
    ensures ScanText(s, "") == [Word(s[..k])] + ScanText(s[k..], "")
  {
    if k < |s| {
      var word, c, rest := s[..k], s[k], s[k + 1..];
      SplitAt(s, k);
      WordBeforeSeparator(word, c, rest);
    } else {
      assert s[..k] == s && s[k..] == "";
      WordAlone(s);
    }
  }

  lemma PlainTail(s: string, k: nat)
    requires Plain(s) && k <= |s|
    ensures Plain(s[k..])
  {
    forall i | 0 <= i < |s[k..]|
      ensures PlainAt(s[k..], i)
    {
      assert PlainAt(s, k + i);
    }
  }

  /** The scanner's first lexeme is the first token of the straight scan, or a blank that has none. */
  predicate ScansAlike(s: string, x: Lexer.Lexeme)
    requires !x.Bad? ==> x.len <= |s|
  {
    match x
    case Bad => false
    case Skip(len) => ScanText(s, "") == ScanText(s[len..], "")
    case Emit(len, kind, literal) =>
      ScanText(s, "") != [] && MatchesText(kind, literal, ScanText(s, "")[0]) && ScanText(s, "")[1..] == ScanText(s[len..], "")
  }

  lemma SeparatorLexeme(s: string)
    requires s != "" && Plain(s) && IsSeparator(s[0])
    ensures ScansAlike(s, Lexer.FirstLexeme(s))
  {
    SymbolThenRest(s);
    assert PlainAt(s, 0) && (|s| > 1 ==> PlainAt(s, 1));
    if s[0] != ' ' {
      assert ScanText(s, "")[0] == SymbolToken(s[0]);
    }
  }

  lemma WordLexeme(s: string)
    requires s != "" && Plain(s) && !IsSeparator(s[0])
    ensures ScansAlike(s, Lexer.FirstLexeme(s))
  {
    var k := Lexer.AtomLength(s);
    assert PlainAt(s, 0) && (k < |s| ==> PlainAt(s, k));
    assert forall i :: 0 <= i < k ==> !IsSeparator(s[i]);
    WordThenRest(s, k);
    assert ScanText(s, "")[0] == Word(s[..k]);
  }

  /** Lexing goes on after the first lexeme, with its token in front if it has one. */
  lemma LexesOn(s: string, p: Lexer.Place, rest: seq<Lexer.LexToken>)
    requires s != "" && !Lexer.FirstLexeme(s).Bad?
    requires var len := Lexer.FirstLexeme(s).len; LexesTo(s[len..], Lexer.Move(p, s[..len]), rest)
    ensures var x := Lexer.FirstLexeme(s);
            LexesTo(s, p, if x.Emit? then [Lexer.LexToken(x.kind, x.literal, p)] + rest else rest)
  {
    MoveSplits(p, s, Lexer.FirstLexeme(s).len);
    FirstToken(s, p, rest, Lexer.LexToken(Lexer.Eof, "", Lexer.Move(p, s)));
  }

  lemma MatchMore(t: Lexer.LexToken, rest: seq<Lexer.LexToken>, qs: seq<Token>)
    requires qs != [] && Matches(t, qs[0]) && AllMatch(rest, qs[1..])
    ensures AllMatch([t] + rest, qs)
  {
    assert forall i :: 0 < i < |qs| ==> qs[i] == qs[1..][i - 1];
  }

  /** On plain text the lexer finds exactly the tokens of the straight scan. */
  lemma {:induction false} PlainLexes(s: string, p: Lexer.Place) returns (ts: seq<Lexer.LexToken>)
    requires Plain(s)
    ensures LexesTo(s, p, ts) && AllMatch(ts, ScanText(s, ""))
    ensures s != "" && Lexer.FirstLexeme(s).Emit? ==> ts != [] && ts[0].place == p
    decreases |s|
  {
    if s == "" {
      ts := [];
      EmptyLexes(p);
    } else {
      if IsSeparator(s[0]) {
        SeparatorLexeme(s);
      } else {
        WordLexeme(s);
      }
      var x := Lexer.FirstLexeme(s);
      PlainTail(s, x.len);
      var rest := PlainLexes(s[x.len..], Lexer.Move(p, s[..x.len]));
      LexesOn(s, p, rest);
      ts := if x.Emit? then [Lexer.LexToken(x.kind, x.literal, p)] + rest else rest;
      if x.Emit? {
        MatchMore(Lexer.LexToken(x.kind, x.literal, p), rest, ScanText(s, ""));
      }
    }
  }

  // ---- fields of a quorum line ----

  /** No word is directly followed by an opening bracket, so nothing reads as a call. */
  predicate NoCall(qs: seq<Token>) {
    forall i :: 0 <= i && i + 1 < |qs| && qs[i].Word? && Lower(qs[i].text) == "count" ==> qs[i + 1] != Open
  }

  /** No word at all is directly followed by an opening bracket. */
  predicate Uncalled(qs: seq<Token>) {
    forall i :: 0 <= i && i + 1 < |qs| && qs[i].Word? ==> qs[i + 1] != Open
  }

  lemma UncalledJoin(a: seq<Token>, t: Token, b: seq<Token>)
    requires Uncalled(a) && Uncalled(b) && !t.Word? && t != Open
    ensures Uncalled(a + [t] + b)
  {
    var all := a + [t] + b;
    forall i | 0 <= i && i + 1 < |all| && all[i].Word?
      ensures all[i + 1] != Open
    {
      if i + 1 < |a| {
        assert all[i] == a[i] && all[i + 1] == a[i + 1];
      } else if i > |a| {
        assert all[i] == b[i - |a| - 1] && all[i + 1] == b[i - |a|];
      }
    }
  }

  lemma UncalledBehind(t: Token, b: seq<Token>)
    requires Uncalled(b) && !t.Word?
    ensures Uncalled([t] + b)
  {
    var all := [t] + b;
    forall i | 0 <= i && i + 1 < |all| && all[i].Word?
      ensures all[i + 1] != Open
    {
      assert all[i] == b[i - 1] && all[i + 1] == b[i];
    }
  }

  lemma UncalledBracket(wrap: bool, ts: seq<Token>)
    requires Uncalled(ts)
    ensures Uncalled(Bracket(wrap, ts))
  {
    if wrap {
      UncalledBehind(Open, ts);
      UncalledJoin([Open] + ts, Close, []);
      assert [Open] + ts + [Close] + [] == Bracket(true, ts);
    }
  }

  lemma {:induction false} TokensUncalled(e: Expr)
    ensures Uncalled(Tokens(e))
  {
    match e
    case Malformed =>
    case Subject(_) =>
    case Not(x) =>
      TokensUncalled(x);
      UncalledBracket(x.Binary?, Tokens(x));
      UncalledBehind(Bang, Bracket(x.Binary?, Tokens(x)));
    case Binary(op, l, r) =>
      TokensUncalled(l);
      TokensUncalled(r);
      UncalledBracket(Wraps(op, l), Tokens(l));
      UncalledBracket(Wraps(op, r), Tokens(r));
      UncalledJoin(Bracket(Wraps(op, l), Tokens(l)), OpToken(op), Bracket(Wraps(op, r), Tokens(r)));
  }

  function Texts(qs: seq<Token>): (fs: seq<string>)
    ensures |fs| == |qs|
  {
    if qs == [] then [] else [TokenText(qs[0])] + Texts(qs[1..])
  }

  lemma {:induction false} FieldsOfMatched(ts: seq<Lexer.LexToken>, qs: seq<Token>)
    requires AllMatch(ts, qs) && NoCall(qs)
    ensures SyntaxFields(ts) == Texts(qs)
  {
    if ts != [] {
      MatchedStep(ts, qs);
      assert AllMatch(ts[1..], qs[1..]) && NoCall(qs[1..]) by {
        assert forall i :: 0 <= i < |ts[1..]| ==> ts[1..][i] == ts[i + 1] && qs[1..][i] == qs[i + 1];
      }
      FieldsOfMatched(ts[1..], qs[1..]);
    }
  }

  lemma MatchedStep(ts: seq<Lexer.LexToken>, qs: seq<Token>)
    requires ts != [] && AllMatch(ts, qs) && NoCall(qs)
    ensures Syntax.FieldStep(ts) == ([TokenText(qs[0])], 1)
  {
    assert Matches(ts[0], qs[0]);
    assert |ts| > 1 ==> Matches(ts[1], qs[1]);
    assert CallLength(ts) == 0;
  }

  predicate NameWords(qs: seq<Token>) {
    forall i :: 0 <= i < |qs| && qs[i].Word? ==> IsCanonical(qs[i].text) && !IsOperatorWord(qs[i].text)
  }

  lemma {:induction false} TextsTokenise(qs: seq<Token>)
    requires NameWords(qs)
    ensures AllTokens(Texts(qs)) == qs
  {
    if qs != [] {
      var q := qs[0];
      TextTokenises(q);
      assert NameWords(qs[1..]) by {
        assert forall i :: 0 <= i < |qs[1..]| ==> qs[1..][i] == qs[i + 1];
      }
      TextsTokenise(qs[1..]);
      assert Texts(qs)[1..] == Texts(qs[1..]);
    }
  }

  lemma TextTokenises(q: Token)
    requires q.Word? ==> IsCanonical(q.text) && !IsOperatorWord(q.text)
    ensures FieldTokens(TokenText(q)) == [q]
  {
    if q.Word? {
      NameHasNoSeparator(q.text);
      ScanTextOfField(q.text, "");
      ScanTextOfWord(q.text, "");
      assert "" + q.text == q.text;
    } else {
      var text := TokenText(q);
      assert |Lower(text)| == 1 && text == [text[0]] && IsQuorumSymbol(text[0]);
      assert text[1..] == "";
      assert Scan(text, "") == Flush("") + [q] + Scan("", "");
    }
  }

  lemma {:induction false} TextsAreNotIntegersOrPlus(qs: seq<Token>)
    requires NameWords(qs)
    ensures forall i :: 0 <= i < |qs| ==> !IsInteger(Texts(qs)[i]) && '+' !in Texts(qs)[i] && Texts(qs)[i] != ">="
  {
    if qs != [] {
      var text := TokenText(qs[0]);
      if qs[0].Word? {
        assert IsNameChar(text[0]) && forall c :: c in text ==> IsNameChar(c);
      }
      assert NameWords(qs[1..]) by {
        assert forall i :: 0 <= i < |qs[1..]| ==> qs[1..][i] == qs[i + 1];
      }
      TextsAreNotIntegersOrPlus(qs[1..]);
    }
  }

  lemma {:induction false} NoPlusNoSplit(fields: seq<string>)
    requires forall i :: 0 <= i < |fields| ==> '+' !in fields[i] && fields[i] != ">="
    ensures SplitPlusFields(fields) == fields && IndexOfGte(fields) == -1
  {
    if fields != [] {
      NoPlusNoSplit(fields[1..]);
    }
  }

  /** A canonical quorum line: the keyword, then the rendered expression. */
  function QuorumLine(n: Expr): string {
    "quorum " + Render(n)
  }

  lemma NormalTokensAreNames(n: Expr)
    requires NormalForm(n)
    ensures NameWords(Tokens(n)) && Complete(n)
  {
    NormalFormLeftGrouped(n);
    LeftGroupedComplete(n);
    LeavesOfNormal(n);
    LeavesOfWellFormed(n);
    forall i | 0 <= i < |Tokens(n)| && Tokens(n)[i].Word?
      ensures IsCanonical(Tokens(n)[i].text) && !IsOperatorWord(Tokens(n)[i].text)
    {
      TokenWordsAreLeaves(n, i);
    }
  }

  lemma LineIsPlain(n: Expr)
    requires Complete(n)
    ensures Plain(QuorumLine(n))
  {
    RenderIsPlain(n);
    PlainConcat("quorum ", Render(n));
  }

  lemma LineScans(n: Expr)
    requires Complete(n)
    ensures ScanText(QuorumLine(n), "") == [Word("quorum")] + Tokens(n)
  {
    RenderScansToTokens(n);
    LineSplits("quorum", Render(n));
    assert QuorumLine(n) == "quorum" + [' '] + Render(n);
  }

  /** A word, a space and a text scan to the word followed by the text's tokens. */
  lemma LineSplits(word: string, text: string)
    requires word != "" && forall i :: 0 <= i < |word| ==> !IsSeparator(word[i])
    ensures ScanText(word + [' '] + text, "") == [Word(word)] + ScanText(text, "")
  {
    ScanTextOfWord(word, "");
    assert "" + word == word;
    ScanTextSplits(word, ' ', text, "");
  }

  lemma LineHasNoCall(n: Expr)
    ensures NoCall([Word("quorum")] + Tokens(n))
  {
    var qs := [Word("quorum")] + Tokens(n);
    assert Lower("quorum")[0] == 'q';
    TokensUncalled(n);
    forall i | 0 <= i && i + 1 < |qs| && qs[i].Word? && Lower(qs[i].text) == "count"
      ensures qs[i + 1] != Open
    {
      if i > 0 {
        assert qs[i] == Tokens(n)[i - 1] && qs[i + 1] == Tokens(n)[i];
      }
    }
  }

  lemma MatchedIsOneLine(ts: seq<Lexer.LexToken>, qs: seq<Token>)
    requires AllMatch(ts, qs)
    ensures OnOneLine(ts)
  {
    forall i | 0 <= i < |ts|
      ensures !EndsStatement(ts[i])
    {
      assert Matches(ts[i], qs[i]);
    }
  }

  lemma QuorumLineLexes(n: Expr, start: Lexer.Place) returns (ts: seq<Lexer.LexToken>)
    requires NormalForm(n)
    ensures LexesTo(QuorumLine(n), start, ts) && AllMatch(ts, [Word("quorum")] + Tokens(n)) && ts[0].place == start
  {
    assert Lexer.StartsAtom(QuorumLine(n)[0]);
    NormalTokensAreNames(n);
    LineIsPlain(n);
    LineScans(n);
    ts := PlainLexes(QuorumLine(n), start);
  }

  lemma LineIsOneStatement(n: Expr, ts: seq<Lexer.LexToken>)
    requires AllMatch(ts, [Word("quorum")] + Tokens(n))
    ensures forall end :: EndsStatement(end) ==> Statements(ts + [end], []) == [ts]
  {
    MatchedIsOneLine(ts, [Word("quorum")] + Tokens(n));
    forall end | EndsStatement(end)
      ensures Statements(ts + [end], []) == [ts]
    {
      LexedLineIsOneStatement(ts, end);
    }
  }

  lemma QuorumLineFields(n: Expr, ts: seq<Lexer.LexToken>)
    requires AllMatch(ts, [Word("quorum")] + Tokens(n))
    ensures SyntaxFields(ts) == ["quorum"] + Texts(Tokens(n)) && SyntaxFields(ts)[1..] == Texts(Tokens(n))
  {
    var qs := [Word("quorum")] + Tokens(n);
    LineHasNoCall(n);
    FieldsOfMatched(ts, qs);
    assert qs[1..] == Tokens(n);
    assert Texts(qs) == ["quorum"] + Texts(Tokens(n));
  }

  lemma TextsReadAsExpression(n: Expr)
    requires NormalForm(n)
    ensures var fields := Texts(Tokens(n));
            SplitPlusFields(fields) == fields && FormOf(fields) == ExpressionForm &&
            AllTokens(fields) == AllTokens(Fields(Render(n))) == Tokens(n)
  {
    NormalTokensAreNames(n);
    TextsTokenise(Tokens(n));
    TextsAreNotIntegersOrPlus(Tokens(n));
    NoPlusNoSplit(Texts(Tokens(n)));
    NormalFormReparses(n);
  }

  lemma TextsParse(n: Expr)
    requires NormalForm(n) && Acceptable(n)
    ensures ParseQuorumExpression(Texts(Tokens(n))) == Ok(n)
  {
    TextsReadAsExpression(n);
    NormalFormReparses(n);
    NormalizeQuorumExact(n);
    NormOfNormal(n);
  }

  /** Lexing the canonical line of an accepted expression gives one statement; taking its fields and
      parsing them takes the expression branch and returns that very expression; the white-space
      split used by the guard sees the same tokens. */
  lemma TokenisersAgree(n: Expr, start: Lexer.Place) returns (ts: seq<Lexer.LexToken>)
    requires NormalForm(n)
    ensures LexesTo(QuorumLine(n), start, ts)
    ensures forall end :: EndsStatement(end) ==> Statements(ts + [end], []) == [ts]
    ensures var fields := SyntaxFields(ts);
            |fields| == 1 + |Tokens(n)| && fields[0] == "quorum" &&
            SplitPlusFields(fields[1..]) == fields[1..] && FormOf(fields[1..]) == ExpressionForm &&
            AllTokens(fields[1..]) == AllTokens(Fields(Render(n))) == Tokens(n)
    ensures Acceptable(n) ==> ParseQuorumExpression(SyntaxFields(ts)[1..]) == Ok(n)
  {
    ts := QuorumLineLexes(n, start);
    LineIsOneStatement(n, ts);
    QuorumLineFields(n, ts);
    TextsReadAsExpression(n);
    if Acceptable(n) {
      TextsParse(n);
    }
  }

  lemma MatchedHasNoBrace(ts: seq<Lexer.LexToken>, qs: seq<Token>)
    requires AllMatch(ts, qs)
    ensures NoBraces(ts)
  {
    forall i | 0 <= i < |ts|
      ensures ts[i].kind != Lexer.LBrace && ts[i].kind != Lexer.RBrace
    {
      assert Matches(ts[i], qs[i]);
    }
  }

  /** The canonical quorum line reads the same wherever it stands in a text. */
  lemma QuorumLineReads(n: Expr)
    requires NormalForm(n)
    ensures LineReads(QuorumLine(n), ["quorum"] + Texts(Tokens(n)))
  {
    forall p
      ensures ReadsAt(QuorumLine(n), p, ["quorum"] + Texts(Tokens(n)))
    {
      var ts := QuorumLineLexes(n, p);
      QuorumLineFields(n, ts);
      MatchedIsOneLine(ts, [Word("quorum")] + Tokens(n));
      MatchedHasNoBrace(ts, [Word("quorum")] + Tokens(n));
      assert Stands(ts, p, ["quorum"] + Texts(Tokens(n)));
    }
  }
}
