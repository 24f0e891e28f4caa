/** Lines of words: a text whose lines are words between blanks lexes to those words, line by line. */
module WordLines {
  import opened Lexer
  import opened Syntax
  import opened LexedLines

  // ---- words ----

  predicate IsAtom(w: string) {
    w != "" && StartsAtom(w[0]) && w[0] != '"' && w[0] != '\'' && w[0] != '#' && forall i :: 0 <= i < |w| ==> !EndsAtom(w[i])
  }

  predicate IsSymbol(w: string) {
    w == "+" || w == "==" || w == "!=" || w == ">" || w == ">=" || w == "<" || w == "<="
  }

  predicate IsQuoted(w: string) {
    w != "" && w[0] == '"' && 0 < StringLength(w[1..], '"', false) == |w| - 1
  }

  /** What lexes to one token with the word as its literal. */
  predicate IsWord(w: string) {
    IsAtom(w) || IsSymbol(w) || IsQuoted(w)
  }

  function WordKind(w: string): Kind {
    if IsAtom(w) then AtomKind(w) else if IsQuoted(w) then String else if w == "+" then Plus else Operator
  }

  function WordToken(w: string, p: Place): LexToken {
    LexToken(WordKind(w), w, p)
  }

  lemma WordLexeme(w: string)
    requires IsWord(w)
    ensures w != "" && w[0] != '#' && FirstLexeme(w) == Emit(|w|, WordKind(w), w)
  {
    assert w[..|w|] == w;
    if IsAtom(w) {
      assert AtomLength(w) == |w|;
    }
  }

  /** A word with a separator behind it. */
  lemma WordThen(w: string, c: char, b: string, p: Place, rest: seq<LexToken>)
    requires IsWord(w) && EndsAtom(c) && !IsOperatorChar(c) && LexesTo([c] + b, Move(p, w), rest)
    ensures LexesTo(w + [c] + b, p, [WordToken(w, p)] + rest)
  {
    WordLexeme(w);
    assert w[|w|..] + [c] + b == [c] + b && w[..|w|] == w;
    LineGoesOn(w, c, b, p, rest);
  }

  lemma WordAlone(w: string, p: Place)
    requires IsWord(w)
    ensures LexesTo(w, p, [WordToken(w, p)])
  {
    WordLexeme(w);
    assert w[|w|..] == "" && w[..|w|] == w;
    EmptyLexes(Move(p, w));
    FirstToken(w, p, [], LexToken(Eof, "", Move(p, w)));
    assert [WordToken(w, p)] + [] == [WordToken(w, p)];
  }

  lemma BlankThen(c: char, b: string, p: Place, rest: seq<LexToken>)
    requires (c == ' ' || c == '\t') && LexesTo(b, Step(p, c), rest)
    ensures LexesTo([c] + b, p, rest)
  {
    var s := [c] + b;
    assert s[1..] == b && s[..1] == [c] && FirstLexeme(s) == Skip(1);
    assert [c][1..] == "" && Move(p, [c]) == Step(p, c);
    MoveConcat(p, [c], b);
    FirstToken(s, p, rest, LexToken(Eof, "", Move(p, s)));
  }

  // ---- one line ----

  function WordTokens(ws: seq<string>, p: Place): seq<LexToken> {
    if ws == [] then [] else [WordToken(ws[0], p)] + WordTokens(ws[1..], Step(Move(p, ws[0]), ' '))
  }

  predicate AllWords(ws: seq<string>) {
    forall i :: 0 <= i < |ws| ==> IsWord(ws[i])
  }

  lemma AllWordsTail(ws: seq<string>)
    requires ws != [] && AllWords(ws)
    ensures IsWord(ws[0]) && AllWords(ws[1..])
  {
  }

  lemma {:induction false} WordsLex(ws: seq<string>, p: Place)
    requires ws != [] && AllWords(ws)
    ensures LexesTo(Join(ws), p, WordTokens(ws, p))
  {
    AllWordsTail(ws);
    if |ws| == 1 {
      WordAlone(ws[0], p);
      assert ws[1..] == [] && WordTokens(ws, p) == [WordToken(ws[0], p)] + [];
    } else {
      var q := Step(Move(p, ws[0]), ' ');
      WordsLex(ws[1..], q);
      BlankThen(' ', Join(ws[1..]), Move(p, ws[0]), WordTokens(ws[1..], q));
      WordThen(ws[0], ' ', Join(ws[1..]), p, WordTokens(ws[1..], q));
    }
  }

  /** Tokens that stand on one line from `p`, without braces, and have these fields. */
  predicate Stands(ts: seq<LexToken>, p: Place, fields: seq<string>) {
    ts != [] && ts[0].place == p && OnOneLine(ts) && NoBraces(ts) && SyntaxFields(ts) == fields
  }

  predicate NoBraces(ts: seq<LexToken>) {
    forall i :: 0 <= i < |ts| ==> ts[i].kind != LBrace && ts[i].kind != RBrace
  }

  predicate OneField(t: LexToken) {
    !EndsStatement(t) && t.kind != LBrace && t.kind != RBrace && t.kind != LParen && FieldText(t) == t.literal
  }

  lemma WordTokenIsOneField(w: string, p: Place)
    requires IsWord(w)
    ensures OneField(WordToken(w, p))
  {
  }

  lemma {:induction false} WordsAreFields(ws: seq<string>, p: Place)
    requires AllWords(ws)
    ensures |WordTokens(ws, p)| == |ws| && SyntaxFields(WordTokens(ws, p)) == ws
    ensures forall i :: 0 <= i < |ws| ==> OneField(WordTokens(ws, p)[i])
  {
    if ws != [] {
      AllWordsTail(ws);
      var ts, q := WordTokens(ws, p), Step(Move(p, ws[0]), ' ');
      WordsAreFields(ws[1..], q);
      WordTokenIsOneField(ws[0], p);
      assert ts[1..] == WordTokens(ws[1..], q);
      OneFieldStep(ts);
    }
  }

  lemma OneFieldStep(ts: seq<LexToken>)
    requires ts != [] && OneField(ts[0]) && (|ts| > 1 ==> ts[1].kind != LParen)
    ensures SyntaxFields(ts) == [ts[0].literal] + SyntaxFields(ts[1..])
  {
    assert CallLength(ts) == 0;
  }

  /** Wherever the text stands, it is one line with these fields. */
  ghost predicate LineReads(text: string, fields: seq<string>) {
    forall p :: ReadsAt(text, p, fields)
  }

  ghost predicate ReadsAt(text: string, p: Place, fields: seq<string>) {
    exists ts :: LexesTo(text, p, ts) && Stands(ts, p, fields)
  }

  /** A line of words has the words for its fields. */
  lemma WordLineReads(ws: seq<string>)
    requires ws != [] && AllWords(ws)
    ensures LineReads(Join(ws), ws)
  {
    forall p
      ensures ReadsAt(Join(ws), p, ws)
    {
      WordsLex(ws, p);
      WordsAreFields(ws, p);
      assert Stands(WordTokens(ws, p), p, ws);
    }
  }

  // ---- a text of lines ----

  /** A line of a text: nothing, or `text` some tabs in. */
  datatype TextLine = Blank | Row(indent: nat, text: string, fields: seq<string>)

  function Tabs(k: nat): string {
    if k == 0 then "" else ['\t'] + Tabs(k - 1)
  }

  function LineText(l: TextLine): string {
    match l
    case Blank => ""
    case Row(indent, text, _) => Tabs(indent) + text
  }

  function Text(ls: seq<TextLine>): string {
    if ls == [] then "" else if |ls| == 1 then LineText(ls[0]) else LineText(ls[0]) + ['\n'] + Text(ls[1..])
  }

  function Rows(ls: seq<TextLine>): seq<TextLine> {
    if ls == [] then [] else (if ls[0].Row? then [ls[0]] else []) + Rows(ls[1..])
  }

  ghost predicate AllRead(ls: seq<TextLine>) {
    forall i :: 0 <= i < |ls| && ls[i].Row? ==> LineReads(ls[i].text, ls[i].fields)
  }

  /** The statement is the row: in its column, with its fields, and no brace. */
  predicate IsRow(st: seq<LexToken>, row: TextLine)
    requires row.Row?
  {
    st != [] && st[0].place.column == row.indent + 1 && OnOneLine(st) && NoBraces(st) && SyntaxFields(st) == row.fields
  }

  ghost predicate AreRows(sts: seq<seq<LexToken>>, rows: seq<TextLine>) {
    |sts| == |rows| && forall i :: 0 <= i < |rows| ==> rows[i].Row? && IsRow(sts[i], rows[i])
  }

  lemma TabsSplit(k: nat, text: string)
    requires k > 0
    ensures Tabs(k) + text == ['\t'] + (Tabs(k - 1) + text)
  {
  }

  lemma {:induction false} TabsLex(k: nat, text: string, p: Place, ts: seq<LexToken>)
    requires LexesTo(text, Place(p.line, p.column + k), ts)
    ensures LexesTo(Tabs(k) + text, p, ts)
    decreases k
  {
    if k == 0 {
      assert Tabs(0) + text == text;
    } else {
      var q := Step(p, '\t');
      assert q == Place(p.line, p.column + 1) && Place(q.line, q.column + (k - 1)) == Place(p.line, p.column + k);
      TabsLex(k - 1, text, q, ts);
      BlankThen('\t', Tabs(k - 1) + text, p, ts);
      TabsSplit(k, text);
    }
  }

  /** One line of the text, in its column. */
  lemma LineLexes(l: TextLine, line: nat) returns (ts: seq<LexToken>)
    requires l.Row? ==> LineReads(l.text, l.fields)
    ensures LexesTo(LineText(l), Place(line, 1), ts) && OnOneLine(ts)
    ensures if l.Row? then IsRow(ts, l) else ts == []
  {
    if l.Row? {
      var p := Place(line, l.indent + 1);
      assert ReadsAt(l.text, p, l.fields);
      ts :| LexesTo(l.text, p, ts) && Stands(ts, p, l.fields);
      TabsLex(l.indent, l.text, Place(line, 1), ts);
    } else {
      ts := [];
      EmptyLexes(Place(line, 1));
    }
  }

  lemma AreRowsCons(st: seq<LexToken>, row: TextLine, sts: seq<seq<LexToken>>, rows: seq<TextLine>)
    requires row.Row? && IsRow(st, row) && AreRows(sts, rows)
    ensures AreRows([st] + sts, [row] + rows)
  {
  }

  lemma LineStatements(l: TextLine, ts: seq<LexToken>, sts: seq<seq<LexToken>>, rows: seq<TextLine>)
    requires OnOneLine(ts) && (if l.Row? then IsRow(ts, l) else ts == []) && AreRows(sts, rows)
    ensures AreRows(Statements(ts, []) + sts, (if l.Row? then [l] else []) + rows)
  {
    OneLineIsOneStatement(ts, []);
    assert [] + ts == ts;
    if l.Row? {
      AreRowsCons(ts, l, sts, rows);
    } else {
      assert [] + sts == sts && [] + rows == rows;
    }
  }

  /** Lexing the whole text and splitting it into statements gives the rows, one statement each, in order. */
  lemma {:induction false} TextReads(ls: seq<TextLine>, line: nat) returns (ts: seq<LexToken>)
    requires ls != [] && AllRead(ls)
    ensures LexesTo(Text(ls), Place(line, 1), ts)
    ensures forall end :: EndsStatement(end) ==> AreRows(Statements(ts + [end], []), Rows(ls))
  {
    var first := LineLexes(ls[0], line);
    if |ls| == 1 {
      ts := first;
      forall end | EndsStatement(end)
        ensures AreRows(Statements(ts + [end], []), Rows(ls))
      {
        LastLine(ls, first, end);
      }
    } else {
      var at := Move(Place(line, 1), LineText(ls[0]));
      var rest := TextReads(ls[1..], at.line + 1);
      LinesLex(LineText(ls[0]), Text(ls[1..]), Place(line, 1), first, rest);
      ts := first + ([LexToken(Newline, "\n", at)] + rest);
      forall end | EndsStatement(end)
        ensures AreRows(Statements(ts + [end], []), Rows(ls))
      {
        FirstLine(ls, first, LexToken(Newline, "\n", at), rest, end);
      }
    }
  }

  lemma LastLine(ls: seq<TextLine>, ts: seq<LexToken>, end: LexToken)
    requires |ls| == 1 && OnOneLine(ts) && (if ls[0].Row? then IsRow(ts, ls[0]) else ts == []) && EndsStatement(end)
    ensures AreRows(Statements(ts + [end], []), Rows(ls))
  {
    StatementsSplit(ts, end, [], []);
    assert ts + [end] + [] == ts + [end] && ls[1..] == [];
    LineStatements(ls[0], ts, [], []);
  }

  lemma TokensRegroupOnce(a: seq<LexToken>, b: seq<LexToken>, c: seq<LexToken>, d: seq<LexToken>)
    ensures a + b + (c + d) == a + (b + c) + d
  {
  }

  lemma FirstLine(ls: seq<TextLine>, ts: seq<LexToken>, newline: LexToken, rest: seq<LexToken>, end: LexToken)
    requires ls != [] && OnOneLine(ts) && (if ls[0].Row? then IsRow(ts, ls[0]) else ts == []) && EndsStatement(newline)
    requires AreRows(Statements(rest + [end], []), Rows(ls[1..]))
    ensures AreRows(Statements(ts + ([newline] + rest) + [end], []), Rows(ls))
  {
    StatementsSplit(ts, newline, rest + [end], []);
    TokensRegroupOnce(ts, [newline], rest, [end]);
    LineStatements(ls[0], ts, Statements(rest + [end], []), Rows(ls[1..]));
  }
}
