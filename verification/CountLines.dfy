/** The canonical line of a count quorum: what it lexes to, and the providers read back from its call. */
module CountLines {
  import opened Names
  import opened Lexer
  import opened Syntax
  import opened LexedLines
  import opened WordLines

  function Listed(names: seq<string>): string {
    if names == [] then "" else if |names| == 1 then names[0] else names[0] + [','] + ([' '] + Listed(names[1..]))
  }

  function CallOf(names: seq<string>): string {
    "count(" + Listed(names) + ")"
  }

  /** `quorum count(a, b) >= 2` */
  function CountLine(names: seq<string>, threshold: string): string {
    "quorum" + [' '] + ("count" + ['('] + (Listed(names) + [')'] + ([' '] + Join([">=", threshold]))))
  }

  function CountFields(names: seq<string>, threshold: string): seq<string> {
    ["quorum", CallOf(names), ">=", threshold]
  }

  // ---- lexing ----

  function DelimiterKind(c: char): Kind {
    if c == '(' then LParen else if c == ')' then RParen else Comma
  }

  function Delimiter(c: char, p: Place): LexToken {
    LexToken(DelimiterKind(c), [c], p)
  }

  lemma DelimiterThen(c: char, b: string, p: Place, rest: seq<LexToken>)
    requires (c == '(' || c == ')' || c == ',') && LexesTo(b, Step(p, c), rest)
    ensures LexesTo([c] + b, p, [Delimiter(c, p)] + rest)
  {
    var s := [c] + b;
    assert s[1..] == b && s[..1] == [c] && FirstLexeme(s) == Emit(1, DelimiterKind(c), [c]);
    assert [c][1..] == "" && Move(p, [c]) == Step(p, c);
    MoveConcat(p, [c], b);
    FirstToken(s, p, rest, LexToken(Eof, "", Move(p, s)));
  }

  predicate AllAtoms(names: seq<string>) {
    forall i :: 0 <= i < |names| ==> IsAtom(names[i])
  }

  /** The tokens of a list in brackets: names and commas. */
  function ListTokens(names: seq<string>, p: Place): seq<LexToken> {
    if names == [] then []
    else if |names| == 1 then [WordToken(names[0], p)]
    else
      var q := Move(p, names[0]);
      [WordToken(names[0], p)] + ([Delimiter(',', q)] + ListTokens(names[1..], Step(Step(q, ','), ' ')))
  }

  /** A name, a comma and a blank. */
  lemma CommaThen(name: string, more: string, p: Place, us: seq<LexToken>)
    requires IsAtom(name) && LexesTo(more, Step(Step(Move(p, name), ','), ' '), us)
    ensures LexesTo(name + [','] + ([' '] + more), p, [WordToken(name, p)] + ([Delimiter(',', Move(p, name))] + us))
  {
    var q := Move(p, name);
    BlankThen(' ', more, Step(q, ','), us);
    DelimiterThen(',', [' '] + more, q, us);
    WordThen(name, ',', [' '] + more, p, [Delimiter(',', q)] + us);
  }

  lemma TailRegroups(x: string, s: string, l: string, t: string, b: string)
    ensures (x + (s + l)) + t + b == x + (s + (l + t + b))
  {
  }

  lemma ListedTail(names: seq<string>, b: string)
    requires |names| > 1
    ensures Listed(names) + [')'] + b == names[0] + [','] + ([' '] + (Listed(names[1..]) + [')'] + b))
  {
    TailRegroups(names[0] + [','], [' '], Listed(names[1..]), [')'], b);
  }

  lemma ListTokensTail(names: seq<string>, p: Place, rest: seq<LexToken>)
    requires |names| > 1
    ensures var q := Move(p, names[0]);
            ListTokens(names, p) + rest ==
            [WordToken(names[0], p)] + ([Delimiter(',', q)] + (ListTokens(names[1..], Step(Step(q, ','), ' ')) + rest))
  {
  }

  lemma {:induction false} ListThen(names: seq<string>, b: string, p: Place, rest: seq<LexToken>)
    requires names != [] && AllAtoms(names) && LexesTo([')'] + b, Move(p, Listed(names)), rest)
    ensures LexesTo(Listed(names) + [')'] + b, p, ListTokens(names, p) + rest)
    decreases |names|
  {
    if |names| == 1 {
      WordThen(names[0], ')', b, p, rest);
    } else {
      var next := Step(Step(Move(p, names[0]), ','), ' ');
      ListMoves(names, p);
      ListThen(names[1..], b, next, rest);
      CommaThen(names[0], Listed(names[1..]) + [')'] + b, p, ListTokens(names[1..], next) + rest);
      ListedTail(names, b);
      ListTokensTail(names, p, rest);
    }
  }

  lemma ListMoves(names: seq<string>, p: Place)
    requires |names| > 1
    ensures Move(p, Listed(names)) == Move(Step(Step(Move(p, names[0]), ','), ' '), Listed(names[1..]))
  {
    var tail := [' '] + Listed(names[1..]);
    assert Listed(names) == names[0] + ([','] + tail);
    MoveConcat(p, names[0], [','] + tail);
    assert ([','] + tail)[1..] == tail && tail[1..] == Listed(names[1..]);
  }

  /** The tokens of the whole line. */
  function CountTokens(names: seq<string>, threshold: string, p: Place): seq<LexToken> {
    var a := Step(Move(p, "quorum"), ' ');
    var b := Move(a, "count");
    var c := Step(b, '(');
    var d := Move(c, Listed(names));
    [WordToken("quorum", p)] +
    ([WordToken("count", a)] + ([Delimiter('(', b)] + (ListTokens(names, c) + ([Delimiter(')', d)] + WordTokens([">=", threshold], Step(Step(d, ')'), ' '))))))
  }

  lemma CountLexes(names: seq<string>, threshold: string, p: Place)
    requires names != [] && AllAtoms(names) && IsAtom(threshold)
    ensures LexesTo(CountLine(names, threshold), p, CountTokens(names, threshold, p))
  {
    var a := Step(Move(p, "quorum"), ' ');
    var b := Move(a, "count");
    var c := Step(b, '(');
    var d := Move(c, Listed(names));
    var e := Step(Step(d, ')'), ' ');
    var tail := Join([">=", threshold]);
    var last := WordTokens([">=", threshold], e);
    WordsLex([">=", threshold], e);
    BlankThen(' ', tail, Step(d, ')'), last);
    DelimiterThen(')', [' '] + tail, d, last);
    ListThen(names, [' '] + tail, c, [Delimiter(')', d)] + last);
    KeywordsAreAtoms();
    CallThen("quorum", "count", Listed(names) + [')'] + ([' '] + tail), p, ListTokens(names, c) + ([Delimiter(')', d)] + last));
  }

  lemma KeywordsAreAtoms()
    ensures IsAtom("quorum") && IsAtom("count")
  {
  }

  lemma CallThen(keyword: string, call: string, inner: string, p: Place, ts: seq<LexToken>)
    requires IsAtom(keyword) && IsAtom(call)
    requires var a := Step(Move(p, keyword), ' '); LexesTo(inner, Step(Move(a, call), '('), ts)
    ensures var a := Step(Move(p, keyword), ' ');
            LexesTo(keyword + [' '] + (call + ['('] + inner), p,
                    [WordToken(keyword, p)] + ([WordToken(call, a)] + ([Delimiter('(', Move(a, call))] + ts)))
  {
    var a := Step(Move(p, keyword), ' ');
    var b := Move(a, call);
    var us := [Delimiter('(', b)] + ts;
    DelimiterThen('(', inner, b, ts);
    WordThen(call, '(', inner, a, us);
    BlankThen(' ', call + ['('] + inner, Move(p, keyword), [WordToken(call, a)] + us);
    WordThen(keyword, ' ', call + ['('] + inner, p, [WordToken(call, a)] + us);
  }

  // ---- fields ----

  predicate Inside(t: LexToken) {
    t.kind != LParen && t.kind != RParen && t.kind != LBrace && t.kind != RBrace && !EndsStatement(t)
  }

  lemma {:induction false} ListIsInside(names: seq<string>, p: Place)
    requires AllAtoms(names)
    ensures forall i :: 0 <= i < |ListTokens(names, p)| ==> Inside(ListTokens(names, p)[i])
    decreases |names|
  {
    if |names| > 1 {
      ListIsInside(names[1..], Step(Step(Move(p, names[0]), ','), ' '));
    }
  }

  lemma {:induction false} ClosesBehind(ts: seq<LexToken>, t: LexToken, rest: seq<LexToken>)
    requires t.kind == RParen && forall i :: 0 <= i < |ts| ==> Inside(ts[i])
    ensures CloseAfter(ts + ([t] + rest), 1) == |ts| + 1
  {
    var all := ts + ([t] + rest);
    if ts != [] {
      assert all[0] == ts[0] && all[1..] == ts[1..] + ([t] + rest);
      ClosesBehind(ts[1..], t, rest);
    } else {
      assert all == [t] + rest;
    }
  }

  predicate Opened(text: string) {
    text != "" && (text[|text| - 1] == '(' || text[|text| - 1] == ' ')
  }

  lemma BodyStep(names: seq<string>, p: Place, text: string)
    requires |names| > 1 && IsAtom(names[0]) && Opened(text)
    ensures CallBody(ListTokens(names, p), text) ==
            CallBody(ListTokens(names[1..], Step(Step(Move(p, names[0]), ','), ' ')), text + names[0] + ", ")
  {
    var ts, rest := ListTokens(names, p), ListTokens(names[1..], Step(Step(Move(p, names[0]), ','), ' '));
    var comma := Delimiter(',', Move(p, names[0]));
    assert !NeedsCallSpace(text) && ts[0] == WordToken(names[0], p);
    assert ts[1..] == [comma] + rest && ([comma] + rest)[1..] == rest;
    assert CallBody([comma] + rest, text + names[0]) == CallBody(rest, text + names[0] + ", ");
  }

  lemma BodyOfOne(name: string, p: Place, text: string)
    requires IsAtom(name) && Opened(text)
    ensures CallBody([WordToken(name, p)], text) == text + name
  {
    assert !NeedsCallSpace(text) && [WordToken(name, p)][1..] == [];
  }

  /** The call is written out as the list was. */
  lemma {:induction false} BodyIsListed(names: seq<string>, p: Place, text: string)
    requires names != [] && AllAtoms(names) && Opened(text)
    ensures CallBody(ListTokens(names, p), text) == text + Listed(names)
    decreases |names|
  {
    if |names| == 1 {
      BodyOfOne(names[0], p, text);
    } else {
      BodyStep(names, p, text);
      BodyIsListed(names[1..], Step(Step(Move(p, names[0]), ','), ' '), text + names[0] + ", ");
      TextGrows(text, names[0], Listed(names[1..]));
    }
  }

  lemma TextGrows(text: string, name: string, rest: string)
    ensures text + name + ", " + rest == text + (name + [','] + ([' '] + rest))
  {
  }

  lemma CountIsAKeyword()
    ensures AtomKind("count") == Identifier && Lower("count") == "count"
  {
    assert Lower("count") == "count";
    assert !NumericFrom("count", true, false, false);
  }

  lemma CallTakesAll(t: LexToken, open: LexToken, list: seq<LexToken>, close: LexToken, rest: seq<LexToken>)
    requires t.kind == Identifier && Lower(t.literal) == "count" && open.kind == LParen && close.kind == RParen
    requires forall i :: 0 <= i < |list| ==> Inside(list[i])
    ensures var ts := [t] + ([open] + (list + ([close] + rest)));
            CallLength(ts) == |list| + 3 && ts[2..|list| + 2] == list && ts[|list| + 3..] == rest
  {
    var ts := [t] + ([open] + (list + ([close] + rest)));
    ClosesBehind(list, close, rest);
    assert ts[0] == t && ts[1] == open && ts[2..] == list + ([close] + rest);
  }

  lemma CallStep(ts: seq<LexToken>)
    requires CallLength(ts) > 0
    ensures SyntaxFields(ts) == [CallText(ts)] + SyntaxFields(ts[CallLength(ts)..])
  {
  }

  lemma CallTextIs(names: seq<string>, t: LexToken, open: LexToken, c: Place, close: LexToken, rest: seq<LexToken>)
    requires names != [] && AllAtoms(names)
    requires t.kind == Identifier && t.literal == "count" && open.kind == LParen && close.kind == RParen
    ensures var ts := [t] + ([open] + (ListTokens(names, c) + ([close] + rest)));
            CallLength(ts) == |ListTokens(names, c)| + 3 && CallText(ts) == CallOf(names)
  {
    CountIsAKeyword();
    ListIsInside(names, c);
    CallTakesAll(t, open, ListTokens(names, c), close, rest);
    assert t.literal + "(" == "count(";
    BodyIsListed(names, c, "count(");
  }

  /** `count`, its brackets and what stands between them are one field. */
  lemma CallIsOneField(names: seq<string>, t: LexToken, open: LexToken, c: Place, close: LexToken, rest: seq<LexToken>)
    requires names != [] && AllAtoms(names)
    requires t.kind == Identifier && t.literal == "count" && open.kind == LParen && close.kind == RParen
    ensures SyntaxFields([t] + ([open] + (ListTokens(names, c) + ([close] + rest)))) == [CallOf(names)] + SyntaxFields(rest)
  {
    CountIsAKeyword();
    ListIsInside(names, c);
    CallTakesAll(t, open, ListTokens(names, c), close, rest);
    CallTextIs(names, t, open, c, close, rest);
    CallStep([t] + ([open] + (ListTokens(names, c) + ([close] + rest))));
  }

  lemma QuorumIsNoCount()
    ensures Lower("quorum") != "count"
  {
    assert Lower("quorum")[0] == 'q';
  }

  predicate Even(ts: seq<LexToken>) {
    OnOneLine(ts) && NoBraces(ts)
  }

  lemma EvenConcat(a: seq<LexToken>, b: seq<LexToken>)
    requires Even(a) && Even(b)
    ensures Even(a + b)
  {
  }

  lemma WordsAreEven(ws: seq<string>, p: Place)
    requires AllWords(ws)
    ensures Even(WordTokens(ws, p))
  {
    WordsAreFields(ws, p);
  }

  lemma EvenCall(q: LexToken, t: LexToken, open: LexToken, list: seq<LexToken>, close: LexToken, last: seq<LexToken>)
    requires Even([q]) && Even([t]) && Even([open]) && Even(list) && Even([close]) && Even(last)
    ensures Even([q] + ([t] + ([open] + (list + ([close] + last)))))
  {
    EvenConcat([close], last);
    EvenConcat(list, [close] + last);
    EvenConcat([open], list + ([close] + last));
    EvenConcat([t], [open] + (list + ([close] + last)));
    EvenConcat([q], [t] + ([open] + (list + ([close] + last))));
  }

  lemma CountTokensStand(names: seq<string>, threshold: string, p: Place)
    requires AllAtoms(names) && IsAtom(threshold)
    ensures Even(CountTokens(names, threshold, p)) && CountTokens(names, threshold, p)[0].place == p
  {
    var a := Step(Move(p, "quorum"), ' ');
    var c := Step(Move(a, "count"), '(');
    var d := Move(c, Listed(names));
    var q, t, open, close := WordToken("quorum", p), WordToken("count", a), Delimiter('(', Move(a, "count")), Delimiter(')', d);
    KeywordsAreAtoms();
    OneIsEven(q);
    OneIsEven(t);
    OneIsEven(open);
    OneIsEven(close);
    ListIsEven(names, c);
    WordsAreEven([">=", threshold], Step(Step(d, ')'), ' '));
    EvenCall(q, t, open, ListTokens(names, c), close, WordTokens([">=", threshold], Step(Step(d, ')'), ' ')));
  }

  lemma OneIsEven(t: LexToken)
    requires !EndsStatement(t) && t.kind != LBrace && t.kind != RBrace
    ensures Even([t])
  {
  }

  lemma ListIsEven(names: seq<string>, p: Place)
    requires AllAtoms(names)
    ensures Even(ListTokens(names, p))
  {
    ListIsInside(names, p);
  }

  lemma ThresholdFields(threshold: string, p: Place)
    requires IsAtom(threshold)
    ensures SyntaxFields(WordTokens([">=", threshold], p)) == [">=", threshold]
  {
    WordsAreFields([">=", threshold], p);
  }

  lemma FieldsJoin(call: string, threshold: string)
    ensures ["quorum"] + ([call] + [">=", threshold]) == ["quorum", call, ">=", threshold]
  {
  }

  lemma CountLineFields(names: seq<string>, threshold: string, p: Place)
    requires names != [] && AllAtoms(names) && IsAtom(threshold)
    ensures SyntaxFields(CountTokens(names, threshold, p)) == CountFields(names, threshold)
  {
    var a := Step(Move(p, "quorum"), ' ');
    var c := Step(Move(a, "count"), '(');
    var d := Move(c, Listed(names));
    var e := Step(Step(d, ')'), ' ');
    var t, open, close, last := WordToken("count", a), Delimiter('(', Move(a, "count")), Delimiter(')', d), WordTokens([">=", threshold], e);
    KeywordsAreAtoms();
    CountIsAKeyword();
    CallIsOneField(names, t, open, c, close, last);
    ThresholdFields(threshold, e);
    KeywordFirst(p, [t] + ([open] + (ListTokens(names, c) + ([close] + last))));
    FieldsJoin(CallOf(names), threshold);
  }

  lemma KeywordFirst(p: Place, rest: seq<LexToken>)
    ensures SyntaxFields([WordToken("quorum", p)] + rest) == ["quorum"] + SyntaxFields(rest)
  {
    var ts := [WordToken("quorum", p)] + rest;
    KeywordsAreAtoms();
    QuorumIsNoCount();
    assert CallLength(ts) == 0 && ts[1..] == rest;
    WordTokenIsOneField("quorum", p);
  }

  lemma CountLineReads(names: seq<string>, threshold: string)
    requires names != [] && AllAtoms(names) && IsAtom(threshold)
    ensures LineReads(CountLine(names, threshold), CountFields(names, threshold))
  {
    forall p
      ensures ReadsAt(CountLine(names, threshold), p, CountFields(names, threshold))
    {
      CountLexes(names, threshold, p);
      CountLineFields(names, threshold, p);
      CountTokensStand(names, threshold, p);
      assert Stands(CountTokens(names, threshold, p), p, CountFields(names, threshold));
    }
  }
}
