/** The scanner: one lexeme at a time over the source text, tracking line and column. */
module Lexer {
  import opened Names

  datatype Kind =
    | Eof | Newline | Identifier | String | Number | Bool | Operator
    | LBrace | RBrace | LParen | RParen | Comma | Plus

  datatype Place = Place(line: nat, column: nat)

  datatype LexToken = LexToken(kind: Kind, literal: string, place: Place)

  datatype Lexed = Tokens(tokens: seq<LexToken>) | Failed

  /** What starts at the front of the remaining text. */
  datatype Lexeme = Skip(len: nat) | Emit(len: nat, kind: Kind, literal: string) | Bad

  predicate IsOperatorChar(c: char) {
    c == '=' || c == '!' || c == '>' || c == '<' || c == '&' || c == '|'
  }

  predicate IsDelimiter(c: char) {
    c == '{' || c == '}' || c == '(' || c == ')' || c == ','
  }

  predicate EndsAtom(c: char) {
    IsSpace(c) || c == '#' || IsDelimiter(c) || IsOperatorChar(c)
  }

  function AtomLength(s: string): (k: nat)
    ensures k <= |s|
    ensures forall i :: 0 <= i < k ==> !EndsAtom(s[i])
    ensures k < |s| ==> EndsAtom(s[k])
  {
    if s == "" || EndsAtom(s[0]) then 0 else 1 + AtomLength(s[1..])
  }

  function CommentLength(s: string): (k: nat)
    ensures k <= |s|
  {
    if s == "" || s[0] == '\n' then 0 else 1 + CommentLength(s[1..])
  }

  /** How many characters after an opening quote, up to and including the closing one; zero when unterminated. */
  function StringLength(s: string, quote: char, escaped: bool): (k: nat)
    ensures k <= |s|
  {
    if s == "" || (s[0] == '\n' && !escaped) then 0
    else if !escaped && s[0] == quote && s[0] != '\\' then 1
    else
      var k := StringLength(s[1..], quote, !escaped && s[0] == '\\');
      if k == 0 then 0 else 1 + k
  }

  /** The literal that starts at `start` is read up to `i` and goes on as `escaped` says. */
  ghost predicate Unfinished(s: string, start: nat, i: nat, escaped: bool)
    requires start < i <= |s|
  {
    var whole, later := StringLength(s[start + 1..], s[start], false), StringLength(s[i..], s[start], escaped);
    if later == 0 then whole == 0 else whole == i - start - 1 + later
  }

  lemma UnfinishedStep(s: string, start: nat, i: nat, escaped: bool)
    requires start < i < |s| && s[start] != '\n' && Unfinished(s, start, i, escaped)
    ensures s[i] == '\n' && !escaped ==> StringLength(s[start + 1..], s[start], false) == 0
    ensures !escaped && s[i] == s[start] && s[i] != '\\' ==> StringLength(s[start + 1..], s[start], false) == i - start
    ensures !(s[i] == '\n' && !escaped) && !(!escaped && s[i] == s[start] && s[i] != '\\') ==>
              Unfinished(s, start, i + 1, !escaped && s[i] == '\\')
  {
    assert s[i..][1..] == s[i + 1..];
  }

  predicate NumericFrom(s: string, first: bool, seenDigit: bool, seenDot: bool) {
    if s == "" then seenDigit
    else if '0' <= s[0] <= '9' then NumericFrom(s[1..], false, true, seenDot)
    else if s[0] == '.' && !seenDot then NumericFrom(s[1..], false, seenDigit, true)
    else (s[0] == '-' || s[0] == '+') && first && NumericFrom(s[1..], false, seenDigit, seenDot)
  }

  function AtomKind(raw: string): Kind {
    if Lower(raw) == "true" || Lower(raw) == "false" then Bool
    else if NumericFrom(raw, true, false, false) then Number
    else Identifier
  }

  /** The one- and two-character lexemes. */
  function SymbolLexeme(c: char, next: char): Lexeme {
    if c == ' ' || c == '\t' || c == '\r' then Skip(1)
    else if c == '\n' then Emit(1, Newline, "\n")
    else if c == '{' then Emit(1, LBrace, "{")
    else if c == '}' then Emit(1, RBrace, "}")
    else if c == '(' then Emit(1, LParen, "(")
    else if c == ')' then Emit(1, RParen, ")")
    else if c == ',' then Emit(1, Comma, ",")
    else if c == '+' then Emit(1, Plus, "+")
    else if !IsOperatorChar(c) then Bad
    else if next == '=' && (c == '=' || c == '!' || c == '>' || c == '<') then Emit(2, Operator, [c, '='])
    else if next == c && (c == '&' || c == '|') then Emit(2, Operator, [c])
    else Emit(1, Operator, [c])
  }

  predicate StartsAtom(c: char) {
    !IsSpace(c) && !IsDelimiter(c) && c != '+' && !IsOperatorChar(c)
  }

  function FirstLexeme(s: string): (x: Lexeme)
    requires s != ""
    ensures !x.Bad? ==> 0 < x.len <= |s|
  {
    var c := s[0];
    if c == '#' then Skip(CommentLength(s))
    else if c == '"' || c == '\'' then
      var k := StringLength(s[1..], c, false);
      if k == 0 then Bad else Emit(k + 1, String, s[..k + 1])
    else if StartsAtom(c) then
      var k := AtomLength(s);
      Emit(k, AtomKind(s[..k]), s[..k])
    else SymbolLexeme(c, if |s| > 1 then s[1] else 0 as char)
  }

  function Step(p: Place, c: char): Place {
    if c == '\n' then Place(p.line + 1, 1) else Place(p.line, p.column + 1)
  }

  function Move(p: Place, s: string): Place
    decreases |s|
  {
    if s == "" then p else Move(Step(p, s[0]), s[1..])
  }

  function LexFrom(s: string, p: Place): Lexed
    decreases |s|
  {
    if s == "" then Tokens([LexToken(Eof, "", p)])
    else
      var x := FirstLexeme(s);
      if x.Bad? then Failed
      else
        match LexFrom(s[x.len..], Move(p, s[..x.len]))
        case Failed => Failed
        case Tokens(rest) => if x.Skip? then Tokens(rest) else Tokens([LexToken(x.kind, x.literal, p)] + rest)
  }

  /** `Lex` */
  function Lex(source: string): Lexed {
    LexFrom(source, Place(1, 1))
  }

  // ---- the scanner object ----

  class Scanner {
    const input: string
    var pos: nat
    var place: Place

    ghost predicate Valid()
      reads this
    {
      pos <= |input|
    }

    constructor (source: string)
      ensures Valid() && input == source && pos == 0 && place == Place(1, 1)
    {
      input := source;
      pos := 0;
      place := Place(1, 1);
    }

    method Advance()
      requires Valid() && pos < |input|
      modifies this
      ensures Valid() && pos == old(pos) + 1 && place == Step(old(place), input[old(pos)])
    {
      place := Step(place, input[pos]);
      pos := pos + 1;
    }

    method AdvanceBy(n: nat)
      requires Valid() && pos + n <= |input|
      modifies this
      ensures Valid() && pos == old(pos) + n && place == Move(old(place), input[old(pos)..][..n])
    {
      ghost var all := input[pos..][..n];
      var i := 0;
      while i < n
        invariant 0 <= i <= n && pos == old(pos) + i
        invariant Move(old(place), all) == Move(place, all[i..])
      {
        assert all[i] == input[pos] && all[i..][1..] == all[i + 1..];
        Advance();
        i := i + 1;
      }
    }

    /** Consumes a string literal; `ok` is false when it is unterminated. */
    /** Advances over one character of a literal that began at `start`. */
    method Take(ghost start: nat, ghost from: Place, literal: string) returns (longer: string)
      requires Valid() && start <= pos < |input| && literal == input[start..pos] && place == Move(from, literal)
      modifies this
      ensures Valid() && pos == old(pos) + 1 && longer == input[start..pos] && place == Move(from, longer)
    {
      assert input[start..pos] + [input[pos]] == input[start..pos + 1];
      MoveSnoc(from, literal, input[pos]);
      longer := literal + [input[pos]];
      Advance();
    }

    method ScanString() returns (ok: bool, literal: string)
      requires Valid() && pos < |input| && (input[pos] == '"' || input[pos] == '\'')
      modifies this
      ensures Valid()
      ensures var k := StringLength(input[old(pos)..][1..], input[old(pos)], false);
              ok == (k > 0) &&
              (ok ==> pos == old(pos) + k + 1 && literal == input[old(pos)..pos] &&
                      place == Move(old(place), literal))
    {
      ghost var start, from := pos, place;
      var quote := input[pos];
      assert input[start..][1..] == input[start + 1..];
      literal := Take(start, from, "");
      var escaped := false;
      while pos < |input|
        invariant Valid() && start < pos && Unfinished(input, start, pos, escaped)
        invariant literal == input[start..pos] && place == Move(from, literal)
        decreases |input| - pos
      {
        var c := input[pos];
        UnfinishedStep(input, start, pos, escaped);
        if c == '\n' && !escaped {
          return false, literal;
        }
        literal := Take(start, from, literal);
        if escaped {
          escaped := false;
        } else if c == '\\' {
          escaped := true;
        } else if c == quote {
          return true, literal;
        }
      }
      return false, literal;
    }

    method ScanAtom() returns (literal: string)
      requires Valid()
      modifies this
      ensures Valid() && literal == input[old(pos)..][..AtomLength(input[old(pos)..])]
      ensures pos == old(pos) + |literal| && place == Move(old(place), literal)
    {
      ghost var start, from := pos, place;
      literal := "";
      while pos < |input| && !EndsAtom(input[pos])
        invariant Valid() && pos >= start
        invariant literal == input[start..pos] && place == Move(from, literal)
        invariant AtomLength(input[start..]) == pos - start + AtomLength(input[pos..])
        decreases |input| - pos
      {
        assert input[pos..][1..] == input[pos + 1..];
        literal := Take(start, from, literal);
      }
      assert input[start..][..pos - start] == input[start..pos];
    }

    method SkipComment()
      requires Valid()
      modifies this
      ensures Valid() && pos == old(pos) + CommentLength(input[old(pos)..])
      ensures place == Move(old(place), input[old(pos)..pos])
    {
      ghost var start, from := pos, place;
      while pos < |input| && input[pos] != '\n'
        invariant Valid() && pos >= start
        invariant place == Move(from, input[start..pos])
        invariant CommentLength(input[start..]) == pos - start + CommentLength(input[pos..])
        decreases |input| - pos
      {
        assert input[pos..][1..] == input[pos + 1..];
        assert input[start..pos] + [input[pos]] == input[start..pos + 1];
        MoveSnoc(from, input[start..pos], input[pos]);
        Advance();
      }
    }

    /** Consumes one lexeme; `token` is absent for white space and comments. */
    method Next() returns (ok: bool, token: seq<LexToken>)
      requires Valid() && pos < |input|
      modifies this
      ensures Valid()
      ensures var x := FirstLexeme(input[old(pos)..]);
              ok == !x.Bad? &&
              (ok ==> pos == old(pos) + x.len && place == Move(old(place), input[old(pos)..][..x.len]) &&
                      token == if x.Emit? then [LexToken(x.kind, x.literal, old(place))] else [])
    {
      ghost var rest := input[pos..];
      var from, c := place, input[pos];
      token := [];
      if c == '#' {
        ghost var start := pos;
        SkipComment();
        assert input[start..pos] == rest[..pos - start];
        return true, [];
      }
      if c == '"' || c == '\'' {
        ghost var start := pos;
        var literal;
        ok, literal := ScanString();
        if ok {
          assert input[start..pos] == rest[..pos - start];
          token := [LexToken(String, literal, from)];
        }
        return;
      }
      if StartsAtom(c) {
        var literal := ScanAtom();
        return true, [LexToken(AtomKind(literal), literal, from)];
      }
      var x := SymbolLexeme(c, if pos + 1 < |input| then input[pos + 1] else 0 as char);
      assert x == FirstLexeme(rest);
      if x.Bad? {
        return false, [];
      }
      AdvanceBy(x.len);
      return true, if x.Emit? then [LexToken(x.kind, x.literal, from)] else [];
    }

    method LexAll() returns (r: Lexed)
      requires Valid()
      modifies this
      ensures r == LexFrom(input[old(pos)..], old(place))
    {
      ghost var start, from := pos, place;
      var tokens: seq<LexToken> := [];
      while pos < |input|
        invariant Valid()
        invariant Collected(input[start..], from, tokens, input[pos..], place)
        decreases |input| - pos
      {
        ghost var rest := input[pos..];
        CollectOne(input[start..], from, tokens, rest, place, FirstLexeme(rest));
        var ok, token := Next();
        if !ok {
          return Failed;
        }
        assert rest[FirstLexeme(rest).len..] == input[pos..];
        tokens := tokens + token;
      }
      return Tokens(tokens + [LexToken(Eof, "", place)]);
    }
  }

  function Prepend(a: seq<LexToken>, r: Lexed): Lexed {
    match r case Failed => Failed case Tokens(b) => Tokens(a + b)
  }

  /** Lexing `s` comes to `tokens` followed by what lexing `rest` gives. */
  ghost predicate Collected(s: string, from: Place, tokens: seq<LexToken>, rest: string, at: Place) {
    LexFrom(s, from) == Prepend(tokens, LexFrom(rest, at))
  }

  function TokenOf(x: Lexeme, at: Place): seq<LexToken>
    requires !x.Bad?
  {
    if x.Emit? then [LexToken(x.kind, x.literal, at)] else []
  }

  lemma LexOne(rest: string, at: Place, x: Lexeme)
    requires rest != "" && x == FirstLexeme(rest)
    ensures LexFrom(rest, at) ==
            if x.Bad? then Failed else Prepend(TokenOf(x, at), LexFrom(rest[x.len..], Move(at, rest[..x.len])))
  {
  }

  lemma CollectOne(s: string, from: Place, tokens: seq<LexToken>, rest: string, at: Place, x: Lexeme)
    requires rest != "" && Collected(s, from, tokens, rest, at) && x == FirstLexeme(rest)
    ensures if x.Bad? then LexFrom(s, from) == Failed
            else Collected(s, from, tokens + TokenOf(x, at), rest[x.len..], Move(at, rest[..x.len]))
  {
    LexOne(rest, at, x);
    if !x.Bad? {
      PrependTwice(tokens, TokenOf(x, at), LexFrom(rest[x.len..], Move(at, rest[..x.len])));
    }
  }

  lemma PrependTwice(a: seq<LexToken>, b: seq<LexToken>, r: Lexed)
    ensures Prepend(a, Prepend(b, r)) == Prepend(a + b, r)
  {
    if r.Tokens? {
      assert a + (b + r.tokens) == (a + b) + r.tokens;
    }
  }

  lemma {:induction false} MoveSnoc(p: Place, s: string, c: char)
    ensures Move(p, s + [c]) == Step(Move(p, s), c)
    decreases |s|
  {
    if s == "" {
      assert (s + [c])[1..] == "";
    } else {
      assert (s + [c])[1..] == s[1..] + [c];
      MoveSnoc(Step(p, s[0]), s[1..], c);
    }
  }
}
