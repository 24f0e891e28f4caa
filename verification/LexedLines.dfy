/** Lexing works line by line and word by word: what one line or word lexes to does not depend on what follows. */
module LexedLines {
  import opened Lexer

  /** The tokens of `s` at `p` are `ts`, then the end of input. */
  predicate LexesTo(s: string, p: Place, ts: seq<LexToken>) {
    LexFrom(s, p) == Tokens(ts + [LexToken(Eof, "", Move(p, s))])
  }

  lemma {:induction false} MoveConcat(p: Place, a: string, b: string)
    ensures Move(p, a + b) == Move(Move(p, a), b)
    decreases |a|
  {
    if a == "" {
      assert a + b == b;
    } else {
      assert (a + b)[0] == a[0] && (a + b)[1..] == a[1..] + b;
      MoveConcat(Step(p, a[0]), a[1..], b);
    }
  }

  // ---- one lexeme ----

  lemma {:induction false} AtomStops(a: string, c: char, b: string)
    requires EndsAtom(c)
    ensures AtomLength(a + [c] + b) == AtomLength(a)
  {
    if a != "" && !EndsAtom(a[0]) {
      assert (a + [c] + b)[1..] == a[1..] + [c] + b;
      AtomStops(a[1..], c, b);
    }
  }

  lemma {:induction false} CommentStops(a: string, b: string)
    ensures CommentLength(a + ['\n'] + b) == CommentLength(a)
  {
    if a != "" && a[0] != '\n' {
      assert (a + ['\n'] + b)[1..] == a[1..] + ['\n'] + b;
      CommentStops(a[1..], b);
    }
  }

  lemma {:induction false} StringStops(a: string, b: string, quote: char, escaped: bool)
    requires StringLength(a, quote, escaped) > 0
    ensures StringLength(a + b, quote, escaped) == StringLength(a, quote, escaped)
  {
    if escaped || a[0] != quote || a[0] == '\\' {
      assert (a + b)[1..] == a[1..] + b;
      StringStops(a[1..], b, quote, !escaped && a[0] == '\\');
    }
  }

  /** `c` cannot go on with what starts `a`: a line end never can, and other ends of atoms only with a comment or an
      operator. */
  predicate Separates(c: char, a: string)
    requires a != ""
  {
    c == '\n' || (EndsAtom(c) && !IsOperatorChar(c) && a[0] != '#')
  }

  lemma FirstLexemeStops(a: string, c: char, b: string)
    requires a != "" && !FirstLexeme(a).Bad? && Separates(c, a)
    ensures FirstLexeme(a + [c] + b) == FirstLexeme(a)
  {
    var s, x := a + [c] + b, FirstLexeme(a);
    assert s[0] == a[0] && s[..x.len] == a[..x.len];
    if a[0] == '#' {
      CommentStops(a, b);
    } else if a[0] == '"' || a[0] == '\'' {
      assert s[1..] == a[1..] + ([c] + b);
      StringStops(a[1..], [c] + b, a[0], false);
    } else if StartsAtom(a[0]) {
      AtomStops(a, c, b);
    } else {
      SymbolStops(a, c, b);
    }
  }

  lemma SymbolStops(a: string, c: char, b: string)
    requires a != "" && !IsOperatorChar(c) && !StartsAtom(a[0]) && a[0] != '#' && a[0] != '"' && a[0] != '\''
    ensures FirstLexeme(a + [c] + b) == FirstLexeme(a)
  {
    var s := a + [c] + b;
    assert s[0] == a[0];
    if |a| > 1 {
      assert s[1] == a[1];
    } else {
      assert s[1] == c;
    }
  }

  // ---- lines ----

  lemma FirstToken(s: string, p: Place, rest: seq<LexToken>, end: LexToken)
    requires s != "" && !FirstLexeme(s).Bad?
    requires var x := FirstLexeme(s); LexFrom(s[x.len..], Move(p, s[..x.len])) == Tokens(rest + [end])
    ensures var x := FirstLexeme(s);
            LexFrom(s, p) == Tokens((if x.Emit? then [LexToken(x.kind, x.literal, p)] + rest else rest) + [end])
  {
    var x := FirstLexeme(s);
    if x.Emit? {
      assert [LexToken(x.kind, x.literal, p)] + (rest + [end]) == [LexToken(x.kind, x.literal, p)] + rest + [end];
    }
  }

  /** A line end ends the line's tokens. */
  lemma NewlineLexes(b: string, q: Place, us: seq<LexToken>)
    requires LexesTo(b, Place(q.line + 1, 1), us)
    ensures LexesTo(['\n'] + b, q, [LexToken(Newline, "\n", q)] + us)
  {
    var s := ['\n'] + b;
    assert s[1..] == b && s[..1] == "\n" && Move(q, "\n") == Place(q.line + 1, 1);
    assert FirstLexeme(s) == Emit(1, Newline, "\n");
    MoveConcat(q, "\n", b);
    FirstToken(s, q, us, LexToken(Eof, "", Move(q, s)));
  }

  lemma EmptyLexes(p: Place)
    ensures LexesTo("", p, [])
  {
    assert LexFrom("", p) == Tokens([] + [LexToken(Eof, "", p)]);
  }

  lemma TokensRegroup(x: Lexeme, p: Place, a: seq<LexToken>, b: seq<LexToken>)
    requires !x.Bad?
    ensures (if x.Emit? then [LexToken(x.kind, x.literal, p)] + (a + b) else a + b) ==
            (if x.Emit? then [LexToken(x.kind, x.literal, p)] + a else a) + b
  {
    if x.Emit? {
      assert [LexToken(x.kind, x.literal, p)] + (a + b) == [LexToken(x.kind, x.literal, p)] + a + b;
    }
  }

  lemma MoveSplits(p: Place, a: string, k: nat)
    requires k <= |a|
    ensures Move(p, a) == Move(Move(p, a[..k]), a[k..])
  {
    assert a[..k] + a[k..] == a;
    MoveConcat(p, a[..k], a[k..]);
  }

  /** Two texts joined by a line end lex to the tokens of the one, the line end, and the tokens of the other. */
  lemma {:induction false} LinesLex(a: string, b: string, p: Place, ts: seq<LexToken>, us: seq<LexToken>)
    requires LexesTo(a, p, ts) && LexesTo(b, Place(Move(p, a).line + 1, 1), us)
    ensures LexesTo(a + ['\n'] + b, p, ts + ([LexToken(Newline, "\n", Move(p, a))] + us))
    decreases |a|
  {
    var more := [LexToken(Newline, "\n", Move(p, a))] + us;
    if a == "" {
      assert ts == [] && ts + more == more && a + ['\n'] + b == ['\n'] + b;
      NewlineLexes(b, p, us);
    } else {
      var x := FirstLexeme(a);
      var rest := RestLexes(a, p, ts);
      MoveSplits(p, a, x.len);
      LinesLex(a[x.len..], b, Move(p, a[..x.len]), rest, us);
      LineGoesOn(a, '\n', b, p, rest + more);
      TokensRegroup(x, p, rest, more);
    }
  }

  /** Behind the first lexeme the tokens go on. */
  lemma RestLexes(a: string, p: Place, ts: seq<LexToken>) returns (more: seq<LexToken>)
    requires a != "" && LexesTo(a, p, ts)
    ensures !FirstLexeme(a).Bad?
    ensures var x := FirstLexeme(a);
            LexesTo(a[x.len..], Move(p, a[..x.len]), more) && ts == if x.Emit? then [LexToken(x.kind, x.literal, p)] + more else more
  {
    var x, end := FirstLexeme(a), LexToken(Eof, "", Move(p, a));
    var q := Move(p, a[..x.len]);
    MoveSplits(p, a, x.len);
    LastIsEnd(a[x.len..], q);
    var all := LexFrom(a[x.len..], q).tokens;
    if x.Emit? {
      var t := LexToken(x.kind, x.literal, p);
      assert [t] + all == ts + [end];
      assert |ts| == |all| > 0;
      more := ts[1..];
      assert ts[0] == ([t] + all)[0] && all == ([t] + all)[1..] == more + [end];
    } else {
      more := ts;
    }
  }

  lemma {:induction false} LastIsEnd(s: string, p: Place)
    requires LexFrom(s, p).Tokens?
    ensures LexFrom(s, p).tokens != []
    decreases |s|
  {
    if s != "" {
      var x := FirstLexeme(s);
      LastIsEnd(s[x.len..], Move(p, s[..x.len]));
    }
  }

  /** The first lexeme is read as before when more text follows a separator. */
  lemma LineGoesOn(a: string, c: char, b: string, p: Place, rest: seq<LexToken>)
    requires a != "" && !FirstLexeme(a).Bad? && Separates(c, a)
    requires var x := FirstLexeme(a); LexesTo(a[x.len..] + [c] + b, Move(p, a[..x.len]), rest)
    ensures var x := FirstLexeme(a);
            LexesTo(a + [c] + b, p, if x.Emit? then [LexToken(x.kind, x.literal, p)] + rest else rest)
  {
    var s, x := a + [c] + b, FirstLexeme(a);
    FirstLexemeStops(a, c, b);
    assert s[x.len..] == a[x.len..] + [c] + b && s[..x.len] == a[..x.len];
    MoveSplits(p, s, x.len);
    FirstToken(s, p, rest, LexToken(Eof, "", Move(p, s)));
  }
}
