/** From text to quorum tokens: the split on white space and the scan of one field. */
module QuorumText {
  import opened Names
  import opened QuorumSyntax
  import opened QuorumRoundTrip

  predicate IsQuorumSymbol(c: char) {
    c == '&' || c == '|' || c == '!' || c == '(' || c == ')'
  }

  function SymbolToken(c: char): Token
    requires IsQuorumSymbol(c)
  {
    if c == '&' then Amp else if c == '|' then Bar else if c == '!' then Bang else if c == '(' then Open else Close
  }

  function Flush(word: string): seq<Token> {
    if word == "" then [] else [Word(word)]
  }

  /** The character loop of `quorumTokens` on one field, holding the word read so far. */
  function Scan(s: string, word: string): seq<Token> {
    if s == "" then Flush(word)
    else if IsQuorumSymbol(s[0]) then Flush(word) + [SymbolToken(s[0])] + Scan(s[1..], "")
    else Scan(s[1..], word + [s[0]])
  }

  function OperatorToken(word: string): Token
    requires IsOperatorWord(word)
  {
    if Lower(word) == "and" then Amp else if Lower(word) == "or" then Bar else Bang
  }

  function FieldTokens(field: string): seq<Token> {
    if IsOperatorWord(field) then [OperatorToken(field)] else Scan(field, "")
  }

  function AllTokens(fields: seq<string>): seq<Token> {
    if fields == [] then [] else FieldTokens(fields[0]) + AllTokens(fields[1..])
  }

  function FirstSpace(s: string): (k: nat)
    ensures k <= |s|
    ensures k < |s| ==> IsSpace(s[k])
    ensures forall i :: 0 <= i < k ==> !IsSpace(s[i])
  {
    if s == "" || IsSpace(s[0]) then 0 else 1 + FirstSpace(s[1..])
  }

  function OneField(s: string): seq<string> {
    if s == "" then [] else [s]
  }

  /** `strings.Fields` */
  function Fields(s: string): seq<string>
    decreases |s|
  {
    var k := FirstSpace(s);
    OneField(s[..k]) + if k < |s| then Fields(s[k + 1..]) else []
  }

  /** What `quorumTokens` returns: it stops once it holds one token more than the cap. */
  function Capped(ts: seq<Token>): seq<Token> {
    if |ts| <= MaxTokens then ts else ts[..MaxTokens + 1]
  }

  method QuorumTokens(fields: seq<string>) returns (tokens: seq<Token>)
    ensures tokens == Capped(AllTokens(fields))
  {
    tokens := [];
    var i := 0;
    while i < |fields|
      invariant 0 <= i <= |fields| && |tokens| <= MaxTokens
      invariant AllTokens(fields) == tokens + AllTokens(fields[i..])
    {
      FieldStep(fields, i, tokens);
      ghost var later := AllTokens(fields[i + 1..]);
      ghost var soFar := tokens + FieldTokens(fields[i]);
      if IsOperatorWord(fields[i]) {
        tokens := tokens + [OperatorToken(fields[i])];
        if |tokens| > MaxTokens {
          CappedPrefix(soFar, later);
          return;
        }
      } else {
        var over;
        tokens, over := AppendField(tokens, fields[i]);
        if over {
          CappedPrefix(soFar, later);
          return;
        }
      }
      i := i + 1;
    }
    assert fields[i..] == [];
  }

  lemma FieldStep(fields: seq<string>, i: nat, before: seq<Token>)
    requires i < |fields| && AllTokens(fields) == before + AllTokens(fields[i..])
    ensures AllTokens(fields) == before + FieldTokens(fields[i]) + AllTokens(fields[i + 1..])
  {
    assert fields[i..][1..] == fields[i + 1..];
    Regroup(before, FieldTokens(fields[i]), AllTokens(fields[i + 1..]));
  }

  lemma CappedPrefix(a: seq<Token>, b: seq<Token>)
    requires |a| > MaxTokens
    ensures Capped(a + b) == Capped(a)
  {
  }

  /** Appends one field's tokens, giving up as soon as the cap is passed. */
  method AppendField(start: seq<Token>, field: string) returns (tokens: seq<Token>, over: bool)
    requires |start| <= MaxTokens
    ensures over == (|start + Scan(field, "")| > MaxTokens)
    ensures tokens == Capped(start + Scan(field, ""))
  {
    tokens := start;
    var word := "";
    ghost var all := start + Scan(field, "");
    var i := 0;
    while i < |field|
      invariant 0 <= i <= |field| && |tokens| <= MaxTokens
      invariant all == tokens + Scan(field[i..], word)
    {
      var c := field[i];
      assert field[i..][1..] == field[i + 1..];
      if IsQuorumSymbol(c) {
        ghost var later := Scan(field[i + 1..], "");
        assert all == (tokens + Flush(word)) + ([SymbolToken(c)] + later);
        if |word| > 0 {
          tokens := tokens + [Word(word)];
          if |tokens| > MaxTokens {
            return tokens, true;
          }
          word := "";
        }
        assert all == (tokens + [SymbolToken(c)]) + later;
        tokens := tokens + [SymbolToken(c)];
        if |tokens| > MaxTokens {
          return tokens, true;
        }
      } else {
        word := word + [c];
      }
      i := i + 1;
    }
    assert field[i..] == "";
    if |word| > 0 {
      tokens := tokens + [Word(word)];
      if |tokens| > MaxTokens {
        return tokens, true;
      }
    }
    return tokens, false;
  }

  // ---- scanning whole rendered text ----

  /** The scan of `quorumTokens` with white space as a separator that yields no token. */
  function ScanText(s: string, word: string): seq<Token> {
    if s == "" then Flush(word)
    else if IsSpace(s[0]) then Flush(word) + ScanText(s[1..], "")
    else if IsQuorumSymbol(s[0]) then Flush(word) + [SymbolToken(s[0])] + ScanText(s[1..], "")
    else ScanText(s[1..], word + [s[0]])
  }

  predicate IsSeparator(c: char) {
    IsSpace(c) || IsQuorumSymbol(c)
  }

  function SeparatorTokens(c: char): seq<Token>
    requires IsSeparator(c)
  {
    if IsSpace(c) then [] else [SymbolToken(c)]
  }

  lemma {:induction false} ScanTextSplits(a: string, c: char, b: string, word: string)
    requires IsSeparator(c)
    ensures ScanText(a + [c] + b, word) == ScanText(a, word) + SeparatorTokens(c) + ScanText(b, "")
  {
    var s := a + [c] + b;
    if a == "" {
      assert s[1..] == b;
    } else {
      assert s[1..] == a[1..] + [c] + b;
      ScanTextSplits(a[1..], c, b, if IsSeparator(a[0]) then "" else word + [a[0]]);
    }
  }

  lemma {:induction false} ScanTextOfWord(name: string, word: string)
    requires forall i :: 0 <= i < |name| ==> !IsSeparator(name[i])
    ensures ScanText(name, word) == Flush(word + name)
  {
    if name == "" {
      assert word + name == word;
    } else {
      ScanTextOfWord(name[1..], word + [name[0]]);
      assert word + [name[0]] + name[1..] == word + name;
    }
  }

  lemma ScanTextParens(wrap: bool, s: string)
    ensures ScanText(Parens(wrap, s), "") == Bracket(wrap, ScanText(s, ""))
  {
    if wrap {
      assert Parens(wrap, s) == "" + ['('] + (s + ")");
      ScanTextSplits("", '(', s + ")", "");
      assert s + ")" == s + [')'] + "";
      ScanTextSplits(s, ')', "", "");
    }
  }

  lemma ScanTextJoins(a: string, op: Op, b: string)
    ensures ScanText(a + OpText(op) + b, "") == ScanText(a, "") + [OpToken(op)] + ScanText(b, "")
  {
    var symbol := OpText(op)[1];
    assert a + OpText(op) + b == a + [' '] + ([symbol] + ([' '] + b));
    ScanTextSplits(a, ' ', [symbol] + ([' '] + b), "");
    ScanTextFirst(symbol, [' '] + b);
    ScanTextFirst(' ', b);
  }

  lemma ScanTextFirst(c: char, b: string)
    requires IsSeparator(c)
    ensures ScanText([c] + b, "") == SeparatorTokens(c) + ScanText(b, "")
  {
    assert ([c] + b)[1..] == b;
  }

  lemma {:induction false} RenderScansToTokens(e: Expr)
    requires Complete(e)
    ensures ScanText(Render(e), "") == Tokens(e)
  {
    match e
    case Subject(name) =>
      NameHasNoSeparator(name);
      ScanTextOfWord(name, "");
      assert "" + name == name;
    case Not(x) =>
      RenderScansToTokens(x);
      ScanTextParens(x.Binary?, Render(x));
      ScanTextFirst('!', Parens(x.Binary?, Render(x)));
    case Binary(op, l, r) =>
      RenderScansToTokens(l);
      RenderScansToTokens(r);
      ScanTextParens(Wraps(op, l), Render(l));
      ScanTextParens(Wraps(op, r), Render(r));
      ScanTextJoins(Parens(Wraps(op, l), Render(l)), op, Parens(Wraps(op, r), Render(r)));
  }

  lemma NameHasNoSeparator(name: string)
    requires IsIdentifier(name)
    ensures forall i :: 0 <= i < |name| ==> !IsSeparator(name[i])
  {
    forall i | 0 <= i < |name|
      ensures !IsSeparator(name[i])
    {
      assert IsNameChar(name[i]);
    }
  }

  /** The sort key of the normaliser identifies a left-grouped tree. */
  lemma RenderInjective(e: Expr, f: Expr)
    requires LeftGrouped(e) && LeftGrouped(f) && Render(e) == Render(f)
    ensures e == f
  {
    LeftGroupedComplete(e);
    LeftGroupedComplete(f);
    RenderScansToTokens(e);
    RenderScansToTokens(f);
    TokensInjective(e, f);
  }

  lemma LeftGroupedComplete(e: Expr)
    requires LeftGrouped(e)
    ensures Complete(e)
  {
  }

  // ---- splitting into fields first ----

  predicate NoOperatorWord(ts: seq<Token>) {
    forall i :: 0 <= i < |ts| && ts[i].Word? ==> !IsOperatorWord(ts[i].text)
  }

  lemma {:induction false} ScanTextOfField(s: string, word: string)
    requires forall i :: 0 <= i < |s| ==> !IsSpace(s[i])
    ensures ScanText(s, word) == Scan(s, word)
  {
    if s != "" {
      ScanTextOfField(s[1..], if IsQuorumSymbol(s[0]) then "" else word + [s[0]]);
    }
  }

  lemma OperatorWordScan(field: string)
    requires IsOperatorWord(field)
    ensures ScanText(field, "") == [Word(field)]
  {
    forall i | 0 <= i < |field|
      ensures !IsSeparator(field[i])
    {
      assert Lower(field)[i] == LowerChar(field[i]);
    }
    ScanTextOfWord(field, "");
    assert "" + field == field;
  }

  lemma FieldTokensAreScanned(field: string)
    requires forall i :: 0 <= i < |field| ==> !IsSpace(field[i])
    requires NoOperatorWord(ScanText(field, ""))
    ensures AllTokens(OneField(field)) == ScanText(field, "")
  {
    ScanTextOfField(field, "");
    if IsOperatorWord(field) {
      OperatorWordScan(field);
    } else if field != "" {
      assert OneField(field)[1..] == [];
    }
  }

  lemma {:induction false} AllTokensConcat(a: seq<string>, b: seq<string>)
    ensures AllTokens(a + b) == AllTokens(a) + AllTokens(b)
  {
    if a == [] {
      assert a + b == b;
    } else {
      assert (a + b)[1..] == a[1..] + b;
      AllTokensConcat(a[1..], b);
    }
  }

  /** Splitting on white space and scanning each field agrees with scanning the text straight
      through, whenever no word in the text is an operator word. */
  lemma {:induction false} FieldsScanLikeText(s: string)
    requires NoOperatorWord(ScanText(s, ""))
    ensures AllTokens(Fields(s)) == ScanText(s, "")
    decreases |s|
  {
    var k := FirstSpace(s);
    var field := s[..k];
    if k < |s| {
      var rest := s[k + 1..];
      assert s == field + [s[k]] + rest;
      ScanTextSplits(field, s[k], rest, "");
      var left, right := ScanText(field, ""), ScanText(rest, "");
      assert ScanText(s, "") == left + right;
      assert NoOperatorWord(left) by {
        assert forall i :: 0 <= i < |left| ==> left[i] == ScanText(s, "")[i];
      }
      assert NoOperatorWord(right) by {
        assert forall i :: 0 <= i < |right| ==> right[i] == ScanText(s, "")[|left| + i];
      }
      FieldTokensAreScanned(field);
      FieldsScanLikeText(rest);
      AllTokensConcat(OneField(field), Fields(rest));
    } else {
      assert field == s;
      FieldTokensAreScanned(field);
      assert OneField(field) + [] == OneField(field);
    }
  }

  /** The words of a rendering are the tree's subjects. */
  lemma {:induction false} TokenWordsAreLeaves(e: Expr, i: nat)
    requires i < |Tokens(e)| && Tokens(e)[i].Word?
    ensures Tokens(e)[i].text in Leaves(e)
  {
    match e
    case Subject(_) =>
    case Not(x) =>
      var k := WordInNot(x, i);
      TokenWordsAreLeaves(x, k);
    case Binary(op, l, r) =>
      var side, k := WordInBinary(op, l, r, i);
      TokenWordsAreLeaves(side, k);
  }

  lemma WordInNot(x: Expr, i: nat) returns (k: nat)
    requires i < |Tokens(Not(x))| && Tokens(Not(x))[i].Word?
    ensures k < |Tokens(x)| && Tokens(x)[k] == Tokens(Not(x))[i]
  {
    WordInBracket(x.Binary?, Tokens(x), i - 1);
    k := i - 1 - if x.Binary? then 1 else 0;
  }

  lemma WordInBinary(op: Op, l: Expr, r: Expr, i: nat) returns (side: Expr, k: nat)
    requires i < |Tokens(Binary(op, l, r))| && Tokens(Binary(op, l, r))[i].Word?
    ensures (side == l || side == r) && k < |Tokens(side)| && Tokens(side)[k] == Tokens(Binary(op, l, r))[i]
  {
    var left, right := Bracket(Wraps(op, l), Tokens(l)), Bracket(Wraps(op, r), Tokens(r));
    assert Tokens(Binary(op, l, r)) == left + [OpToken(op)] + right;
    WordInJoin(left, OpToken(op), right, i);
    if i < |left| {
      side := l;
      k := WordInSide(l, Wraps(op, l), left, i);
    } else {
      side := r;
      k := WordInSide(r, Wraps(op, r), right, i - |left| - 1);
    }
  }

  lemma WordInSide(e: Expr, wrap: bool, ts: seq<Token>, i: nat) returns (k: nat)
    requires ts == Bracket(wrap, Tokens(e)) && i < |ts| && ts[i].Word?
    ensures k < |Tokens(e)| && Tokens(e)[k] == ts[i]
  {
    WordInBracket(wrap, Tokens(e), i);
    k := i - if wrap then 1 else 0;
  }

  lemma WordInJoin(a: seq<Token>, t: Token, b: seq<Token>, i: nat)
    requires i < |a + [t] + b| && (a + [t] + b)[i].Word? && !t.Word?
    ensures i != |a| && (a + [t] + b)[i] == if i < |a| then a[i] else b[i - |a| - 1]
  {
  }

  /** A word inside brackets is a word of what they hold. */
  lemma WordInBracket(wrap: bool, ts: seq<Token>, i: nat)
    requires i < |Bracket(wrap, ts)| && Bracket(wrap, ts)[i].Word?
    ensures var k := i - if wrap then 1 else 0; 0 <= k < |ts| && ts[k] == Bracket(wrap, ts)[i]
  {
  }

  /** A rendered tree, split on white space and then tokenised, gives the tokens it was rendered from. */
  lemma RenderedFieldsTokenise(e: Expr)
    requires Complete(e)
    requires forall name :: name in Leaves(e) ==> !IsOperatorWord(name)
    ensures AllTokens(Fields(Render(e))) == Tokens(e)
  {
    RenderScansToTokens(e);
    forall i | 0 <= i < |Tokens(e)| && Tokens(e)[i].Word?
      ensures !IsOperatorWord(Tokens(e)[i].text)
    {
      TokenWordsAreLeaves(e, i);
    }
    FieldsScanLikeText(Render(e));
  }
}
