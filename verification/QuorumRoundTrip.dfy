/** Parser and printer undo each other, and what a successful parse says about the tree it built. */
module QuorumRoundTrip {
  import opened Names
  import opened QuorumSyntax
  import opened QuorumParser

  /** A complete tree in which every chain is grouped to the left, as the parser groups it. */
  predicate LeftGrouped(e: Expr) {
    match e
    case Malformed => false
    case Subject(name) => IsCanonical(name)
    case Not(x) => LeftGrouped(x)
    case Binary(op, l, r) => LeftGrouped(l) && LeftGrouped(r) && !r.Is(op)
  }

  // ---- parsing rendered tokens gives the tree back ----

  lemma {:induction false} ParsesUnary(wrap: bool, e: Expr, rest: seq<Token>, budget: nat)
    requires LeftGrouped(e)
    requires e.Binary? ==> wrap
    requires Depth(e) + (if wrap then 1 else 0) <= budget
    ensures ParseUnary(Bracket(wrap, Tokens(e)) + rest, budget) == Parsed(e, rest)
    decreases e, if wrap then 3 else 0
  {
    if wrap {
      ParsesAnyChain(Or, e, [Close] + rest, budget - 1);
      OpenStep(Tokens(e), e, rest, budget);
    } else if e.Subject? {
      CanonicalIsFixed(e.name);
      WordStep(e.name, rest, budget);
    } else {
      var inner := Bracket(e.expr.Binary?, Tokens(e.expr));
      ParsesUnary(e.expr.Binary?, e.expr, rest, budget - 1);
      BangStep(inner, rest, budget);
    }
  }

  lemma OpenStep(inner: seq<Token>, e: Expr, rest: seq<Token>, budget: nat)
    requires budget > 0 && ParseChain(Or, inner + ([Close] + rest), budget - 1) == ParseMore(Or, e, [Close] + rest, budget - 1)
    ensures ParseUnary([Open] + inner + [Close] + rest, budget) == Parsed(e, rest)
  {
    var ts := [Open] + inner + [Close] + rest;
    assert ts[1..] == inner + ([Close] + rest);
    assert ([Close] + rest)[1..] == rest;
  }

  lemma WordStep(name: string, rest: seq<Token>, budget: nat)
    requires budget > 0 && IsIdentifier(NormalizeIdentifier(name))
    ensures ParseUnary([Word(name)] + rest, budget) == Parsed(Subject(NormalizeIdentifier(name)), rest)
  {
    assert ([Word(name)] + rest)[1..] == rest;
  }

  lemma BangStep(inner: seq<Token>, rest: seq<Token>, budget: nat)
    requires budget > 0 && ParseUnary(inner + rest, budget - 1).Parsed?
    ensures var p := ParseUnary(inner + rest, budget - 1);
            ParseUnary([Bang] + inner + rest, budget) == Parsed(Not(p.expr), p.rest)
  {
    assert ([Bang] + inner + rest)[1..] == inner + rest;
  }

  lemma {:induction false} ParsesOperand(op: Op, e: Expr, rest: seq<Token>, budget: nat)
    requires LeftGrouped(e) && !e.Is(op)
    requires OperandDepth(op, e) <= budget
    requires op == Or ==> !StartsWith(rest, Amp)
    ensures ParseOperand(op, Bracket(Wraps(op, e), Tokens(e)) + rest, budget) == Parsed(e, rest)
    decreases e, 4
  {
    if op == And {
      ParsesUnary(Wraps(op, e), e, rest, budget);
    } else {
      ParsesAnyChain(And, e, rest, budget);
    }
  }

  lemma ChainTokens(op: Op, e: Expr, rest: seq<Token>)
    requires e.Is(op)
    ensures var tail := Bracket(Wraps(op, e.right), Tokens(e.right)) + rest;
            Tokens(e) + rest == Bracket(Wraps(op, e.left), Tokens(e.left)) + ([OpToken(op)] + tail) &&
            ([OpToken(op)] + tail)[1..] == tail
  {
    var left, right := Bracket(Wraps(op, e.left), Tokens(e.left)), Bracket(Wraps(op, e.right), Tokens(e.right));
    assert Tokens(e) == left + [OpToken(op)] + right;
    Regroups(left, [OpToken(op)], right, rest);
  }

  lemma Regroups(a: seq<Token>, b: seq<Token>, c: seq<Token>, d: seq<Token>)
    ensures (a + b + c) + d == a + (b + (c + d))
    ensures (b + (c + d))[|b|..] == c + d
  {
  }

  /** Reading a chain's rendering leaves the loop holding exactly that chain. */
  lemma {:induction false} ParsesAnyChain(op: Op, e: Expr, rest: seq<Token>, budget: nat)
    requires LeftGrouped(e) && !Wraps(op, e)
    requires Depth(e) <= budget
    requires op == Or ==> !StartsWith(rest, Amp)
    ensures ParseChain(op, Tokens(e) + rest, budget) == ParseMore(op, e, rest, budget)
    decreases e, if op == And then 1 else 2
  {
    if e.Is(op) {
      var tail := Bracket(Wraps(op, e.right), Tokens(e.right)) + rest;
      ChainTokens(op, e, rest);
      if e.left.Is(op) {
        ParsesAnyChain(op, e.left, [OpToken(op)] + tail, budget);
      } else {
        ParsesOperand(op, e.left, [OpToken(op)] + tail, budget);
      }
      ParsesOperand(op, e.right, rest, budget);
    } else if op == And {
      ParsesUnary(false, e, rest, budget);
    } else {
      ParsesAnyChain(And, e, rest, budget);
    }
  }

  lemma {:induction false} ParsesChain(op: Op, e: Expr, rest: seq<Token>, budget: nat)
    requires LeftGrouped(e) && !Wraps(op, e)
    requires Depth(e) <= budget
    requires !StartsWith(rest, OpToken(op)) && (op == Or ==> !StartsWith(rest, Amp))
    ensures ParseChain(op, Tokens(e) + rest, budget) == Parsed(e, rest)
  {
    ParsesAnyChain(op, e, rest, budget);
  }

  /** Two left-grouped trees with the same tokens are the same tree. */
  lemma TokensInjective(e: Expr, f: Expr)
    requires LeftGrouped(e) && LeftGrouped(f) && Tokens(e) == Tokens(f)
    ensures e == f
  {
    var budget := Max(Depth(e), Depth(f));
    ParsesChain(Or, e, [], budget);
    ParsesChain(Or, f, [], budget);
  }

  /** `parseQuorumFields` on rendered tokens, within the two limits, returns the tree itself. */
  lemma ParseOfTokens(e: Expr)
    requires LeftGrouped(e)
    ensures |Tokens(e)| <= MaxTokens && Depth(e) <= MaxDepth ==> ParseTokens(Tokens(e)) == Ok(e)
  {
    if |Tokens(e)| <= MaxTokens && Depth(e) <= MaxDepth {
      assert Tokens(e) + [] == Tokens(e);
      ParsesChain(Or, e, [], MaxDepth);
      TokensNonEmpty(e);
    }
  }

  lemma TokensNonEmpty(e: Expr)
    requires LeftGrouped(e)
    ensures Tokens(e) != []
  {
  }

  // ---- what a successful parse says ----

  function Leaves(e: Expr): seq<string> {
    match e
    case Malformed => []
    case Subject(name) => [name]
    case Not(x) => Leaves(x)
    case Binary(_, l, r) => Leaves(l) + Leaves(r)
  }

  function Words(ts: seq<Token>): seq<string> {
    if ts == [] then []
    else (if ts[0].Word? then [NormalizeIdentifier(ts[0].text)] else []) + Words(ts[1..])
  }

  /** The tree `e` was read off the front of `ts` with `rest` left over. A tree that needs
      brackets to stand where it was read was written in brackets, so rendering it again costs
      no more tokens and no more depth. */
  ghost predicate ReadFrom(e: Expr, wrapped: bool, ts: seq<Token>, rest: seq<Token>, budget: nat) {
    Complete(e) &&
    Words(ts) == Leaves(e) + Words(rest) &&
    |Tokens(e)| + (if wrapped then 2 else 0) + |rest| <= |ts| &&
    Depth(e) + (if wrapped then 1 else 0) <= budget
  }

  lemma {:induction false} UnaryReads(ts: seq<Token>, budget: nat)
    requires ParseUnary(ts, budget).Parsed?
    ensures var p := ParseUnary(ts, budget); ReadFrom(p.expr, p.expr.Binary?, ts, p.rest, budget)
    decreases |ts|, 0
  {
    var p := ParseUnary(ts, budget);
    if StartsWith(ts, Bang) {
      UnaryReads(ts[1..], budget - 1);
      NotReads(p.expr.expr, ts, p.rest, budget);
    } else if StartsWith(ts, Open) {
      ChainReads(Or, ts[1..], budget - 1);
      var inner := ParseChain(Or, ts[1..], budget - 1);
      ParensRead(p.expr, ts, inner.rest, budget);
    } else {
      WordToken(ts[0]);
      FoldedIdentifierIsCanonical(TokenText(ts[0]));
    }
  }

  lemma NotReads(e: Expr, ts: seq<Token>, rest: seq<Token>, budget: nat)
    requires StartsWith(ts, Bang) && budget > 0 && ReadFrom(e, e.Binary?, ts[1..], rest, budget - 1)
    ensures ReadFrom(Not(e), false, ts, rest, budget)
  {
  }

  lemma ParensRead(e: Expr, ts: seq<Token>, rest: seq<Token>, budget: nat)
    requires StartsWith(ts, Open) && StartsWith(rest, Close)
    requires budget > 0 && ReadFrom(e, false, ts[1..], rest, budget - 1)
    ensures ReadFrom(e, e.Binary?, ts, rest[1..], budget)
  {
  }

  lemma MoreRead(op: Op, left: Expr, right: Expr, ts: seq<Token>, mid: seq<Token>, rest: seq<Token>, budget: nat)
    requires StartsWith(mid, OpToken(op)) && ReadFrom(left, Wraps(op, left), ts, mid, budget)
    requires ReadFrom(right, Wraps(op, right), mid[1..], rest, budget)
    ensures ReadFrom(Binary(op, left, right), false, ts, rest, budget)
  {
    assert Words(mid) == Words(mid[1..]) by { assert !mid[0].Word?; }
    Regroup(Leaves(left), Leaves(right), Words(rest));
    assert |mid| == 1 + |mid[1..]|;
  }

  lemma Regroup<T>(a: seq<T>, b: seq<T>, c: seq<T>)
    ensures a + (b + c) == (a + b) + c
  {
  }

  lemma WordToken(t: Token)
    requires IsIdentifier(NormalizeIdentifier(TokenText(t)))
    ensures t.Word?
  {
  }

  lemma {:induction false} OperandReads(op: Op, ts: seq<Token>, budget: nat)
    requires ParseOperand(op, ts, budget).Parsed?
    ensures var p := ParseOperand(op, ts, budget); ReadFrom(p.expr, Wraps(op, p.expr), ts, p.rest, budget)
    decreases |ts|, if op == And then 1 else 3
  {
    if op == And {
      UnaryReads(ts, budget);
    } else {
      ChainReads(And, ts, budget);
    }
  }

  lemma {:induction false} ChainReads(op: Op, ts: seq<Token>, budget: nat)
    requires ParseChain(op, ts, budget).Parsed?
    ensures var p := ParseChain(op, ts, budget); ReadFrom(p.expr, Wraps(op, p.expr), ts, p.rest, budget)
    decreases |ts|, if op == And then 2 else 4
  {
    OperandReads(op, ts, budget);
    var p := ParseOperand(op, ts, budget);
    MoreReads(op, p.expr, ts, p.rest, budget);
  }

  lemma {:induction false} MoreReads(op: Op, left: Expr, ts: seq<Token>, mid: seq<Token>, budget: nat)
    requires ParseMore(op, left, mid, budget).Parsed?
    requires |mid| < |ts| && ReadFrom(left, Wraps(op, left), ts, mid, budget)
    ensures var p := ParseMore(op, left, mid, budget); ReadFrom(p.expr, Wraps(op, p.expr), ts, p.rest, budget)
    decreases |mid|, 4
  {
    if StartsWith(mid, OpToken(op)) {
      OperandReads(op, mid[1..], budget);
      var p := ParseOperand(op, mid[1..], budget);
      MoreRead(op, left, p.expr, ts, mid, p.rest, budget);
      MoreReads(op, Binary(op, left, p.expr), ts, p.rest, budget);
    }
  }

  // ---- nothing that parses reads like a call ----

  predicate CallAt(ts: seq<Token>, i: nat) {
    i + 1 < |ts| && ts[i].Word? && ts[i + 1] == Open
  }

  /** `rest` is the end of `ts`, and no word before it is directly followed by an opening bracket. */
  ghost predicate CallFree(ts: seq<Token>, rest: seq<Token>) {
    |rest| <= |ts| && ts[|ts| - |rest|..] == rest && forall i :: 0 <= i && i + 1 < |ts| - |rest| ==> !CallAt(ts, i)
  }

  lemma HeadFree(ts: seq<Token>, rest: seq<Token>)
    requires ts != [] && !ts[0].Word? && CallFree(ts[1..], rest)
    ensures CallFree(ts, rest)
  {
    forall i | 0 <= i && i + 1 < |ts| - |rest|
      ensures !CallAt(ts, i)
    {
      assert i > 0 ==> !CallAt(ts[1..], i - 1);
    }
  }

  lemma JoinFree(ts: seq<Token>, mid: seq<Token>, rest: seq<Token>)
    requires CallFree(ts, mid) && mid != [] && !mid[0].Word? && mid[0] != Open && CallFree(mid[1..], rest)
    ensures CallFree(ts, rest)
  {
    HeadFree(mid, rest);
    var k := |ts| - |mid|;
    assert forall i :: k <= i < |ts| ==> ts[i] == mid[i - k];
    forall i | 0 <= i && i + 1 < |ts| - |rest|
      ensures !CallAt(ts, i)
    {
      if i >= k {
        assert !CallAt(mid, i - k);
      }
    }
    assert ts[|ts| - |rest|..] == mid[|mid| - |rest|..];
  }

  lemma {:induction false} UnaryFree(ts: seq<Token>, budget: nat)
    requires ParseUnary(ts, budget).Parsed?
    ensures CallFree(ts, ParseUnary(ts, budget).rest)
    decreases |ts|, 0
  {
    var p := ParseUnary(ts, budget);
    if StartsWith(ts, Bang) {
      UnaryFree(ts[1..], budget - 1);
      HeadFree(ts, p.rest);
    } else if StartsWith(ts, Open) {
      ChainFree(Or, ts[1..], budget - 1);
      var inner := ParseChain(Or, ts[1..], budget - 1);
      HeadFree(ts, inner.rest);
      JoinFree(ts, inner.rest, p.rest);
    }
  }

  lemma {:induction false} OperandFree(op: Op, ts: seq<Token>, budget: nat)
    requires ParseOperand(op, ts, budget).Parsed?
    ensures CallFree(ts, ParseOperand(op, ts, budget).rest)
    decreases |ts|, if op == And then 1 else 3
  {
    if op == And {
      UnaryFree(ts, budget);
    } else {
      ChainFree(And, ts, budget);
    }
  }

  lemma {:induction false} ChainFree(op: Op, ts: seq<Token>, budget: nat)
    requires ParseChain(op, ts, budget).Parsed?
    ensures CallFree(ts, ParseChain(op, ts, budget).rest)
    decreases |ts|, if op == And then 2 else 4
  {
    OperandFree(op, ts, budget);
    var p := ParseOperand(op, ts, budget);
    MoreFree(op, p.expr, ts, p.rest, budget);
  }

  lemma {:induction false} MoreFree(op: Op, left: Expr, ts: seq<Token>, mid: seq<Token>, budget: nat)
    requires ParseMore(op, left, mid, budget).Parsed? && |mid| < |ts| && CallFree(ts, mid)
    ensures CallFree(ts, ParseMore(op, left, mid, budget).rest)
    decreases |mid|, 4
  {
    if StartsWith(mid, OpToken(op)) {
      OperandFree(op, mid[1..], budget);
      var p := ParseOperand(op, mid[1..], budget);
      JoinFree(ts, mid, p.rest);
      MoreFree(op, Binary(op, left, p.expr), ts, p.rest, budget);
    }
  }

  /** In a token list that parses, no word is directly followed by an opening bracket. */
  lemma ParsedHasNoCall(ts: seq<Token>, i: nat)
    requires ParseTokens(ts).Ok?
    ensures !CallAt(ts, i)
  {
    ChainFree(Or, ts, MaxDepth);
  }

  /** The source text's own words are the tree's subjects in order, and rendering the tree again
      needs no more tokens and no deeper nesting than the source had. */
  lemma ParseBounds(ts: seq<Token>)
    requires ParseTokens(ts).Ok?
    ensures var e := ParseTokens(ts).value;
            Complete(e) && Leaves(e) == Words(ts) && |Tokens(e)| <= |ts| <= MaxTokens && Depth(e) <= MaxDepth
  {
    ChainReads(Or, ts, MaxDepth);
  }
}
