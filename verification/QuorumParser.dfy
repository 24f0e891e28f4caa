/** The recursive-descent parser of quorum expressions. */
module QuorumParser {
  import opened Names
  import opened QuorumSyntax

  datatype Parse = Parsed(expr: Expr, rest: seq<Token>) | Failed(error: Error)

  function TokenText(t: Token): string {
    match t
    case Amp => "&" case Bar => "|" case Bang => "!" case Open => "(" case Close => ")"
    case Word(text) => text
  }

  predicate StartsWith(ts: seq<Token>, t: Token) {
    ts != [] && ts[0] == t
  }

  /** `budget` is how many more levels of `!` and `(` may be entered. */
  function ParseUnary(ts: seq<Token>, budget: nat): (p: Parse)
    ensures p.Parsed? ==> |p.rest| < |ts|
    decreases |ts|, 0
  {
    if budget == 0 then Failed(TooDeep)
    else if StartsWith(ts, Bang) then
      match ParseUnary(ts[1..], budget - 1)
      case Parsed(e, rest) => Parsed(Not(e), rest)
      case Failed(error) => Failed(error)
    else if StartsWith(ts, Open) then
      match ParseChain(Or, ts[1..], budget - 1)
      case Parsed(e, rest) => if StartsWith(rest, Close) then Parsed(e, rest[1..]) else Failed(MissingClose)
      case Failed(error) => Failed(error)
    else if ts == [] then Failed(Incomplete)
    else
      var name := NormalizeIdentifier(TokenText(ts[0]));
      if IsIdentifier(name) then Parsed(Subject(name), ts[1..]) else Failed(InvalidSubject)
  }

  /** One operand of an `op` chain: `&` joins unaries, `|` joins `&` chains. */
  function ParseOperand(op: Op, ts: seq<Token>, budget: nat): (p: Parse)
    ensures p.Parsed? ==> |p.rest| < |ts|
    decreases |ts|, if op == And then 1 else 3
  {
    if op == And then ParseUnary(ts, budget) else ParseChain(And, ts, budget)
  }

  function ParseChain(op: Op, ts: seq<Token>, budget: nat): (p: Parse)
    ensures p.Parsed? ==> |p.rest| < |ts|
    decreases |ts|, if op == And then 2 else 4
  {
    match ParseOperand(op, ts, budget)
    case Parsed(left, rest) => ParseMore(op, left, rest, budget)
    case Failed(error) => Failed(error)
  }

  function ParseMore(op: Op, left: Expr, ts: seq<Token>, budget: nat): (p: Parse)
    ensures p.Parsed? ==> |p.rest| <= |ts|
    decreases |ts|, 4
  {
    if !StartsWith(ts, OpToken(op)) then Parsed(left, ts)
    else
      match ParseOperand(op, ts[1..], budget)
      case Parsed(right, rest) => ParseMore(op, Binary(op, left, right), rest, budget)
      case Failed(error) => Failed(error)
  }

  /** `parseQuorumFields` on an already split token list. */
  function ParseTokens(ts: seq<Token>): Result<Expr> {
    if ts == [] then Err(MissingExpression)
    else if |ts| > MaxTokens then Err(TooLarge)
    else
      match ParseChain(Or, ts, MaxDepth)
      case Parsed(e, rest) => if rest == [] then Ok(e) else Err(UnexpectedToken)
      case Failed(error) => Err(error)
  }

  // ---- the parser object ----

  class Parser {
    const tokens: seq<Token>
    var pos: nat
    var depth: nat

    ghost predicate Valid()
      reads this
    {
      pos <= |tokens| && depth <= MaxDepth
    }

    constructor (ts: seq<Token>)
      ensures Valid() && tokens == ts && pos == 0 && depth == 0
    {
      tokens := ts;
      pos := 0;
      depth := 0;
    }

    /** A successful step ends where the specification says and leaves the depth as it was. */
    ghost predicate Agrees(r: Result<Expr>, p: Parse, depthBefore: nat)
      reads this
    {
      Valid() &&
      match p
      case Parsed(e, rest) => r == Ok(e) && tokens[pos..] == rest && depth == depthBefore
      case Failed(error) => r == Err(error)
    }

    method Match(t: Token) returns (found: bool)
      requires Valid()
      modifies this`pos
      ensures Valid()
      ensures found == StartsWith(tokens[old(pos)..], t)
      ensures pos == if found then old(pos) + 1 else old(pos)
    {
      if pos >= |tokens| || tokens[pos] != t {
        return false;
      }
      pos := pos + 1;
      return true;
    }

    method Unary() returns (r: Result<Expr>)
      requires Valid()
      modifies this
      ensures Agrees(r, ParseUnary(tokens[old(pos)..], MaxDepth - old(depth)), old(depth))
      decreases |tokens| - pos, 0
    {
      if depth + 1 > MaxDepth {
        return Err(TooDeep);
      }
      depth := depth + 1;
      var bang := Match(Bang);
      if bang {
        var inner := Unary();
        if inner.Err? {
          return inner;
        }
        depth := depth - 1;
        return Ok(Not(inner.value));
      }
      var open := Match(Open);
      if open {
        var inner := Chain(Or);
        if inner.Err? {
          return inner;
        }
        var close := Match(Close);
        if !close {
          return Err(MissingClose);
        }
        depth := depth - 1;
        return inner;
      }
      if pos >= |tokens| {
        return Err(Incomplete);
      }
      var name := NormalizeIdentifier(TokenText(tokens[pos]));
      pos := pos + 1;
      if !IsIdentifier(name) {
        return Err(InvalidSubject);
      }
      depth := depth - 1;
      return Ok(Subject(name));
    }

    method Operand(op: Op) returns (r: Result<Expr>)
      requires Valid()
      modifies this
      ensures Agrees(r, ParseOperand(op, tokens[old(pos)..], MaxDepth - old(depth)), old(depth))
      decreases |tokens| - pos, if op == And then 1 else 3
    {
      if op == And {
        r := Unary();
      } else {
        r := Chain(And);
      }
    }

    /** `parseOr` for `Or`, `parseAnd` for `And`. */
    method Chain(op: Op) returns (r: Result<Expr>)
      requires Valid()
      modifies this
      ensures Agrees(r, ParseChain(op, tokens[old(pos)..], MaxDepth - old(depth)), old(depth))
      decreases |tokens| - pos, if op == And then 2 else 4
    {
      ghost var start, budget := pos, MaxDepth - depth;
      r := Operand(op);
      if r.Err? {
        return;
      }
      var left := r.value;
      var more := Match(OpToken(op));
      while more
        invariant Valid() && depth == old(depth)
        invariant pos > start
        invariant more ==> pos > start + 1
        invariant ParseChain(op, tokens[start..], budget) ==
                  if more
                  then match ParseOperand(op, tokens[pos..], budget)
                       case Parsed(right, rest) => ParseMore(op, Binary(op, left, right), rest, budget)
                       case Failed(error) => Failed(error)
                  else Parsed(left, tokens[pos..])
        decreases |tokens| - pos, more
      {
        var right := Operand(op);
        if right.Err? {
          return right;
        }
        left := Binary(op, left, right.value);
        more := Match(OpToken(op));
      }
      return Ok(left);
    }
  }

  /** `parseQuorumFields`, driving the parser object. */
  method ParseAll(ts: seq<Token>) returns (r: Result<Expr>)
    ensures r == ParseTokens(ts)
  {
    if |ts| == 0 {
      return Err(MissingExpression);
    }
    if |ts| > MaxTokens {
      return Err(TooLarge);
    }
    var parser := new Parser(ts);
    assert ts[0..] == ts;
    r := parser.Chain(Or);
    if r.Ok? && parser.pos != |ts| {
      return Err(UnexpectedToken);
    }
  }
}
