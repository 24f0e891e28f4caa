/** Quorum expressions, their rendering, and the two sizes the compiler bounds. */
module QuorumSyntax {
  import opened Names

  datatype Op = And | Or

  /** `Malformed` is a missing tree or a node whose kind is none of the four. */
  datatype Expr =
    | Malformed
    | Subject(name: string)
    | Not(expr: Expr)
    | Binary(op: Op, left: Expr, right: Expr)
  {
    predicate Is(o: Op) { Binary? && op == o }
  }

  datatype Token = Amp | Bar | Bang | Open | Close | Word(text: string)

  datatype Error =
    | MissingExpression | TooLarge | TooDeep | MissingClose | Incomplete | InvalidSubject
    | UnexpectedToken | OperatorWord | MalformedExpression | NoRoundTrip

  datatype Result<+T> = Ok(value: T) | Err(error: Error)

  const MaxDepth: nat := 64
  const MaxTokens: nat := 512

  function OpToken(op: Op): Token {
    match op case And => Amp case Or => Bar
  }

  function OpText(op: Op): string {
    match op case And => " & " case Or => " | "
  }

  /** The only operand of a binary operator that is rendered in parentheses. */
  predicate Wraps(op: Op, e: Expr) {
    op == And && e.Is(Or)
  }

  // ---- rendering ----

  function Parens(wrap: bool, text: string): string {
    if wrap then "(" + text + ")" else text
  }

  function Render(e: Expr): string {
    match e
    case Malformed => ""
    case Subject(name) => name
    case Not(x) => "!" + Parens(x.Binary?, Render(x))
    case Binary(op, l, r) =>
      Parens(Wraps(op, l), Render(l)) + OpText(op) + Parens(Wraps(op, r), Render(r))
  }

  function Bracket(wrap: bool, ts: seq<Token>): seq<Token> {
    if wrap then [Open] + ts + [Close] else ts
  }

  /** The token sequence of the rendered text. */
  function Tokens(e: Expr): seq<Token> {
    match e
    case Malformed => []
    case Subject(name) => [Word(name)]
    case Not(x) => [Bang] + Bracket(x.Binary?, Tokens(x))
    case Binary(op, l, r) =>
      Bracket(Wraps(op, l), Tokens(l)) + [OpToken(op)] + Bracket(Wraps(op, r), Tokens(r))
  }

  function Max(a: nat, b: nat): nat { if a < b then b else a }

  /** How deep `parseUnary` nests while reading the rendered text. */
  function Depth(e: Expr): nat
    decreases e, 0
  {
    match e
    case Malformed => 0
    case Subject(_) => 1
    case Not(x) => 1 + Depth(x) + if x.Binary? then 1 else 0
    case Binary(op, l, r) => Max(OperandDepth(op, l), OperandDepth(op, r))
  }

  function OperandDepth(op: Op, e: Expr): nat
    decreases e, 1
  {
    Depth(e) + if Wraps(op, e) then 1 else 0
  }

  function Height(e: Expr): nat {
    match e
    case Malformed => 0
    case Subject(_) => 0
    case Not(x) => 1 + Height(x)
    case Binary(_, l, r) => 1 + Max(Height(l), Height(r))
  }

  /** A complete tree whose subjects fold to identifiers that are not operator words. */
  predicate WellFormed(e: Expr) {
    match e
    case Malformed => false
    case Subject(name) => IsIdentifier(NormalizeIdentifier(name)) && !IsOperatorWord(NormalizeIdentifier(name))
    case Not(x) => WellFormed(x)
    case Binary(_, l, r) => WellFormed(l) && WellFormed(r)
  }

  /** A complete tree whose subjects are canonical names; operator words allowed. */
  predicate Complete(e: Expr) {
    match e
    case Malformed => false
    case Subject(name) => IsCanonical(name)
    case Not(x) => Complete(x)
    case Binary(_, l, r) => Complete(l) && Complete(r)
  }

  lemma {:induction false} HeightBelowTokens(e: Expr)
    requires WellFormed(e) || Complete(e)
    ensures Height(e) < |Tokens(e)|
  {
    match e
    case Subject(_) =>
    case Not(x) => HeightBelowTokens(x);
    case Binary(_, l, r) => HeightBelowTokens(l); HeightBelowTokens(r);
  }

  /** Appends to a text buffer, as the printer writes into one builder in a single pass. */
  class TextBuffer {
    var text: string
    constructor ()
      ensures text == ""
    {
      text := "";
    }
    method Write(s: string)
      modifies this
      ensures text == old(text) + s
    {
      text := text + s;
    }
  }

  method RenderInto(b: TextBuffer, e: Expr)
    modifies b
    ensures b.text == old(b.text) + Render(e)
    decreases e, 0
  {
    match e
    case Malformed =>
    case Subject(name) => b.Write(name);
    case Not(x) =>
      b.Write("!");
      RenderNested(b, x.Binary?, x);
      assert old(b.text) + "!" + Parens(x.Binary?, Render(x)) == old(b.text) + ("!" + Parens(x.Binary?, Render(x)));
    case Binary(op, l, r) =>
      RenderNested(b, Wraps(op, l), l);
      b.Write(OpText(op));
      RenderNested(b, Wraps(op, r), r);
      Joined(old(b.text), Parens(Wraps(op, l), Render(l)), OpText(op), Parens(Wraps(op, r), Render(r)));
  }

  method RenderNested(b: TextBuffer, wrap: bool, e: Expr)
    modifies b
    ensures b.text == old(b.text) + Parens(wrap, Render(e))
    decreases e, 1
  {
    if wrap {
      b.Write("(");
    }
    RenderInto(b, e);
    if wrap {
      b.Write(")");
      Joined(old(b.text), "(", Render(e), ")");
    }
  }

  lemma Joined(s: string, x: string, y: string, z: string)
    ensures s + x + y + z == s + (x + y + z)
  {
  }
}
