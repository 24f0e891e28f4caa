/** Statements and statement fields: how lexed tokens are grouped before anything is parsed. */
module Syntax {
  import opened Names
  import opened Lexer

  /** Splits at newlines and the end of input, dropping empty lines. */
  function Statements(ts: seq<LexToken>, current: seq<LexToken>): seq<seq<LexToken>> {
    if ts == [] then (if current == [] then [] else [current])
    else if ts[0].kind == Newline || ts[0].kind == Eof then
      (if current == [] then [] else [current]) + Statements(ts[1..], [])
    else Statements(ts[1..], current + [ts[0]])
  }

  predicate EndsStatement(t: LexToken) {
    t.kind == Newline || t.kind == Eof
  }

  predicate OnOneLine(ts: seq<LexToken>) {
    forall i :: 0 <= i < |ts| ==> !EndsStatement(ts[i])
  }

  /** The tokens that belong to some statement. */
  function Kept(ts: seq<LexToken>): seq<LexToken> {
    if ts == [] then [] else (if EndsStatement(ts[0]) then [] else [ts[0]]) + Kept(ts[1..])
  }

  function Joined(statements: seq<seq<LexToken>>): seq<LexToken> {
    if statements == [] then [] else statements[0] + Joined(statements[1..])
  }

  lemma {:induction false} JoinedConcat(a: seq<seq<LexToken>>, b: seq<seq<LexToken>>)
    ensures Joined(a + b) == Joined(a) + Joined(b)
  {
    if a == [] {
      assert a + b == b;
    } else {
      assert (a + b)[1..] == a[1..] + b;
      JoinedConcat(a[1..], b);
    }
  }

  lemma JoinedOne(s: seq<LexToken>)
    ensures Joined(if s == [] then [] else [s]) == s
  {
    assert [s][1..] == [];
  }

  /** No statement is empty or reaches over a line end, and together, in order, they hold every other token. */
  lemma StatementsHoldLines(ts: seq<LexToken>, current: seq<LexToken>)
    requires OnOneLine(current)
    ensures forall s :: s in Statements(ts, current) ==> s != [] && OnOneLine(s)
    ensures Joined(Statements(ts, current)) == current + Kept(ts)
  {
    StatementsAreLines(ts, current);
    StatementsJoin(ts, current);
  }

  lemma {:induction false} StatementsAreLines(ts: seq<LexToken>, current: seq<LexToken>)
    requires OnOneLine(current)
    ensures forall s :: s in Statements(ts, current) ==> s != [] && OnOneLine(s)
    decreases |ts|
  {
    if ts != [] {
      StatementsAreLines(ts[1..], if EndsStatement(ts[0]) then [] else current + [ts[0]]);
    }
  }

  lemma {:induction false} StatementsJoin(ts: seq<LexToken>, current: seq<LexToken>)
    ensures Joined(Statements(ts, current)) == current + Kept(ts)
    decreases |ts|
  {
    var first := if current == [] then [] else [current];
    JoinedOne(current);
    if ts == [] {
      assert current + [] == current;
    } else if EndsStatement(ts[0]) {
      StatementsJoin(ts[1..], []);
      JoinedConcat(first, Statements(ts[1..], []));
      assert [] + Kept(ts[1..]) == Kept(ts);
    } else {
      StatementsJoin(ts[1..], current + [ts[0]]);
      assert Kept(ts) == [ts[0]] + Kept(ts[1..]);
      assert current + [ts[0]] + Kept(ts[1..]) == current + ([ts[0]] + Kept(ts[1..]));
    }
  }

  /** A line end splits: the statements before it, then the statements after it. */
  lemma {:induction false} StatementsSplit(a: seq<LexToken>, t: LexToken, b: seq<LexToken>, current: seq<LexToken>)
    requires EndsStatement(t)
    ensures Statements(a + [t] + b, current) == Statements(a, current) + Statements(b, [])
    decreases |a|
  {
    var all := a + [t] + b;
    if a == [] {
      assert all[0] == t && all[1..] == b;
    } else {
      assert all[0] == a[0] && all[1..] == a[1..] + [t] + b;
      if EndsStatement(a[0]) {
        StatementsSplit(a[1..], t, b, []);
      } else {
        StatementsSplit(a[1..], t, b, current + [a[0]]);
      }
    }
  }

  /** The tokens of one line are one statement. */
  lemma {:induction false} OneLineIsOneStatement(ts: seq<LexToken>, current: seq<LexToken>)
    requires OnOneLine(ts)
    ensures Statements(ts, current) == if current + ts == [] then [] else [current + ts]
    decreases |ts|
  {
    if ts == [] {
      assert current + ts == current;
    } else {
      OneLineIsOneStatement(ts[1..], current + [ts[0]]);
      assert current + [ts[0]] + ts[1..] == current + ts;
    }
  }

  /** A lexed line and the end of input are one statement. */
  lemma LexedLineIsOneStatement(ts: seq<LexToken>, end: LexToken)
    requires ts != [] && OnOneLine(ts) && EndsStatement(end)
    ensures Statements(ts + [end], []) == [ts]
  {
    StatementsSplit(ts, end, [], []);
    OneLineIsOneStatement(ts, []);
    assert ts + [end] + [] == ts + [end] && [] + ts == ts;
  }

  method SyntaxStatements(ts: seq<LexToken>) returns (statements: seq<seq<LexToken>>)
    ensures statements == Statements(ts, [])
    ensures forall s :: s in statements ==> s != [] && OnOneLine(s)
    ensures Joined(statements) == Kept(ts)
  {
    StatementsHoldLines(ts, []);
    statements := [];
    var current: seq<LexToken> := [];
    for i := 0 to |ts|
      invariant Statements(ts, []) == statements + Statements(ts[i..], current)
    {
      assert ts[i..][1..] == ts[i + 1..];
      if ts[i].kind == Newline || ts[i].kind == Eof {
        if |current| > 0 {
          statements := statements + [current];
          current := [];
        }
      } else {
        current := current + [ts[i]];
      }
    }
    if |current| > 0 {
      statements := statements + [current];
    }
  }

  /** Index just past the parenthesis that closes the one already open, or zero when there is none. */
  function CloseAfter(ts: seq<LexToken>, depth: nat): (k: nat)
    ensures k <= |ts|
  {
    if ts == [] then 0
    else if ts[0].kind == RParen && depth <= 1 then 1
    else
      var inner := if ts[0].kind == LParen then depth + 1 else if ts[0].kind == RParen then depth - 1 else depth;
      var k := CloseAfter(ts[1..], inner);
      if k == 0 then 0 else k + 1
  }

  predicate NeedsCallSpace(text: string) {
    text != "" && text[|text| - 1] != '(' && text[|text| - 1] != ' '
  }

  function CallBody(ts: seq<LexToken>, text: string): string {
    if ts == [] then text
    else
      CallBody(ts[1..],
               if ts[0].kind == Comma then text + ", "
               else if ts[0].kind == LParen then text + "("
               else if ts[0].kind == RParen then text + ")"
               else (if NeedsCallSpace(text) then text + " " else text) + ts[0].literal)
  }

  /** How many tokens a `count(...)` call takes at the front, or zero when there is none. */
  function CallLength(ts: seq<LexToken>): (k: nat)
    ensures k <= |ts|
    ensures k > 0 ==> k > 2
  {
    if ts == [] || ts[0].kind != Identifier || Lower(ts[0].literal) != "count" || |ts| < 2 || ts[1].kind != LParen then 0
    else
      var k := CloseAfter(ts[2..], 1);
      if k == 0 then 0 else k + 2
  }

  function CallText(ts: seq<LexToken>): string
    requires CallLength(ts) > 0
  {
    CallBody(ts[2..CallLength(ts) - 1], ts[0].literal + "(") + ")"
  }

  function FieldText(t: LexToken): string {
    match t.kind
    case LParen => "(" case RParen => ")" case Comma => "," case Plus => "+"
    case _ => t.literal
  }

  /** What one turn of the field loop consumes and appends. */
  function FieldStep(ts: seq<LexToken>): (r: (seq<string>, nat))
    requires ts != []
    ensures 0 < r.1 <= |ts|
  {
    if ts[0].kind == LBrace || ts[0].kind == RBrace then ([], 1)
    else if CallLength(ts) > 0 then ([CallText(ts)], CallLength(ts))
    else ([FieldText(ts[0])], 1)
  }

  function SyntaxFields(ts: seq<LexToken>): seq<string>
    decreases |ts|
  {
    if ts == [] then [] else FieldStep(ts).0 + SyntaxFields(ts[FieldStep(ts).1..])
  }

  /** The field loop has appended `fields` and stands at token `i`. */
  ghost predicate FieldsDone(ts: seq<LexToken>, i: nat, fields: seq<string>) {
    i <= |ts| && SyntaxFields(ts) == fields + SyntaxFields(ts[i..])
  }

  lemma FieldsStart(ts: seq<LexToken>)
    ensures FieldsDone(ts, 0, [])
  {
    assert ts[0..] == ts;
  }

  lemma FieldsStep(ts: seq<LexToken>, i: nat, fields: seq<string>, r: (seq<string>, nat))
    requires i < |ts| && FieldsDone(ts, i, fields) && r == FieldStep(ts[i..])
    ensures FieldsDone(ts, i + r.1, fields + r.0)
  {
    assert ts[i..][r.1..] == ts[i + r.1..];
    assert fields + (r.0 + SyntaxFields(ts[i + r.1..])) == fields + r.0 + SyntaxFields(ts[i + r.1..]);
  }

  lemma FieldsEnd(ts: seq<LexToken>, fields: seq<string>)
    requires FieldsDone(ts, |ts|, fields)
    ensures fields == SyntaxFields(ts)
  {
    assert ts[|ts|..] == [];
  }

  method FieldsOfStatement(ts: seq<LexToken>) returns (fields: seq<string>)
    ensures fields == SyntaxFields(ts)
  {
    fields := [];
    var i := 0;
    FieldsStart(ts);
    while i < |ts|
      invariant i <= |ts| && FieldsDone(ts, i, fields)
    {
      fields, i := TakeField(ts, i, fields);
    }
    FieldsEnd(ts, fields);
  }

  method NextField(ts: seq<LexToken>) returns (step: (seq<string>, nat))
    requires ts != []
    ensures step == FieldStep(ts) && step.1 > 0
  {
    step := FieldStep(ts);
  }

  /** One turn of the field loop. */
  method TakeField(ts: seq<LexToken>, i: nat, fields: seq<string>) returns (more: seq<string>, next: nat)
    requires i < |ts| && FieldsDone(ts, i, fields)
    ensures i < next && FieldsDone(ts, next, more)
  {
    var step := NextField(ts[i..]);
    FieldsStep(ts, i, fields, step);
    more, next := fields + step.0, i + step.1;
  }

  // ---- which quorum form a field list is ----

  datatype QuorumForm = OfForm | CountForm | PlusForm | ExpressionForm

  predicate IsDigits(s: string) {
    s != "" && forall i :: 0 <= i < |s| ==> '0' <= s[i] <= '9'
  }

  predicate IsInteger(s: string) {
    IsDigits(s) || (s != "" && (s[0] == '+' || s[0] == '-') && IsDigits(s[1..]))
  }

  function IndexOfGte(fields: seq<string>): (i: int)
    ensures -1 <= i < |fields|
  {
    if fields == [] then -1
    else if fields[0] == ">=" then 0
    else
      var i := IndexOfGte(fields[1..]);
      if i < 0 then -1 else i + 1
  }

  function Join(fields: seq<string>): string {
    if fields == [] then "" else if |fields| == 1 then fields[0] else fields[0] + " " + Join(fields[1..])
  }

  predicate StartsCount(s: string) {
    "count(" <= TrimRight(TrimLeft(s))
  }

  /** The branch `parseQuorum` takes. */
  function FormOf(fields: seq<string>): QuorumForm {
    if |fields| >= 4 && fields[1] == "of" && IsInteger(fields[0]) && IsInteger(fields[2]) then OfForm
    else
      var op := IndexOfGte(fields);
      if op >= 1 && op == |fields| - 2 && StartsCount(Join(fields[..op])) then CountForm
      else if op < 2 || op != |fields| - 2 then ExpressionForm
      else PlusForm
  }

  /** One field with every `+` inside it cut out as a field of its own. */
  function SplitPlus(field: string, part: string): seq<string> {
    if field == "" then (if part == "" then [] else [part])
    else if field[0] == '+' then (if part == "" then [] else [part]) + ["+"] + SplitPlus(field[1..], "")
    else SplitPlus(field[1..], part + [field[0]])
  }

  /** `splitPlusFields` */
  function SplitPlusFields(fields: seq<string>): seq<string> {
    if fields == [] then []
    else (if '+' in fields[0] then SplitPlus(fields[0], "") else [fields[0]]) + SplitPlusFields(fields[1..])
  }
}
