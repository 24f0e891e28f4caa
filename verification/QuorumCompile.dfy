/** The entry points for quorum expressions: guarded normalisation and the text path. */
module QuorumCompile {
  import opened Names
  import opened QuorumSyntax
  import opened QuorumParser
  import opened QuorumRoundTrip
  import opened QuorumText
  import opened QuorumNormal
  import opened QuorumEquivalence

  // ---- normalisation with the recursion limit ----

  function NormalizeAt(e: Expr, depth: nat): Result<Expr>
    decreases e, 1
  {
    if depth > MaxTokens then Err(TooLarge)
    else
      match e
      case Malformed => Err(MalformedExpression)
      case Subject(name) =>
        var folded := NormalizeIdentifier(name);
        if !IsIdentifier(folded) then Err(InvalidSubject)
        else if IsOperatorWord(folded) then Err(OperatorWord)
        else Ok(Subject(folded))
      case Not(x) =>
        match NormalizeAt(x, depth + 1) {
          case Ok(y) => Ok(Not(y))
          case Err(error) => Err(error)
        }
      case Binary(op, l, r) =>
        match FlattenAt(op, l, r, depth) {
          case Ok(operands) => Ok(Fold(op, SortedOperands(op, operands)))
          case Err(error) => Err(error)
        }
  }

  function FlattenAt(op: Op, l: Expr, r: Expr, depth: nat): (s: Result<seq<Expr>>)
    ensures s.Ok? ==> s.value != []
    decreases Binary(op, l, r), 0
  {
    if depth > MaxTokens then Err(TooLarge)
    else
      match FlattenChild(op, l, depth)
      case Err(error) => Err(error)
      case Ok(a) =>
        match FlattenChild(op, r, depth)
        case Err(error) => Err(error)
        case Ok(b) => Ok(a + b)
  }

  function FlattenChild(op: Op, child: Expr, depth: nat): (s: Result<seq<Expr>>)
    ensures s.Ok? ==> s.value != []
    decreases child, 2
  {
    if child.Is(op) then FlattenAt(op, child.left, child.right, depth + 1)
    else
      match NormalizeAt(child, depth + 1)
      case Ok(e) => Ok([e])
      case Err(error) => Err(error)
  }

  /** The normaliser as it runs: it collects operands in a loop, sorts them and rebuilds the chain in a loop. */
  method NormalizeExpressionAt(e: Expr, depth: nat) returns (r: Result<Expr>)
    ensures r == NormalizeAt(e, depth)
    decreases e, 1
  {
    if depth > MaxTokens {
      return Err(TooLarge);
    }
    match e
    case Malformed => return Err(MalformedExpression);
    case Subject(name) =>
      var folded := NormalizeIdentifier(name);
      if !IsIdentifier(folded) {
        return Err(InvalidSubject);
      }
      if IsOperatorWord(folded) {
        return Err(OperatorWord);
      }
      return Ok(Subject(folded));
    case Not(x) =>
      var inner := NormalizeExpressionAt(x, depth + 1);
      if inner.Err? {
        return inner;
      }
      return Ok(Not(inner.value));
    case Binary(op, left, right) =>
      var flat := FlattenQuorumChain(op, left, right, depth);
      if flat.Err? {
        return Err(flat.error);
      }
      var node := RebuildChain(op, SortedOperands(op, flat.value));
      return Ok(node);
  }

  method RebuildChain(op: Op, sorted: seq<Expr>) returns (node: Expr)
    requires sorted != []
    ensures node == Fold(op, sorted)
    ensures (forall x :: x in sorted ==> !x.Is(op)) ==> Spine(op, node) == sorted
  {
    node := sorted[0];
    var i := 1;
    while i < |sorted|
      invariant 1 <= i <= |sorted|
      invariant node == Fold(op, sorted[..i])
    {
      assert sorted[..i + 1] == sorted[..i] + [sorted[i]];
      FoldSnoc(op, sorted[..i], sorted[i]);
      node := Binary(op, node, sorted[i]);
      i := i + 1;
    }
    assert sorted[..i] == sorted;
    if forall x :: x in sorted ==> !x.Is(op) {
      SpineOfFold(op, sorted);
    }
  }

  method FlattenQuorumChain(op: Op, left: Expr, right: Expr, depth: nat) returns (r: Result<seq<Expr>>)
    ensures r == FlattenAt(op, left, right, depth)
    decreases Binary(op, left, right), 0
  {
    if depth > MaxTokens {
      return Err(TooLarge);
    }
    var children := [left, right];
    var operands: seq<Expr> := [];
    var i := 0;
    while i < 2
      invariant 0 <= i <= 2
      invariant i == 0 ==> operands == []
      invariant i >= 1 ==> FlattenChild(op, left, depth).Ok?
      invariant i == 1 ==> operands == FlattenChild(op, left, depth).value
      invariant i == 2 ==> FlattenAt(op, left, right, depth) == Ok(operands)
    {
      var child := children[i];
      if child.Is(op) {
        var nested := FlattenQuorumChain(op, child.left, child.right, depth + 1);
        if nested.Err? {
          return nested;
        }
        operands := operands + nested.value;
      } else {
        var normalized := NormalizeExpressionAt(child, depth + 1);
        if normalized.Err? {
          return Err(normalized.error);
        }
        operands := operands + [normalized.value];
      }
      i := i + 1;
    }
    return Ok(operands);
  }

  /** The recursion limit and the name checks are all that can stop normalisation. */
  lemma {:induction false} NormalizeAtExact(e: Expr, depth: nat)
    ensures NormalizeAt(e, depth).Ok? <==> WellFormed(e) && depth + Height(e) <= MaxTokens
    ensures NormalizeAt(e, depth).Ok? ==> NormalizeAt(e, depth).value == Norm(e)
    decreases e, 1
  {
    match e
    case Malformed =>
    case Subject(_) =>
    case Not(x) => NormalizeAtExact(x, depth + 1);
    case Binary(op, l, r) =>
      FlattenChildExact(op, l, depth);
      FlattenChildExact(op, r, depth);
  }

  lemma {:induction false} FlattenChildExact(op: Op, child: Expr, depth: nat)
    ensures FlattenChild(op, child, depth).Ok? <==> WellFormed(child) && depth + 1 + Height(child) <= MaxTokens
    ensures FlattenChild(op, child, depth).Ok? ==> FlattenChild(op, child, depth).value == Operands(op, child)
    decreases child, 2
  {
    if child.Is(op) {
      FlattenChildExact(op, child.left, depth + 1);
      FlattenChildExact(op, child.right, depth + 1);
    } else {
      NormalizeAtExact(child, depth + 1);
    }
  }

  // ---- the guarded normaliser ----

  function ParseFields(fields: seq<string>): Result<Expr> {
    ParseTokens(Capped(AllTokens(fields)))
  }

  /** `normalizeQuorumExpression`: normalise, then re-read the rendered result through the text path
      and insist that it normalises to the same text. */
  function NormalizeQuorum(e: Expr): Result<Expr> {
    match NormalizeAt(e, 0)
    case Err(error) => Err(error)
    case Ok(n) =>
      match ParseFields(Fields(Render(n)))
      case Err(error) => Err(error)
      case Ok(reparsed) =>
        match NormalizeAt(reparsed, 0)
        case Err(error) => Err(error)
        case Ok(again) => if Render(again) != Render(n) then Err(NoRoundTrip) else Ok(n)
  }

  /** `parseQuorumExpression` */
  function ParseQuorumExpression(fields: seq<string>): Result<Expr> {
    match ParseFields(fields)
    case Err(error) => Err(error)
    case Ok(e) => NormalizeQuorum(e)
  }

  method NormalizeQuorumExpression(e: Expr) returns (r: Result<Expr>)
    ensures r == NormalizeQuorum(e)
  {
    var normalized := NormalizeExpressionAt(e, 0);
    if normalized.Err? {
      return normalized;
    }
    var rendered := Render(normalized.value);
    var reparsed := ParseQuorumFields(Fields(rendered));
    if reparsed.Err? {
      return reparsed;
    }
    var again := NormalizeExpressionAt(reparsed.value, 0);
    if again.Err? {
      return again;
    }
    if Render(again.value) != rendered {
      return Err(NoRoundTrip);
    }
    return normalized;
  }

  method ParseQuorumFields(fields: seq<string>) returns (r: Result<Expr>)
    ensures r == ParseFields(fields)
  {
    var tokens := QuorumTokens(fields);
    r := ParseAll(tokens);
  }

  /** What the compiler promises to accept. */
  ghost predicate Acceptable(e: Expr) {
    WellFormed(e) && |Tokens(e)| <= MaxTokens && Depth(e) <= MaxDepth
  }

  lemma {:induction false} LeavesOfWellFormed(e: Expr)
    ensures WellFormed(e) ==> forall name :: name in Leaves(e) ==> !IsOperatorWord(NormalizeIdentifier(name))
    ensures Complete(e) ==> forall name :: name in Leaves(e) ==> IsCanonical(name)
    ensures Complete(e) && (forall name :: name in Leaves(e) ==> !IsOperatorWord(name)) ==> WellFormed(e)
  {
    match e
    case Malformed =>
    case Subject(name) =>
      if IsCanonical(name) {
        CanonicalIsFixed(name);
      }
    case Not(x) => LeavesOfWellFormed(x);
    case Binary(_, l, r) => LeavesOfWellFormed(l); LeavesOfWellFormed(r);
  }

  lemma {:induction false} LeavesOfNormal(e: Expr)
    requires NormalForm(e)
    ensures forall name :: name in Leaves(e) ==> !IsOperatorWord(name)
  {
    match e
    case Subject(_) =>
    case Not(x) => LeavesOfNormal(x);
    case Binary(_, l, r) => LeavesOfNormal(l); LeavesOfNormal(r);
  }

  /** Re-reading the rendering of a normal form. */
  lemma NormalFormReparses(n: Expr)
    requires NormalForm(n)
    ensures AllTokens(Fields(Render(n))) == Tokens(n)
    ensures |Tokens(n)| <= MaxTokens && Depth(n) <= MaxDepth ==> ParseFields(Fields(Render(n))) == Ok(n)
    ensures |Tokens(n)| > MaxTokens ==> ParseFields(Fields(Render(n))) == Err(TooLarge)
  {
    NormalFormLeftGrouped(n);
    LeftGroupedComplete(n);
    LeavesOfNormal(n);
    RenderedFieldsTokenise(n);
    ParseOfTokens(n);
  }

  lemma AcceptableNormalizes(e: Expr)
    requires Acceptable(e)
    ensures NormalizeQuorum(e) == Ok(Norm(e))
  {
    var n := Norm(e);
    NormIsNormal(e);
    NormKeepsLimits(e);
    NormalFormLeftGrouped(n);
    HeightBelowTokens(e);
    HeightBelowTokens(n);
    NormalizeAtExact(e, 0);
    NormalizeAtExact(n, 0);
    NormalFormReparses(n);
    NormOfNormal(n);
  }

  lemma NormalizesOnlyAcceptable(e: Expr)
    requires NormalizeQuorum(e).Ok?
    ensures Acceptable(e) && NormalizeQuorum(e).value == Norm(e)
  {
    var n := Norm(e);
    NormalizeAtExact(e, 0);
    NormIsNormal(e);
    NormKeepsLimits(e);
    NormalFormReparses(n);
    var reparsed := ParseFields(Fields(Render(n))).value;
    ParseBounds(Tokens(n));
    NormalizeAtExact(reparsed, 0);
    NormIsNormal(reparsed);
    NormalFormLeftGrouped(n);
    NormalFormLeftGrouped(Norm(reparsed));
    RenderInjective(n, Norm(reparsed));
    NormKeepsLimits(reparsed);
  }

  /** The guarded normaliser accepts a caller-built tree exactly when it is well formed and its
      rendering is within the text path's token and depth limits; the trial parse and the
      round-trip check never change the result otherwise. */
  lemma NormalizeQuorumExact(e: Expr)
    ensures NormalizeQuorum(e).Ok? <==> Acceptable(e)
    ensures Acceptable(e) ==> NormalizeQuorum(e) == Ok(Norm(e))
  {
    if Acceptable(e) {
      AcceptableNormalizes(e);
    }
    if NormalizeQuorum(e).Ok? {
      NormalizesOnlyAcceptable(e);
    }
  }

  /** On the text path the trial parse and the round-trip check change nothing, errors included: a parsed
      expression comes out as the first normalisation leaves it. */
  lemma TrialParseIsNoOp(fields: seq<string>)
    ensures ParseQuorumExpression(fields) ==
            match ParseFields(fields) {
              case Err(error) => Err(error)
              case Ok(e) => NormalizeAt(e, 0)
            }
  {
    if ParseFields(fields).Ok? {
      var e := ParseFields(fields).value;
      ParseBounds(Capped(AllTokens(fields)));
      NormalizeAtExact(e, 0);
      NormalizeQuorumExact(e);
    }
  }

  /** That first normalisation only checks names: whatever parses normalises unless one of its words is an
      operator word. */
  lemma TextPathNormalizes(fields: seq<string>)
    requires ParseFields(fields).Ok?
    ensures var words := Words(AllTokens(fields));
            ParseQuorumExpression(fields).Ok? <==> forall w :: w in words ==> !IsOperatorWord(w)
    ensures ParseQuorumExpression(fields).Ok? ==> ParseQuorumExpression(fields) == Ok(Norm(ParseFields(fields).value))
  {
    var e := ParseFields(fields).value;
    ParseBounds(Capped(AllTokens(fields)));
    LeavesOfWellFormed(e);
    forall w | w in Leaves(e) && IsCanonical(w)
      ensures NormalizeIdentifier(w) == w
    {
      CanonicalIsFixed(w);
    }
    NormalizeQuorumExact(e);
  }

  /** A bare lexeme: one quorum symbol, or a text with neither symbols nor white space. */
  predicate OneLexeme(field: string) {
    (|field| == 1 && IsQuorumSymbol(field[0])) || forall i :: 0 <= i < |field| ==> !IsSeparator(field[i])
  }

  lemma {:induction false} WordsConcat(a: seq<Token>, b: seq<Token>)
    ensures Words(a + b) == Words(a) + Words(b)
  {
    if a == [] {
      assert a + b == b;
    } else {
      var first := if a[0].Word? then [NormalizeIdentifier(a[0].text)] else [];
      WordsConcat(a[1..], b);
      assert (a + b)[0] == a[0] && (a + b)[1..] == a[1..] + b;
      assert Words(a) == first + Words(a[1..]) && Words(a + b) == first + Words((a + b)[1..]);
      QuorumRoundTrip.Regroup(first, Words(a[1..]), Words(b));
    }
  }

  lemma NoSpaceFolds(field: string)
    requires forall i :: 0 <= i < |field| ==> !IsSeparator(field[i])
    ensures NormalizeIdentifier(field) == Lower(field) && Lower(Lower(field)) == Lower(field)
  {
  }

  /** A lexeme scans to a symbol or to one word, and that word is no operator word. */
  lemma LexemeTokens(field: string)
    requires OneLexeme(field)
    ensures Words(FieldTokens(field)) == [] || (Words(FieldTokens(field)) == [Lower(field)] && !IsOperatorWord(Lower(field)))
  {
    if IsOperatorWord(field) {
      assert Words(FieldTokens(field)) == [];
    } else if |field| == 1 && IsQuorumSymbol(field[0]) {
      assert field[1..] == "";
      assert Scan(field, "") == [SymbolToken(field[0])];
      assert Words([SymbolToken(field[0])]) == [];
    } else {
      NoSpaceFolds(field);
      ScanTextOfField(field, "");
      ScanTextOfWord(field, "");
      assert "" + field == field;
      assert Words([Word(field)]) == [NormalizeIdentifier(field)];
    }
  }

  /** The name check at work, on a field no source text yields: an operator word behind a symbol. */
  lemma GluedOperatorIsRefused()
    ensures ParseFields(["!and"]) == Ok(Not(Subject("and")))
    ensures NormalizeAt(Not(Subject("and")), 0) == Err(OperatorWord)
    ensures ParseQuorumExpression(["!and"]) == Err(OperatorWord)
  {
    var field := "!and";
    assert Lower("and") == "and";
    assert Lower(field)[0] == '!' && !IsOperatorWord(field);
    assert field[1..] == "and";
    ScanTextOfField("and", "");
    ScanTextOfWord("and", "");
    assert "" + "and" == "and";
    GluedTokens(field);
  }

  lemma GluedTokens(field: string)
    requires !IsOperatorWord(field) && field != "" && field[0] == '!' && Scan(field[1..], "") == [Word("and")] && Lower("and") == "and"
    ensures ParseFields([field]) == Ok(Not(Subject("and")))
    ensures NormalizeAt(Not(Subject("and")), 0) == Err(OperatorWord)
    ensures ParseQuorumExpression([field]) == Err(OperatorWord)
  {
    var ts := AllTokens([field]);
    var e := Not(Subject("and"));
    assert ts == Tokens(e) by {
      assert Scan(field, "") == Flush("") + [SymbolToken(field[0])] + Scan(field[1..], "");
      assert AllTokens([field]) == FieldTokens(field) + AllTokens([field][1..]);
      assert Tokens(e) == [Bang] + Tokens(Subject("and"));
    }
    CanonicalIsFixed("and");
    assert LeftGrouped(e.expr) && Depth(e) <= MaxDepth && |ts| == 2;
    ParseOfTokens(e);
    TrialParseIsNoOp([field]);
  }

  /** The canonical text of an accepted expression compiles to that expression again. */
  lemma CanonicalTextRecompiles(e: Expr)
    requires NormalizeQuorum(e).Ok?
    ensures ParseQuorumExpression(Fields(Render(NormalizeQuorum(e).value))) == NormalizeQuorum(e)
  {
    var n := Norm(e);
    NormalizeQuorumExact(e);
    NormIsNormal(e);
    NormKeepsLimits(e);
    NormalFormReparses(n);
    NormalFormLeftGrouped(n);
    NormalizeQuorumExact(n);
    NormOfNormal(n);
  }

  /** Two accepted texts compile to the same expression exactly when their trees differ only in
      operand order and grouping. */
  lemma SameCanonicalText(a: seq<string>, b: seq<string>)
    requires ParseQuorumExpression(a).Ok? && ParseQuorumExpression(b).Ok?
    ensures Render(ParseQuorumExpression(a).value) == Render(ParseQuorumExpression(b).value)
       <==> Equivalent(ParseFields(a).value, ParseFields(b).value)
  {
    var e, f := ParseFields(a).value, ParseFields(b).value;
    NormalizeQuorumExact(e);
    NormalizeQuorumExact(f);
    NormIsCanonical(e, f);
    NormIsNormal(e);
    NormIsNormal(f);
    NormalFormLeftGrouped(Norm(e));
    NormalFormLeftGrouped(Norm(f));
    if Render(Norm(e)) == Render(Norm(f)) {
      RenderInjective(Norm(e), Norm(f));
    }
  }
}
