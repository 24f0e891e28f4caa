/** Rewriting by order and grouping, and the normal form that decides it. */
module QuorumEquivalence {
  import opened Names
  import opened QuorumSyntax
  import opened QuorumRoundTrip
  import opened QuorumNormal
  import opened Kleene

  /** A derivation that rewrites `From(p)` into `To(p)`. */
  datatype Rewrite =
    | Refl(e: Expr)
    | Sym(p: Rewrite)
    | Trans(p: Rewrite, q: Rewrite)
    | Commute(op: Op, l: Expr, r: Expr)
    | Regroup(op: Op, a: Expr, b: Expr, c: Expr)
    | Respell(name: string, spelling: string)
    | InNot(p: Rewrite)
    | InBinary(op: Op, p: Rewrite, q: Rewrite)

  function From(p: Rewrite): Expr {
    match p
    case Refl(e) => e
    case Sym(q) => To(q)
    case Trans(q, _) => From(q)
    case Commute(op, l, r) => Binary(op, l, r)
    case Regroup(op, a, b, c) => Binary(op, Binary(op, a, b), c)
    case Respell(name, _) => Subject(name)
    case InNot(q) => Not(From(q))
    case InBinary(op, q, r) => Binary(op, From(q), From(r))
  }

  function To(p: Rewrite): Expr {
    match p
    case Refl(e) => e
    case Sym(q) => From(q)
    case Trans(_, q) => To(q)
    case Commute(op, l, r) => Binary(op, r, l)
    case Regroup(op, a, b, c) => Binary(op, a, Binary(op, b, c))
    case Respell(_, spelling) => Subject(spelling)
    case InNot(q) => Not(To(q))
    case InBinary(op, q, r) => Binary(op, To(q), To(r))
  }

  predicate Valid(p: Rewrite) {
    match p
    case Refl(_) => true
    case Sym(q) => Valid(q)
    case Trans(q, r) => Valid(q) && Valid(r) && To(q) == From(r)
    case Commute(_, _, _) => true
    case Regroup(_, _, _, _) => true
    case Respell(name, spelling) => NormalizeIdentifier(name) == NormalizeIdentifier(spelling)
    case InNot(q) => Valid(q)
    case InBinary(_, q, r) => Valid(q) && Valid(r)
  }

  ghost predicate Rewrites(p: Rewrite, e: Expr, f: Expr) {
    Valid(p) && From(p) == e && To(p) == f
  }

  /** Equal up to the order and grouping of `&` and `|` operands at any depth and the spelling of names. */
  ghost predicate Equivalent(e: Expr, f: Expr) {
    exists p :: Rewrites(p, e, f)
  }

  // ---- what rewriting cannot change ----

  lemma {:induction false} RewriteKeepsLimits(p: Rewrite)
    requires Valid(p)
    ensures SameTop(From(p), To(p)) && SameTop(To(p), From(p))
    ensures |Tokens(From(p))| == |Tokens(To(p))|
    ensures Depth(From(p)) == Depth(To(p))
    ensures WellFormed(From(p)) == WellFormed(To(p))
  {
    match p
    case Refl(_) => SameTopRefl(From(p));
    case Sym(q) => RewriteKeepsLimits(q);
    case Trans(q, r) => RewriteKeepsLimits(q); RewriteKeepsLimits(r);
    case Commute(_, _, _) =>
    case Regroup(op, a, b, c) => RegroupKeepsLimits(op, a, b, c);
    case Respell(_, _) =>
    case InNot(q) => RewriteKeepsLimits(q);
    case InBinary(op, q, r) =>
      RewriteKeepsLimits(q);
      RewriteKeepsLimits(r);
      OperandsKeepLimits(op, From(q), To(q), From(r), To(r));
  }

  lemma OperandsKeepLimits(op: Op, a: Expr, b: Expr, c: Expr, d: Expr)
    requires SameTop(a, b) && SameTop(b, a) && |Tokens(a)| == |Tokens(b)| && Depth(a) == Depth(b) && WellFormed(a) == WellFormed(b)
    requires SameTop(c, d) && SameTop(d, c) && |Tokens(c)| == |Tokens(d)| && Depth(c) == Depth(d) && WellFormed(c) == WellFormed(d)
    ensures var e, f := Binary(op, a, c), Binary(op, b, d);
            SameTop(e, f) && SameTop(f, e) && |Tokens(e)| == |Tokens(f)| && Depth(e) == Depth(f) && WellFormed(e) == WellFormed(f)
  {
    OperandKeepsLimits(op, a, b);
    OperandKeepsLimits(op, c, d);
  }

  lemma OperandKeepsLimits(op: Op, a: Expr, b: Expr)
    requires SameTop(a, b) && |Tokens(a)| == |Tokens(b)| && Depth(a) == Depth(b)
    ensures Wraps(op, a) == Wraps(op, b) && OperandDepth(op, a) == OperandDepth(op, b)
    ensures |Bracket(Wraps(op, a), Tokens(a))| == |Bracket(Wraps(op, b), Tokens(b))|
  {
  }

  lemma RegroupKeepsLimits(op: Op, a: Expr, b: Expr, c: Expr)
    ensures var e, f := Binary(op, Binary(op, a, b), c), Binary(op, a, Binary(op, b, c));
            SameTop(e, f) && SameTop(f, e) && |Tokens(e)| == |Tokens(f)| && Depth(e) == Depth(f) && WellFormed(e) == WellFormed(f)
  {
    assert OperandDepth(op, Binary(op, a, b)) == Depth(Binary(op, a, b)) == Max(OperandDepth(op, a), OperandDepth(op, b));
    assert OperandDepth(op, Binary(op, b, c)) == Depth(Binary(op, b, c)) == Max(OperandDepth(op, b), OperandDepth(op, c));
  }

  lemma SameTopRefl(e: Expr)
    ensures SameTop(e, e)
  {
  }

  lemma {:induction false} RewriteKeepsMeaning(p: Rewrite, reading: string -> Tri)
    requires Valid(p)
    ensures Evaluate(From(p), reading) == Evaluate(To(p), reading)
  {
    match p
    case Refl(_) =>
    case Sym(q) => RewriteKeepsMeaning(q, reading);
    case Trans(q, r) => RewriteKeepsMeaning(q, reading); RewriteKeepsMeaning(r, reading);
    case Commute(_, _, _) =>
    case Regroup(_, _, _, _) =>
    case Respell(_, _) =>
    case InNot(q) => RewriteKeepsMeaning(q, reading);
    case InBinary(_, q, r) => RewriteKeepsMeaning(q, reading); RewriteKeepsMeaning(r, reading);
  }

  // ---- rewriting does not change the normal form ----

  lemma SameOperandsSameNorm(op: Op, l: Expr, r: Expr, l': Expr, r': Expr)
    requires WellFormed(l) && WellFormed(r)
    requires multiset(Operands(op, l) + Operands(op, r)) == multiset(Operands(op, l') + Operands(op, r'))
    ensures Norm(Binary(op, l, r)) == Norm(Binary(op, l', r'))
  {
    var a, b := Operands(op, l) + Operands(op, r), Operands(op, l') + Operands(op, r');
    SortSorts(a);
    SortSorts(b);
    OperandsAreNormal(op, l);
    OperandsAreNormal(op, r);
    SameElements(Sort(a), a);
    forall e | e in Sort(a)
      ensures LeftGrouped(e)
    {
      NormalFormLeftGrouped(e);
    }
    SortedUnique(Sort(a), Sort(b));
  }

  /** The operands of a chain can be read off its normal form. */
  lemma {:induction false} OperandsOfNorm(op: Op, e: Expr)
    requires WellFormed(e)
    ensures multiset(Operands(op, e)) == multiset(Spine(op, Norm(e)))
  {
    NormIsNormal(e);
    if e.Is(op) {
      var s := Operands(op, e);
      OperandsAreNormal(op, e);
      SortSorts(s);
      SameElements(Sort(s), s);
      SpineOfFold(op, Sort(s));
    }
  }

  lemma {:induction false} RewriteKeepsNorm(p: Rewrite)
    requires Valid(p) && WellFormed(From(p))
    ensures WellFormed(To(p)) && Norm(From(p)) == Norm(To(p))
  {
    RewriteKeepsLimits(p);
    match p
    case Refl(_) =>
    case Sym(q) => RewriteKeepsNorm(q);
    case Trans(q, r) => RewriteKeepsNorm(q); RewriteKeepsNorm(r);
    case Commute(op, l, r) => SameOperandsSameNorm(op, l, r, r, l);
    case Regroup(op, a, b, c) => SameOperandsSameNorm(op, Binary(op, a, b), c, a, Binary(op, b, c));
    case Respell(_, _) =>
    case InNot(q) => RewriteKeepsNorm(q);
    case InBinary(op, q, r) =>
      RewriteKeepsNorm(q);
      RewriteKeepsNorm(r);
      OperandsOfNorm(op, From(q));
      OperandsOfNorm(op, To(q));
      OperandsOfNorm(op, From(r));
      OperandsOfNorm(op, To(r));
      SameOperandsSameNorm(op, From(q), From(r), To(q), To(r));
  }

  // ---- every tree rewrites to its normal form ----

  lemma ByReflexivity(e: Expr)
    ensures Equivalent(e, e)
  {
    assert Rewrites(Refl(e), e, e);
  }

  lemma BySymmetry(e: Expr, f: Expr)
    requires Equivalent(e, f)
    ensures Equivalent(f, e)
  {
    var p :| Rewrites(p, e, f);
    assert Rewrites(Sym(p), f, e);
  }

  lemma ByTransitivity(e: Expr, f: Expr, g: Expr)
    requires Equivalent(e, f) && Equivalent(f, g)
    ensures Equivalent(e, g)
  {
    var p, q :| Rewrites(p, e, f) && Rewrites(q, f, g);
    assert Rewrites(Trans(p, q), e, g);
  }

  lemma ByOperands(op: Op, l: Expr, r: Expr, l': Expr, r': Expr)
    requires Equivalent(l, l') && Equivalent(r, r')
    ensures Equivalent(Binary(op, l, r), Binary(op, l', r'))
  {
    var p, q :| Rewrites(p, l, l') && Rewrites(q, r, r');
    assert Rewrites(InBinary(op, p, q), Binary(op, l, r), Binary(op, l', r'));
  }

  lemma ByOrder(op: Op, l: Expr, r: Expr)
    ensures Equivalent(Binary(op, l, r), Binary(op, r, l))
  {
    assert Rewrites(Commute(op, l, r), Binary(op, l, r), Binary(op, r, l));
  }

  lemma ByGrouping(op: Op, a: Expr, b: Expr, c: Expr)
    ensures Equivalent(Binary(op, Binary(op, a, b), c), Binary(op, a, Binary(op, b, c)))
    ensures Equivalent(Binary(op, a, Binary(op, b, c)), Binary(op, Binary(op, a, b), c))
  {
    var x, y := Binary(op, Binary(op, a, b), c), Binary(op, a, Binary(op, b, c));
    assert Rewrites(Regroup(op, a, b, c), x, y);
    BySymmetry(x, y);
  }

  lemma FoldSnoc(op: Op, s: seq<Expr>, x: Expr)
    ensures Fold(op, s + [x]) == if s == [] then x else Binary(op, Fold(op, s), x)
  {
    assert (s + [x])[..|s|] == s;
  }

  lemma {:induction false} JoinFolds(op: Op, a: seq<Expr>, b: seq<Expr>)
    requires a != [] && b != []
    ensures Equivalent(Binary(op, Fold(op, a), Fold(op, b)), Fold(op, a + b))
  {
    var b', x := b[..|b| - 1], b[|b| - 1];
    assert b' + [x] == b && a + b == (a + b') + [x];
    FoldSnoc(op, b', x);
    FoldSnoc(op, a + b', x);
    if b' == [] {
      assert a + b' == a;
      ByReflexivity(Fold(op, a + b));
    } else {
      var f, g := Fold(op, a), Fold(op, b');
      JoinFolds(op, a, b');
      ByReflexivity(x);
      ByGrouping(op, f, g, x);
      ByOperands(op, Binary(op, f, g), x, Fold(op, a + b'), x);
      ByTransitivity(Binary(op, f, Binary(op, g, x)), Binary(op, Binary(op, f, g), x), Fold(op, a + b));
    }
  }

  /** Swapping the last two operands of a chain. */
  lemma SwapLast(op: Op, s: seq<Expr>, y: Expr, x: Expr)
    ensures Equivalent(Fold(op, s + [y] + [x]), Fold(op, s + [x] + [y]))
  {
    FoldSnoc(op, s + [y], x);
    FoldSnoc(op, s + [x], y);
    FoldSnoc(op, s, x);
    FoldSnoc(op, s, y);
    if s == [] {
      ByOrder(op, y, x);
    } else {
      var f := Fold(op, s);
      ByGrouping(op, f, y, x);
      ByOrder(op, y, x);
      ByReflexivity(f);
      ByOperands(op, f, Binary(op, y, x), f, Binary(op, x, y));
      ByGrouping(op, f, x, y);
      ByTransitivity(Binary(op, Binary(op, f, y), x), Binary(op, f, Binary(op, y, x)), Binary(op, f, Binary(op, x, y)));
      ByTransitivity(Binary(op, Binary(op, f, y), x), Binary(op, f, Binary(op, x, y)), Binary(op, Binary(op, f, x), y));
    }
  }

  lemma {:induction false} InsertRewrites(op: Op, s: seq<Expr>, x: Expr)
    ensures Insert(s, x) != [] && Equivalent(Fold(op, s + [x]), Fold(op, Insert(s, x)))
  {
    if s == [] || KeyLeq(s[|s| - 1], x) {
      ByReflexivity(Fold(op, s + [x]));
    } else {
      var front, last := s[..|s| - 1], s[|s| - 1];
      assert s == front + [last];
      InsertRewrites(op, front, x);
      SwapLast(op, front, last, x);
      ByReflexivity(last);
      FoldSnoc(op, front + [x], last);
      FoldSnoc(op, Insert(front, x), last);
      ByOperands(op, Fold(op, front + [x]), last, Fold(op, Insert(front, x)), last);
      ByTransitivity(Fold(op, s + [x]), Fold(op, front + [x] + [last]), Fold(op, Insert(s, x)));
    }
  }

  lemma {:induction false} SortRewrites(op: Op, s: seq<Expr>)
    requires s != []
    ensures Equivalent(Fold(op, s), Fold(op, SortedOperands(op, s)))
  {
    var front, x := s[..|s| - 1], s[|s| - 1];
    assert s == front + [x];
    InsertRewrites(op, Sort(front), x);
    if front != [] {
      var t := SortedOperands(op, front);
      SortRewrites(op, front);
      ByReflexivity(x);
      FoldSnoc(op, front, x);
      FoldSnoc(op, t, x);
      ByOperands(op, Fold(op, front), x, Fold(op, t), x);
      ByTransitivity(Fold(op, s), Fold(op, t + [x]), Fold(op, SortedOperands(op, s)));
    }
  }

  lemma {:induction false} RewritesToNorm(e: Expr)
    ensures Equivalent(e, Norm(e))
    decreases e, 1
  {
    match e
    case Malformed => ByReflexivity(e);
    case Subject(name) =>
      FoldingIsIdempotent(name);
      assert Rewrites(Respell(name, NormalizeIdentifier(name)), e, Norm(e));
    case Not(x) =>
      RewritesToNorm(x);
      var p :| Rewrites(p, x, Norm(x));
      assert Rewrites(InNot(p), e, Norm(e));
    case Binary(op, l, r) =>
      var s := Operands(op, l) + Operands(op, r);
      ChainRewrites(op, l, r);
      SortRewrites(op, s);
      ByTransitivity(e, Fold(op, s), Norm(e));
  }

  lemma {:induction false} ChainRewrites(op: Op, l: Expr, r: Expr)
    ensures Equivalent(Binary(op, l, r), Fold(op, Operands(op, l) + Operands(op, r)))
    decreases Binary(op, l, r), 0
  {
    var f, g := Fold(op, Operands(op, l)), Fold(op, Operands(op, r));
    RewritesToOperands(op, l);
    RewritesToOperands(op, r);
    ByOperands(op, l, r, f, g);
    JoinFolds(op, Operands(op, l), Operands(op, r));
    ByTransitivity(Binary(op, l, r), Binary(op, f, g), Fold(op, Operands(op, l) + Operands(op, r)));
  }

  lemma {:induction false} RewritesToOperands(op: Op, e: Expr)
    ensures Equivalent(e, Fold(op, Operands(op, e)))
    decreases e, 2
  {
    if e.Is(op) {
      ChainRewrites(op, e.left, e.right);
    } else {
      RewritesToNorm(e);
    }
  }

  // ---- main results ----

  /** Normalisation is canonical: it identifies exactly the trees that differ by order, grouping and spelling. */
  lemma NormIsCanonical(e: Expr, f: Expr)
    requires WellFormed(e) && WellFormed(f)
    ensures Equivalent(e, f) <==> Norm(e) == Norm(f)
  {
    if Equivalent(e, f) {
      var p :| Rewrites(p, e, f);
      RewriteKeepsNorm(p);
    }
    if Norm(e) == Norm(f) {
      RewritesToNorm(e);
      RewritesToNorm(f);
      BySymmetry(f, Norm(f));
      ByTransitivity(e, Norm(e), f);
    }
  }

  /** Normalisation preserves meaning under every reading of the subjects. */
  lemma NormKeepsMeaning(e: Expr, reading: string -> Tri)
    ensures Evaluate(Norm(e), reading) == Evaluate(e, reading)
  {
    RewritesToNorm(e);
    var p :| Rewrites(p, e, Norm(e));
    RewriteKeepsMeaning(p, reading);
  }

  /** Rendering the normal form needs exactly as many tokens and exactly as much nesting as rendering the original. */
  lemma NormKeepsLimits(e: Expr)
    ensures |Tokens(Norm(e))| == |Tokens(e)| && Depth(Norm(e)) == Depth(e)
  {
    RewritesToNorm(e);
    var p :| Rewrites(p, e, Norm(e));
    RewriteKeepsLimits(p);
  }
}
