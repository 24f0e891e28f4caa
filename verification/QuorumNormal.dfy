/** The normaliser: flatten each chain, sort its operands, rebuild it to the left. */
module QuorumNormal {
  import opened Names
  import opened QuorumSyntax
  import opened QuorumRoundTrip
  import opened QuorumText

  // ---- the stable sort by rendered text ----

  predicate KeyLeq(a: Expr, b: Expr) {
    StringLeq(Render(a), Render(b))
  }

  function Insert(s: seq<Expr>, x: Expr): seq<Expr> {
    if s == [] || KeyLeq(s[|s| - 1], x) then s + [x]
    else Insert(s[..|s| - 1], x) + [s[|s| - 1]]
  }

  function Sort(s: seq<Expr>): seq<Expr> {
    if s == [] then [] else Insert(Sort(s[..|s| - 1]), s[|s| - 1])
  }

  ghost predicate Sorted(s: seq<Expr>) {
    forall i, j :: 0 <= i <= j < |s| ==> KeyLeq(s[i], s[j])
  }

  lemma {:induction false} InsertPermutes(s: seq<Expr>, x: Expr)
    ensures multiset(Insert(s, x)) == multiset(s) + multiset{x}
  {
    if s != [] && !KeyLeq(s[|s| - 1], x) {
      InsertPermutes(s[..|s| - 1], x);
      assert s == s[..|s| - 1] + [s[|s| - 1]];
    }
  }

  lemma {:induction false} InsertSorts(s: seq<Expr>, x: Expr)
    requires Sorted(s)
    ensures Sorted(Insert(s, x))
  {
    if s == [] || KeyLeq(s[|s| - 1], x) {
      StringLeqTotal(Render(x), Render(x));
      forall i | 0 <= i < |s|
        ensures KeyLeq(s[i], x)
      {
        StringLeqTransitive(Render(s[i]), Render(s[|s| - 1]), Render(x));
      }
    } else {
      var last := s[|s| - 1];
      InsertSorts(s[..|s| - 1], x);
      InsertBelow(s[..|s| - 1], x, last);
    }
  }

  lemma InsertBelow(s: seq<Expr>, x: Expr, last: Expr)
    requires forall i :: 0 <= i < |s| ==> KeyLeq(s[i], last)
    requires !KeyLeq(last, x)
    ensures forall i :: 0 <= i < |Insert(s, x)| ==> KeyLeq(Insert(s, x)[i], last)
    ensures KeyLeq(last, last)
  {
    StringLeqTotal(Render(last), Render(x));
    StringLeqTotal(Render(last), Render(last));
    InsertPermutes(s, x);
    forall i | 0 <= i < |Insert(s, x)|
      ensures KeyLeq(Insert(s, x)[i], last)
    {
      assert Insert(s, x)[i] in multiset(Insert(s, x));
      assert Insert(s, x)[i] in s || Insert(s, x)[i] == x;
    }
  }

  lemma {:induction false} SortSorts(s: seq<Expr>)
    ensures Sorted(Sort(s)) && multiset(Sort(s)) == multiset(s)
  {
    if s != [] {
      SortSorts(s[..|s| - 1]);
      InsertSorts(Sort(s[..|s| - 1]), s[|s| - 1]);
      InsertPermutes(Sort(s[..|s| - 1]), s[|s| - 1]);
      assert s == s[..|s| - 1] + [s[|s| - 1]];
    }
  }

  lemma InsertLast(s: seq<Expr>, x: Expr)
    requires s == [] || KeyLeq(s[|s| - 1], x)
    ensures Insert(s, x) == s + [x]
  {
  }

  lemma {:induction false} SortOfSorted(s: seq<Expr>)
    requires Sorted(s)
    ensures Sort(s) == s
  {
    if s != [] {
      SortOfSorted(s[..|s| - 1]);
      InsertLast(s[..|s| - 1], s[|s| - 1]);
      assert s == s[..|s| - 1] + [s[|s| - 1]];
    }
  }

  lemma SameElements(a: seq<Expr>, b: seq<Expr>)
    requires multiset(a) == multiset(b)
    ensures |a| == |b| && forall x :: x in a <==> x in b
  {
    assert |a| == |multiset(a)| && |b| == |multiset(b)|;
    assert forall x :: x in a <==> x in multiset(a);
  }

  lemma SameLast(a: seq<Expr>, b: seq<Expr>)
    requires Sorted(a) && Sorted(b) && multiset(a) == multiset(b) && a != [] && b != []
    requires forall e :: e in a ==> LeftGrouped(e)
    ensures a[|a| - 1] == b[|b| - 1]
  {
    var x, y := a[|a| - 1], b[|b| - 1];
    SameElements(a, b);
    assert x in b && y in a;
    assert KeyLeq(x, y) && KeyLeq(y, x);
    StringLeqAntisymmetric(Render(x), Render(y));
    RenderInjective(x, y);
  }

  lemma DropLast(a: seq<Expr>)
    requires a != []
    ensures multiset(a[..|a| - 1]) == multiset(a) - multiset{a[|a| - 1]}
  {
    assert a == a[..|a| - 1] + [a[|a| - 1]];
  }

  /** Rendered text tells left-grouped trees apart, so a sorted arrangement of them is unique. */
  lemma {:induction false} SortedUnique(a: seq<Expr>, b: seq<Expr>)
    requires Sorted(a) && Sorted(b) && multiset(a) == multiset(b)
    requires forall e :: e in a ==> LeftGrouped(e)
    ensures a == b
    decreases |a|
  {
    SameElements(a, b);
    if a != [] {
      SameLast(a, b);
      DropLast(a);
      DropLast(b);
      SortedUnique(a[..|a| - 1], b[..|b| - 1]);
      assert a == a[..|a| - 1] + [a[|a| - 1]] && b == b[..|b| - 1] + [b[|b| - 1]];
    }
  }

  // ---- chains ----

  /** The chain over `s` grouped to the left. */
  function Fold(op: Op, s: seq<Expr>): Expr
    requires s != []
  {
    if |s| == 1 then s[0] else Binary(op, Fold(op, s[..|s| - 1]), s[|s| - 1])
  }

  /** The operands of a chain that is already grouped to the left. */
  function Spine(op: Op, e: Expr): (s: seq<Expr>)
    ensures s != []
  {
    if e.Is(op) then Spine(op, e.left) + [e.right] else [e]
  }

  lemma {:induction false} SpineOfFold(op: Op, s: seq<Expr>)
    requires s != [] && forall e :: e in s ==> !e.Is(op)
    ensures Spine(op, Fold(op, s)) == s
    ensures |s| > 1 ==> Fold(op, s).Is(op)
  {
    if |s| > 1 {
      SpineOfFold(op, s[..|s| - 1]);
      assert s == s[..|s| - 1] + [s[|s| - 1]];
    }
  }

  lemma {:induction false} FoldOfSpine(op: Op, e: Expr)
    ensures Fold(op, Spine(op, e)) == e
  {
    if e.Is(op) {
      FoldOfSpine(op, e.left);
      assert Spine(op, e)[..|Spine(op, e)| - 1] == Spine(op, e.left);
    }
  }

  // ---- normal forms ----

  function Norm(e: Expr): Expr
    decreases e, 0
  {
    match e
    case Malformed => Malformed
    case Subject(name) => Subject(NormalizeIdentifier(name))
    case Not(x) => Not(Norm(x))
    case Binary(op, l, r) => Fold(op, SortedOperands(op, Operands(op, l) + Operands(op, r)))
  }

  function SortedOperands(op: Op, s: seq<Expr>): (t: seq<Expr>)
    requires s != []
    ensures t != []
  {
    SortSorts(s);
    assert s[0] in multiset(Sort(s));
    Sort(s)
  }

  /** The normalised operands of the maximal `op` chain at the top of `e`. */
  function Operands(op: Op, e: Expr): (s: seq<Expr>)
    ensures s != []
    decreases e, 1
  {
    if e.Is(op) then Operands(op, e.left) + Operands(op, e.right) else [Norm(e)]
  }

  /** Canonical names, chains grouped to the left, operands of each chain in key order. */
  predicate NormalForm(e: Expr) {
    match e
    case Malformed => false
    case Subject(name) => IsCanonical(name) && !IsOperatorWord(name)
    case Not(x) => NormalForm(x)
    case Binary(op, l, r) =>
      NormalForm(l) && NormalForm(r) && !r.Is(op) &&
      KeyLeq(if l.Is(op) then l.right else l, r)
  }

  lemma NormalFormLeftGrouped(e: Expr)
    requires NormalForm(e)
    ensures LeftGrouped(e) && WellFormed(e)
  {
    match e
    case Subject(name) => CanonicalIsFixed(name);
    case Not(x) =>
    case Binary(_, l, r) =>
  }

  lemma {:induction false} FoldIsNormal(op: Op, s: seq<Expr>)
    requires s != [] && Sorted(s) && forall e :: e in s ==> NormalForm(e) && !e.Is(op)
    ensures NormalForm(Fold(op, s))
    ensures |s| > 1 ==> Fold(op, s).Is(op) && Fold(op, s).right == s[|s| - 1]
  {
    if |s| > 1 {
      FoldIsNormal(op, s[..|s| - 1]);
    }
  }

  lemma {:induction false} SpineIsSorted(op: Op, e: Expr)
    requires NormalForm(e)
    ensures Sorted(Spine(op, e))
    ensures forall x :: x in Spine(op, e) ==> NormalForm(x) && !x.Is(op)
    ensures Spine(op, e)[|Spine(op, e)| - 1] == if e.Is(op) then e.right else e
  {
    StringLeqTotal(Render(e), Render(e));
    if e.Is(op) {
      SpineIsSorted(op, e.left);
      SortedSnoc(Spine(op, e.left), e.right);
    }
  }

  lemma SortedSnoc(s: seq<Expr>, x: Expr)
    requires s != [] && Sorted(s) && KeyLeq(s[|s| - 1], x)
    ensures Sorted(s + [x])
  {
    StringLeqTotal(Render(x), Render(x));
    StringLeqTotal(Render(s[|s| - 1]), Render(s[|s| - 1]));
    forall i | 0 <= i < |s|
      ensures KeyLeq(s[i], x)
    {
      StringLeqTransitive(Render(s[i]), Render(s[|s| - 1]), Render(x));
    }
  }

  predicate SameTop(e: Expr, f: Expr) {
    match e
    case Malformed => f.Malformed?
    case Subject(_) => f.Subject?
    case Not(_) => f.Not?
    case Binary(op, _, _) => f.Is(op)
  }

  lemma {:induction false} NormIsNormal(e: Expr)
    requires WellFormed(e)
    ensures NormalForm(Norm(e)) && SameTop(e, Norm(e))
    decreases e, 0
  {
    match e
    case Subject(name) => FoldedIdentifierIsCanonical(name);
    case Not(x) => NormIsNormal(x);
    case Binary(op, l, r) =>
      OperandsAreNormal(op, l);
      OperandsAreNormal(op, r);
      var s := Operands(op, l) + Operands(op, r);
      SortSorts(s);
      SameElements(Sort(s), s);
      FoldIsNormal(op, Sort(s));
  }

  lemma {:induction false} OperandsAreNormal(op: Op, e: Expr)
    requires WellFormed(e)
    ensures forall x :: x in Operands(op, e) ==> NormalForm(x) && !x.Is(op)
    decreases e, 1
  {
    if e.Is(op) {
      OperandsAreNormal(op, e.left);
      OperandsAreNormal(op, e.right);
    } else {
      NormIsNormal(e);
    }
  }

  /** A normal form is its own normalisation. */
  lemma {:induction false} NormOfNormal(e: Expr)
    requires NormalForm(e)
    ensures Norm(e) == e
    decreases e, 0
  {
    match e
    case Subject(name) => CanonicalIsFixed(name);
    case Not(x) => NormOfNormal(x);
    case Binary(op, l, r) =>
      OperandsOfNormal(op, l);
      OperandsOfNormal(op, r);
      assert Operands(op, l) + Operands(op, r) == Spine(op, e);
      SpineIsSorted(op, e);
      SortOfSorted(Spine(op, e));
      FoldOfSpine(op, e);
  }

  lemma {:induction false} OperandsOfNormal(op: Op, e: Expr)
    requires NormalForm(e)
    ensures Operands(op, e) == Spine(op, e)
    decreases e, 1
  {
    if e.Is(op) {
      OperandsOfNormal(op, e.left);
      NormOfNormal(e.right);
    } else {
      NormOfNormal(e);
    }
  }
}
