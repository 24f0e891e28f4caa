/** The layered placement of the top-level nodes: longest-path layers, ordered rows, and the gaps
    between them. */
module GraphLayers {
  import opened Names
  import opened Evidence
  import opened GraphGeometry

  type Deps = map<Id, seq<Id>>

  // ---- longest-path layers ----

  /** A ranking under which every dependency points downwards. */
  ghost predicate Acyclic(deps: Deps, rank: map<Id, nat>) {
    forall n, d :: n in deps && d in deps[n] ==> n in rank && d in rank && rank[d] < rank[n]
  }

  function Targets(deps: Deps, n: Id): seq<Id> {
    if n in deps then deps[n] else []
  }

  /** One more than the highest layer among the dependencies. */
  ghost function Layer(deps: Deps, rank: map<Id, nat>, n: Id): nat
    requires Acyclic(deps, rank)
    decreases if n in rank then rank[n] + 1 else 0, 1, 0
  {
    Highest(deps, rank, n, Targets(deps, n))
  }

  ghost function Highest(deps: Deps, rank: map<Id, nat>, n: Id, ds: seq<Id>): nat
    requires Acyclic(deps, rank) && forall d :: d in ds ==> d in Targets(deps, n)
    decreases if n in rank then rank[n] + 1 else 0, 0, |ds|
  {
    if ds == [] then 0
    else
      var last := ds[|ds| - 1];
      assert last in Targets(deps, n);
      var rest := Highest(deps, rank, n, ds[..|ds| - 1]);
      var l := Layer(deps, rank, last) + 1;
      if l > rest then l else rest
  }

  /** A chain of dependencies starting at its first element. */
  ghost predicate DependencyPath(deps: Deps, p: seq<Id>) {
    p != [] && forall i :: 0 <= i && i + 1 < |p| ==> p[i + 1] in Targets(deps, p[i])
  }

  lemma {:induction false} HighestBounds(deps: Deps, rank: map<Id, nat>, n: Id, ds: seq<Id>, i: nat)
    requires Acyclic(deps, rank) && (forall d :: d in ds ==> d in Targets(deps, n)) && i < |ds|
    ensures Layer(deps, rank, ds[i]) + 1 <= Highest(deps, rank, n, ds)
    decreases |ds|
  {
    if i < |ds| - 1 {
      HighestBounds(deps, rank, n, ds[..|ds| - 1], i);
    }
  }

  lemma {:induction false} HighestReached(deps: Deps, rank: map<Id, nat>, n: Id, ds: seq<Id>) returns (i: nat)
    requires Acyclic(deps, rank) && (forall d :: d in ds ==> d in Targets(deps, n)) && ds != []
    ensures i < |ds| && Highest(deps, rank, n, ds) == Layer(deps, rank, ds[i]) + 1
    decreases |ds|
  {
    var front, last := ds[..|ds| - 1], ds[|ds| - 1];
    assert last in Targets(deps, n);
    if Layer(deps, rank, last) + 1 > Highest(deps, rank, n, front) {
      i := |ds| - 1;
    } else {
      assert front != [];
      i := HighestReached(deps, rank, n, front);
    }
  }

  lemma {:induction false} PathBounded(deps: Deps, rank: map<Id, nat>, p: seq<Id>)
    requires Acyclic(deps, rank) && DependencyPath(deps, p)
    ensures |p| - 1 <= Layer(deps, rank, p[0])
    decreases |p|
  {
    if |p| > 1 {
      var tail := p[1..];
      assert forall i :: 0 <= i < |tail| ==> tail[i] == p[i + 1];
      PathBounded(deps, rank, tail);
      assert p[1] in Targets(deps, p[0]);
      var i :| 0 <= i < |Targets(deps, p[0])| && Targets(deps, p[0])[i] == p[1];
      HighestBounds(deps, rank, p[0], Targets(deps, p[0]), i);
    }
  }

  lemma {:induction false} PathReached(deps: Deps, rank: map<Id, nat>, n: Id) returns (p: seq<Id>)
    requires Acyclic(deps, rank)
    ensures DependencyPath(deps, p) && p[0] == n && |p| - 1 == Layer(deps, rank, n)
    decreases if n in rank then rank[n] + 1 else 0
  {
    var ds := Targets(deps, n);
    if ds == [] {
      p := [n];
    } else {
      var i := HighestReached(deps, rank, n, ds);
      assert ds[i] in Targets(deps, n);
      var tail := PathReached(deps, rank, ds[i]);
      p := [n] + tail;
    }
  }

  /** On acyclic dependencies a node's layer is the length of the longest dependency chain below it. */
  lemma LayerIsLongestPath(deps: Deps, rank: map<Id, nat>, n: Id)
    requires Acyclic(deps, rank)
    ensures exists p :: DependencyPath(deps, p) && p[0] == n && |p| - 1 == Layer(deps, rank, n)
    ensures forall p :: DependencyPath(deps, p) && p[0] == n ==> |p| - 1 <= Layer(deps, rank, n)
  {
    var p := PathReached(deps, rank, n);
    forall p | DependencyPath(deps, p) && p[0] == n
      ensures |p| - 1 <= Layer(deps, rank, n)
    {
      PathBounded(deps, rank, p);
    }
  }

  /** Memoised layer assignment with a guard against cycles. */
  class LayerAssignment {
    const deps: Deps
    var layerOf: map<Id, nat>

    constructor (deps: Deps)
      ensures this.deps == deps && layerOf == map[]
    {
      this.deps := deps;
      layerOf := map[];
    }

    /** Every memoised layer is right, when the dependencies are acyclic under `rank`. */
    ghost predicate Correct(rank: map<Id, nat>)
      reads this
    {
      Acyclic(deps, rank) ==> forall k :: k in layerOf ==> layerOf[k] == Layer(deps, rank, k)
    }

    /** The nodes on the path all stand above `n`. */
    ghost predicate Above(path: set<Id>, n: Id, rank: map<Id, nat>) {
      Acyclic(deps, rank) ==> forall p :: p in path ==> p in rank && (n in rank ==> rank[n] < rank[p])
    }

    ghost predicate Closed(universe: set<Id>) {
      forall n, d :: n in deps && d in deps[n] ==> d in universe
    }

    method Assign(n: Id, path: set<Id>, ghost universe: set<Id>, ghost rank: map<Id, nat>) returns (v: nat)
      requires n in universe && path <= universe && Closed(universe)
      requires Correct(rank) && Above(path, n, rank)
      modifies this
      ensures forall k :: k in old(layerOf) ==> k in layerOf && layerOf[k] == old(layerOf)[k]
      ensures n !in path ==> n in layerOf && layerOf[n] == v
      ensures Correct(rank)
      ensures Acyclic(deps, rank) && (n in rank || n !in path) ==> v == Layer(deps, rank, n)
      decreases |universe - path|, 1
    {
      if n in layerOf {
        return layerOf[n];
      }
      if n in path {
        return 0;
      }
      PathGrows(universe, path, n);
      v := Deepest(n, path, universe, rank);
      layerOf := layerOf[n := v];
    }

    /** The loop over the dependencies of `n`: one more than the deepest of them. */
    method Deepest(n: Id, path: set<Id>, ghost universe: set<Id>, ghost rank: map<Id, nat>) returns (best: nat)
      requires n in universe && n !in path && path <= universe && Closed(universe)
      requires Correct(rank) && Above(path, n, rank)
      modifies this
      ensures forall k :: k in old(layerOf) ==> k in layerOf && layerOf[k] == old(layerOf)[k]
      ensures Correct(rank)
      ensures Acyclic(deps, rank) ==> best == Layer(deps, rank, n)
      decreases |universe - (path + {n})|, 2
    {
      best := 0;
      var ds := Targets(deps, n);
      for i := 0 to |ds|
        invariant forall k :: k in old(layerOf) ==> k in layerOf && layerOf[k] == old(layerOf)[k]
        invariant Correct(rank)
        invariant DeepestUpTo(deps, rank, n, i, best)
      {
        AboveStep(path, n, ds[i], universe, rank);
        var c := Assign(ds[i], path + {n}, universe, rank);
        DeepestStep(deps, rank, n, i, best, c);
        if c + 1 > best {
          best := c + 1;
        }
      }
      assert ds[..|ds|] == ds;
    }

    lemma AboveStep(path: set<Id>, n: Id, d: Id, universe: set<Id>, rank: map<Id, nat>)
      requires Above(path, n, rank) && n in universe && d in Targets(deps, n) && Closed(universe)
      ensures Above(path + {n}, d, rank) && d in universe
      ensures Acyclic(deps, rank) ==> d in rank
    {
      assert n in deps && d in deps[n];
      if Acyclic(deps, rank) {
        assert rank[d] < rank[n];
        forall p | p in path + {n}
          ensures p in rank && rank[d] < rank[p]
        {
          assert p == n || p in path;
        }
      }
    }
  }

  /** The deepest of the first `i` dependencies. */
  ghost predicate DeepestUpTo(deps: Deps, rank: map<Id, nat>, n: Id, i: nat, best: nat) {
    i <= |Targets(deps, n)| && (Acyclic(deps, rank) ==> best == Highest(deps, rank, n, Targets(deps, n)[..i]))
  }

  lemma DeepestStep(deps: Deps, rank: map<Id, nat>, n: Id, i: nat, best: nat, c: nat)
    requires DeepestUpTo(deps, rank, n, i, best) && i < |Targets(deps, n)|
    requires Acyclic(deps, rank) ==> c == Layer(deps, rank, Targets(deps, n)[i])
    ensures DeepestUpTo(deps, rank, n, i + 1, if c + 1 > best then c + 1 else best)
  {
    assert Targets(deps, n)[..i + 1][..i] == Targets(deps, n)[..i];
  }

  lemma PathGrows(universe: set<Id>, path: set<Id>, n: Id)
    requires n in universe && n !in path
    ensures |universe - (path + {n})| < |universe - path|
  {
    assert n in universe - path && n !in universe - (path + {n});
    SmallerSet(universe - (path + {n}), universe - path);
  }

  lemma SmallerSet(a: set<Id>, b: set<Id>)
    requires a < b
    ensures |a| < |b|
  {
    assert |b - a| > 0 by {
      var x :| x in b && x !in a;
      assert x in b - a;
    }
    assert b == a + (b - a);
  }

  // ---- ordering a row ----

  /** The mean centre of the targets already placed. */
  function Barycenter(targets: seq<Id>, centers: map<Id, real>): Option<real> {
    var (sum, n) := Sum(targets, centers);
    if n == 0 then None else Some(sum / n as real)
  }

  function Sum(targets: seq<Id>, centers: map<Id, real>): (real, nat) {
    if targets == [] then (0.0, 0)
    else
      var (sum, n) := Sum(targets[..|targets| - 1], centers);
      var t := targets[|targets| - 1];
      if t in centers then (sum + centers[t], n + 1) else (sum, n)
  }

  datatype RowKey = RowKey(center: Option<real>, caption: string)

  /** The comparison handed to the stable sort. */
  predicate RowLess(a: RowKey, b: RowKey) {
    if a.center.Some? && b.center.Some? && a.center.value != b.center.value then a.center.value < b.center.value
    else if a.center.Some? != b.center.Some? then a.center.Some?
    else !StringLeq(b.caption, a.caption)
  }

  lemma RowLessIsOrder(a: RowKey, b: RowKey, c: RowKey)
    ensures !(RowLess(a, b) && RowLess(b, a))
    ensures !RowLess(b, a) && !RowLess(c, b) ==> !RowLess(c, a)
  {
    StringLeqTotal(a.caption, b.caption);
    if StringLeq(a.caption, b.caption) && StringLeq(b.caption, c.caption) {
      StringLeqTransitive(a.caption, b.caption, c.caption);
    }
  }

  /** Stable insertion: `x` goes after everything it is not less than. */
  function InsertInRow(row: seq<Id>, x: Id, keys: map<Id, RowKey>): (s: seq<Id>)
    requires x in keys && forall r :: r in row ==> r in keys
    ensures forall r :: r in s <==> r == x || r in row
  {
    if row == [] || !RowLess(keys[x], keys[row[|row| - 1]]) then row + [x]
    else InsertInRow(row[..|row| - 1], x, keys) + [row[|row| - 1]]
  }

  function SortRow(row: seq<Id>, keys: map<Id, RowKey>): (s: seq<Id>)
    requires forall r :: r in row ==> r in keys
    ensures forall r :: r in s <==> r in row
  {
    if row == [] then []
    else InsertInRow(SortRow(row[..|row| - 1], keys), row[|row| - 1], keys)
  }

  lemma {:induction false} InsertPermutes(row: seq<Id>, x: Id, keys: map<Id, RowKey>)
    requires x in keys && forall r :: r in row ==> r in keys
    ensures multiset(InsertInRow(row, x, keys)) == multiset(row) + multiset{x}
  {
    if row != [] && RowLess(keys[x], keys[row[|row| - 1]]) {
      var front, last := row[..|row| - 1], row[|row| - 1];
      InsertPermutes(front, x, keys);
      assert row == front + [last];
      assert multiset(InsertInRow(front, x, keys) + [last]) == multiset(front) + multiset{x} + multiset{last};
    }
  }

  lemma {:induction false} SortPermutes(row: seq<Id>, keys: map<Id, RowKey>)
    requires forall r :: r in row ==> r in keys
    ensures multiset(SortRow(row, keys)) == multiset(row)
    decreases |row|
  {
    if row != [] {
      SortPermutes(row[..|row| - 1], keys);
      InsertPermutes(SortRow(row[..|row| - 1], keys), row[|row| - 1], keys);
      assert row == row[..|row| - 1] + [row[|row| - 1]];
    }
  }

  /** No later node should have come earlier. */
  ghost predicate RowOrdered(row: seq<Id>, keys: map<Id, RowKey>) {
    (forall r :: r in row ==> r in keys) &&
    forall i, j :: 0 <= i < j < |row| ==> !RowLess(keys[row[j]], keys[row[i]])
  }

  lemma AppendKeepsOrder(row: seq<Id>, x: Id, keys: map<Id, RowKey>)
    requires x in keys && RowOrdered(row, keys)
    requires row != [] ==> !RowLess(keys[x], keys[row[|row| - 1]])
    ensures RowOrdered(row + [x], keys)
  {
    forall i | 0 <= i < |row|
      ensures !RowLess(keys[x], keys[row[i]])
    {
      RowLessIsOrder(keys[row[i]], keys[row[|row| - 1]], keys[x]);
    }
  }

  lemma LeastStaysBefore(inner: seq<Id>, front: seq<Id>, x: Id, last: Id, keys: map<Id, RowKey>)
    requires x in keys && last in keys && RowOrdered(front + [last], keys) && RowOrdered(inner, keys)
    requires RowLess(keys[x], keys[last]) && forall r :: r in inner ==> r == x || r in front
    ensures RowOrdered(inner + [last], keys)
  {
    forall r | r in inner
      ensures !RowLess(keys[last], keys[r])
    {
      RowLessIsOrder(keys[x], keys[last], keys[x]);
      if r in front {
        var k :| 0 <= k < |front| && front[k] == r;
        assert (front + [last])[k] == r && (front + [last])[|front|] == last;
      }
    }
  }

  lemma {:induction false} InsertKeepsOrder(row: seq<Id>, x: Id, keys: map<Id, RowKey>)
    requires x in keys && RowOrdered(row, keys)
    ensures RowOrdered(InsertInRow(row, x, keys), keys)
    decreases |row|
  {
    if row == [] || !RowLess(keys[x], keys[row[|row| - 1]]) {
      AppendKeepsOrder(row, x, keys);
    } else {
      var front, last := row[..|row| - 1], row[|row| - 1];
      assert front + [last] == row;
      InsertKeepsOrder(front, x, keys);
      LeastStaysBefore(InsertInRow(front, x, keys), front, x, last, keys);
    }
  }

  /** Each row comes out ordered by barycenter, then by caption, unplaced targets last. */
  lemma {:induction false} SortOrders(row: seq<Id>, keys: map<Id, RowKey>)
    requires forall r :: r in row ==> r in keys
    ensures RowOrdered(SortRow(row, keys), keys)
    decreases |row|
  {
    if row != [] {
      SortOrders(row[..|row| - 1], keys);
      InsertKeepsOrder(SortRow(row[..|row| - 1], keys), row[|row| - 1], keys);
    }
  }

  ghost predicate NoRepeats(row: seq<Id>) {
    forall i, j :: 0 <= i < j < |row| ==> row[i] != row[j]
  }

  lemma {:induction false} InsertNoRepeats(row: seq<Id>, x: Id, keys: map<Id, RowKey>)
    requires x in keys && (forall r :: r in row ==> r in keys) && NoRepeats(row) && x !in row
    ensures NoRepeats(InsertInRow(row, x, keys))
    decreases |row|
  {
    if row != [] && RowLess(keys[x], keys[row[|row| - 1]]) {
      var front, last := row[..|row| - 1], row[|row| - 1];
      InsertNoRepeats(front, x, keys);
      var inner := InsertInRow(front, x, keys);
      forall i | 0 <= i < |inner|
        ensures inner[i] != last
      {
        assert inner[i] in inner;
        if inner[i] in front {
          var k :| 0 <= k < |front| && front[k] == inner[i];
          assert row[k] == inner[i];
        }
      }
    }
  }

  lemma {:induction false} SortNoRepeats(row: seq<Id>, keys: map<Id, RowKey>)
    requires (forall r :: r in row ==> r in keys) && NoRepeats(row)
    ensures NoRepeats(SortRow(row, keys))
    decreases |row|
  {
    if row != [] {
      var front := row[..|row| - 1];
      SortNoRepeats(front, keys);
      InsertNoRepeats(SortRow(front, keys), row[|row| - 1], keys);
    }
  }

  // ---- rows and their positions ----

  type Sizes = map<Id, Size>

  function RowWidth(sizes: Sizes, row: seq<Id>): real {
    if row == [] then 0.0
    else
      var last := row[|row| - 1];
      RowWidth(sizes, row[..|row| - 1]) + (if last in sizes then sizes[last].w else 0.0) + NodeGap
  }

  function RowHeight(sizes: Sizes, row: seq<Id>): real {
    if row == [] then 0.0
    else
      var rest := RowHeight(sizes, row[..|row| - 1]);
      var last := row[|row| - 1];
      if last in sizes && sizes[last].h > rest then sizes[last].h else rest
  }

  function RowTop(sizes: Sizes, rows: seq<seq<Id>>, li: nat): real
    requires li <= |rows|
  {
    if li == 0 then 0.0 else RowTop(sizes, rows, li - 1) + RowHeight(sizes, rows[li - 1]) + LayerGap
  }

  function Slot(sizes: Sizes, rows: seq<seq<Id>>, li: nat, i: nat): Point
    requires li < |rows| && i < |rows[li]|
  {
    Point(RowWidth(sizes, rows[li][..i]), RowTop(sizes, rows, li))
  }

  lemma {:induction false} RowWidthPrefix(sizes: Sizes, row: seq<Id>, i: nat, j: nat)
    requires i < j <= |row| && row[i] in sizes && forall r :: r in row && r in sizes ==> sizes[r].w > 0.0
    ensures 0.0 <= RowWidth(sizes, row[..i])
    ensures RowWidth(sizes, row[..i]) + sizes[row[i]].w + NodeGap <= RowWidth(sizes, row[..j])
    decreases j
  {
    RowWidthPositive(sizes, row[..i]);
    assert row[..j][..j - 1] == row[..j - 1];
    if i < j - 1 {
      RowWidthPrefix(sizes, row, i, j - 1);
    }
  }

  lemma {:induction false} RowWidthPositive(sizes: Sizes, row: seq<Id>)
    requires forall r :: r in row && r in sizes ==> sizes[r].w > 0.0
    ensures RowWidth(sizes, row) >= 0.0
  {
    if row != [] {
      RowWidthPositive(sizes, row[..|row| - 1]);
      assert row[|row| - 1] in row;
    }
  }

  lemma {:induction false} RowHeightBounds(sizes: Sizes, row: seq<Id>, i: nat)
    requires i < |row| && row[i] in sizes
    ensures sizes[row[i]].h <= RowHeight(sizes, row)
  {
    if i < |row| - 1 {
      RowHeightBounds(sizes, row[..|row| - 1], i);
    }
  }

  lemma {:induction false} RowHeightPositive(sizes: Sizes, row: seq<Id>)
    ensures RowHeight(sizes, row) >= 0.0
  {
    if row != [] {
      RowHeightPositive(sizes, row[..|row| - 1]);
    }
  }

  lemma {:induction false} RowTopGrows(sizes: Sizes, rows: seq<seq<Id>>, l: nat, m: nat)
    requires l < m <= |rows|
    ensures 0.0 <= RowTop(sizes, rows, l)
    ensures RowTop(sizes, rows, l) + RowHeight(sizes, rows[l]) + LayerGap <= RowTop(sizes, rows, m)
    decreases m
  {
    RowTopPositive(sizes, rows, l);
    RowHeightPositive(sizes, rows[m - 1]);
    if l < m - 1 {
      RowTopGrows(sizes, rows, l, m - 1);
    }
  }

  lemma {:induction false} RowTopPositive(sizes: Sizes, rows: seq<seq<Id>>, l: nat)
    requires l <= |rows|
    ensures 0.0 <= RowTop(sizes, rows, l)
  {
    if l > 0 {
      RowTopPositive(sizes, rows, l - 1);
      RowHeightPositive(sizes, rows[l - 1]);
    }
  }

  /** Every placed node has a positive size. */
  ghost predicate Sized(sizes: Sizes, rows: seq<seq<Id>>) {
    forall li, i :: 0 <= li < |rows| && 0 <= i < |rows[li]| ==>
      rows[li][i] in sizes && sizes[rows[li][i]].w > 0.0 && sizes[rows[li][i]].h > 0.0
  }

  /** Two different slots hold boxes that do not overlap. */
  lemma SlotsApart(sizes: Sizes, rows: seq<seq<Id>>, l: nat, i: nat, m: nat, j: nat)
    requires Sized(sizes, rows) && l < |rows| && i < |rows[l]| && m < |rows| && j < |rows[m]| && (l != m || i != j)
    ensures Apart(Slot(sizes, rows, l, i), sizes[rows[l][i]], Slot(sizes, rows, m, j), sizes[rows[m][j]])
  {
    if l == m {
      assert forall r :: r in rows[l] && r in sizes ==> sizes[r].w > 0.0;
      if i < j {
        RowWidthPrefix(sizes, rows[l], i, j);
      } else {
        RowWidthPrefix(sizes, rows[l], j, i);
      }
    } else if l < m {
      RowTopGrows(sizes, rows, l, m);
      RowHeightBounds(sizes, rows[l], i);
    } else {
      RowTopGrows(sizes, rows, m, l);
      RowHeightBounds(sizes, rows[m], j);
    }
  }

  lemma SlotNonNegative(sizes: Sizes, rows: seq<seq<Id>>, l: nat, i: nat)
    requires Sized(sizes, rows) && l < |rows| && i < |rows[l]|
    ensures Slot(sizes, rows, l, i).x >= 0.0 && Slot(sizes, rows, l, i).y >= 0.0
  {
    RowTopPositive(sizes, rows, l);
    assert forall r :: r in rows[l][..i] ==> r in rows[l];
    RowWidthPositive(sizes, rows[l][..i]);
  }

  lemma {:induction false} RowHeightWithin(sizes: Sizes, a: seq<Id>, b: seq<Id>)
    requires forall r :: r in a ==> r in b
    ensures RowHeight(sizes, a) <= RowHeight(sizes, b)
    decreases |a|
  {
    RowHeightPositive(sizes, b);
    if a != [] {
      var last := a[|a| - 1];
      RowHeightWithin(sizes, a[..|a| - 1], b);
      if last in sizes {
        assert last in b;
        var i :| 0 <= i < |b| && b[i] == last;
        RowHeightBounds(sizes, b, i);
      }
    }
  }

  ghost predicate SameMembers(a: seq<Id>, b: seq<Id>) {
    forall r :: r in a <==> r in b
  }

  /** Reordering the rows leaves every row where it was. */
  lemma {:induction false} RowTopIgnoresOrder(sizes: Sizes, rows: seq<seq<Id>>, sorted: seq<seq<Id>>, li: nat)
    requires |rows| == |sorted| && li <= |rows| && forall l :: 0 <= l < |rows| ==> SameMembers(rows[l], sorted[l])
    ensures RowTop(sizes, rows, li) == RowTop(sizes, sorted, li)
  {
    if li > 0 {
      RowTopIgnoresOrder(sizes, rows, sorted, li - 1);
      assert SameMembers(rows[li - 1], sorted[li - 1]);
      RowHeightWithin(sizes, rows[li - 1], sorted[li - 1]);
      RowHeightWithin(sizes, sorted[li - 1], rows[li - 1]);
    }
  }
}
