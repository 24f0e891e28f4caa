/** Rows of top-level nodes: one row for each layer, every later row sorted by the rows above it, and the
    slots they stand in, which put unrelated top-level boxes apart. */
module GraphPlacement {
  import opened GraphGeometry
  import opened GraphLayers
  import opened GraphDependencies

  type LayerMap = map<Id, nat>
  type Rows = seq<seq<Id>>

  // ---- grouping by layer ----

  function RowOf(top: seq<Id>, layerOf: LayerMap, li: nat): (row: seq<Id>)
    ensures forall id :: id in row <==> id in top && id in layerOf && layerOf[id] == li
  {
    if top == [] then []
    else
      var front, last := top[..|top| - 1], top[|top| - 1];
      assert top == front + [last];
      RowOf(front, layerOf, li) + if last in layerOf && layerOf[last] == li then [last] else []
  }

  lemma {:induction false} RowOfNoRepeats(top: seq<Id>, layerOf: LayerMap, li: nat)
    requires NoRepeats(top)
    ensures NoRepeats(RowOf(top, layerOf, li))
    decreases |top|
  {
    if top != [] {
      var front, last := top[..|top| - 1], top[|top| - 1];
      RowOfNoRepeats(front, layerOf, li);
      assert last !in front;
    }
  }

  function Grouped(top: seq<Id>, layerOf: LayerMap, n: nat): (rows: Rows)
    ensures |rows| == n
    ensures forall l :: 0 <= l < n ==> rows[l] == RowOf(top, layerOf, l)
  {
    if n == 0 then [] else Grouped(top, layerOf, n - 1) + [RowOf(top, layerOf, n - 1)]
  }

  // ---- sorting by the rows above ----

  function SizeAt(sizes: Sizes, id: Id): Size {
    if id in sizes then sizes[id] else Size(0.0, 0.0)
  }

  type Centers = map<Id, real>

  /** The horizontal middles known once a row is placed. */
  function CentersAfter(sizes: Sizes, row: seq<Id>, centers: Centers): Centers {
    if row == [] then centers
    else
      var front, last := row[..|row| - 1], row[|row| - 1];
      CentersAfter(sizes, front, centers)[last := RowWidth(sizes, front) + SizeAt(sizes, last).w / 2.0]
  }

  function KeysOf(row: seq<Id>, deps: Deps, centers: Centers, node: NodeTable): (keys: map<Id, RowKey>)
    ensures forall r :: r in row ==> r in keys
  {
    map id | id in row :: RowKey(Barycenter(Targets(deps, id), centers), if id in node then node[id].caption else "")
  }

  /** The top row keeps graph order, the row in layer `li` is sorted against the middles found so far. */
  function Order(row: seq<Id>, li: nat, deps: Deps, centers: Centers, node: NodeTable): (sorted: seq<Id>)
    ensures forall r :: r in sorted <==> r in row
  {
    if li == 0 then row else SortRow(row, KeysOf(row, deps, centers, node))
  }

  function Arranged(sizes: Sizes, node: NodeTable, deps: Deps, rows: Rows): (Rows, Centers) {
    if rows == [] then ([], map[])
    else
      var (done, centers) := Arranged(sizes, node, deps, rows[..|rows| - 1]);
      var row := Order(rows[|rows| - 1], |rows| - 1, deps, centers, node);
      (done + [row], CentersAfter(sizes, row, centers))
  }

  /** Arranging a row permutes it, and leaves it ordered by barycenter and caption. */
  lemma OrderSorts(row: seq<Id>, li: nat, deps: Deps, centers: Centers, node: NodeTable)
    ensures multiset(Order(row, li, deps, centers, node)) == multiset(row)
    ensures NoRepeats(row) ==> NoRepeats(Order(row, li, deps, centers, node))
    ensures li > 0 ==> RowOrdered(Order(row, li, deps, centers, node), KeysOf(row, deps, centers, node))
  {
    var keys := KeysOf(row, deps, centers, node);
    SortPermutes(row, keys);
    SortOrders(row, keys);
    if NoRepeats(row) {
      SortNoRepeats(row, keys);
    }
  }

  // ---- every top-level node in its slot ----

  ghost predicate Arrayed(rel: Offsets, sizes: Sizes, top: seq<Id>, layerOf: LayerMap, rows: Rows) {
    (forall id :: id in top ==> id in layerOf && layerOf[id] < |rows| && id in rows[layerOf[id]]) &&
    (forall l, i :: 0 <= l < |rows| && 0 <= i < |rows[l]| ==> InSlot(rel, sizes, top, layerOf, rows, l, i))
  }

  ghost predicate InSlot(rel: Offsets, sizes: Sizes, top: seq<Id>, layerOf: LayerMap, rows: Rows, l: nat, i: nat)
    requires l < |rows| && i < |rows[l]|
  {
    var id := rows[l][i];
    id in top && id in layerOf && layerOf[id] == l && id in rel && rel[id] == Slot(sizes, rows, l, i)
  }

  lemma SlotOf(rel: Offsets, sizes: Sizes, top: seq<Id>, layerOf: LayerMap, rows: Rows, id: Id) returns (i: nat)
    requires Arrayed(rel, sizes, top, layerOf, rows) && id in top
    ensures layerOf[id] < |rows| && i < |rows[layerOf[id]]| && rows[layerOf[id]][i] == id
    ensures id in rel && rel[id] == Slot(sizes, rows, layerOf[id], i)
  {
    i :| 0 <= i < |rows[layerOf[id]]| && rows[layerOf[id]][i] == id;
    assert InSlot(rel, sizes, top, layerOf, rows, layerOf[id], i);
  }

  ghost predicate TopSized(sizes: Sizes, top: seq<Id>) {
    forall id :: id in top ==> id in sizes && sizes[id].w > 0.0 && sizes[id].h > 0.0
  }

  lemma RowsSized(rel: Offsets, sizes: Sizes, top: seq<Id>, layerOf: LayerMap, rows: Rows)
    requires Arrayed(rel, sizes, top, layerOf, rows) && TopSized(sizes, top)
    ensures Sized(sizes, rows)
  {
    forall l, i | 0 <= l < |rows| && 0 <= i < |rows[l]|
      ensures rows[l][i] in sizes && sizes[rows[l][i]].w > 0.0 && sizes[rows[l][i]].h > 0.0
    {
      assert InSlot(rel, sizes, top, layerOf, rows, l, i);
    }
  }

  /** Two arrayed nodes never overlap. */
  lemma ArrayedApart(rel: Offsets, sizes: Sizes, top: seq<Id>, layerOf: LayerMap, rows: Rows, a: Id, b: Id)
    requires Arrayed(rel, sizes, top, layerOf, rows) && TopSized(sizes, top) && a in top && b in top && a != b
    ensures a in rel && b in rel && Apart(rel[a], sizes[a], rel[b], sizes[b])
    ensures rel[a].x >= 0.0 && rel[a].y >= 0.0
  {
    RowsSized(rel, sizes, top, layerOf, rows);
    var i := SlotOf(rel, sizes, top, layerOf, rows, a);
    var j := SlotOf(rel, sizes, top, layerOf, rows, b);
    SlotsApart(sizes, rows, layerOf[a], i, layerOf[b], j);
    SlotNonNegative(sizes, rows, layerOf[a], i);
  }

  lemma ArrayedNonNegative(rel: Offsets, sizes: Sizes, top: seq<Id>, layerOf: LayerMap, rows: Rows, a: Id)
    requires Arrayed(rel, sizes, top, layerOf, rows) && TopSized(sizes, top) && a in top
    ensures a in rel && rel[a].x >= 0.0 && rel[a].y >= 0.0
  {
    RowsSized(rel, sizes, top, layerOf, rows);
    var i := SlotOf(rel, sizes, top, layerOf, rows, a);
    SlotNonNegative(sizes, rows, layerOf[a], i);
  }

  /** A node in a later layer starts below every node of the earlier ones; one layer shares one top line. */
  lemma LayersStack(rel: Offsets, sizes: Sizes, top: seq<Id>, layerOf: LayerMap, rows: Rows, a: Id, b: Id)
    requires Arrayed(rel, sizes, top, layerOf, rows) && TopSized(sizes, top) && a in top && b in top
    ensures a in rel && b in rel && a in layerOf && b in layerOf
    ensures layerOf[a] < layerOf[b] ==> rel[a].y + sizes[a].h + LayerGap <= rel[b].y
    ensures layerOf[a] == layerOf[b] ==> rel[a].y == rel[b].y
  {
    var i := SlotOf(rel, sizes, top, layerOf, rows, a);
    var j := SlotOf(rel, sizes, top, layerOf, rows, b);
    if layerOf[a] < layerOf[b] {
      RowTopGrows(sizes, rows, layerOf[a], layerOf[b]);
      RowHeightBounds(sizes, rows[layerOf[a]], i);
    }
  }

  /** The rows placed so far: each one a permutation of its layer, its nodes side by side at their heights. */
  ghost predicate Lined(rel: Offsets, sizes: Sizes, grouped: Rows, rows: Rows, tops: seq<real>) {
    |rows| <= |grouped| && |tops| == |grouped| &&
    forall l :: 0 <= l < |rows| ==> LinedRow(rel, sizes, grouped[l], rows[l], tops[l])
  }

  ghost predicate LinedRow(rel: Offsets, sizes: Sizes, group: seq<Id>, row: seq<Id>, y: real) {
    SameMembers(group, row) && LinedUpTo(rel, sizes, row, y, |row|)
  }

  ghost predicate LinedUpTo(rel: Offsets, sizes: Sizes, row: seq<Id>, y: real, n: nat)
    requires n <= |row|
  {
    forall i {:trigger LinedAt(rel, sizes, row, y, i)} :: 0 <= i < n ==> LinedAt(rel, sizes, row, y, i)
  }

  ghost predicate LinedAt(rel: Offsets, sizes: Sizes, row: seq<Id>, y: real, i: nat)
    requires i < |row|
  {
    row[i] in rel && rel[row[i]] == Point(RowWidth(sizes, row[..i]), y)
  }

  /** The two offset maps agree outside `changed`. */
  ghost predicate SameOutside(before: Offsets, after: Offsets, changed: seq<Id>) {
    forall id :: id !in changed ==> (id in before <==> id in after) && (id in before ==> before[id] == after[id])
  }

  /** In the middle of placing a row, with `i` of its nodes placed and `x` the cursor. */
  ghost predicate MidRow(before: Offsets, rel: Offsets, sizes: Sizes, row: seq<Id>, y: real, i: nat, x: real,
                         start: Centers, centers: Centers) {
    i <= |row| && x == RowWidth(sizes, row[..i]) && LinedUpTo(rel, sizes, row, y, i) &&
    SameOutside(before, rel, row) && centers == CentersAfter(sizes, row[..i], start)
  }

  lemma LineStep(rel: Offsets, sizes: Sizes, row: seq<Id>, y: real, i: nat, x: real)
    requires i < |row| && LinedUpTo(rel, sizes, row, y, i) && NoRepeats(row) && x == RowWidth(sizes, row[..i])
    ensures LinedUpTo(rel[row[i] := Point(x, y)], sizes, row, y, i + 1)
  {
    var rel' := rel[row[i] := Point(x, y)];
    forall k | 0 <= k < i + 1
      ensures LinedAt(rel', sizes, row, y, k)
    {
      assert k < i ==> LinedAt(rel, sizes, row, y, k);
    }
  }

  lemma RowStep(before: Offsets, rel: Offsets, sizes: Sizes, row: seq<Id>, y: real, i: nat, x: real,
                start: Centers, centers: Centers)
    requires MidRow(before, rel, sizes, row, y, i, x, start, centers) && i < |row| && NoRepeats(row) && row[i] in sizes
    ensures MidRow(before, rel[row[i] := Point(x, y)], sizes, row, y, i + 1, x + sizes[row[i]].w + NodeGap,
                   start, centers[row[i] := x + sizes[row[i]].w / 2.0])
  {
    assert row[..i + 1][..i] == row[..i];
    LineStep(rel, sizes, row, y, i, x);
  }

  lemma RowEnd(before: Offsets, rel: Offsets, sizes: Sizes, row: seq<Id>, y: real, x: real, start: Centers, centers: Centers)
    requires MidRow(before, rel, sizes, row, y, |row|, x, start, centers)
    ensures LinedUpTo(rel, sizes, row, y, |row|) && SameOutside(before, rel, row)
    ensures centers == CentersAfter(sizes, row, start)
  {
    assert row[..|row|] == row;
  }

  lemma OutsideWider(before: Offsets, mid: Offsets, after: Offsets, row: seq<Id>, top: seq<Id>)
    requires SameOutside(before, mid, top) && SameOutside(mid, after, row) && forall id :: id in row ==> id in top
    ensures SameOutside(before, after, top)
  {
  }

  /** A row in drawing order has the members of its layer, each once. */
  lemma RowReady(top: seq<Id>, layerOf: LayerMap, l: nat, row: seq<Id>, deps: Deps, centers: Centers, node: NodeTable)
    requires NoRepeats(top) && row == Order(RowOf(top, layerOf, l), l, deps, centers, node)
    ensures NoRepeats(row) && SameMembers(RowOf(top, layerOf, l), row) && forall id :: id in row ==> id in top
  {
    RowOfNoRepeats(top, layerOf, l);
    OrderSorts(RowOf(top, layerOf, l), l, deps, centers, node);
  }

  /** Placing a further row leaves the earlier rows as they are. */
  lemma LinedFurther(before: Offsets, rel: Offsets, sizes: Sizes, top: seq<Id>, layerOf: LayerMap,
                     grouped: Rows, rows: Rows, row: seq<Id>, tops: seq<real>)
    requires grouped == Grouped(top, layerOf, |grouped|) && |rows| < |grouped|
    requires Lined(before, sizes, grouped, rows, tops) && SameOutside(before, rel, row)
    requires LinedRow(rel, sizes, grouped[|rows|], row, tops[|rows|])
    ensures Lined(rel, sizes, grouped, rows + [row], tops)
  {
    forall l | 0 <= l < |rows|
      ensures LinedRow(rel, sizes, grouped[l], rows[l], tops[l])
    {
      assert LinedRow(before, sizes, grouped[l], rows[l], tops[l]);
      forall i | 0 <= i < |rows[l]|
        ensures LinedAt(rel, sizes, rows[l], tops[l], i)
      {
        assert rows[l][i] in grouped[l] && LinedAt(before, sizes, rows[l], tops[l], i);
      }
    }
  }

  /** With the first rows placed and the rest still to come. */
  ghost predicate MidRows(before: Offsets, rel: Offsets, sizes: Sizes, node: NodeTable, deps: Deps, top: seq<Id>,
                          grouped: Rows, rows: Rows, tops: seq<real>, centers: Centers) {
    Lined(rel, sizes, grouped, rows, tops) && SameOutside(before, rel, top) &&
    (rows, centers) == Arranged(sizes, node, deps, grouped[..|rows|])
  }

  lemma ArrangedStep(sizes: Sizes, node: NodeTable, deps: Deps, grouped: Rows, rows: Rows, centers: Centers)
    requires |rows| < |grouped| && (rows, centers) == Arranged(sizes, node, deps, grouped[..|rows|])
    ensures var row := Order(grouped[|rows|], |rows|, deps, centers, node);
            (rows + [row], CentersAfter(sizes, row, centers)) == Arranged(sizes, node, deps, grouped[..|rows| + 1])
  {
    assert grouped[..|rows| + 1][..|rows|] == grouped[..|rows|];
  }

  lemma RowsStep(before: Offsets, mid: Offsets, rel: Offsets, sizes: Sizes, node: NodeTable, deps: Deps, top: seq<Id>,
                 layerOf: LayerMap, grouped: Rows, rows: Rows, tops: seq<real>, centers: Centers, row: seq<Id>)
    requires grouped == Grouped(top, layerOf, |grouped|) && NoRepeats(top) && |rows| < |grouped|
    requires MidRows(before, mid, sizes, node, deps, top, grouped, rows, tops, centers)
    requires row == Order(grouped[|rows|], |rows|, deps, centers, node)
    requires LinedUpTo(rel, sizes, row, tops[|rows|], |row|) && SameOutside(mid, rel, row)
    ensures MidRows(before, rel, sizes, node, deps, top, grouped, rows + [row], tops, CentersAfter(sizes, row, centers))
  {
    RowReady(top, layerOf, |rows|, row, deps, centers, node);
    OutsideWider(before, mid, rel, row, top);
    LinedFurther(mid, rel, sizes, top, layerOf, grouped, rows, row, tops);
    ArrangedStep(sizes, node, deps, grouped, rows, centers);
  }

  lemma LinedIsSlot(rel: Offsets, sizes: Sizes, top: seq<Id>, layerOf: LayerMap, grouped: Rows, rows: Rows,
                    tops: seq<real>, l: nat, i: nat)
    requires l < |grouped| == |rows| == |tops| && i < |rows[l]| && grouped[l] == RowOf(top, layerOf, l)
    requires LinedRow(rel, sizes, grouped[l], rows[l], tops[l]) && tops[l] == RowTop(sizes, rows, l)
    ensures InSlot(rel, sizes, top, layerOf, rows, l, i)
  {
    assert rows[l][i] in grouped[l];
    assert LinedAt(rel, sizes, rows[l], tops[l], i);
  }

  lemma LinedIsArrayed(rel: Offsets, sizes: Sizes, top: seq<Id>, layerOf: LayerMap, grouped: Rows, rows: Rows, tops: seq<real>)
    requires grouped == Grouped(top, layerOf, |grouped|) && |rows| == |grouped| && Lined(rel, sizes, grouped, rows, tops)
    requires forall l :: 0 <= l < |grouped| ==> tops[l] == RowTop(sizes, grouped, l)
    requires forall id :: id in top ==> id in layerOf && layerOf[id] < |grouped|
    ensures Arrayed(rel, sizes, top, layerOf, rows)
  {
    forall l | 0 <= l < |rows|
      ensures SameMembers(grouped[l], rows[l])
    {
      assert LinedRow(rel, sizes, grouped[l], rows[l], tops[l]);
    }
    forall l, i | 0 <= l < |rows| && 0 <= i < |rows[l]|
      ensures InSlot(rel, sizes, top, layerOf, rows, l, i)
    {
      RowTopIgnoresOrder(sizes, grouped, rows, l);
      assert LinedRow(rel, sizes, grouped[l], rows[l], tops[l]);
      LinedIsSlot(rel, sizes, top, layerOf, grouped, rows, tops, l, i);
    }
    forall id | id in top
      ensures id in rows[layerOf[id]]
    {
      assert SameMembers(grouped[layerOf[id]], rows[layerOf[id]]);
    }
  }

  // ---- from slots to a placed forest ----

  /** Every node carries its size, every nested node its offset. */
  ghost predicate Measured(g: Graph, depth: Depths, sizes: Sizes, rel: Offsets) {
    Forest(g, depth) && forall id :: id in Ids(g) ==> MeasuredAt(g, depth, sizes, rel, id)
  }

  ghost predicate MeasuredAt(g: Graph, depth: Depths, sizes: Sizes, rel: Offsets, id: Id)
    requires Forest(g, depth) && id in Ids(g)
  {
    id in sizes && sizes[id] == SizeOf(g, depth, id) &&
    (Parent(g, id) != "" ==> id in rel && rel[id] == RelOf(g, depth, id))
  }

  lemma TopIs(g: Graph, depth: Depths, id: Id)
    requires Forest(g, depth)
    ensures id in Kids(g.nodes, "") <==> id in Ids(g) && Parent(g, id) == ""
  {
    if id in Kids(g.nodes, "") {
      KidFacts(g, depth, "", id);
    }
    if id in Ids(g) {
      KidOf(g, id);
    }
  }

  lemma TopIsSized(g: Graph, depth: Depths, sizes: Sizes, rel: Offsets)
    requires Measured(g, depth, sizes, rel)
    ensures TopSized(sizes, Kids(g.nodes, ""))
  {
    forall id | id in Kids(g.nodes, "")
      ensures id in sizes && sizes[id].w > 0.0 && sizes[id].h > 0.0
    {
      TopIs(g, depth, id);
      assert MeasuredAt(g, depth, sizes, rel, id);
      SizesPositive(g, depth, id);
    }
  }

  /** Placing the top level touches no nested node. */
  lemma StillMeasured(g: Graph, depth: Depths, sizes: Sizes, before: Offsets, rel: Offsets)
    requires Measured(g, depth, sizes, before) && SameOutside(before, rel, Kids(g.nodes, ""))
    ensures Measured(g, depth, sizes, rel)
  {
    forall id | id in Ids(g)
      ensures MeasuredAt(g, depth, sizes, rel, id)
    {
      assert MeasuredAt(g, depth, sizes, before, id);
      TopIs(g, depth, id);
    }
  }

  /** Measured nodes whose top level stands in slots make a placed forest. */
  lemma SlotsPlace(g: Graph, depth: Depths, sizes: Sizes, rel: Offsets, layerOf: LayerMap, rows: Rows)
    requires Measured(g, depth, sizes, rel) && Arrayed(rel, sizes, Kids(g.nodes, ""), layerOf, rows)
    ensures Placed(g, depth, rel)
  {
    TopIsSized(g, depth, sizes, rel);
    forall id | id in Ids(g)
      ensures id in rel
      ensures Parent(g, id) != "" ==> rel[id] == RelOf(g, depth, id)
      ensures Parent(g, id) == "" ==> rel[id].x >= 0.0 && rel[id].y >= 0.0
    {
      assert MeasuredAt(g, depth, sizes, rel, id);
      TopIs(g, depth, id);
      if Parent(g, id) == "" {
        ArrayedNonNegative(rel, sizes, Kids(g.nodes, ""), layerOf, rows, id);
      }
    }
    forall a, b | a in Ids(g) && b in Ids(g) && Parent(g, a) == Parent(g, b) == "" && a != b
      ensures Apart(rel[a], SizeOf(g, depth, a), rel[b], SizeOf(g, depth, b))
    {
      assert MeasuredAt(g, depth, sizes, rel, a) && MeasuredAt(g, depth, sizes, rel, b);
      TopIs(g, depth, a);
      TopIs(g, depth, b);
      ArrayedApart(rel, sizes, Kids(g.nodes, ""), layerOf, rows, a, b);
    }
  }
}
