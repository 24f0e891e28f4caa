/** The layout of a graph: sizes from the leaves up, rows of top-level nodes, absolute positions. */
module GraphLayout {
  import opened GraphGeometry
  import opened GraphLayers
  import opened GraphDependencies
  import opened GraphPlacement
  import opened GraphSizing
  import opened GraphResolving
  import opened GraphPictures

  method Index(nodes: seq<Node>) returns (node: NodeTable, children: Children)
    ensures node == NodeMap(nodes) && Indexes(children, nodes)
  {
    node, children := map[], map[];
    for i := 0 to |nodes|
      invariant node == NodeMap(nodes[..i]) && Indexes(children, nodes[..i])
    {
      var n := nodes[i];
      assert nodes[..i + 1][..i] == nodes[..i];
      node := node[n.id := n];
      children := children[n.parent := KidsAt(children, n.parent) + [n.id]];
    }
    assert nodes[..|nodes|] == nodes;
  }

  class Layouter {
    const g: Graph
    const node: NodeTable
    const children: Children
    ghost const depth: Depths
    var size: Sizes
    var rel: Offsets
    var abs: Offsets
    var visiting: set<Id>

    ghost predicate Indexed() {
      node == NodeMap(g.nodes) && Indexes(children, g.nodes)
    }

    constructor (g: Graph, node: NodeTable, children: Children, ghost depth: Depths)
      requires node == NodeMap(g.nodes) && Indexes(children, g.nodes)
      ensures this.g == g && this.node == node && this.children == children && this.depth == depth
      ensures size == map[] && rel == map[] && abs == map[] && visiting == {}
    {
      this.g, this.node, this.children, this.depth := g, node, children, depth;
      size, rel, abs, visiting := map[], map[], map[], {};
    }

    /** Sizes a node and everything below it, and places its children relative to it. A node met again
        while it is being sized counts as a leaf, which ends the recursion on graphs that are no forest. */
    method SizeNode(id: Id) returns (s: Size)
      requires Indexed() && visiting <= Ids(g) && id in Ids(g) && VisitedAbove(g, depth, visiting, id)
      requires Right(g, depth, size, rel)
      modifies this`size, this`rel, this`visiting
      ensures visiting == old(visiting)
      ensures Right(g, depth, size, rel) && Extends(old(size), old(rel), size, rel)
      ensures Forest(g, depth) ==> SizedAs(g, depth, size, id, s)
      decreases |Ids(g) - visiting|, 1
    {
      if id in size {
        KnownSize(g, depth, size, rel, id);
        return size[id];
      }
      KindOf(g, depth, node, id);
      if Forest(g, depth) {
        NotVisited(g, depth, visiting, id);
      }
      if id in visiting {
        return LeafSize(node[id].kind);
      }
      s := MeasureNode(id);
    }

    /** The part of sizing behind the two early returns. */
    method MeasureNode(id: Id) returns (s: Size)
      requires Indexed() && visiting <= Ids(g) && id in Ids(g) && VisitedAbove(g, depth, visiting, id)
      requires Right(g, depth, size, rel) && id !in visiting
      modifies this`size, this`rel, this`visiting
      ensures visiting == old(visiting)
      ensures Right(g, depth, size, rel) && Extends(old(size), old(rel), size, rel)
      ensures Forest(g, depth) ==> SizedAs(g, depth, size, id, s)
      decreases |Ids(g) - visiting|, 0
    {
      visiting := visiting + {id};
      PathGrows(Ids(g), old(visiting), id);
      s := OwnSize(id, old(visiting));
      Remember(id, s);
      visiting := visiting - {id};
    }

    /** The size of a leaf by its kind, that of a container by its children. */
    method OwnSize(id: Id, ghost above: set<Id>) returns (s: Size)
      requires Indexed() && visiting <= Ids(g) && id in Ids(g)
      requires visiting == above + {id} && VisitedAbove(g, depth, above, id)
      requires Right(g, depth, size, rel)
      modifies this`size, this`rel, this`visiting
      ensures visiting == old(visiting)
      ensures Right(g, depth, size, rel) && Extends(old(size), old(rel), size, rel)
      ensures Forest(g, depth) ==> s == SizeOf(g, depth, id) && KidsDone(size, rel, Kids(g.nodes, id))
      decreases |Ids(g) - visiting|, 4
    {
      if KidsAt(children, id) == [] {
        KindOf(g, depth, node, id);
        s := LeafSize(node[id].kind);
        LeafIsRight(g, depth, id, node[id].kind);
      } else {
        s := StackKids(id, above);
      }
    }

    method Remember(id: Id, s: Size)
      requires id in Ids(g) && Right(g, depth, size, rel)
      requires Forest(g, depth) ==> s == SizeOf(g, depth, id) && KidsDone(size, rel, Kids(g.nodes, id))
      modifies this`size
      ensures Right(g, depth, size, rel) && Extends(old(size), rel, size, rel)
      ensures Forest(g, depth) ==> SizedAs(g, depth, size, id, s)
    {
      RecordSize(g, depth, size, rel, id, s);
      size := size[id := s];
    }

    /** The loop over the children of a container: one below the other, as wide as the widest. */
    method StackKids(id: Id, ghost above: set<Id>) returns (s: Size)
      requires Indexed() && visiting <= Ids(g) && id in Ids(g) && Kids(g.nodes, id) != []
      requires visiting == above + {id} && VisitedAbove(g, depth, above, id)
      requires Right(g, depth, size, rel)
      modifies this`size, this`rel, this`visiting
      ensures visiting == old(visiting)
      ensures Right(g, depth, size, rel) && Extends(old(size), old(rel), size, rel)
      ensures Forest(g, depth) ==> s == SizeOf(g, depth, id) && KidsDone(size, rel, Kids(g.nodes, id))
      decreases |Ids(g) - visiting|, 3
    {
      KindOf(g, depth, node, id);
      var kids := KidsAt(children, id);
      var y := Header(node[id].kind) + Pad;
      var widest := 0.0;
      StackStart(g, depth, id, node[id].kind);
      for i := 0 to |kids|
        invariant visiting == old(visiting)
        invariant Extends(old(size), old(rel), size, rel)
        invariant MidStack(g, depth, size, rel, id, i, y, widest)
      {
        var ks := StackKid(id, i, y, widest, above);
        y := y + ks.h + ChildGap;
        if ks.w > widest {
          widest := ks.w;
        }
      }
      assert kids[..|kids|] == kids;
      StackEnd(g, depth, id, y, widest);
      s := Size(widest + 2.0 * Pad, y - ChildGap + Pad);
    }
  
    /** One round of that loop: sizes the child and writes its offset. */
    method StackKid(id: Id, i: nat, y: real, ghost widest: real, ghost above: set<Id>) returns (ks: Size)
      requires Indexed() && visiting <= Ids(g) && i < |KidsAt(children, id)|
      requires visiting == above + {id} && VisitedAbove(g, depth, above, id)
      requires MidStack(g, depth, size, rel, id, i, y, widest)
      modifies this`size, this`rel, this`visiting
      ensures visiting == old(visiting)
      ensures Extends(old(size), old(rel), size, rel)
      ensures MidStack(g, depth, size, rel, id, i + 1, y + ks.h + ChildGap, if ks.w > widest then ks.w else widest)
      decreases |Ids(g) - visiting|, 2
    {
      var kid := children[id][i];
      VisitKid(g, depth, above, id, kid);
      ks := SizeNode(kid);
      StackIteration(g, depth, old(size), old(rel), size, rel, id, i, y, widest, ks);
      rel := rel[kid := Point(Pad, y)];
    }

    // ---- the rows of top-level nodes ----

    method FindHolder(id: Id) returns (holder: Id)
      ensures holder == Holder(node, id)
    {
      var cur := id;
      for i := 0 to |node| + 1
        invariant Holder(node, id) == Climb(node, cur, |node| + 1 - i)
      {
        if cur !in node {
          return "";
        }
        if node[cur].parent == "" {
          return cur;
        }
        cur := node[cur].parent;
      }
      return cur;
    }

    method CollectDeps() returns (deps: Deps)
      ensures deps == DepsOf(node, g.edges)
    {
      deps := map[];
      var seen: set<(Id, Id)> := {};
      for i := 0 to |g.edges|
        invariant deps == DepsOf(node, g.edges[..i])
        invariant forall from, to :: (from, to) in seen <==> to in Targets(deps, from)
      {
        assert g.edges[..i + 1][..i] == g.edges[..i];
        var from := FindHolder(g.edges[i].source);
        var to := FindHolder(g.edges[i].target);
        if from == to || from == "" || to == "" || (from, to) in seen {
          continue;
        }
        seen := seen + {(from, to)};
        deps := deps[from := Targets(deps, from) + [to]];
      }
      assert g.edges[..|g.edges|] == g.edges;
    }

    /** The rows in the order they are drawn; writes the offset of every top-level node. */
    method PlaceRow(row: seq<Id>, y: real, centers: Centers) returns (centers': Centers)
      requires NoRepeats(row) && forall id :: id in row ==> id in size
      modifies this`rel
      ensures LinedUpTo(rel, size, row, y, |row|) && SameOutside(old(rel), rel, row)
      ensures centers' == CentersAfter(size, row, centers)
    {
      var x := 0.0;
      centers' := centers;
      for i := 0 to |row|
        invariant MidRow(old(rel), rel, size, row, y, i, x, centers, centers')
      {
        RowStep(old(rel), rel, size, row, y, i, x, centers, centers');
        var w := size[row[i]].w;
        rel := rel[row[i] := Point(x, y)];
        centers' := centers'[row[i] := x + w / 2.0];
        x := x + w + NodeGap;
      }
      RowEnd(old(rel), rel, size, row, y, x, centers, centers');
    }

    method RowTops(rows: Rows) returns (tops: seq<real>)
      ensures |tops| == |rows| && forall l :: 0 <= l < |rows| ==> tops[l] == RowTop(size, rows, l)
    {
      tops := [];
      var y := 0.0;
      for l := 0 to |rows|
        invariant |tops| == l && y == RowTop(size, rows, l)
        invariant forall k :: 0 <= k < l ==> tops[k] == RowTop(size, rows, k)
      {
        tops := tops + [y];
        var highest := 0.0;
        for i := 0 to |rows[l]|
          invariant highest == RowHeight(size, rows[l][..i])
        {
          assert rows[l][..i + 1][..i] == rows[l][..i];
          var h := SizeAt(size, rows[l][i]).h;
          RowHeightPositive(size, rows[l][..i]);
          if h > highest {
            highest := h;
          }
        }
        assert rows[l][..|rows[l]|] == rows[l];
        y := y + highest + LayerGap;
      }
    }

    method GroupByLayer(top: seq<Id>, layerOf: LayerMap, highest: nat) returns (rows: Rows)
      requires forall id :: id in top ==> id in layerOf && layerOf[id] <= highest
      ensures rows == Grouped(top, layerOf, highest + 1)
    {
      rows := seq(highest + 1, _ => []);
      for i := 0 to |top|
        invariant |rows| == highest + 1
        invariant forall l :: 0 <= l <= highest ==> rows[l] == RowOf(top[..i], layerOf, l)
      {
        assert top[..i + 1][..i] == top[..i];
        var l := layerOf[top[i]];
        rows := rows[l := rows[l] + [top[i]]];
      }
      assert top[..|top|] == top;
    }

    method AssignLayers(top: seq<Id>, deps: Deps, ghost rank: map<Id, nat>) returns (layerOf: LayerMap, highest: nat)
      ensures forall id :: id in top ==> id in layerOf && layerOf[id] <= highest
      ensures Acyclic(deps, rank) ==> forall id :: id in top ==> layerOf[id] == Layer(deps, rank, id)
    {
      var assignment := new LayerAssignment(deps);
      ghost var targets := set n, d | n in deps && d in deps[n] :: d;
      ghost var universe := (set id | id in top) + targets;
      highest := 0;
      for i := 0 to |top|
        invariant assignment.deps == deps && assignment.Correct(rank)
        invariant forall k :: 0 <= k < i ==> top[k] in assignment.layerOf && assignment.layerOf[top[k]] <= highest
      {
        var v := assignment.Assign(top[i], {}, universe, rank);
        if v > highest {
          highest := v;
        }
      }
      layerOf := assignment.layerOf;
    }

    /** Sorts the rows one after the other, each by the middles of the rows above it, and places them. */
    method PlaceRows(top: seq<Id>, layerOf: LayerMap, grouped: Rows, tops: seq<real>, deps: Deps) returns (rows: Rows)
      requires grouped == Grouped(top, layerOf, |grouped|) && |tops| == |grouped| && NoRepeats(top)
      requires forall id :: id in top ==> id in size
      modifies this`rel
      ensures |rows| == |grouped| && Lined(rel, size, grouped, rows, tops) && SameOutside(old(rel), rel, top)
      ensures rows == Arranged(size, node, deps, grouped).0
    {
      rows := [];
      var centers: Centers := map[];
      for l := 0 to |grouped|
        invariant |rows| == l && MidRows(old(rel), rel, size, node, deps, top, grouped, rows, tops, centers)
      {
        var row := Order(grouped[l], l, deps, centers, node);
        RowReady(top, layerOf, l, row, deps, centers, node);
        ghost var before := rel;
        var centers' := PlaceRow(row, tops[l], centers);
        RowsStep(old(rel), before, rel, size, node, deps, top, layerOf, grouped, rows, tops, centers, row);
        rows, centers := rows + [row], centers';
      }
      assert grouped[..|grouped|] == grouped;
    }

    /** Places the top-level nodes in rows, one row for each layer of the dependencies between them. */
    method PlaceTopLevel(top: seq<Id>, ghost rank: map<Id, nat>) returns (layerOf: LayerMap, rows: Rows)
      requires Measured(g, depth, size, rel) && top == Kids(g.nodes, "")
      modifies this`rel
      ensures Measured(g, depth, size, rel) && Arrayed(rel, size, top, layerOf, rows)
      ensures rows == Arranged(size, node, DepsOf(node, g.edges), Grouped(top, layerOf, |rows|)).0
      ensures Acyclic(DepsOf(node, g.edges), rank) ==>
                forall id :: id in top ==> id in layerOf && layerOf[id] == Layer(DepsOf(node, g.edges), rank, id)
    {
      if top == [] {
        return map[], [];
      }
      var deps := CollectDeps();
      var highest;
      layerOf, highest := AssignLayers(top, deps, rank);
      var grouped := GroupByLayer(top, layerOf, highest);
      var tops := RowTops(grouped);
      TopIsSized(g, depth, size, rel);
      KidsDistinct(g.nodes, "");
      ghost var before := rel;
      rows := PlaceRows(top, layerOf, grouped, tops, deps);
      LinedIsArrayed(rel, size, top, layerOf, grouped, rows, tops);
      StillMeasured(g, depth, size, before, rel);
    }

    // ---- absolute positions ----

    /** Adds up the offsets down from `id`; a node that already has a position ends the descent. */
    method ResolveAbs(id: Id, origin: Point)
      requires Indexes(children, g.nodes) && id in Ids(g) && Origin(g, depth, rel, id, origin)
      requires PositionsRight(g, depth, rel, abs) && Clear(g, depth, abs, id)
      modifies this`abs
      ensures PositionsRight(g, depth, rel, abs) && FewerLeft(g, old(abs), abs)
      ensures Reached(g, depth, old(abs), abs, id)
      decreases |Ids(g) - abs.Keys|, 1
    {
      ClearMeansNew(g, depth, abs, id);
      if id in abs {
        return;
      }
      var at := Record(id, origin);
      ResolveKids(id, at, old(abs));
    }

    method Record(id: Id, origin: Point) returns (at: Point)
      requires id in Ids(g) && id !in abs && Origin(g, depth, rel, id, origin) && PositionsRight(g, depth, rel, abs)
      modifies this`abs
      ensures PositionsRight(g, depth, rel, abs) && FewerLeft(g, old(abs), abs) && AtNode(g, depth, rel, id, at)
      ensures Descending(g, depth, old(abs), abs, id, 0)
      ensures |Ids(g) - abs.Keys| < |Ids(g) - old(abs).Keys|
    {
      var offset := PointAt(rel, id);
      at := Point(origin.x + offset.x, origin.y + offset.y);
      StartDescent(g, depth, rel, abs, id, origin, at);
      Adds(Ids(g), abs, id, at);
      abs := abs[id := at];
    }

    /** The descent into the children of a node that has just got its position. */
    method ResolveKids(id: Id, at: Point, ghost before: Offsets)
      requires Indexes(children, g.nodes) && id in Ids(g) && AtNode(g, depth, rel, id, at)
      requires PositionsRight(g, depth, rel, abs) && Clear(g, depth, before, id)
      requires Descending(g, depth, before, abs, id, 0)
      modifies this`abs
      ensures PositionsRight(g, depth, rel, abs) && FewerLeft(g, old(abs), abs)
      ensures Reached(g, depth, before, abs, id)
      decreases |Ids(g) - abs.Keys|, 3
    {
      for i := 0 to |KidsAt(children, id)|
        invariant PositionsRight(g, depth, rel, abs)
        invariant FewerLeft(g, old(abs), abs) && Descending(g, depth, before, abs, id, i)
      {
        ResolveKid(id, i, at, before);
      }
      EndDescent(g, depth, before, abs, id);
    }

    method ResolveKid(id: Id, i: nat, at: Point, ghost before: Offsets)
      requires Indexes(children, g.nodes) && id in Ids(g) && i < |KidsAt(children, id)| && AtNode(g, depth, rel, id, at)
      requires PositionsRight(g, depth, rel, abs) && Clear(g, depth, before, id)
      requires Descending(g, depth, before, abs, id, i)
      modifies this`abs
      ensures PositionsRight(g, depth, rel, abs) && FewerLeft(g, old(abs), abs)
      ensures Descending(g, depth, before, abs, id, i + 1)
      decreases |Ids(g) - abs.Keys|, 2
    {
      var kid := children[id][i];
      KidOrigin(g, depth, rel, id, kid, at);
      KidIsClear(g, depth, before, abs, id, i);
      ResolveAbs(kid, at);
      GoOn(g, depth, before, old(abs), abs, id, i);
    }

    method SizeAll(top: seq<Id>)
      requires Indexed() && Forest(g, depth) && top == Kids(g.nodes, "")
      requires size == map[] && rel == map[] && visiting == {}
      modifies this`size, this`rel, this`visiting
      ensures Measured(g, depth, size, rel)
    {
      for i := 0 to |top|
        invariant visiting == {} && Right(g, depth, size, rel)
        invariant forall k :: 0 <= k < i ==> top[k] in size
      {
        KidFacts(g, depth, "", top[i]);
        var _ := SizeNode(top[i]);
      }
      AllMeasured(g, depth, size, rel);
    }

    method ResolveAll(top: seq<Id>)
      requires Indexed() && Measured(g, depth, size, rel) && Placed(g, depth, rel) && top == Kids(g.nodes, "")
      requires abs == map[]
      modifies this`abs
      ensures Resolved(g, depth, rel, abs)
    {
      for i := 0 to |top|
        invariant PositionsRight(g, depth, rel, abs) && TopsResolved(g, depth, abs, i)
      {
        ResolveTop(top, i);
      }
      AllResolved(g, depth, rel, abs);
    }

    method ResolveTop(top: seq<Id>, i: nat)
      requires Indexes(children, g.nodes) && top == Kids(g.nodes, "") && i < |top|
      requires PositionsRight(g, depth, rel, abs) && TopsResolved(g, depth, abs, i)
      modifies this`abs
      ensures PositionsRight(g, depth, rel, abs) && TopsResolved(g, depth, abs, i + 1)
    {
      TopIsClear(g, depth, rel, abs, i);
      ResolveAbs(top[i], Point(0.0, 0.0));
      TopsStep(g, depth, old(abs), abs, i);
    }

    /** The three passes: sizes, rows, positions. */
    method Arrange(top: seq<Id>, ghost rank: map<Id, nat>) returns (layerOf: LayerMap, rows: Rows)
      requires Indexed() && Forest(g, depth) && top == Kids(g.nodes, "")
      requires size == map[] && rel == map[] && visiting == {} && abs == map[]
      modifies this
      ensures Measured(g, depth, size, rel) && Placed(g, depth, rel) && Resolved(g, depth, rel, abs)
      ensures Arrayed(rel, size, top, layerOf, rows)
      ensures Acyclic(DepsOf(node, g.edges), rank) ==>
                forall id :: id in top ==> id in layerOf && layerOf[id] == Layer(DepsOf(node, g.edges), rank, id)
    {
      SizeAll(top);
      layerOf, rows := PlaceTopLevel(top, rank);
      SlotsPlace(g, depth, size, rel, layerOf, rows);
      ResolveAll(top);
    }

    /** Reads off the boxes in graph order, and the bounds of the drawing. */
    method EmitBoxes() returns (nodes: seq<Positioned>, width: real, height: real)
      ensures Boxes(abs, size, g.nodes, nodes) && Bounds(nodes, width, height)
    {
      nodes, width, height := [], 0.0, 0.0;
      for i := 0 to |g.nodes|
        invariant Boxes(abs, size, g.nodes[..i], nodes)
        invariant Bounds(nodes, width, height)
      {
        var box := BoxOf(abs, size, g.nodes[i]);
        BoundsStep(nodes, width, height, box);
        BoxesStep(abs, size, g.nodes, i, nodes);
        nodes := nodes + [box];
        if box.at.x + box.size.w > width {
          width := box.at.x + box.size.w;
        }
        if box.at.y + box.size.h > height {
          height := box.at.y + box.size.h;
        }
      }
      assert g.nodes[..|g.nodes|] == g.nodes;
    }

    method EmitRoutes() returns (edges: seq<Routed>, ghost draw: Drawing)
      ensures edges == RoutesOf(draw, g.edges) && DrawsRoutes(draw, abs, size)
    {
      var at, sizes := abs, size;
      var route := (e: Edge) => RouteOf(at, sizes, e);
      edges := [];
      for i := 0 to |g.edges|
        invariant edges == RoutesOf(route, g.edges[..i])
      {
        assert g.edges[..i + 1][..i] == g.edges[..i];
        edges := edges + [Routed(g.edges[i], route(g.edges[i]))];
      }
      assert g.edges[..|g.edges|] == g.edges;
      draw := route;
    }

    method Emit() returns (picture: Picture, ghost draw: Drawing)
      ensures Boxes(abs, size, g.nodes, picture.nodes) && Bounds(picture.nodes, picture.width, picture.height)
      ensures picture.edges == RoutesOf(draw, g.edges) && DrawsRoutes(draw, abs, size)
    {
      var nodes, width, height := EmitBoxes();
      var edges;
      edges, draw := EmitRoutes();
      picture := Picture(nodes, edges, width, height);
    }
  }

  /** The layout of every forest: nested boxes inside their parents, unrelated boxes apart, all within tight
      bounds; edges drawn around the boxes they join; and, when the dependencies between top-level nodes
      are acyclic under some ranking, layers by longest dependency path from top to bottom. */
  method Layout(g: Graph, ghost depth: Depths, ghost rank: map<Id, nat>) returns (picture: Picture)
    requires Forest(g, depth)
    ensures Lists(g, picture) && Bounds(picture.nodes, picture.width, picture.height) && InQuadrant(picture)
    ensures Nested(picture) && Disjoint(g, depth, picture) && Joined(g, depth, picture)
    ensures var deps := DepsOf(NodeMap(g.nodes), g.edges);
            Acyclic(deps, rank) ==> Layered(picture, deps, rank)
  {
    var node, children := Index(g.nodes);
    var layouter := new Layouter(g, node, children, depth);
    var layerOf, rows := layouter.Arrange(KidsAt(children, ""), rank);
    ghost var draw;
    picture, draw := layouter.Emit();
    Conclude(g, depth, layouter.rel, layouter.abs, layouter.size, draw, picture, rank, layerOf, rows);
  }
}
