/** What a finished drawing shows, and why positions made from a placement keep its promises: nesting,
    disjointness, bounds, routes around boxes and layers from top to bottom. */
module GraphPictures {
  import opened GraphGeometry
  import opened GraphLayers
  import opened GraphDependencies
  import opened GraphPlacement
  import opened GraphResolving
  import opened GraphRoutes

  datatype Positioned = Positioned(node: Node, at: Point, size: Size)

  datatype Routed = Routed(edge: Edge, points: seq<Point>)

  datatype Picture = Picture(nodes: seq<Positioned>, edges: seq<Routed>, width: real, height: real)

  function PointAt(points: Offsets, id: Id): Point {
    if id in points then points[id] else Point(0.0, 0.0)
  }

  function BoxOf(abs: Offsets, size: Sizes, n: Node): Positioned {
    Positioned(n, PointAt(abs, n.id), SizeAt(size, n.id))
  }

  function RouteOf(abs: Offsets, size: Sizes, e: Edge): seq<Point> {
    Route(PointAt(abs, e.source), SizeAt(size, e.source), PointAt(abs, e.target), SizeAt(size, e.target))
  }

  type Drawing = Edge -> seq<Point>

  /** `draw` routes an edge between the boxes of its two ends. */
  ghost predicate DrawsRoutes(draw: Drawing, abs: Offsets, size: Sizes) {
    forall e :: draw(e) == RouteOf(abs, size, e)
  }

  function RoutesOf(draw: Drawing, edges: seq<Edge>): (routes: seq<Routed>)
    ensures |routes| == |edges|
  {
    if edges == [] then []
    else RoutesOf(draw, edges[..|edges| - 1]) + [Routed(edges[|edges| - 1], draw(edges[|edges| - 1]))]
  }

  lemma {:induction false} RouteAt(draw: Drawing, edges: seq<Edge>, i: nat)
    requires i < |edges|
    ensures RoutesOf(draw, edges)[i] == Routed(edges[i], draw(edges[i]))
    decreases |edges|
  {
    if i < |edges| - 1 {
      RouteAt(draw, edges[..|edges| - 1], i);
    }
  }

  ghost predicate Boxes(abs: Offsets, size: Sizes, nodes: seq<Node>, boxes: seq<Positioned>) {
    |boxes| == |nodes| && forall i :: 0 <= i < |nodes| ==> boxes[i] == BoxOf(abs, size, nodes[i])
  }

  lemma BoxesStep(abs: Offsets, size: Sizes, nodes: seq<Node>, i: nat, boxes: seq<Positioned>)
    requires i < |nodes| && Boxes(abs, size, nodes[..i], boxes)
    ensures Boxes(abs, size, nodes[..i + 1], boxes + [BoxOf(abs, size, nodes[i])])
  {
  }

  // ---- what a drawing promises ----

  /** The reported bounds hold every box, and no smaller bounds would. */
  ghost predicate Bounds(nodes: seq<Positioned>, width: real, height: real) {
    (forall b :: b in nodes ==> b.at.x + b.size.w <= width && b.at.y + b.size.h <= height) &&
    (width == 0.0 || exists b :: b in nodes && b.at.x + b.size.w == width) &&
    (height == 0.0 || exists b :: b in nodes && b.at.y + b.size.h == height)
  }

  lemma BoundsStep(nodes: seq<Positioned>, width: real, height: real, box: Positioned)
    requires Bounds(nodes, width, height)
    ensures Bounds(nodes + [box], if box.at.x + box.size.w > width then box.at.x + box.size.w else width,
                   if box.at.y + box.size.h > height then box.at.y + box.size.h else height)
  {
    var more := nodes + [box];
    assert box in more && forall b :: b in nodes ==> b in more;
  }

  /** The drawing shows every node and every edge of the graph, in graph order. */
  ghost predicate Lists(g: Graph, picture: Picture) {
    |picture.nodes| == |g.nodes| && (forall i :: 0 <= i < |g.nodes| ==> picture.nodes[i].node == g.nodes[i]) &&
    |picture.edges| == |g.edges| && (forall i :: 0 <= i < |g.edges| ==> picture.edges[i].edge == g.edges[i])
  }

  lemma ListsAll(g: Graph, draw: Drawing, abs: Offsets, size: Sizes, picture: Picture)
    requires Boxes(abs, size, g.nodes, picture.nodes) && picture.edges == RoutesOf(draw, g.edges)
    ensures Lists(g, picture)
  {
    forall i | 0 <= i < |g.edges|
      ensures picture.edges[i].edge == g.edges[i]
    {
      RouteAt(draw, g.edges, i);
    }
  }

  /** No box starts left of or above the origin. */
  ghost predicate InQuadrant(picture: Picture) {
    forall b :: b in picture.nodes ==> b.at.x >= 0.0 && b.at.y >= 0.0
  }

  /** A nested box lies inside the box of its parent. */
  ghost predicate Nested(picture: Picture) {
    forall b, c :: b in picture.nodes && c in picture.nodes && b.node.parent == c.node.id ==>
      Within(b.at, b.size, c.at, c.size)
  }

  /** Boxes of nodes neither of which encloses the other do not overlap. */
  ghost predicate Disjoint(g: Graph, depth: Depths, picture: Picture)
    requires Forest(g, depth)
  {
    forall b, c :: b in picture.nodes && c in picture.nodes && Unrelated(g, depth, b.node.id, c.node.id) ==>
      Apart(b.at, b.size, c.at, c.size)
  }

  ghost predicate Unrelated(g: Graph, depth: Depths, a: Id, b: Id)
    requires Forest(g, depth)
  {
    a in Ids(g) && b in Ids(g) && !Encloses(g, depth, a, b) && !Encloses(g, depth, b, a)
  }

  /** A later layer starts below the whole of an earlier one, and one layer shares one top line; a layer
      is the length of the longest dependency path. */
  ghost predicate Layered(picture: Picture, deps: Deps, rank: map<Id, nat>)
    requires Acyclic(deps, rank)
  {
    forall b, c :: b in picture.nodes && c in picture.nodes && b.node.parent == "" && c.node.parent == "" ==>
      (Layer(deps, rank, b.node.id) < Layer(deps, rank, c.node.id) ==> b.at.y + b.size.h + LayerGap <= c.at.y) &&
      (Layer(deps, rank, b.node.id) == Layer(deps, rank, c.node.id) ==> b.at.y == c.at.y)
  }

  /** Between unrelated boxes an edge is drawn as right-angled legs from border to border, through neither box. */
  ghost predicate Joined(g: Graph, depth: Depths, picture: Picture)
    requires Forest(g, depth)
  {
    forall e, b, c :: e in picture.edges && b in picture.nodes && c in picture.nodes ==>
      e.edge.source == b.node.id && e.edge.target == c.node.id ==>
        Unrelated(g, depth, b.node.id, c.node.id) ==> Joins(e.points, b, c)
  }

  ghost predicate Joins(route: seq<Point>, b: Positioned, c: Positioned) {
    Orthogonal(route) && |route| >= 3 && OnBorder(route[0], b.at, b.size) && OnBorder(route[|route| - 1], c.at, c.size) &&
    Avoids(route, b.at, b.size) && Avoids(route, c.at, c.size)
  }

  // ---- placed positions keep the promises ----

  /** The boxes of the drawing stand where a placement puts them. */
  ghost predicate DrawnFrom(g: Graph, depth: Depths, rel: Offsets, picture: Picture)
    requires Forest(g, depth) && Placed(g, depth, rel)
  {
    |picture.nodes| == |g.nodes| && forall i :: 0 <= i < |g.nodes| ==> Drawn(g, depth, rel, g.nodes[i], picture.nodes[i])
  }

  ghost predicate Drawn(g: Graph, depth: Depths, rel: Offsets, n: Node, b: Positioned)
    requires Forest(g, depth) && Placed(g, depth, rel)
  {
    n.id in Ids(g) && n == NodeOf(g, n.id) && b == Positioned(n, AbsOf(g, depth, rel, n.id), SizeOf(g, depth, n.id))
  }

  lemma DrawnBox(g: Graph, depth: Depths, rel: Offsets, picture: Picture, b: Positioned)
    requires Forest(g, depth) && Placed(g, depth, rel) && DrawnFrom(g, depth, rel, picture) && b in picture.nodes
    ensures Drawn(g, depth, rel, b.node, b) && b.node in g.nodes && b.node.parent == Parent(g, b.node.id)
  {
    var i :| 0 <= i < |picture.nodes| && picture.nodes[i] == b;
    assert Drawn(g, depth, rel, g.nodes[i], picture.nodes[i]);
  }

  lemma DrawnNested(g: Graph, depth: Depths, rel: Offsets, picture: Picture)
    requires Forest(g, depth) && Placed(g, depth, rel) && DrawnFrom(g, depth, rel, picture)
    ensures Nested(picture) && InQuadrant(picture)
  {
    forall b, c | b in picture.nodes && c in picture.nodes && b.node.parent == c.node.id
      ensures Within(b.at, b.size, c.at, c.size)
    {
      DrawnBox(g, depth, rel, picture, b);
      DrawnBox(g, depth, rel, picture, c);
      assert Hangs(c.node, g, depth);
      ChildInsideParent(g, depth, rel, b.node.id);
    }
    forall b | b in picture.nodes
      ensures b.at.x >= 0.0 && b.at.y >= 0.0
    {
      DrawnBox(g, depth, rel, picture, b);
      NeverNegative(g, depth, rel, b.node.id);
    }
  }

  lemma DrawnApart(g: Graph, depth: Depths, rel: Offsets, picture: Picture)
    requires Forest(g, depth) && Placed(g, depth, rel) && DrawnFrom(g, depth, rel, picture)
    ensures Disjoint(g, depth, picture)
  {
    forall b, c | b in picture.nodes && c in picture.nodes && Unrelated(g, depth, b.node.id, c.node.id)
      ensures Apart(b.at, b.size, c.at, c.size)
    {
      DrawnBox(g, depth, rel, picture, b);
      DrawnBox(g, depth, rel, picture, c);
      UnrelatedApart(g, depth, rel, b.node.id, c.node.id);
    }
  }

  lemma DrawnJoin(g: Graph, depth: Depths, rel: Offsets, picture: Picture, b: Positioned, c: Positioned)
    requires Forest(g, depth) && Placed(g, depth, rel) && DrawnFrom(g, depth, rel, picture)
    requires b in picture.nodes && c in picture.nodes && Unrelated(g, depth, b.node.id, c.node.id)
    ensures Joins(Route(b.at, b.size, c.at, c.size), b, c)
  {
    DrawnBox(g, depth, rel, picture, b);
    DrawnBox(g, depth, rel, picture, c);
    SizesPositive(g, depth, b.node.id);
    SizesPositive(g, depth, c.node.id);
    UnrelatedApart(g, depth, rel, b.node.id, c.node.id);
    RouteJoins(b.at, b.size, c.at, c.size);
  }

  lemma RouteBetween(g: Graph, draw: Drawing, abs: Offsets, size: Sizes, picture: Picture, e: Routed, b: Positioned, c: Positioned)
    requires DrawsRoutes(draw, abs, size)
    requires Boxes(abs, size, g.nodes, picture.nodes) && picture.edges == RoutesOf(draw, g.edges)
    requires e in picture.edges && b in picture.nodes && c in picture.nodes
    requires e.edge.source == b.node.id && e.edge.target == c.node.id
    ensures e.points == Route(b.at, b.size, c.at, c.size)
  {
    BoxAt(g, abs, size, picture, b);
    BoxAt(g, abs, size, picture, c);
    var i :| 0 <= i < |picture.edges| && picture.edges[i] == e;
    RouteAt(draw, g.edges, i);
  }

  lemma DrawnJoined(g: Graph, depth: Depths, rel: Offsets, abs: Offsets, size: Sizes, draw: Drawing, picture: Picture)
    requires DrawsRoutes(draw, abs, size)
    requires Forest(g, depth) && Placed(g, depth, rel) && DrawnFrom(g, depth, rel, picture)
    requires Boxes(abs, size, g.nodes, picture.nodes) && picture.edges == RoutesOf(draw, g.edges)
    ensures Joined(g, depth, picture)
  {
    forall e, b, c | e in picture.edges && b in picture.nodes && c in picture.nodes &&
                     e.edge.source == b.node.id && e.edge.target == c.node.id && Unrelated(g, depth, b.node.id, c.node.id)
      ensures Joins(e.points, b, c)
    {
      DrawnJoin(g, depth, rel, picture, b, c);
      RouteBetween(g, draw, abs, size, picture, e, b, c);
    }
  }

  lemma BoxAt(g: Graph, abs: Offsets, size: Sizes, picture: Picture, b: Positioned)
    requires Boxes(abs, size, g.nodes, picture.nodes) && b in picture.nodes
    ensures b == BoxOf(abs, size, b.node)
  {
  }

  lemma DrawnLayered(g: Graph, depth: Depths, rel: Offsets, size: Sizes, picture: Picture, deps: Deps, rank: map<Id, nat>,
                     layerOf: LayerMap, rows: Rows)
    requires Forest(g, depth) && Placed(g, depth, rel) && DrawnFrom(g, depth, rel, picture)
    requires Measured(g, depth, size, rel) && Arrayed(rel, size, Kids(g.nodes, ""), layerOf, rows)
    requires Acyclic(deps, rank) && forall id :: id in Kids(g.nodes, "") ==> id in layerOf && layerOf[id] == Layer(deps, rank, id)
    ensures Layered(picture, deps, rank)
  {
    TopIsSized(g, depth, size, rel);
    forall b, c | b in picture.nodes && c in picture.nodes && b.node.parent == "" && c.node.parent == ""
      ensures Layer(deps, rank, b.node.id) < Layer(deps, rank, c.node.id) ==> b.at.y + b.size.h + LayerGap <= c.at.y
      ensures Layer(deps, rank, b.node.id) == Layer(deps, rank, c.node.id) ==> b.at.y == c.at.y
    {
      DrawnBox(g, depth, rel, picture, b);
      DrawnBox(g, depth, rel, picture, c);
      TopIs(g, depth, b.node.id);
      TopIs(g, depth, c.node.id);
      assert MeasuredAt(g, depth, size, rel, b.node.id);
      LayersStack(rel, size, Kids(g.nodes, ""), layerOf, rows, b.node.id, c.node.id);
    }
  }

  lemma BoxesAreDrawn(g: Graph, depth: Depths, rel: Offsets, abs: Offsets, size: Sizes, picture: Picture)
    requires Forest(g, depth) && Placed(g, depth, rel) && Measured(g, depth, size, rel)
    requires Resolved(g, depth, rel, abs)
    requires Boxes(abs, size, g.nodes, picture.nodes)
    ensures DrawnFrom(g, depth, rel, picture)
  {
    forall i | 0 <= i < |g.nodes|
      ensures Drawn(g, depth, rel, g.nodes[i], picture.nodes[i])
    {
      var n := g.nodes[i];
      assert n in g.nodes && n.id in Ids(g);
      SameNode(g, depth, n, NodeOf(g, n.id));
      assert MeasuredAt(g, depth, size, rel, n.id);
    }
  }

  lemma Conclude(g: Graph, depth: Depths, rel: Offsets, abs: Offsets, size: Sizes, draw: Drawing, picture: Picture,
                 rank: map<Id, nat>, layerOf: LayerMap, rows: Rows)
    requires DrawsRoutes(draw, abs, size)
    requires Forest(g, depth) && Placed(g, depth, rel) && Measured(g, depth, size, rel)
    requires Resolved(g, depth, rel, abs)
    requires Boxes(abs, size, g.nodes, picture.nodes) && Arrayed(rel, size, Kids(g.nodes, ""), layerOf, rows)
    requires picture.edges == RoutesOf(draw, g.edges)
    requires var deps := DepsOf(NodeMap(g.nodes), g.edges);
             Acyclic(deps, rank) ==>
               forall id :: id in Kids(g.nodes, "") ==> id in layerOf && layerOf[id] == Layer(deps, rank, id)
    ensures Lists(g, picture) && InQuadrant(picture)
    ensures Nested(picture) && Disjoint(g, depth, picture) && Joined(g, depth, picture)
    ensures var deps := DepsOf(NodeMap(g.nodes), g.edges);
            Acyclic(deps, rank) ==> Layered(picture, deps, rank)
  {
    ListsAll(g, draw, abs, size, picture);
    BoxesAreDrawn(g, depth, rel, abs, size, picture);
    DrawnNested(g, depth, rel, picture);
    DrawnApart(g, depth, rel, picture);
    DrawnJoined(g, depth, rel, abs, size, draw, picture);
    var deps := DepsOf(NodeMap(g.nodes), g.edges);
    if Acyclic(deps, rank) {
      DrawnLayered(g, depth, rel, size, picture, deps, rank, layerOf, rows);
    }
  }
}
