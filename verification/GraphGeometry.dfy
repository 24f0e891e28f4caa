/** Where the layout puts the boxes of a nested graph, and why unrelated boxes never overlap. */
module GraphGeometry {

  type Id = string

  datatype Kind = RuleNode | CollectorNode | SignalNode | ClusterNode | PredicateNode

  datatype Node = Node(id: Id, kind: Kind, caption: string, parent: Id)

  datatype Edge = Edge(source: Id, target: Id)

  datatype Graph = Graph(nodes: seq<Node>, edges: seq<Edge>)

  datatype Size = Size(w: real, h: real)

  datatype Point = Point(x: real, y: real)

  const LeafWidth: real := 256.0
  const SignalHeight: real := 58.0
  const PredicateHeight: real := 62.0
  const RuleHeader: real := 44.0
  const CollectorHeader: real := 56.0
  const ClusterHeader: real := 44.0
  const Pad: real := 16.0
  const ChildGap: real := 12.0
  const NodeGap: real := 48.0
  const LayerGap: real := 64.0

  // ---- the graph as a forest ----

  function Ids(g: Graph): set<Id> {
    set n | n in g.nodes :: n.id
  }

  function NodeMap(nodes: seq<Node>): (m: map<Id, Node>)
    ensures forall id :: id in m <==> exists n :: n in nodes && n.id == id
    ensures forall id :: id in m ==> m[id] in nodes && m[id].id == id
  {
    if nodes == [] then map[]
    else
      assert nodes == nodes[..|nodes| - 1] + [nodes[|nodes| - 1]];
      NodeMap(nodes[..|nodes| - 1])[nodes[|nodes| - 1].id := nodes[|nodes| - 1]]
  }

  /** The nodes whose parent is `p`, in graph order; the top level for the empty name. */
  function Kids(nodes: seq<Node>, p: Id): seq<Id> {
    if nodes == [] then []
    else Kids(nodes[..|nodes| - 1], p) + if nodes[|nodes| - 1].parent == p then [nodes[|nodes| - 1].id] else []
  }

  type Depths = map<Id, nat>

  /** Identifiers are unique and every node hangs below its parent, `depth` levels under the top. */
  ghost predicate Forest(g: Graph, depth: Depths) {
    (forall i, j :: 0 <= i < j < |g.nodes| ==> g.nodes[i].id != g.nodes[j].id) &&
    (forall n {:trigger Hangs(n, g, depth)} :: n in g.nodes ==> Hangs(n, g, depth))
  }

  ghost predicate Hangs(n: Node, g: Graph, depth: Depths) {
    n.id != "" && n.id in depth && depth[n.id] < |g.nodes| &&
    if n.parent == "" then depth[n.id] == 0
    else n.parent in Ids(g) && n.parent in depth && depth[n.id] == depth[n.parent] + 1
  }

  ghost function NodeOf(g: Graph, id: Id): (n: Node)
    requires id in Ids(g)
    ensures n in g.nodes && n.id == id
  {
    var n :| n in g.nodes && n.id == id;
    n
  }

  ghost function Parent(g: Graph, id: Id): Id
    requires id in Ids(g)
  {
    NodeOf(g, id).parent
  }

  lemma {:induction false} KidsAre(nodes: seq<Node>, p: Id)
    ensures forall k :: k in Kids(nodes, p) <==> exists n :: n in nodes && n.id == k && n.parent == p
  {
    if nodes != [] {
      KidsAre(nodes[..|nodes| - 1], p);
      assert nodes == nodes[..|nodes| - 1] + [nodes[|nodes| - 1]];
    }
  }

  lemma SameNode(g: Graph, depth: Depths, m: Node, n: Node)
    requires Forest(g, depth) && m in g.nodes && n in g.nodes && m.id == n.id
    ensures m == n
  {
    var i, j :| 0 <= i < |g.nodes| && 0 <= j < |g.nodes| && g.nodes[i] == m && g.nodes[j] == n;
  }

  lemma KidFacts(g: Graph, depth: Depths, p: Id, k: Id)
    requires Forest(g, depth) && k in Kids(g.nodes, p)
    ensures k in Ids(g) && Parent(g, k) == p && Hangs(NodeOf(g, k), g, depth)
  {
    KidsAre(g.nodes, p);
    var n :| n in g.nodes && n.id == k && n.parent == p;
    SameNode(g, depth, n, NodeOf(g, k));
  }

  lemma KidOf(g: Graph, id: Id)
    requires id in Ids(g)
    ensures id in Kids(g.nodes, Parent(g, id))
  {
    KidsAre(g.nodes, Parent(g, id));
  }

  lemma {:induction false} KidsDistinct(nodes: seq<Node>, p: Id)
    requires forall i, j :: 0 <= i < j < |nodes| ==> nodes[i].id != nodes[j].id
    ensures forall i, j :: 0 <= i < j < |Kids(nodes, p)| ==> Kids(nodes, p)[i] != Kids(nodes, p)[j]
  {
    if nodes != [] {
      var front, last := nodes[..|nodes| - 1], nodes[|nodes| - 1];
      KidsDistinct(front, p);
      KidsAre(front, p);
      forall i | 0 <= i < |Kids(front, p)|
        ensures Kids(front, p)[i] != last.id
      {
        assert Kids(front, p)[i] in Kids(front, p);
        var n :| n in front && n.id == Kids(front, p)[i];
        var j :| 0 <= j < |front| && front[j] == n;
        assert nodes[j] == n;
      }
    }
  }

  // ---- sizes ----

  function LeafSize(kind: Kind): Size {
    Size(LeafWidth, if kind == SignalNode then SignalHeight else PredicateHeight)
  }

  function Header(kind: Kind): real {
    match kind case CollectorNode => CollectorHeader case ClusterNode => ClusterHeader case _ => RuleHeader
  }

  /** A container is as wide as its widest child and as high as the stack of its children, plus padding. */
  ghost function SizeOf(g: Graph, depth: Depths, id: Id): Size
    requires Forest(g, depth) && id in Ids(g)
    decreases |g.nodes| - Level(g, depth, id), 1, 0
  {
    var kids := Kids(g.nodes, id);
    if kids == [] then LeafSize(NodeOf(g, id).kind)
    else Size(MaxWidth(g, depth, id, kids) + 2.0 * Pad,
              Header(NodeOf(g, id).kind) + Pad + StackHeight(g, depth, id, kids) - ChildGap + Pad)
  }

  ghost function Level(g: Graph, depth: Depths, id: Id): (d: nat)
    requires Forest(g, depth) && id in Ids(g)
    ensures d < |g.nodes|
  {
    assert Hangs(NodeOf(g, id), g, depth);
    depth[id]
  }

  lemma KidLevel(g: Graph, depth: Depths, p: Id, k: Id)
    requires Forest(g, depth) && p in Ids(g) && k in Kids(g.nodes, p)
    ensures k in Ids(g) && Level(g, depth, k) == Level(g, depth, p) + 1
  {
    KidFacts(g, depth, p, k);
    assert Hangs(NodeOf(g, p), g, depth);
  }

  ghost predicate SomeKids(g: Graph, p: Id, kids: seq<Id>) {
    forall k :: k in kids ==> k in Kids(g.nodes, p)
  }

  ghost function MaxWidth(g: Graph, depth: Depths, p: Id, kids: seq<Id>): real
    requires Forest(g, depth) && p in Ids(g) && SomeKids(g, p, kids)
    decreases |g.nodes| - Level(g, depth, p), 0, |kids|
  {
    if kids == [] then 0.0
    else
      var last := kids[|kids| - 1];
      KidLevel(g, depth, p, last);
      var rest := MaxWidth(g, depth, p, kids[..|kids| - 1]);
      if SizeOf(g, depth, last).w > rest then SizeOf(g, depth, last).w else rest
  }

  /** The children one below the other, each followed by a gap. */
  ghost function StackHeight(g: Graph, depth: Depths, p: Id, kids: seq<Id>): real
    requires Forest(g, depth) && p in Ids(g) && SomeKids(g, p, kids)
    decreases |g.nodes| - Level(g, depth, p), 0, |kids|
  {
    if kids == [] then 0.0
    else
      var last := kids[|kids| - 1];
      KidLevel(g, depth, p, last);
      StackHeight(g, depth, p, kids[..|kids| - 1]) + SizeOf(g, depth, last).h + ChildGap
  }

  lemma {:induction false} SizesPositive(g: Graph, depth: Depths, id: Id)
    requires Forest(g, depth) && id in Ids(g)
    ensures SizeOf(g, depth, id).w > 0.0 && SizeOf(g, depth, id).h > 0.0
    decreases |g.nodes| - Level(g, depth, id), 1, 0
  {
    var kids := Kids(g.nodes, id);
    if kids != [] {
      StackPositive(g, depth, id, kids);
    }
  }

  lemma {:induction false} StackPositive(g: Graph, depth: Depths, p: Id, kids: seq<Id>)
    requires Forest(g, depth) && p in Ids(g) && SomeKids(g, p, kids)
    ensures MaxWidth(g, depth, p, kids) >= 0.0 && StackHeight(g, depth, p, kids) >= 0.0
    ensures kids != [] ==> StackHeight(g, depth, p, kids) >= ChildGap
    decreases |g.nodes| - Level(g, depth, p), 0, |kids|
  {
    if kids != [] {
      var last := kids[|kids| - 1];
      KidLevel(g, depth, p, last);
      StackPositive(g, depth, p, kids[..|kids| - 1]);
      SizesPositive(g, depth, last);
    }
  }

  lemma {:induction false} PrefixStack(g: Graph, depth: Depths, p: Id, kids: seq<Id>, i: nat)
    requires Forest(g, depth) && p in Ids(g) && SomeKids(g, p, kids) && i < |kids| && kids[i] in Ids(g)
    requires SomeKids(g, p, kids[..i])
    ensures StackHeight(g, depth, p, kids[..i]) + SizeOf(g, depth, kids[i]).h + ChildGap <= StackHeight(g, depth, p, kids)
    decreases |kids|
  {
    if i < |kids| - 1 {
      var front, last := kids[..|kids| - 1], kids[|kids| - 1];
      assert front[..i] == kids[..i];
      KidLevel(g, depth, p, last);
      SizesPositive(g, depth, last);
      PrefixStack(g, depth, p, front, i);
    }
  }

  lemma {:induction false} WidestKid(g: Graph, depth: Depths, p: Id, kids: seq<Id>, i: nat)
    requires Forest(g, depth) && p in Ids(g) && SomeKids(g, p, kids) && i < |kids| && kids[i] in Ids(g)
    ensures SizeOf(g, depth, kids[i]).w <= MaxWidth(g, depth, p, kids)
    decreases |kids|
  {
    if i < |kids| - 1 {
      KidLevel(g, depth, p, kids[|kids| - 1]);
      WidestKid(g, depth, p, kids[..|kids| - 1], i);
    }
  }

  // ---- positions ----

  /** The children placed before `k`. */
  function Before(kids: seq<Id>, k: Id): seq<Id> {
    if kids == [] || kids[0] == k then [] else [kids[0]] + Before(kids[1..], k)
  }

  lemma {:induction false} BeforeAt(kids: seq<Id>, i: nat)
    requires i < |kids| && forall a, b :: 0 <= a < b < |kids| ==> kids[a] != kids[b]
    ensures Before(kids, kids[i]) == kids[..i]
  {
    if i > 0 {
      BeforeAt(kids[1..], i - 1);
      assert kids[1..][i - 1] == kids[i];
      assert [kids[0]] + kids[1..][..i - 1] == kids[..i];
    }
  }

  /** Where the parent's box puts `id`: below its header and the children before it. */
  ghost function RelOf(g: Graph, depth: Depths, id: Id): Point
    requires Forest(g, depth) && id in Ids(g) && Parent(g, id) != ""
  {
    var p := Parent(g, id);
    assert Hangs(NodeOf(g, id), g, depth);
    BeforeKids(g, p, id);
    Point(Pad, Header(NodeOf(g, p).kind) + Pad + StackHeight(g, depth, p, Before(Kids(g.nodes, p), id)))
  }

  lemma BeforeKids(g: Graph, p: Id, id: Id)
    ensures SomeKids(g, p, Before(Kids(g.nodes, p), id))
  {
    BeforeWithin(Kids(g.nodes, p), id);
  }

  lemma {:induction false} BeforeWithin(kids: seq<Id>, k: Id)
    ensures forall x :: x in Before(kids, k) ==> x in kids
  {
    if kids != [] && kids[0] != k {
      BeforeWithin(kids[1..], k);
    }
  }

  type Offsets = map<Id, Point>

  predicate Apart(p: Point, s: Size, q: Point, t: Size) {
    p.x + s.w <= q.x || q.x + t.w <= p.x || p.y + s.h <= q.y || q.y + t.h <= p.y
  }

  predicate Within(p: Point, s: Size, q: Point, t: Size) {
    q.x <= p.x && q.y <= p.y && p.x + s.w <= q.x + t.w && p.y + s.h <= q.y + t.h
  }

  /** Offsets the layout may assign: nested nodes as their parent stacks them, top-level nodes apart. */
  ghost predicate Placed(g: Graph, depth: Depths, rel: Offsets)
    requires Forest(g, depth)
  {
    (forall id :: id in Ids(g) ==> id in rel) &&
    (forall id :: id in Ids(g) && Parent(g, id) != "" ==> rel[id] == RelOf(g, depth, id)) &&
    (forall id :: id in Ids(g) && Parent(g, id) == "" ==> rel[id].x >= 0.0 && rel[id].y >= 0.0) &&
    (forall a, b :: a in Ids(g) && b in Ids(g) && Parent(g, a) == Parent(g, b) == "" && a != b ==>
       Apart(rel[a], SizeOf(g, depth, a), rel[b], SizeOf(g, depth, b)))
  }

  /** Absolute position: offsets added up along the parents. */
  ghost function AbsOf(g: Graph, depth: Depths, rel: Offsets, id: Id): Point
    requires Forest(g, depth) && id in Ids(g) && forall k :: k in Ids(g) ==> k in rel
    decreases Level(g, depth, id)
  {
    assert Hangs(NodeOf(g, id), g, depth);
    var p := Parent(g, id);
    if p == "" then rel[id]
    else
      ParentLevel(g, depth, id);
      var a := AbsOf(g, depth, rel, p);
      Point(a.x + rel[id].x, a.y + rel[id].y)
  }

  lemma ParentLevel(g: Graph, depth: Depths, id: Id)
    requires Forest(g, depth) && id in Ids(g) && Parent(g, id) != ""
    ensures Parent(g, id) in Ids(g) && Level(g, depth, id) == Level(g, depth, Parent(g, id)) + 1
  {
    assert Hangs(NodeOf(g, id), g, depth);
  }

  /** `a` is `b` or one of its ancestors. */
  ghost predicate Encloses(g: Graph, depth: Depths, a: Id, b: Id)
    requires Forest(g, depth) && a in Ids(g) && b in Ids(g)
    decreases Level(g, depth, b)
  {
    a == b ||
    (Parent(g, b) != "" && (ParentLevel(g, depth, b); Encloses(g, depth, a, Parent(g, b))))
  }

  // ---- a child lies in its parent, siblings lie apart ----

  lemma ChildOffset(g: Graph, depth: Depths, id: Id) returns (i: nat)
    requires Forest(g, depth) && id in Ids(g) && Parent(g, id) != ""
    ensures var p := Parent(g, id); var kids := Kids(g.nodes, p);
            p in Ids(g) && i < |kids| && kids[i] == id && SomeKids(g, p, kids[..i]) &&
            RelOf(g, depth, id) == Point(Pad, Header(NodeOf(g, p).kind) + Pad + StackHeight(g, depth, p, kids[..i]))
  {
    var p := Parent(g, id);
    var kids := Kids(g.nodes, p);
    ParentLevel(g, depth, id);
    KidOf(g, id);
    KidsDistinct(g.nodes, p);
    i :| 0 <= i < |kids| && kids[i] == id;
    BeforeAt(kids, i);
    BeforeKids(g, p, id);
  }

  /** The child's box inside its parent's, relative to the parent. */
  lemma ChildFits(g: Graph, depth: Depths, id: Id)
    requires Forest(g, depth) && id in Ids(g) && Parent(g, id) != ""
    ensures Parent(g, id) in Ids(g) &&
            Within(RelOf(g, depth, id), SizeOf(g, depth, id), Point(0.0, 0.0), SizeOf(g, depth, Parent(g, id)))
  {
    var p := Parent(g, id);
    var i := ChildOffset(g, depth, id);
    var kids := Kids(g.nodes, p);
    PrefixStack(g, depth, p, kids, i);
    WidestKid(g, depth, p, kids, i);
    StackPositive(g, depth, p, kids[..i]);
    SizesPositive(g, depth, id);
  }

  lemma {:induction false} StackGrows(g: Graph, depth: Depths, p: Id, kids: seq<Id>, i: nat, j: nat)
    requires Forest(g, depth) && p in Ids(g) && SomeKids(g, p, kids) && i < j < |kids| && kids[i] in Ids(g)
    ensures SomeKids(g, p, kids[..i]) && SomeKids(g, p, kids[..j]) &&
            StackHeight(g, depth, p, kids[..i]) + SizeOf(g, depth, kids[i]).h <= StackHeight(g, depth, p, kids[..j])
  {
    assert SomeKids(g, p, kids[..j]) && kids[..j][i] == kids[i] && kids[..j][..i] == kids[..i];
    PrefixStack(g, depth, p, kids[..j], i);
  }

  lemma SiblingsApart(g: Graph, depth: Depths, a: Id, b: Id)
    requires Forest(g, depth) && a in Ids(g) && b in Ids(g) && a != b && Parent(g, a) == Parent(g, b) != ""
    ensures Apart(RelOf(g, depth, a), SizeOf(g, depth, a), RelOf(g, depth, b), SizeOf(g, depth, b))
  {
    var i := ChildOffset(g, depth, a);
    var j := ChildOffset(g, depth, b);
    var kids := Kids(g.nodes, Parent(g, a));
    if i < j {
      StackGrows(g, depth, Parent(g, a), kids, i, j);
    } else {
      StackGrows(g, depth, Parent(g, a), kids, j, i);
    }
  }

  /** Every box lies inside its parent's box. */
  lemma ChildInsideParent(g: Graph, depth: Depths, rel: Offsets, id: Id)
    requires Forest(g, depth) && Placed(g, depth, rel) && id in Ids(g) && Parent(g, id) != ""
    ensures Parent(g, id) in Ids(g) &&
            Within(AbsOf(g, depth, rel, id), SizeOf(g, depth, id),
                   AbsOf(g, depth, rel, Parent(g, id)), SizeOf(g, depth, Parent(g, id)))
  {
    ParentLevel(g, depth, id);
    ChildFits(g, depth, id);
  }

  lemma ShiftApart(a: Point, p: Point, s: Size, q: Point, t: Size)
    requires Apart(p, s, q, t)
    ensures Apart(Point(a.x + p.x, a.y + p.y), s, Point(a.x + q.x, a.y + q.y), t)
  {
  }

  lemma WithinApart(p: Point, s: Size, q: Point, t: Size, r: Point, u: Size)
    requires Within(p, s, q, t) && Apart(q, t, r, u)
    ensures Apart(p, s, r, u) && Apart(r, u, p, s)
  {
  }

  lemma SameParentApart(g: Graph, depth: Depths, rel: Offsets, a: Id, b: Id)
    requires Forest(g, depth) && Placed(g, depth, rel) && a in Ids(g) && b in Ids(g) && a != b && Parent(g, a) == Parent(g, b)
    ensures Apart(AbsOf(g, depth, rel, a), SizeOf(g, depth, a), AbsOf(g, depth, rel, b), SizeOf(g, depth, b))
  {
    if Parent(g, a) != "" {
      ParentLevel(g, depth, a);
      SiblingsApart(g, depth, a, b);
      ShiftApart(AbsOf(g, depth, rel, Parent(g, a)), rel[a], SizeOf(g, depth, a), rel[b], SizeOf(g, depth, b));
    }
  }

  /** Climbing from the deeper of two unrelated nodes leads to siblings, or to another unrelated pair. */
  lemma UnrelatedClimb(g: Graph, depth: Depths, a: Id, b: Id)
    requires Forest(g, depth) && a in Ids(g) && b in Ids(g)
    requires !Encloses(g, depth, a, b) && !Encloses(g, depth, b, a)
    requires Parent(g, a) != Parent(g, b) && Level(g, depth, a) >= Level(g, depth, b)
    ensures Parent(g, a) != "" && Parent(g, a) in Ids(g)
    ensures !Encloses(g, depth, Parent(g, a), b) && !Encloses(g, depth, b, Parent(g, a))
  {
    assert Hangs(NodeOf(g, a), g, depth) && Hangs(NodeOf(g, b), g, depth);
    ParentLevel(g, depth, a);
    if Encloses(g, depth, Parent(g, a), b) {
      EnclosesLevel(g, depth, Parent(g, a), b);
    }
  }

  /** An enclosing node stands higher, and only the parent stands just one level higher. */
  lemma {:induction false} EnclosesLevel(g: Graph, depth: Depths, a: Id, b: Id)
    requires Forest(g, depth) && a in Ids(g) && b in Ids(g) && Encloses(g, depth, a, b)
    ensures Level(g, depth, a) <= Level(g, depth, b)
    ensures Level(g, depth, a) == Level(g, depth, b) ==> a == b
    ensures Level(g, depth, a) + 1 == Level(g, depth, b) ==> a == Parent(g, b)
    decreases Level(g, depth, b)
  {
    if a != b {
      ParentLevel(g, depth, b);
      EnclosesLevel(g, depth, a, Parent(g, b));
    }
  }

  /** Any two nodes neither of which encloses the other have disjoint boxes. */
  lemma {:induction false} UnrelatedApart(g: Graph, depth: Depths, rel: Offsets, a: Id, b: Id)
    requires Forest(g, depth) && Placed(g, depth, rel) && a in Ids(g) && b in Ids(g)
    requires !Encloses(g, depth, a, b) && !Encloses(g, depth, b, a)
    ensures Apart(AbsOf(g, depth, rel, a), SizeOf(g, depth, a), AbsOf(g, depth, rel, b), SizeOf(g, depth, b))
    decreases Level(g, depth, a) + Level(g, depth, b)
  {
    if Parent(g, a) == Parent(g, b) {
      SameParentApart(g, depth, rel, a, b);
    } else if Level(g, depth, a) >= Level(g, depth, b) {
      UnrelatedClimb(g, depth, a, b);
      UnrelatedStep(g, depth, rel, a, b);
    } else {
      UnrelatedClimb(g, depth, b, a);
      UnrelatedStep(g, depth, rel, b, a);
    }
  }

  lemma {:induction false} UnrelatedStep(g: Graph, depth: Depths, rel: Offsets, a: Id, b: Id)
    requires Forest(g, depth) && Placed(g, depth, rel) && a in Ids(g) && b in Ids(g)
    requires Parent(g, a) != "" && Parent(g, a) in Ids(g)
    requires !Encloses(g, depth, Parent(g, a), b) && !Encloses(g, depth, b, Parent(g, a))
    ensures Apart(AbsOf(g, depth, rel, a), SizeOf(g, depth, a), AbsOf(g, depth, rel, b), SizeOf(g, depth, b))
    ensures Apart(AbsOf(g, depth, rel, b), SizeOf(g, depth, b), AbsOf(g, depth, rel, a), SizeOf(g, depth, a))
    decreases Level(g, depth, a) + Level(g, depth, b), 0
  {
    var p := Parent(g, a);
    ParentLevel(g, depth, a);
    UnrelatedApart(g, depth, rel, p, b);
    ChildInsideParent(g, depth, rel, a);
    WithinApart(AbsOf(g, depth, rel, a), SizeOf(g, depth, a), AbsOf(g, depth, rel, p), SizeOf(g, depth, p),
                AbsOf(g, depth, rel, b), SizeOf(g, depth, b));
  }

  /** No box reaches above or left of the origin. */
  lemma {:induction false} NeverNegative(g: Graph, depth: Depths, rel: Offsets, id: Id)
    requires Forest(g, depth) && Placed(g, depth, rel) && id in Ids(g)
    ensures AbsOf(g, depth, rel, id).x >= 0.0 && AbsOf(g, depth, rel, id).y >= 0.0
    decreases Level(g, depth, id)
  {
    if Parent(g, id) != "" {
      ParentLevel(g, depth, id);
      NeverNegative(g, depth, rel, Parent(g, id));
      ChildFits(g, depth, id);
    }
  }
}
