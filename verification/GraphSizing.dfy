/** What the sizing pass knows while it works from the leaves up: every size and offset written so far
    is the specified one, and everything below a sized node is sized and placed. */
module GraphSizing {
  import opened GraphGeometry
  import opened GraphLayers
  import opened GraphDependencies
  import opened GraphPlacement

  type Children = map<Id, seq<Id>>

  function KidsAt(children: Children, id: Id): seq<Id> {
    if id in children then children[id] else []
  }

  ghost predicate Indexes(children: Children, nodes: seq<Node>) {
    forall p :: KidsAt(children, p) == Kids(nodes, p)
  }

  // ---- what the sizing pass keeps ----

  /** Every offset written so far is the right one. */
  ghost predicate OffsetsRight(g: Graph, depth: Depths, rel: Offsets) {
    Forest(g, depth) ==> forall c {:trigger OffsetRight(g, depth, rel, c)} :: c in rel ==> OffsetRight(g, depth, rel, c)
  }

  ghost predicate OffsetRight(g: Graph, depth: Depths, rel: Offsets, c: Id)
    requires Forest(g, depth) && c in rel
  {
    c in Ids(g) && Parent(g, c) != "" && rel[c] == RelOf(g, depth, c)
  }

  /** Every size found so far is the right one, and everything below it is sized and placed. */
  ghost predicate SizesRight(g: Graph, depth: Depths, size: Sizes, rel: Offsets) {
    Forest(g, depth) ==> forall k {:trigger SizeRight(g, depth, size, rel, k)} :: k in size ==> SizeRight(g, depth, size, rel, k)
  }

  ghost predicate SizeRight(g: Graph, depth: Depths, size: Sizes, rel: Offsets, k: Id)
    requires Forest(g, depth) && k in size
  {
    k in Ids(g) && size[k] == SizeOf(g, depth, k) && KidsDone(size, rel, Kids(g.nodes, k))
  }

  ghost predicate KidsDone(size: Sizes, rel: Offsets, kids: seq<Id>) {
    forall c :: c in kids ==> c in size && c in rel
  }

  ghost predicate Extends(size: Sizes, rel: Offsets, size': Sizes, rel': Offsets) {
    size.Keys <= size'.Keys && rel.Keys <= rel'.Keys
  }

  /** The nodes being sized stand above `id`. */
  ghost predicate VisitedAbove(g: Graph, depth: Depths, visiting: set<Id>, id: Id) {
    Forest(g, depth) && id in Ids(g) ==> forall v {:trigger Above(g, depth, v, id)} :: v in visiting ==> Above(g, depth, v, id)
  }

  ghost predicate Above(g: Graph, depth: Depths, v: Id, id: Id)
    requires Forest(g, depth) && id in Ids(g)
  {
    v in Ids(g) && Level(g, depth, v) < Level(g, depth, id)
  }

  lemma VisitKid(g: Graph, depth: Depths, visiting: set<Id>, id: Id, kid: Id)
    requires VisitedAbove(g, depth, visiting, id) && id in Ids(g) && kid in Kids(g.nodes, id)
    ensures kid in Ids(g) && VisitedAbove(g, depth, visiting + {id}, kid)
  {
    KidsAre(g.nodes, id);
    if Forest(g, depth) {
      KidLevel(g, depth, id, kid);
      forall v | v in visiting + {id}
        ensures Above(g, depth, v, kid)
      {
        assert v in visiting ==> Above(g, depth, v, id);
      }
    }
  }

  /** Where the children of `id` stand, by index. */
  lemma KidOffset(g: Graph, depth: Depths, id: Id, i: nat)
    requires Forest(g, depth) && id in Ids(g) && i < |Kids(g.nodes, id)|
    ensures var kids := Kids(g.nodes, id);
            kids[i] in Ids(g) && Parent(g, kids[i]) == id && id != "" && SomeKids(g, id, kids[..i]) &&
            RelOf(g, depth, kids[i]) == Point(Pad, Header(NodeOf(g, id).kind) + Pad + StackHeight(g, depth, id, kids[..i]))
  {
    var kids := Kids(g.nodes, id);
    KidFacts(g, depth, id, kids[i]);
    assert Hangs(NodeOf(g, id), g, depth);
    KidsDistinct(g.nodes, id);
    BeforeAt(kids, i);
  }

  /** The running height and width of the children handled so far. */
  ghost predicate Stacked(g: Graph, depth: Depths, id: Id, i: nat, y: real, widest: real) {
    Forest(g, depth) && id in Ids(g) && i <= |Kids(g.nodes, id)| ==>
      var kids := Kids(g.nodes, id);
      SomeKids(g, id, kids[..i]) &&
      y == Header(NodeOf(g, id).kind) + Pad + StackHeight(g, depth, id, kids[..i]) &&
      widest == MaxWidth(g, depth, id, kids[..i])
  }

  lemma StackStart(g: Graph, depth: Depths, id: Id, kind: Kind)
    requires Forest(g, depth) && id in Ids(g) ==> kind == NodeOf(g, id).kind
    ensures Stacked(g, depth, id, 0, Header(kind) + Pad, 0.0)
  {
  }

  lemma StackStep(g: Graph, depth: Depths, id: Id, i: nat, y: real, widest: real, s: Size)
    requires id in Ids(g) && i < |Kids(g.nodes, id)| && Stacked(g, depth, id, i, y, widest)
    requires Forest(g, depth) && Kids(g.nodes, id)[i] in Ids(g) ==> s == SizeOf(g, depth, Kids(g.nodes, id)[i])
    ensures Stacked(g, depth, id, i + 1, y + s.h + ChildGap, if s.w > widest then s.w else widest)
  {
    if Forest(g, depth) {
      var kids := Kids(g.nodes, id);
      KidLevel(g, depth, id, kids[i]);
      assert kids[..i + 1][..i] == kids[..i];
    }
  }

  lemma StackEnd(g: Graph, depth: Depths, id: Id, y: real, widest: real)
    requires id in Ids(g) && Kids(g.nodes, id) != [] && Stacked(g, depth, id, |Kids(g.nodes, id)|, y, widest)
    ensures Forest(g, depth) ==> SizeOf(g, depth, id) == Size(widest + 2.0 * Pad, y - ChildGap + Pad)
  {
    assert Kids(g.nodes, id)[..|Kids(g.nodes, id)|] == Kids(g.nodes, id);
  }

  /** What the sizing pass knows at any moment. */
  ghost predicate Right(g: Graph, depth: Depths, size: Sizes, rel: Offsets) {
    OffsetsRight(g, depth, rel) && SizesRight(g, depth, size, rel)
  }

  lemma PlaceKid(g: Graph, depth: Depths, rel: Offsets, id: Id, i: nat, y: real, widest: real)
    requires Forest(g, depth) && id in Ids(g) && i < |Kids(g.nodes, id)| && Stacked(g, depth, id, i, y, widest)
    ensures OffsetRight(g, depth, rel[Kids(g.nodes, id)[i] := Point(Pad, y)], Kids(g.nodes, id)[i])
  {
    KidOffset(g, depth, id, i);
  }

  lemma AddOffset(g: Graph, depth: Depths, size: Sizes, rel: Offsets, k: Id, p: Point)
    requires Right(g, depth, size, rel)
    requires Forest(g, depth) ==> OffsetRight(g, depth, rel[k := p], k)
    ensures Right(g, depth, size, rel[k := p])
  {
    if Forest(g, depth) {
      var rel' := rel[k := p];
      forall c | c in rel'
        ensures OffsetRight(g, depth, rel', c)
      {
        assert c in rel ==> OffsetRight(g, depth, rel, c);
      }
      forall c | c in size
        ensures SizeRight(g, depth, size, rel', c)
      {
        assert SizeRight(g, depth, size, rel, c);
      }
    }
  }

  lemma RecordSize(g: Graph, depth: Depths, size: Sizes, rel: Offsets, id: Id, s: Size)
    requires Right(g, depth, size, rel) && id in Ids(g)
    requires Forest(g, depth) ==> s == SizeOf(g, depth, id) && KidsDone(size, rel, Kids(g.nodes, id))
    ensures Right(g, depth, size[id := s], rel)
  {
    if Forest(g, depth) {
      var size' := size[id := s];
      forall k | k in size'
        ensures SizeRight(g, depth, size', rel, k)
      {
        assert k in size ==> SizeRight(g, depth, size, rel, k);
      }
    }
  }

  lemma KindOf(g: Graph, depth: Depths, node: NodeTable, id: Id)
    requires node == NodeMap(g.nodes) && id in Ids(g)
    ensures id in node && (Forest(g, depth) ==> node[id] == NodeOf(g, id))
  {
    if Forest(g, depth) {
      SameNode(g, depth, node[id], NodeOf(g, id));
    }
  }

  lemma LeafIsRight(g: Graph, depth: Depths, id: Id, kind: Kind)
    requires id in Ids(g) && Kids(g.nodes, id) == []
    requires Forest(g, depth) ==> kind == NodeOf(g, id).kind
    ensures Forest(g, depth) ==> LeafSize(kind) == SizeOf(g, depth, id)
  {
  }

  lemma KnownSize(g: Graph, depth: Depths, size: Sizes, rel: Offsets, id: Id)
    requires Right(g, depth, size, rel) && id in size
    ensures Forest(g, depth) ==> id in Ids(g) && size[id] == SizeOf(g, depth, id)
  {
    assert Forest(g, depth) ==> SizeRight(g, depth, size, rel, id);
  }

  lemma NotVisited(g: Graph, depth: Depths, visiting: set<Id>, id: Id)
    requires Forest(g, depth) && VisitedAbove(g, depth, visiting, id) && id in Ids(g)
    ensures id !in visiting
  {
    var above := Above(g, depth, id, id);
  }

  /** In the middle of stacking the children of `id`, with `i` of them done. */
  ghost predicate MidStack(g: Graph, depth: Depths, size: Sizes, rel: Offsets, id: Id, i: nat, y: real, widest: real) {
    id in Ids(g) && i <= |Kids(g.nodes, id)| && Right(g, depth, size, rel) &&
    Stacked(g, depth, id, i, y, widest) && (Forest(g, depth) ==> KidsDone(size, rel, Kids(g.nodes, id)[..i]))
  }

  lemma StackIteration(g: Graph, depth: Depths, size: Sizes, rel: Offsets, size': Sizes, rel': Offsets,
                       id: Id, i: nat, y: real, widest: real, s: Size)
    requires MidStack(g, depth, size, rel, id, i, y, widest) && i < |Kids(g.nodes, id)|
    requires Right(g, depth, size', rel') && Extends(size, rel, size', rel')
    requires Forest(g, depth) ==> SizedAs(g, depth, size', Kids(g.nodes, id)[i], s)
    ensures MidStack(g, depth, size', rel'[Kids(g.nodes, id)[i] := Point(Pad, y)], id, i + 1, y + s.h + ChildGap,
                     if s.w > widest then s.w else widest)
  {
    if Forest(g, depth) {
      PlaceKid(g, depth, rel', id, i, y, widest);
      MoreDone(size, rel, size', rel'[Kids(g.nodes, id)[i] := Point(Pad, y)], Kids(g.nodes, id), i);
    }
    AddOffset(g, depth, size', rel', Kids(g.nodes, id)[i], Point(Pad, y));
    StackStep(g, depth, id, i, y, widest, s);
  }

  lemma MoreDone(size: Sizes, rel: Offsets, size': Sizes, rel': Offsets, kids: seq<Id>, i: nat)
    requires i < |kids| && KidsDone(size, rel, kids[..i]) && Extends(size, rel, size', rel')
    requires kids[i] in size' && kids[i] in rel'
    ensures KidsDone(size', rel', kids[..i + 1])
  {
  }

  ghost predicate SizedAs(g: Graph, depth: Depths, size: Sizes, id: Id, s: Size)
    requires Forest(g, depth)
  {
    id in Ids(g) && id in size && s == SizeOf(g, depth, id)
  }

  /** No more nodes are without a position than before. */
  ghost predicate FewerLeft(g: Graph, before: Offsets, after: Offsets) {
    |Ids(g) - after.Keys| <= |Ids(g) - before.Keys|
  }

  lemma Adds(all: set<Id>, abs: Offsets, id: Id, at: Point)
    requires id in all && id !in abs
    ensures |all - abs[id := at].Keys| < |all - abs.Keys|
  {
    assert abs[id := at].Keys == abs.Keys + {id};
    PathGrows(all, abs.Keys, id);
  }

  /** Once the top level is sized, everything is. */
  lemma {:induction false} SizedBelow(g: Graph, depth: Depths, size: Sizes, rel: Offsets, id: Id)
    requires Forest(g, depth) && Right(g, depth, size, rel) && id in Ids(g)
    requires forall t :: t in Kids(g.nodes, "") ==> t in size
    ensures MeasuredAt(g, depth, size, rel, id)
    decreases Level(g, depth, id)
  {
    KidOf(g, id);
    if Parent(g, id) != "" {
      ParentLevel(g, depth, id);
      SizedBelow(g, depth, size, rel, Parent(g, id));
      assert SizeRight(g, depth, size, rel, Parent(g, id));
      assert OffsetRight(g, depth, rel, id);
    }
    assert SizeRight(g, depth, size, rel, id);
  }

  lemma AllMeasured(g: Graph, depth: Depths, size: Sizes, rel: Offsets)
    requires Forest(g, depth) && Right(g, depth, size, rel)
    requires forall t :: t in Kids(g.nodes, "") ==> t in size
    ensures Measured(g, depth, size, rel)
  {
    forall id | id in Ids(g)
      ensures MeasuredAt(g, depth, size, rel, id)
    {
      SizedBelow(g, depth, size, rel, id);
    }
  }
}
