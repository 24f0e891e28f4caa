/** Which top-level node holds a node, and which top-level nodes depend on which. */
module GraphDependencies {
  import opened GraphGeometry
  import opened GraphLayers

  type NodeTable = map<Id, Node>

  /** `id` after following at most `fuel` parents; nothing when a parent is not a node. */
  function Climb(node: NodeTable, id: Id, fuel: nat): Id
    decreases fuel
  {
    if fuel == 0 then id
    else if id !in node then ""
    else if node[id].parent == "" then id
    else Climb(node, node[id].parent, fuel - 1)
  }

  /** The top-level holder of `id`; the climb gives up after one step more than there are nodes. */
  function Holder(node: NodeTable, id: Id): Id {
    Climb(node, id, |node| + 1)
  }

  ghost predicate DistinctIds(nodes: seq<Node>) {
    forall i, j :: 0 <= i < j < |nodes| ==> nodes[i].id != nodes[j].id
  }

  lemma {:induction false} TableSize(nodes: seq<Node>)
    requires DistinctIds(nodes)
    ensures |NodeMap(nodes)| == |nodes|
  {
    if nodes != [] {
      var front, last := nodes[..|nodes| - 1], nodes[|nodes| - 1];
      TableSize(front);
      forall n | n in front
        ensures n.id != last.id
      {
        var k :| 0 <= k < |front| && front[k] == n;
        assert nodes[k] == n;
      }
      AddedKey(NodeMap(front), last.id, last);
    }
  }

  lemma AddedKey(m: NodeTable, k: Id, n: Node)
    requires k !in m
    ensures |m[k := n]| == |m| + 1
  {
    assert m[k := n].Keys == m.Keys + {k};
    assert |m[k := n].Keys| == |m.Keys| + 1;
  }

  ghost predicate TopOf(g: Graph, depth: Depths, top: Id, id: Id) {
    Forest(g, depth) && id in Ids(g) && top in Ids(g) && Parent(g, top) == "" && Encloses(g, depth, top, id)
  }

  ghost predicate Tabulates(node: NodeTable, g: Graph) {
    node.Keys == Ids(g) && forall id :: id in Ids(g) ==> node[id] == NodeOf(g, id)
  }

  lemma TableIsRight(g: Graph, depth: Depths)
    requires Forest(g, depth)
    ensures Tabulates(NodeMap(g.nodes), g)
  {
    forall id | id in Ids(g)
      ensures id in NodeMap(g.nodes) && NodeMap(g.nodes)[id] == NodeOf(g, id)
    {
      SameNode(g, depth, NodeMap(g.nodes)[id], NodeOf(g, id));
    }
  }

  /** One step of the climb from `id`: it stops at a top-level node or goes on one level higher. */
  lemma TopStep(g: Graph, depth: Depths, node: NodeTable, id: Id, level: nat, top: Id) returns (p: Id)
    requires Forest(g, depth) && id in Ids(g) && Tabulates(node, g) && level == Level(g, depth, id)
    ensures id in node && node[id].parent == p
    ensures p == "" ==> TopOf(g, depth, id, id)
    ensures p != "" ==> level > 0 && p in Ids(g) && level - 1 == Level(g, depth, p)
    ensures p != "" && TopOf(g, depth, top, p) ==> TopOf(g, depth, top, id)
  {
    p := Parent(g, id);
    if p != "" {
      ParentLevel(g, depth, id);
    }
  }

  lemma {:induction false} ClimbReachesTop(g: Graph, depth: Depths, node: NodeTable, id: Id, fuel: nat, level: nat)
    requires Forest(g, depth) && id in Ids(g) && Tabulates(node, g) && level == Level(g, depth, id) && fuel > level
    ensures TopOf(g, depth, Climb(node, id, fuel), id)
    decreases fuel
  {
    var p := TopStep(g, depth, node, id, level, Climb(node, id, fuel));
    if p != "" {
      ClimbReachesTop(g, depth, node, p, fuel - 1, level - 1);
    }
  }

  /** In a forest the climb always ends, at the one top-level node that encloses `id`. */
  lemma HolderEncloses(g: Graph, depth: Depths, id: Id)
    requires Forest(g, depth) && id in Ids(g)
    ensures forall t :: TopOf(g, depth, t, id) <==> t == Holder(NodeMap(g.nodes), id)
  {
    TableSize(g.nodes);
    TableIsRight(g, depth);
    ClimbReachesTop(g, depth, NodeMap(g.nodes), id, |g.nodes| + 1, Level(g, depth, id));
    forall t | TopOf(g, depth, t, id)
      ensures t == Holder(NodeMap(g.nodes), id)
    {
      OneTop(g, depth, t, Holder(NodeMap(g.nodes), id), id);
    }
  }

  lemma {:induction false} OneTop(g: Graph, depth: Depths, s: Id, t: Id, id: Id)
    requires Forest(g, depth) && id in Ids(g) && TopOf(g, depth, s, id) && TopOf(g, depth, t, id)
    ensures s == t
    decreases Level(g, depth, id)
  {
    if Parent(g, id) != "" {
      ParentLevel(g, depth, id);
      OneTop(g, depth, s, t, Parent(g, id));
    }
  }

  predicate Depends(node: NodeTable, e: Edge, from: Id, to: Id) {
    Holder(node, e.source) == from && Holder(node, e.target) == to && from != to && from != "" && to != ""
  }

  /** The dependencies between top-level nodes, each once, in edge order. */
  function DepsOf(node: NodeTable, edges: seq<Edge>): Deps {
    if edges == [] then map[]
    else
      var deps := DepsOf(node, edges[..|edges| - 1]);
      var from, to := Holder(node, edges[|edges| - 1].source), Holder(node, edges[|edges| - 1].target);
      if from == to || from == "" || to == "" || to in Targets(deps, from) then deps
      else deps[from := Targets(deps, from) + [to]]
  }

  ghost predicate LedBy(node: NodeTable, edges: seq<Edge>, from: Id, to: Id) {
    exists e :: e in edges && Depends(node, e, from, to)
  }

  lemma LedByLast(node: NodeTable, edges: seq<Edge>, from: Id, to: Id)
    requires edges != []
    ensures LedBy(node, edges, from, to) <==>
            LedBy(node, edges[..|edges| - 1], from, to) || Depends(node, edges[|edges| - 1], from, to)
  {
    assert edges == edges[..|edges| - 1] + [edges[|edges| - 1]];
  }

  /** A top-level node depends on another exactly when an edge leads from inside the one into the other. */
  lemma {:induction false} DependencyIsAnEdge(node: NodeTable, edges: seq<Edge>, from: Id, to: Id)
    ensures to in Targets(DepsOf(node, edges), from) <==> LedBy(node, edges, from, to)
    decreases |edges|
  {
    if edges != [] {
      DependencyIsAnEdge(node, edges[..|edges| - 1], from, to);
      LedByLast(node, edges, from, to);
    }
  }

  /** Parallel edges count once. */
  lemma {:induction false} DependenciesCountOnce(node: NodeTable, edges: seq<Edge>, from: Id)
    ensures NoRepeats(Targets(DepsOf(node, edges), from))
    decreases |edges|
  {
    if edges != [] {
      DependenciesCountOnce(node, edges[..|edges| - 1], from);
    }
  }
}
