/** Which nodes one descent of the position pass reaches. The pass adds offsets up from the top level;
    each descent positions exactly what its node encloses, and all descents together position everything. */
module GraphResolving {
  import opened GraphGeometry

  ghost predicate SomeEncloses(g: Graph, depth: Depths, kids: seq<Id>, k: Id)
    requires Forest(g, depth) && k in Ids(g)
  {
    exists c :: c in kids && c in Ids(g) && Encloses(g, depth, c, k)
  }

  lemma {:induction false} KidEncloses(g: Graph, depth: Depths, c: Id, k: Id)
    requires Forest(g, depth) && c in Ids(g) && k in Ids(g) && Encloses(g, depth, c, k) && Parent(g, c) != ""
    ensures Parent(g, c) in Ids(g) && Encloses(g, depth, Parent(g, c), k)
    decreases Level(g, depth, k)
  {
    ParentLevel(g, depth, c);
    if c != k {
      ParentLevel(g, depth, k);
      KidEncloses(g, depth, c, Parent(g, k));
    }
  }

  lemma {:induction false} SomeKidEncloses(g: Graph, depth: Depths, id: Id, k: Id)
    requires Forest(g, depth) && id in Ids(g) && k in Ids(g) && Encloses(g, depth, id, k) && id != k
    ensures SomeEncloses(g, depth, Kids(g.nodes, id), k)
    decreases Level(g, depth, k)
  {
    ParentLevel(g, depth, k);
    var p := Parent(g, k);
    if p == id {
      KidOf(g, k);
    } else {
      SomeKidEncloses(g, depth, id, p);
      var c :| c in Kids(g.nodes, id) && c in Ids(g) && Encloses(g, depth, c, p);
      assert Encloses(g, depth, c, k);
    }
  }

  /** What a node encloses: itself, and whatever one of its children encloses. */
  lemma EnclosesSplit(g: Graph, depth: Depths, id: Id, k: Id)
    requires Forest(g, depth) && id in Ids(g) && k in Ids(g)
    ensures Encloses(g, depth, id, k) <==> k == id || SomeEncloses(g, depth, Kids(g.nodes, id), k)
  {
    if Encloses(g, depth, id, k) && id != k {
      SomeKidEncloses(g, depth, id, k);
    }
    if SomeEncloses(g, depth, Kids(g.nodes, id), k) {
      var c :| c in Kids(g.nodes, id) && c in Ids(g) && Encloses(g, depth, c, k);
      KidFacts(g, depth, id, c);
      assert Hangs(NodeOf(g, id), g, depth);
      KidEncloses(g, depth, c, k);
    }
  }

  lemma {:induction false} OneHolderPerLevel(g: Graph, depth: Depths, a: Id, b: Id, k: Id)
    requires Forest(g, depth) && a in Ids(g) && b in Ids(g) && k in Ids(g) && Level(g, depth, a) == Level(g, depth, b)
    requires Encloses(g, depth, a, k) && Encloses(g, depth, b, k)
    ensures a == b
    decreases Level(g, depth, k)
  {
    EnclosesLevel(g, depth, a, k);
    EnclosesLevel(g, depth, b, k);
    if a != k && b != k {
      ParentLevel(g, depth, k);
      OneHolderPerLevel(g, depth, a, b, Parent(g, k));
    }
  }

  // ---- what the descent keeps ----

  ghost predicate PositionsRight(g: Graph, depth: Depths, rel: Offsets, abs: Offsets) {
    Forest(g, depth) && Complete(g, rel) ==> forall k {:trigger PositionRight(g, depth, rel, abs, k)} ::
      k in abs ==> PositionRight(g, depth, rel, abs, k)
  }

  ghost predicate Complete(g: Graph, rel: Offsets) {
    forall k :: k in Ids(g) ==> k in rel
  }

  ghost predicate PositionRight(g: Graph, depth: Depths, rel: Offsets, abs: Offsets, k: Id)
    requires Forest(g, depth) && Complete(g, rel) && k in abs
  {
    k in Ids(g) && abs[k] == AbsOf(g, depth, rel, k)
  }

  lemma AddPosition(g: Graph, depth: Depths, rel: Offsets, abs: Offsets, id: Id, at: Point)
    requires PositionsRight(g, depth, rel, abs)
    requires Forest(g, depth) && Complete(g, rel) ==> PositionRight(g, depth, rel, abs[id := at], id)
    ensures PositionsRight(g, depth, rel, abs[id := at])
  {
    if Forest(g, depth) && Complete(g, rel) {
      var abs' := abs[id := at];
      forall k | k in abs'
        ensures PositionRight(g, depth, rel, abs', k)
      {
        assert k in abs ==> PositionRight(g, depth, rel, abs, k);
      }
    }
  }

  /** `origin` is where the parent of `id` stands. */
  ghost predicate Origin(g: Graph, depth: Depths, rel: Offsets, id: Id, origin: Point) {
    Forest(g, depth) && Complete(g, rel) && id in Ids(g) ==>
      if Parent(g, id) == "" then origin == Point(0.0, 0.0)
      else (ParentLevel(g, depth, id); origin == AbsOf(g, depth, rel, Parent(g, id)))
  }

  lemma OriginGives(g: Graph, depth: Depths, rel: Offsets, id: Id, origin: Point)
    requires Forest(g, depth) && Complete(g, rel) && id in Ids(g) && Origin(g, depth, rel, id, origin)
    ensures AbsOf(g, depth, rel, id) == Point(origin.x + rel[id].x, origin.y + rel[id].y)
  {
    if Parent(g, id) != "" {
      ParentLevel(g, depth, id);
    }
  }

  lemma KidOrigin(g: Graph, depth: Depths, rel: Offsets, id: Id, kid: Id, at: Point)
    requires id in Ids(g) && kid in Kids(g.nodes, id) && AtNode(g, depth, rel, id, at)
    ensures kid in Ids(g) && Origin(g, depth, rel, kid, at)
  {
    KidsAre(g.nodes, id);
    if Forest(g, depth) {
      KidFacts(g, depth, id, kid);
      assert Hangs(NodeOf(g, id), g, depth);
    }
  }

  ghost predicate Under(g: Graph, depth: Depths, a: Id, k: Id)
    requires Forest(g, depth) && a in Ids(g) && k in Ids(g)
  {
    Encloses(g, depth, a, k)
  }

  /** Nothing that `id` encloses has a position yet. */
  ghost predicate Unresolved(g: Graph, depth: Depths, abs: Offsets, id: Id)
    requires Forest(g, depth) && id in Ids(g)
  {
    forall k {:trigger Under(g, depth, id, k)} :: k in abs && k in Ids(g) ==> !Under(g, depth, id, k)
  }

  lemma NotResolved(g: Graph, depth: Depths, abs: Offsets, id: Id)
    requires Forest(g, depth) && id in Ids(g) && Unresolved(g, depth, abs, id)
    ensures id !in abs
  {
    var under := Under(g, depth, id, id);
  }

  /** The positions found since `before` are those of `id` and of what its first `i` children enclose. */
  ghost predicate MidDescent(g: Graph, depth: Depths, before: Offsets, abs: Offsets, id: Id, i: nat)
    requires Forest(g, depth) && id in Ids(g) && i <= |Kids(g.nodes, id)|
  {
    forall k {:trigger SomeEncloses(g, depth, Kids(g.nodes, id)[..i], k)} :: k in Ids(g) ==>
      (k in abs <==> k in before || k == id || SomeEncloses(g, depth, Kids(g.nodes, id)[..i], k))
  }

  /** The positions found since `before` are those of everything `id` encloses. */
  ghost predicate Descended(g: Graph, depth: Depths, before: Offsets, abs: Offsets, id: Id)
    requires Forest(g, depth) && id in Ids(g)
  {
    forall k {:trigger Under(g, depth, id, k)} :: k in Ids(g) ==>
      (k in abs <==> k in before || Under(g, depth, id, k))
  }

  lemma DescentStarts(g: Graph, depth: Depths, before: Offsets, id: Id, at: Point)
    requires Forest(g, depth) && id in Ids(g)
    ensures MidDescent(g, depth, before, before[id := at], id, 0)
  {
  }

  lemma KidUnresolved(g: Graph, depth: Depths, before: Offsets, abs: Offsets, id: Id, i: nat)
    requires Forest(g, depth) && id in Ids(g) && i < |Kids(g.nodes, id)| && Kids(g.nodes, id)[i] in Ids(g)
    requires Unresolved(g, depth, before, id) && MidDescent(g, depth, before, abs, id, i)
    ensures Unresolved(g, depth, abs, Kids(g.nodes, id)[i])
  {
    var kids := Kids(g.nodes, id);
    KidLevel(g, depth, id, kids[i]);
    forall k | k in Ids(g) && Under(g, depth, kids[i], k)
      ensures k !in abs
    {
      EnclosesSplit(g, depth, id, k);
      assert SomeEncloses(g, depth, kids, k) && Under(g, depth, id, k);
      EnclosesLevel(g, depth, kids[i], k);
      NotEarlierKid(g, depth, id, i, k);
    }
  }

  lemma NotEarlierKid(g: Graph, depth: Depths, id: Id, i: nat, k: Id)
    requires Forest(g, depth) && id in Ids(g) && i < |Kids(g.nodes, id)| && Kids(g.nodes, id)[i] in Ids(g)
    requires k in Ids(g) && Encloses(g, depth, Kids(g.nodes, id)[i], k)
    ensures !SomeEncloses(g, depth, Kids(g.nodes, id)[..i], k)
  {
    var kids := Kids(g.nodes, id);
    KidsDistinct(g.nodes, id);
    forall c | c in kids[..i] && c in Ids(g)
      ensures !Encloses(g, depth, c, k)
    {
      KidLevel(g, depth, id, c);
      KidLevel(g, depth, id, kids[i]);
      if Encloses(g, depth, c, k) {
        OneHolderPerLevel(g, depth, c, kids[i], k);
      }
    }
  }

  lemma DescendedAt(g: Graph, depth: Depths, before: Offsets, abs: Offsets, id: Id, k: Id)
    requires Forest(g, depth) && id in Ids(g) && k in Ids(g) && Descended(g, depth, before, abs, id)
    ensures k in abs <==> k in before || Under(g, depth, id, k)
  {
    var under := Under(g, depth, id, k);
  }

  lemma OneMoreEncloses(g: Graph, depth: Depths, kids: seq<Id>, i: nat, k: Id)
    requires Forest(g, depth) && k in Ids(g) && i < |kids| && kids[i] in Ids(g)
    ensures SomeEncloses(g, depth, kids[..i + 1], k) <==>
            SomeEncloses(g, depth, kids[..i], k) || Encloses(g, depth, kids[i], k)
  {
    assert kids[..i + 1] == kids[..i] + [kids[i]];
  }

  lemma DescentGoesOn(g: Graph, depth: Depths, before: Offsets, mid: Offsets, abs: Offsets, id: Id, i: nat)
    requires Forest(g, depth) && id in Ids(g) && i < |Kids(g.nodes, id)| && Kids(g.nodes, id)[i] in Ids(g)
    requires MidDescent(g, depth, before, mid, id, i) && Descended(g, depth, mid, abs, Kids(g.nodes, id)[i])
    ensures MidDescent(g, depth, before, abs, id, i + 1)
  {
    var kids := Kids(g.nodes, id);
    forall k | k in Ids(g)
      ensures k in abs <==> k in before || k == id || SomeEncloses(g, depth, kids[..i + 1], k)
    {
      OneMoreEncloses(g, depth, kids, i, k);
      DescendedAt(g, depth, mid, abs, kids[i], k);
    }
  }

  lemma DescentEnds(g: Graph, depth: Depths, before: Offsets, abs: Offsets, id: Id)
    requires Forest(g, depth) && id in Ids(g) && MidDescent(g, depth, before, abs, id, |Kids(g.nodes, id)|)
    ensures Descended(g, depth, before, abs, id)
  {
    assert Kids(g.nodes, id)[..|Kids(g.nodes, id)|] == Kids(g.nodes, id);
    forall k | k in Ids(g)
      ensures k in abs <==> k in before || Under(g, depth, id, k)
    {
      EnclosesSplit(g, depth, id, k);
      assert SomeEncloses(g, depth, Kids(g.nodes, id)[..|Kids(g.nodes, id)|], k) <==>
             SomeEncloses(g, depth, Kids(g.nodes, id), k);
    }
  }

  // ---- the same, for graphs that may be no forest ----

  ghost predicate Clear(g: Graph, depth: Depths, abs: Offsets, id: Id) {
    Forest(g, depth) && id in Ids(g) ==> Unresolved(g, depth, abs, id)
  }

  ghost predicate Reached(g: Graph, depth: Depths, before: Offsets, abs: Offsets, id: Id) {
    Forest(g, depth) && id in Ids(g) ==> Descended(g, depth, before, abs, id)
  }

  ghost predicate Descending(g: Graph, depth: Depths, before: Offsets, abs: Offsets, id: Id, i: nat) {
    Forest(g, depth) && id in Ids(g) && i <= |Kids(g.nodes, id)| ==> MidDescent(g, depth, before, abs, id, i)
  }

  ghost predicate AtNode(g: Graph, depth: Depths, rel: Offsets, id: Id, at: Point) {
    Forest(g, depth) && Complete(g, rel) && id in Ids(g) ==> at == AbsOf(g, depth, rel, id)
  }

  lemma ClearMeansNew(g: Graph, depth: Depths, abs: Offsets, id: Id)
    requires Clear(g, depth, abs, id)
    ensures id in abs ==> Reached(g, depth, abs, abs, id)
  {
    if Forest(g, depth) && id in Ids(g) {
      NotResolved(g, depth, abs, id);
    }
  }

  lemma StartDescent(g: Graph, depth: Depths, rel: Offsets, abs: Offsets, id: Id, origin: Point, at: Point)
    requires PositionsRight(g, depth, rel, abs) && Origin(g, depth, rel, id, origin) && id in Ids(g)
    requires id in rel ==> at == Point(origin.x + rel[id].x, origin.y + rel[id].y)
    ensures AtNode(g, depth, rel, id, at)
    ensures PositionsRight(g, depth, rel, abs[id := at]) && Descending(g, depth, abs, abs[id := at], id, 0)
  {
    if Forest(g, depth) {
      DescentStarts(g, depth, abs, id, at);
      if Complete(g, rel) {
        OriginGives(g, depth, rel, id, origin);
      }
    }
    AddPosition(g, depth, rel, abs, id, at);
  }

  lemma KidIsClear(g: Graph, depth: Depths, before: Offsets, abs: Offsets, id: Id, i: nat)
    requires id in Ids(g) && i < |Kids(g.nodes, id)|
    requires Clear(g, depth, before, id) && Descending(g, depth, before, abs, id, i)
    ensures Clear(g, depth, abs, Kids(g.nodes, id)[i])
  {
    if Forest(g, depth) && Kids(g.nodes, id)[i] in Ids(g) {
      KidUnresolved(g, depth, before, abs, id, i);
    }
  }

  lemma GoOn(g: Graph, depth: Depths, before: Offsets, mid: Offsets, abs: Offsets, id: Id, i: nat)
    requires id in Ids(g) && i < |Kids(g.nodes, id)| && Kids(g.nodes, id)[i] in Ids(g)
    requires Descending(g, depth, before, mid, id, i) && Reached(g, depth, mid, abs, Kids(g.nodes, id)[i])
    ensures Descending(g, depth, before, abs, id, i + 1)
  {
    if Forest(g, depth) {
      DescentGoesOn(g, depth, before, mid, abs, id, i);
    }
  }

  lemma EndDescent(g: Graph, depth: Depths, before: Offsets, abs: Offsets, id: Id)
    requires id in Ids(g) && Descending(g, depth, before, abs, id, |Kids(g.nodes, id)|)
    ensures Reached(g, depth, before, abs, id)
  {
    if Forest(g, depth) {
      DescentEnds(g, depth, before, abs, id);
    }
  }

  // ---- the whole descent ----

  /** After the first `i` top-level nodes, exactly what they enclose has a position. */
  ghost predicate TopsResolved(g: Graph, depth: Depths, abs: Offsets, i: nat) {
    Forest(g, depth) && i <= |Kids(g.nodes, "")| ==>
      forall k {:trigger SomeEncloses(g, depth, Kids(g.nodes, "")[..i], k)} :: k in Ids(g) ==>
        (k in abs <==> SomeEncloses(g, depth, Kids(g.nodes, "")[..i], k))
  }

  lemma TopIsClear(g: Graph, depth: Depths, rel: Offsets, abs: Offsets, i: nat)
    requires i < |Kids(g.nodes, "")| && TopsResolved(g, depth, abs, i)
    ensures Kids(g.nodes, "")[i] in Ids(g)
    ensures Clear(g, depth, abs, Kids(g.nodes, "")[i])
    ensures Origin(g, depth, rel, Kids(g.nodes, "")[i], Point(0.0, 0.0))
  {
    var tops := Kids(g.nodes, "");
    KidsAre(g.nodes, "");
    assert tops[i] in tops;
    if Forest(g, depth) {
      KidFacts(g, depth, "", tops[i]);
      forall k | k in Ids(g) && Under(g, depth, tops[i], k)
        ensures k !in abs
      {
        NotEarlierTop(g, depth, i, k);
      }
    }
  }

  lemma NotEarlierTop(g: Graph, depth: Depths, i: nat, k: Id)
    requires Forest(g, depth) && i < |Kids(g.nodes, "")| && Kids(g.nodes, "")[i] in Ids(g)
    requires k in Ids(g) && Encloses(g, depth, Kids(g.nodes, "")[i], k)
    ensures !SomeEncloses(g, depth, Kids(g.nodes, "")[..i], k)
  {
    var tops := Kids(g.nodes, "");
    KidsDistinct(g.nodes, "");
    forall c | c in tops[..i] && c in Ids(g)
      ensures !Encloses(g, depth, c, k)
    {
      KidFacts(g, depth, "", c);
      KidFacts(g, depth, "", tops[i]);
      if Encloses(g, depth, c, k) {
        OneHolderPerLevel(g, depth, c, tops[i], k);
      }
    }
  }

  lemma TopsStep(g: Graph, depth: Depths, mid: Offsets, abs: Offsets, i: nat)
    requires i < |Kids(g.nodes, "")| && Kids(g.nodes, "")[i] in Ids(g)
    requires TopsResolved(g, depth, mid, i) && Reached(g, depth, mid, abs, Kids(g.nodes, "")[i])
    ensures TopsResolved(g, depth, abs, i + 1)
  {
    if Forest(g, depth) {
      var tops := Kids(g.nodes, "");
      forall k | k in Ids(g)
        ensures k in abs <==> SomeEncloses(g, depth, tops[..i + 1], k)
      {
        OneMoreEncloses(g, depth, tops, i, k);
        DescendedAt(g, depth, mid, abs, tops[i], k);
      }
    }
  }

  lemma {:induction false} TopEncloses(g: Graph, depth: Depths, k: Id)
    requires Forest(g, depth) && k in Ids(g)
    ensures SomeEncloses(g, depth, Kids(g.nodes, ""), k)
    decreases Level(g, depth, k)
  {
    KidOf(g, k);
    if Parent(g, k) == "" {
      assert Encloses(g, depth, k, k);
    } else {
      ParentLevel(g, depth, k);
      TopEncloses(g, depth, Parent(g, k));
      var c :| c in Kids(g.nodes, "") && c in Ids(g) && Encloses(g, depth, c, Parent(g, k));
      assert Encloses(g, depth, c, k);
    }
  }

  ghost predicate Resolved(g: Graph, depth: Depths, rel: Offsets, abs: Offsets)
    requires Forest(g, depth) && Complete(g, rel)
  {
    forall k :: k in Ids(g) ==> k in abs && abs[k] == AbsOf(g, depth, rel, k)
  }

  /** In the end every node has its position. */
  lemma AllResolved(g: Graph, depth: Depths, rel: Offsets, abs: Offsets)
    requires Forest(g, depth) && Complete(g, rel) && PositionsRight(g, depth, rel, abs)
    requires TopsResolved(g, depth, abs, |Kids(g.nodes, "")|)
    ensures Resolved(g, depth, rel, abs)
  {
    var tops := Kids(g.nodes, "");
    assert tops[..|tops|] == tops;
    forall k | k in Ids(g)
      ensures k in abs && abs[k] == AbsOf(g, depth, rel, k)
    {
      TopEncloses(g, depth, k);
      assert SomeEncloses(g, depth, tops[..|tops|], k);
      assert PositionRight(g, depth, rel, abs, k);
    }
  }
}
