/** Canonical JSON is a normal form and a fixed point. */
module CanonicalJsonNormal {
  import opened Names
  import opened CanonicalJson

  // ---- documents as written ----

  /** A JSON document with its members in the order they were written. */
  datatype Tree = ScalarTree(scalar: Scalar) | ArrayTree(items: Items) | ObjectTree(members: Members)

  datatype Items = NoItems | Item(head: Tree, tail: Items)

  datatype Members = NoMembers | Member(key: string, value: Tree, rest: Members)

  /** The token stream of the document. */
  function Flat(t: Tree): seq<Tok> {
    match t
    case ScalarTree(scalar) => [Lit(scalar)]
    case ArrayTree(items) => [LBracket] + FlatItems(items) + [RBracket]
    case ObjectTree(members) => [LBrace] + FlatMembers(members) + [RBrace]
  }

  function FlatItems(items: Items): seq<Tok> {
    match items case NoItems => [] case Item(head, tail) => Flat(head) + FlatItems(tail)
  }

  function FlatMembers(ms: Members): seq<Tok> {
    match ms
    case NoMembers => []
    case Member(key, value, rest) => [Lit(StringS(key))] + Flat(value) + FlatMembers(rest)
  }

  function Keys(ms: Members): set<string> {
    match ms case NoMembers => {} case Member(key, _, rest) => {key} + Keys(rest)
  }

  /** No object at any depth repeats a key. */
  predicate DuplicateFree(t: Tree) {
    match t
    case ScalarTree(_) => true
    case ArrayTree(items) => ItemsFree(items)
    case ObjectTree(members) => MembersFree(members)
  }

  predicate ItemsFree(items: Items) {
    match items case NoItems => true case Item(head, tail) => DuplicateFree(head) && ItemsFree(tail)
  }

  predicate MembersFree(ms: Members) {
    match ms
    case NoMembers => true
    case Member(key, value, rest) => key !in Keys(rest) && DuplicateFree(value) && MembersFree(rest)
  }

  /** The same value: equal scalars, arrays alike in order, objects with the same keys and alike at each key. */
  predicate SameValue(t: Tree, u: Tree) {
    match t
    case ScalarTree(_) => t == u
    case ArrayTree(items) => u.ArrayTree? && SameItems(items, u.items)
    case ObjectTree(members) => u.ObjectTree? && Keys(members) == Keys(u.members) && EachFound(members, u.members)
  }

  predicate SameItems(items: Items, others: Items) {
    match items
    case NoItems => others.NoItems?
    case Item(head, tail) => others.Item? && SameValue(head, others.head) && SameItems(tail, others.tail)
  }

  function Find(ms: Members, key: string): Tree
    requires key in Keys(ms)
  {
    if ms.key == key then ms.value else Find(ms.rest, key)
  }

  predicate EachFound(ms: Members, others: Members)
    requires Keys(ms) <= Keys(others)
  {
    match ms
    case NoMembers => true
    case Member(key, value, rest) => SameValue(value, Find(others, key)) && EachFound(rest, others)
  }

  // ---- what a document denotes ----

  function Denote(t: Tree): Json {
    match t
    case ScalarTree(scalar) => Leaf(scalar)
    case ArrayTree(items) => Arr(DenoteItems(items))
    case ObjectTree(members) => Obj(DenoteMembers(members))
  }

  function DenoteItems(items: Items): seq<Json> {
    match items case NoItems => [] case Item(head, tail) => [Denote(head)] + DenoteItems(tail)
  }

  function DenoteMembers(ms: Members): (m: map<string, Json>)
    ensures m.Keys == Keys(ms)
  {
    match ms
    case NoMembers => map[]
    case Member(key, value, rest) => DenoteMembers(rest)[key := Denote(value)]
  }

  // ---- decoding a document ----

  lemma {:induction false} DecodesTree(t: Tree, rest: seq<Tok>)
    ensures Decode(Flat(t) + rest) == if DuplicateFree(t) then Value(Denote(t), rest) else Failed(DuplicateKey)
    decreases t, 1
  {
    var ts := Flat(t) + rest;
    match t
    case ScalarTree(_) => assert ts[1..] == rest;
    case ArrayTree(items) =>
      assert ts[1..] == FlatItems(items) + ([RBracket] + rest);
      DecodesItems(items, [], rest);
      assert [] + DenoteItems(items) == DenoteItems(items);
    case ObjectTree(members) =>
      assert ts[1..] == FlatMembers(members) + ([RBrace] + rest);
      DecodesMembers(members, map[], rest);
      assert map[] + DenoteMembers(members) == DenoteMembers(members);
  }

  lemma FlatStarts(t: Tree)
    ensures Flat(t) != [] && Flat(t)[0] != RBracket && Flat(t)[0] != RBrace
  {
  }

  lemma {:induction false} DecodesItems(items: Items, out: seq<Json>, rest: seq<Tok>)
    ensures DecodeItems(FlatItems(items) + ([RBracket] + rest), out) ==
            if ItemsFree(items) then Value(Arr(out + DenoteItems(items)), rest) else Failed(DuplicateKey)
    decreases items, 0
  {
    var ts := FlatItems(items) + ([RBracket] + rest);
    match items
    case NoItems =>
      assert ts == [RBracket] + rest && ts[1..] == rest;
      assert out + [] == out;
    case Item(head, tail) =>
      var later := FlatItems(tail) + ([RBracket] + rest);
      assert ts == Flat(head) + later;
      FlatStarts(head);
      DecodesTree(head, later);
      DecodesItems(tail, out + [Denote(head)], rest);
      assert out + [Denote(head)] + DenoteItems(tail) == out + DenoteItems(items);
  }

  lemma {:induction false} DecodesMembers(ms: Members, out: map<string, Json>, rest: seq<Tok>)
    ensures DecodeMembers(FlatMembers(ms) + ([RBrace] + rest), out) ==
            if MembersFree(ms) && Keys(ms) !! out.Keys then Value(Obj(out + DenoteMembers(ms)), rest) else Failed(DuplicateKey)
    decreases ms, 0
  {
    var ts := FlatMembers(ms) + ([RBrace] + rest);
    match ms
    case NoMembers =>
      assert ts == [RBrace] + rest && ts[1..] == rest;
      assert out + map[] == out;
    case Member(key, value, more) =>
      var later := FlatMembers(more) + ([RBrace] + rest);
      assert ts == [Lit(StringS(key))] + (Flat(value) + later);
      assert ts[1..] == Flat(value) + later;
      if key !in out {
        var next := out[key := Denote(value)];
        DecodesTree(value, later);
        DecodesMembers(more, next, rest);
        NextKeys(key, value, more, out);
      } else {
        assert key in Keys(ms);
      }
  }

  lemma NextKeys(key: string, value: Tree, more: Members, out: map<string, Json>)
    requires key !in out
    ensures var ms := Member(key, value, more); var next := out[key := Denote(value)];
            (key !in Keys(more) && Keys(ms) !! out.Keys <==> Keys(more) !! next.Keys) &&
            (Keys(more) !! next.Keys ==> next + DenoteMembers(more) == out + DenoteMembers(ms))
  {
    var ms, next := Member(key, value, more), out[key := Denote(value)];
    assert next.Keys == out.Keys + {key} && Keys(ms) == {key} + Keys(more);
    if Keys(more) !! next.Keys {
      assert key !in DenoteMembers(more);
      assert next + DenoteMembers(more) == out + DenoteMembers(ms);
    }
  }

  // ---- every accepted stream is a duplicate-free document ----

  lemma {:induction false} AcceptedIsTree(ts: seq<Tok>) returns (t: Tree)
    requires Decode(ts).Value?
    ensures DuplicateFree(t) && ts == Flat(t) + Decode(ts).rest
    decreases |ts|, 0
  {
    match ts[0]
    case Lit(scalar) => t := ScalarTree(scalar);
    case LBracket =>
      var items := AcceptedItems(ts[1..], []);
      t := ArrayTree(items);
    case LBrace =>
      var members := AcceptedMembers(ts[1..], map[]);
      t := ObjectTree(members);
    case _ => assert false;
  }

  lemma {:induction false} AcceptedItems(ts: seq<Tok>, out: seq<Json>) returns (items: Items)
    requires DecodeItems(ts, out).Value?
    ensures ItemsFree(items) && ts == FlatItems(items) + [RBracket] + DecodeItems(ts, out).rest
    decreases |ts|, 1
  {
    if ts[0] == RBracket {
      items := NoItems;
    } else {
      var d := Decode(ts);
      var head := AcceptedIsTree(ts);
      var tail := AcceptedItems(d.rest, out + [d.value]);
      items := Item(head, tail);
      JoinsItem(ts, head, tail, d.rest, DecodeItems(ts, out).rest);
    }
  }

  lemma JoinsItem(ts: seq<Tok>, head: Tree, tail: Items, mid: seq<Tok>, rest: seq<Tok>)
    requires ts == Flat(head) + mid && mid == FlatItems(tail) + [RBracket] + rest
    ensures ts == FlatItems(Item(head, tail)) + [RBracket] + rest
  {
  }

  lemma {:induction false} AcceptedMembers(ts: seq<Tok>, out: map<string, Json>) returns (ms: Members)
    requires DecodeMembers(ts, out).Value?
    ensures MembersFree(ms) && Keys(ms) !! out.Keys && ts == FlatMembers(ms) + [RBrace] + DecodeMembers(ts, out).rest
    decreases |ts|, 1
  {
    if ts[0] == RBrace {
      ms := NoMembers;
    } else {
      var key := ts[0].scalar.text;
      var d := Decode(ts[1..]);
      var value := AcceptedIsTree(ts[1..]);
      var more := AcceptedMembers(d.rest, out[key := d.value]);
      ms := Member(key, value, more);
      assert key in out[key := d.value].Keys;
      JoinsMember(ts, key, value, more, d.rest, DecodeMembers(ts, out).rest);
    }
  }

  lemma JoinsMember(ts: seq<Tok>, key: string, value: Tree, more: Members, mid: seq<Tok>, rest: seq<Tok>)
    requires ts != [] && ts[0] == Lit(StringS(key)) && ts[1..] == Flat(value) + mid
    requires mid == FlatMembers(more) + [RBrace] + rest
    ensures ts == FlatMembers(Member(key, value, more)) + [RBrace] + rest
  {
    var head, a, b := [ts[0]], Flat(value), FlatMembers(more);
    assert ts == head + (a + (b + [RBrace] + rest));
    assert head + (a + (b + [RBrace] + rest)) == head + a + b + [RBrace] + rest;
  }

  // ---- equal denotation is sameness up to member order ----

  lemma {:induction false} SameIsEqual(t: Tree, u: Tree)
    requires DuplicateFree(t) && DuplicateFree(u)
    ensures SameValue(t, u) <==> Denote(t) == Denote(u)
    decreases t, 1
  {
    match t
    case ScalarTree(_) =>
    case ArrayTree(items) =>
      if u.ArrayTree? {
        SameItemsIsEqual(items, u.items);
      }
    case ObjectTree(members) =>
      if u.ObjectTree? {
        MembersIsEqual(members, u.members);
      }
  }

  lemma {:induction false} SameItemsIsEqual(items: Items, others: Items)
    requires ItemsFree(items) && ItemsFree(others)
    ensures SameItems(items, others) <==> DenoteItems(items) == DenoteItems(others)
    decreases items, 0
  {
    if items.Item? && others.Item? {
      SameIsEqual(items.head, others.head);
      SameItemsIsEqual(items.tail, others.tail);
      var a, b := DenoteItems(items), DenoteItems(others);
      assert a[0] == Denote(items.head) && b[0] == Denote(others.head);
      assert a[1..] == DenoteItems(items.tail) && b[1..] == DenoteItems(others.tail);
    }
  }

  lemma {:induction false} FindDenotes(ms: Members, key: string)
    requires MembersFree(ms) && key in Keys(ms)
    ensures DenoteMembers(ms)[key] == Denote(Find(ms, key)) && DuplicateFree(Find(ms, key))
  {
    if ms.key != key {
      FindDenotes(ms.rest, key);
    }
  }

  lemma {:induction false} EachFoundMeans(ms: Members, others: Members)
    requires MembersFree(ms) && MembersFree(others) && Keys(ms) <= Keys(others)
    ensures EachFound(ms, others) <==> forall k :: k in Keys(ms) ==> DenoteMembers(ms)[k] == DenoteMembers(others)[k]
    decreases ms, 0
  {
    if ms.Member? {
      FindDenotes(others, ms.key);
      SameIsEqual(ms.value, Find(others, ms.key));
      EachFoundMeans(ms.rest, others);
      var m, r, o := DenoteMembers(ms), DenoteMembers(ms.rest), DenoteMembers(others);
      assert m[ms.key] == Denote(ms.value);
      assert forall k :: k in Keys(ms.rest) ==> m[k] == r[k];
      assert forall k :: k in Keys(ms) <==> k == ms.key || k in Keys(ms.rest);
    }
  }

  lemma {:induction false} MembersIsEqual(ms: Members, others: Members)
    requires MembersFree(ms) && MembersFree(others)
    ensures Keys(ms) == Keys(others) && EachFound(ms, others) <==> DenoteMembers(ms) == DenoteMembers(others)
    decreases ms, 1
  {
    if Keys(ms) == Keys(others) {
      EachFoundMeans(ms, others);
    } else {
      assert DenoteMembers(ms).Keys != DenoteMembers(others).Keys;
    }
  }

  // ---- decoding canonical output ----

  lemma {:induction false} DecodesEncoded(v: Json, rest: seq<Tok>)
    ensures Decode(Encode(v) + rest) == Value(v, rest)
    decreases v, 1
  {
    var ts := Encode(v) + rest;
    match v
    case Leaf(_) => assert ts[1..] == rest;
    case Arr(items) =>
      assert ts[1..] == EncodeItems(v, items) + ([RBracket] + rest);
      DecodesEncodedItems(v, items, [], rest);
      assert [] + items == items;
    case Obj(members) =>
      var keys := SortedKeys(members.Keys);
      assert ts[1..] == EncodeMembers(v, keys) + ([RBrace] + rest);
      DecodesEncodedMembers(v, keys, map[], rest);
  }

  lemma EncodeStarts(v: Json)
    ensures Encode(v) != [] && Encode(v)[0] != RBracket && Encode(v)[0] != RBrace
  {
  }

  lemma {:induction false} DecodesEncodedItems(v: Json, items: seq<Json>, out: seq<Json>, rest: seq<Tok>)
    requires v.Arr? && forall x :: x in items ==> x in v.items
    ensures DecodeItems(EncodeItems(v, items) + ([RBracket] + rest), out) == Value(Arr(out + items), rest)
    decreases v, 0, |items|
  {
    var ts := EncodeItems(v, items) + ([RBracket] + rest);
    if items == [] {
      assert ts == [RBracket] + rest && ts[1..] == rest;
      assert out + [] == out;
    } else {
      assert items[0] in v.items;
      var later := EncodeItems(v, items[1..]) + ([RBracket] + rest);
      assert ts == Encode(items[0]) + later;
      EncodeStarts(items[0]);
      DecodesEncoded(items[0], later);
      DecodesEncodedItems(v, items[1..], out + [items[0]], rest);
      assert out + [items[0]] + items[1..] == out + items;
    }
  }

  /** The members already read, and the keys still to come, make up the object. */
  ghost predicate Remaining(v: Json, keys: seq<string>, out: map<string, Json>)
    requires v.Obj?
  {
    StrictlySorted(keys) &&
    (forall k :: k in keys ==> k in v.members && k !in out) &&
    (forall k :: k in v.members ==> k in keys || k in out) &&
    (forall k :: k in out ==> k in v.members && out[k] == v.members[k])
  }

  lemma {:induction false} DecodesEncodedMembers(v: Json, keys: seq<string>, out: map<string, Json>, rest: seq<Tok>)
    requires v.Obj? && Remaining(v, keys, out)
    ensures DecodeMembers(EncodeMembers(v, keys) + ([RBrace] + rest), out) == Value(v, rest)
    decreases v, 0, |keys|
  {
    var ts := EncodeMembers(v, keys) + ([RBrace] + rest);
    if keys == [] {
      assert ts == [RBrace] + rest && ts[1..] == rest;
      assert out == v.members;
    } else {
      var k := keys[0];
      var later := EncodeMembers(v, keys[1..]) + ([RBrace] + rest);
      assert ts == [Lit(StringS(k))] + (Encode(v.members[k]) + later);
      assert ts[1..] == Encode(v.members[k]) + later;
      DecodesEncoded(v.members[k], later);
      RemainingStep(v, keys, out);
      DecodesEncodedMembers(v, keys[1..], out[k := v.members[k]], rest);
    }
  }

  lemma RemainingStep(v: Json, keys: seq<string>, out: map<string, Json>)
    requires v.Obj? && keys != [] && Remaining(v, keys, out)
    ensures Remaining(v, keys[1..], out[keys[0] := v.members[keys[0]]])
  {
    var first, later := keys[0], keys[1..];
    SortedTail(keys);
    assert forall k :: k in keys <==> k == first || k in later by {
      assert keys == [first] + later;
    }
  }

  lemma SortedTail(keys: seq<string>)
    requires keys != [] && StrictlySorted(keys)
    ensures StrictlySorted(keys[1..]) && keys[0] !in keys[1..]
  {
    assert forall i :: 0 <= i < |keys[1..]| ==> keys[1..][i] == keys[i + 1];
  }

  // ---- main results ----

  /** A document is accepted exactly when no object in it, at any depth, repeats a key; otherwise the
      repeated key is what is reported. */
  lemma AcceptsDuplicateFree(t: Tree)
    ensures Canonical(Flat(t)) == if DuplicateFree(t) then Ok(Encode(Denote(t))) else Err(DuplicateKey)
  {
    DecodesTree(t, []);
    assert Flat(t) + [] == Flat(t);
  }

  /** Nothing but a duplicate-free document is accepted. */
  lemma OnlyDocumentsAccepted(ts: seq<Tok>)
    ensures Canonical(ts).Ok? <==> exists t :: DuplicateFree(t) && ts == Flat(t)
  {
    if Canonical(ts).Ok? {
      var t := AcceptedIsTree(ts);
      assert Flat(t) + [] == Flat(t);
    }
    if t :| DuplicateFree(t) && ts == Flat(t) {
      AcceptsDuplicateFree(t);
    }
  }

  /** Two duplicate-free documents have one canonical form exactly when they are the same value up to
      the order of object members. */
  lemma CanonicalIsNormalForm(t: Tree, u: Tree)
    requires DuplicateFree(t) && DuplicateFree(u)
    ensures Canonical(Flat(t)) == Canonical(Flat(u)) <==> SameValue(t, u)
  {
    AcceptsDuplicateFree(t);
    AcceptsDuplicateFree(u);
    SameIsEqual(t, u);
    DecodesEncoded(Denote(t), []);
    DecodesEncoded(Denote(u), []);
  }

  /** Canonical output is its own canonical form. */
  lemma CanonicalIsFixedPoint(ts: seq<Tok>)
    requires Canonical(ts).Ok?
    ensures Canonical(Canonical(ts).value) == Canonical(ts)
  {
    var v := Decode(ts).value;
    DecodesEncoded(v, []);
    assert Encode(v) + [] == Encode(v);
  }
}
