/** Canonical JSON over the token stream: strict decoding, and encoding with sorted keys. */
module CanonicalJson {
  import opened Names

  datatype Scalar = NullS | BoolS(b: bool) | NumberS(literal: string) | StringS(text: string)

  /** What `Decoder.Token` yields; commas and colons are implied by position. */
  datatype Tok = LBrace | RBrace | LBracket | RBracket | Lit(scalar: Scalar)

  datatype Json = Leaf(scalar: Scalar) | Arr(items: seq<Json>) | Obj(members: map<string, Json>)

  datatype Error = UnexpectedEnd | UnexpectedDelimiter | ExpectedKey | DuplicateKey | TrailingTokens

  datatype Decoded = Value(value: Json, rest: seq<Tok>) | Failed(error: Error)

  datatype Result<+T> = Ok(value: T) | Err(error: Error)

  // ---- strict decoding ----

  function Decode(ts: seq<Tok>): (d: Decoded)
    ensures d.Value? ==> |d.rest| < |ts|
    decreases |ts|, 0
  {
    if ts == [] then Failed(UnexpectedEnd)
    else
      match ts[0]
      case LBrace => DecodeMembers(ts[1..], map[])
      case LBracket => DecodeItems(ts[1..], [])
      case Lit(scalar) => Value(Leaf(scalar), ts[1..])
      case _ => Failed(UnexpectedDelimiter)
  }

  function DecodeMembers(ts: seq<Tok>, out: map<string, Json>): (d: Decoded)
    ensures d.Value? ==> |d.rest| < |ts|
    decreases |ts|, 1
  {
    if ts == [] then Failed(UnexpectedEnd)
    else if ts[0] == RBrace then Value(Obj(out), ts[1..])
    else if !ts[0].Lit? || !ts[0].scalar.StringS? then Failed(ExpectedKey)
    else
      var key := ts[0].scalar.text;
      if key in out then Failed(DuplicateKey)
      else
        match Decode(ts[1..])
        case Failed(error) => Failed(error)
        case Value(v, rest) => DecodeMembers(rest, out[key := v])
  }

  function DecodeItems(ts: seq<Tok>, out: seq<Json>): (d: Decoded)
    ensures d.Value? ==> |d.rest| < |ts|
    decreases |ts|, 1
  {
    if ts == [] then Failed(UnexpectedEnd)
    else if ts[0] == RBracket then Value(Arr(out), ts[1..])
    else
      match Decode(ts)
      case Failed(error) => Failed(error)
      case Value(v, rest) => DecodeItems(rest, out + [v])
  }

  // ---- sorted keys ----

  lemma HasElement(a: seq<string>)
    ensures a != [] ==> exists x :: x in a
  {
    if a != [] {
      assert a[0] in a;
    }
  }

  /** A strictly sorted arrangement of a set of keys is unique. */
  lemma {:induction false} SortedKeysUnique(a: seq<string>, b: seq<string>)
    requires StrictlySorted(a) && StrictlySorted(b) && forall x :: x in a <==> x in b
    ensures a == b
    decreases |a|
  {
    HasElement(a);
    HasElement(b);
    if a != [] && b != [] {
      var x, y := a[|a| - 1], b[|b| - 1];
      LastIsGreatest(a, y);
      LastIsGreatest(b, x);
      StringLeqAntisymmetric(x, y);
      var a', b' := a[..|a| - 1], b[..|b| - 1];
      FrontLacksLast(a);
      FrontLacksLast(b);
      forall k
        ensures k in a' <==> k in b'
      {
        assert k in a' <==> k in a && k != x;
        assert k in b' <==> k in b && k != y;
      }
      SortedKeysUnique(a', b');
      assert a == a' + [x] && b == b' + [y];
    }
  }

  lemma LastIsGreatest(a: seq<string>, k: string)
    requires StrictlySorted(a) && k in a
    ensures StringLeq(k, a[|a| - 1])
  {
    var i :| 0 <= i < |a| && a[i] == k;
    StringLeqTotal(k, k);
    assert i < |a| - 1 ==> StringLeq(a[i], a[|a| - 1]);
  }

  lemma FrontLacksLast(a: seq<string>)
    requires StrictlySorted(a) && a != []
    ensures StrictlySorted(a[..|a| - 1])
    ensures forall k :: k in a[..|a| - 1] <==> k in a && k != a[|a| - 1]
  {
    var front, last := a[..|a| - 1], a[|a| - 1];
    assert a == front + [last];
    forall k | k in front
      ensures k != last
    {
      var i :| 0 <= i < |front| && front[i] == k;
      assert a[i] == k;
    }
  }

  /** The keys of an object in ascending order. */
  ghost function SortedKeys(keys: set<string>): (s: seq<string>)
    ensures StrictlySorted(s) && forall x :: x in s <==> x in keys
  {
    if keys == {} then []
    else
      var k :| k in keys;
      InsertKeySorts(SortedKeys(keys - {k}), k);
      InsertKey(SortedKeys(keys - {k}), k)
  }

  // ---- encoding ----

  /** The token stream of the canonical text. */
  ghost function Encode(v: Json): seq<Tok>
    decreases v, 1
  {
    match v
    case Leaf(scalar) => [Lit(scalar)]
    case Arr(items) => [LBracket] + EncodeItems(v, items) + [RBracket]
    case Obj(members) => [LBrace] + EncodeMembers(v, SortedKeys(members.Keys)) + [RBrace]
  }

  ghost function EncodeItems(v: Json, items: seq<Json>): seq<Tok>
    requires v.Arr? && forall x :: x in items ==> x in v.items
    decreases v, 0, |items|
  {
    if items == [] then []
    else
      assert items[0] in v.items;
      Encode(items[0]) + EncodeItems(v, items[1..])
  }

  ghost function EncodeMembers(v: Json, keys: seq<string>): seq<Tok>
    requires v.Obj? && forall k :: k in keys ==> k in v.members
    decreases v, 0, |keys|
  {
    if keys == [] then []
    else [Lit(StringS(keys[0]))] + Encode(v.members[keys[0]]) + EncodeMembers(v, keys[1..])
  }

  /** `CanonicalJSON` past the initial marshalling. */
  ghost function Canonical(ts: seq<Tok>): Result<seq<Tok>> {
    match Decode(ts)
    case Failed(error) => Err(error)
    case Value(v, rest) => if rest != [] then Err(TrailingTokens) else Ok(Encode(v))
  }

  // ---- the coder as it runs ----

  class TokenStream {
    const tokens: seq<Tok>
    var pos: nat

    ghost predicate Valid()
      reads this
    {
      pos <= |tokens|
    }

    constructor (ts: seq<Tok>)
      ensures Valid() && tokens == ts && pos == 0
    {
      tokens := ts;
      pos := 0;
    }

    /** The rest of the stream after a successful decode is where the specification leaves it. */
    ghost predicate Agrees(r: Result<Json>, d: Decoded)
      reads this
    {
      Valid() && match d case Failed(error) => r == Err(error) case Value(v, rest) => r == Ok(v) && tokens[pos..] == rest
    }

    method Next() returns (r: Result<Tok>)
      requires Valid()
      modifies this
      ensures Valid()
      ensures if old(pos) < |tokens| then r == Ok(tokens[old(pos)]) && pos == old(pos) + 1
              else r == Err(UnexpectedEnd) && pos == old(pos)
    {
      if pos >= |tokens| {
        return Err(UnexpectedEnd);
      }
      pos := pos + 1;
      return Ok(tokens[pos - 1]);
    }

    method DecodeStrict() returns (r: Result<Json>)
      requires Valid()
      modifies this
      ensures Agrees(r, Decode(tokens[old(pos)..]))
      decreases |tokens| - pos, 2
    {
      var tok := Next();
      if tok.Err? {
        return Err(tok.error);
      }
      assert tokens[old(pos)..][1..] == tokens[pos..];
      r := DecodeValue(tok.value);
    }

    method DecodeValue(tok: Tok) returns (r: Result<Json>)
      requires Valid() && pos > 0 && tokens[pos - 1] == tok
      modifies this
      ensures Agrees(r, Decode(tokens[old(pos) - 1..]))
      decreases |tokens| - pos, 1
    {
      assert tokens[pos - 1..][1..] == tokens[pos..];
      match tok
      case LBrace => r := DecodeObject();
      case LBracket => r := DecodeArray();
      case Lit(scalar) => r := Ok(Leaf(scalar));
      case _ => r := Err(UnexpectedDelimiter);
    }

    method DecodeObject() returns (r: Result<Json>)
      requires Valid()
      modifies this
      ensures Agrees(r, DecodeMembers(tokens[old(pos)..], map[]))
      decreases |tokens| - pos, 0
    {
      ghost var start := pos;
      var out: map<string, Json> := map[];
      while true
        invariant Valid() && start <= pos
        invariant DecodeMembers(tokens[start..], map[]) == DecodeMembers(tokens[pos..], out)
        decreases |tokens| - pos
      {
        ghost var here := tokens[pos..];
        var keyTok := Next();
        if keyTok.Err? {
          return Err(keyTok.error);
        }
        assert here[1..] == tokens[pos..];
        if keyTok.value == RBrace {
          return Ok(Obj(out));
        }
        if !keyTok.value.Lit? || !keyTok.value.scalar.StringS? {
          return Err(ExpectedKey);
        }
        var key := keyTok.value.scalar.text;
        if key in out {
          return Err(DuplicateKey);
        }
        var value := DecodeStrict();
        if value.Err? {
          return value;
        }
        out := out[key := value.value];
      }
      assert false;
      r := Err(UnexpectedEnd);
    }

    method DecodeArray() returns (r: Result<Json>)
      requires Valid()
      modifies this
      ensures Agrees(r, DecodeItems(tokens[old(pos)..], []))
      decreases |tokens| - pos, 0
    {
      ghost var start := pos;
      var out: seq<Json> := [];
      while true
        invariant Valid() && start <= pos
        invariant DecodeItems(tokens[start..], []) == DecodeItems(tokens[pos..], out)
        decreases |tokens| - pos
      {
        ghost var here := tokens[pos..];
        var tok := Next();
        if tok.Err? {
          return Err(tok.error);
        }
        assert here[1..] == tokens[pos..];
        if tok.value == RBracket {
          return Ok(Arr(out));
        }
        var value := DecodeValue(tok.value);
        if value.Err? {
          return value;
        }
        out := out + [value.value];
      }
      assert false;
      r := Err(UnexpectedEnd);
    }
  }

  class Output {
    var tokens: seq<Tok>

    constructor ()
      ensures tokens == []
    {
      tokens := [];
    }

    method Write(t: Tok)
      modifies this
      ensures tokens == old(tokens) + [t]
    {
      tokens := tokens + [t];
    }

    method EncodeCanonical(v: Json)
      modifies this
      ensures tokens == old(tokens) + Encode(v)
      decreases v, 1
    {
      match v
      case Leaf(scalar) => Write(Lit(scalar));
      case Arr(items) =>
        Write(LBracket);
        WriteItems(v);
        Write(RBracket);
        assert old(tokens) + [LBracket] + EncodeItems(v, items) + [RBracket] == old(tokens) + ([LBracket] + EncodeItems(v, items) + [RBracket]);
      case Obj(members) =>
        Write(LBrace);
        var keys := SortKeys(members.Keys);
        SortedKeysUnique(keys, SortedKeys(members.Keys));
        WriteMembers(v, keys);
        Write(RBrace);
        assert old(tokens) + [LBrace] + EncodeMembers(v, keys) + [RBrace] == old(tokens) + ([LBrace] + EncodeMembers(v, keys) + [RBrace]);
    }

    method WriteItems(v: Json)
      requires v.Arr?
      modifies this
      ensures tokens == old(tokens) + EncodeItems(v, v.items)
      decreases v, 0
    {
      var i := 0;
      while i < |v.items|
        invariant 0 <= i <= |v.items|
        invariant tokens + EncodeItems(v, v.items[i..]) == old(tokens) + EncodeItems(v, v.items)
      {
        assert v.items[i] in v.items && v.items[i..][0] == v.items[i] && v.items[i..][1..] == v.items[i + 1..];
        ghost var before, later := tokens, EncodeItems(v, v.items[i + 1..]);
        assert before + (Encode(v.items[i]) + later) == before + Encode(v.items[i]) + later;
        EncodeCanonical(v.items[i]);
        i := i + 1;
      }
      assert tokens + [] == tokens;
    }

    method WriteMembers(v: Json, keys: seq<string>)
      requires v.Obj? && forall k :: k in keys ==> k in v.members
      modifies this
      ensures tokens == old(tokens) + EncodeMembers(v, keys)
      decreases v, 0
    {
      var i := 0;
      while i < |keys|
        invariant 0 <= i <= |keys|
        invariant tokens + EncodeMembers(v, keys[i..]) == old(tokens) + EncodeMembers(v, keys)
      {
        assert keys[i] in keys && keys[i..][0] == keys[i] && keys[i..][1..] == keys[i + 1..];
        ghost var before, key, later := tokens, [Lit(StringS(keys[i]))], EncodeMembers(v, keys[i + 1..]);
        ghost var value := Encode(v.members[keys[i]]);
        assert before + (key + value + later) == before + key + value + later;
        Write(Lit(StringS(keys[i])));
        EncodeCanonical(v.members[keys[i]]);
        i := i + 1;
      }
      assert tokens + [] == tokens;
    }
  }

  /** Collects the keys in any order, keeping them sorted. */
  method SortKeys(keys: set<string>) returns (sorted: seq<string>)
    ensures StrictlySorted(sorted) && forall x :: x in sorted <==> x in keys
  {
    sorted := [];
    var left := keys;
    while left != {}
      invariant left <= keys
      invariant StrictlySorted(sorted) && forall x :: x in sorted <==> x in keys && x !in left
      decreases left
    {
      var k :| k in left;
      InsertKeySorts(sorted, k);
      sorted := InsertKey(sorted, k);
      left := left - {k};
    }
  }

  method Canonicalize(ts: seq<Tok>) returns (r: Result<seq<Tok>>)
    ensures r == Canonical(ts)
  {
    var stream := new TokenStream(ts);
    assert ts[0..] == ts;
    var value := stream.DecodeStrict();
    if value.Err? {
      return Err(value.error);
    }
    if stream.pos < |ts| {
      return Err(TrailingTokens);
    }
    var out := new Output();
    out.EncodeCanonical(value.value);
    assert [] + Encode(value.value) == Encode(value.value);
    return Ok(out.tokens);
  }
}
