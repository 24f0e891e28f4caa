/** Identifiers as the compiler folds and matches them, and the order of strings. */
module Names {

  predicate IsSpace(c: char) {
    c == ' ' || c == '\t' || c == '\n' || c == '\r' || c == 11 as char || c == 12 as char
  }

  predicate IsLetter(c: char) {
    'a' <= c <= 'z' || 'A' <= c <= 'Z' || c == '_'
  }

  predicate IsNameChar(c: char) {
    IsLetter(c) || '0' <= c <= '9' || c == '.' || c == '-'
  }

  /** `^[A-Za-z_][A-Za-z0-9_.-]*$` */
  predicate IsIdentifier(s: string) {
    s != [] && IsLetter(s[0]) && forall i :: 0 <= i < |s| ==> IsNameChar(s[i])
  }

  function LowerChar(c: char): char {
    if 'A' <= c <= 'Z' then (c as int + 32) as char else c
  }

  function Lower(s: string): string {
    seq(|s|, i requires 0 <= i < |s| => LowerChar(s[i]))
  }

  function TrimLeft(s: string): string {
    if s != [] && IsSpace(s[0]) then TrimLeft(s[1..]) else s
  }

  function TrimRight(s: string): string {
    if s != [] && IsSpace(s[|s| - 1]) then TrimRight(s[..|s| - 1]) else s
  }

  function NormalizeIdentifier(s: string): string {
    Lower(TrimRight(TrimLeft(s)))
  }

  /** The words the quorum language reads as operators. */
  predicate IsOperatorWord(s: string) {
    Lower(s) == "and" || Lower(s) == "or" || Lower(s) == "not"
  }

  /** A name the compiler stores: an identifier that folding leaves alone. */
  predicate IsCanonical(s: string) {
    IsIdentifier(s) && Lower(s) == s
  }

  lemma CanonicalIsFixed(s: string)
    requires IsCanonical(s)
    ensures NormalizeIdentifier(s) == s
  {
    assert IsNameChar(s[|s| - 1]);
  }

  lemma FoldedIdentifierIsCanonical(s: string)
    requires IsIdentifier(NormalizeIdentifier(s))
    ensures IsCanonical(NormalizeIdentifier(s))
    ensures NormalizeIdentifier(NormalizeIdentifier(s)) == NormalizeIdentifier(s)
  {
    var t := TrimRight(TrimLeft(s));
    assert Lower(Lower(t)) == Lower(t);
    CanonicalIsFixed(NormalizeIdentifier(s));
  }

  predicate Trimmed(s: string) {
    s == "" || (!IsSpace(s[0]) && !IsSpace(s[|s| - 1]))
  }

  lemma {:induction false} TrimRightTrims(s: string)
    requires s == "" || !IsSpace(s[0])
    ensures Trimmed(TrimRight(s))
  {
    if s != "" && IsSpace(s[|s| - 1]) {
      TrimRightTrims(s[..|s| - 1]);
    }
  }

  lemma {:induction false} TrimLeftTrims(s: string)
    ensures TrimLeft(s) == "" || !IsSpace(TrimLeft(s)[0])
  {
    if s != "" && IsSpace(s[0]) {
      TrimLeftTrims(s[1..]);
    }
  }

  lemma FoldingIsIdempotent(s: string)
    ensures NormalizeIdentifier(NormalizeIdentifier(s)) == NormalizeIdentifier(s)
  {
    TrimLeftTrims(s);
    TrimRightTrims(TrimLeft(s));
    var t := TrimRight(TrimLeft(s));
    assert Trimmed(Lower(t));
    assert TrimRight(TrimLeft(Lower(t))) == Lower(t);
    assert Lower(Lower(t)) == Lower(t);
  }

  // ---- byte order on strings ----

  predicate StringLeq(a: string, b: string) {
    if a == [] then true
    else if b == [] then false
    else if a[0] != b[0] then a[0] < b[0]
    else StringLeq(a[1..], b[1..])
  }

  lemma {:induction false} StringLeqTotal(a: string, b: string)
    ensures StringLeq(a, b) || StringLeq(b, a)
  {
    if a != [] && b != [] && a[0] == b[0] {
      StringLeqTotal(a[1..], b[1..]);
    }
  }

  lemma {:induction false} StringLeqAntisymmetric(a: string, b: string)
    requires StringLeq(a, b) && StringLeq(b, a)
    ensures a == b
  {
    if a != [] && b != [] {
      StringLeqAntisymmetric(a[1..], b[1..]);
      assert a == [a[0]] + a[1..] && b == [b[0]] + b[1..];
    }
  }

  lemma {:induction false} StringLeqTransitive(a: string, b: string, c: string)
    requires StringLeq(a, b) && StringLeq(b, c)
    ensures StringLeq(a, c)
  {
    if a != [] && b != [] && c != [] && a[0] == b[0] == c[0] {
      StringLeqTransitive(a[1..], b[1..], c[1..]);
    }
  }

  ghost predicate StrictlySorted(keys: seq<string>) {
    forall i, j :: 0 <= i < j < |keys| ==> StringLeq(keys[i], keys[j]) && keys[i] != keys[j]
  }

  function InsertKey(keys: seq<string>, k: string): seq<string> {
    if keys == [] || StringLeq(keys[|keys| - 1], k) then keys + [k]
    else InsertKey(keys[..|keys| - 1], k) + [keys[|keys| - 1]]
  }

  lemma {:induction false} InsertKeySorts(keys: seq<string>, k: string)
    requires StrictlySorted(keys) && k !in keys
    ensures StrictlySorted(InsertKey(keys, k))
    ensures forall x :: x in InsertKey(keys, k) <==> x in keys || x == k
  {
    if keys == [] || StringLeq(keys[|keys| - 1], k) {
      forall i | 0 <= i < |keys|
        ensures StringLeq(keys[i], k)
      {
        if i < |keys| - 1 {
          StringLeqTransitive(keys[i], keys[|keys| - 1], k);
        }
      }
    } else {
      var front, last := keys[..|keys| - 1], keys[|keys| - 1];
      assert keys == front + [last];
      InsertKeySorts(front, k);
      StringLeqTotal(last, k);
      var all := InsertKey(front, k);
      forall i | 0 <= i < |all|
        ensures StringLeq(all[i], last) && all[i] != last
      {
        assert all[i] in all;
      }
    }
  }

  function SortStrings(keys: seq<string>): seq<string> {
    if keys == [] then [] else InsertKey(SortStrings(keys[..|keys| - 1]), keys[|keys| - 1])
  }

  lemma InsertLargest(keys: seq<string>, k: string)
    requires keys == [] || StringLeq(keys[|keys| - 1], k)
    ensures InsertKey(keys, k) == keys + [k]
  {
  }

  lemma {:induction false} SortOfSortedStrings(keys: seq<string>)
    requires StrictlySorted(keys)
    ensures SortStrings(keys) == keys
  {
    if keys != [] {
      var front, last := keys[..|keys| - 1], keys[|keys| - 1];
      SortOfSortedStrings(front);
      InsertLargest(front, last);
      assert keys == front + [last];
    }
  }
}
