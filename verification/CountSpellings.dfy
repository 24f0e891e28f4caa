/** The three ways to write a count quorum are one predicate. */
module CountSpellings {
  import opened Names
  import opened Evidence
  import opened Syntax
  import opened Durations
  import opened CountLines
  import opened QuorumLexed
  import opened LineParsing
  import opened CanonicalWords
  import opened LinesReadBack

  // ---- count(a, b) >= n ----

  lemma CallIsCount(names: seq<string>, digits: string, lib: Library)
    requires names != [] && AllIdentifiers(names) && IsDigits(digits)
    ensures ReadQuorum([CallOf(names), ">=", digits], lib) == CountOf(names, digits, lib)
  {
    var fs := [CallOf(names), ">=", digits];
    CountFieldsForm(names, digits);
    assert fs[..|fs| - 2] == fs[..1];
    ProvidersReadBack(names);
  }

  // ---- n of m a b ----

  function OfFields(digits: string, total: string, names: seq<string>): seq<string> {
    [digits, "of", total] + names
  }

  lemma OfHasNoPlus(digits: string, total: string, names: seq<string>)
    requires AllIdentifiers(names) && IsDigits(digits) && IsDigits(total)
    ensures SplitPlusFields(OfFields(digits, total, names)) == OfFields(digits, total, names)
  {
    var fs := OfFields(digits, total, names);
    DigitsAreAtom(digits);
    DigitsAreAtom(total);
    forall i | 0 <= i < |fs|
      ensures '+' !in fs[i] && fs[i] != ">="
    {
      if i >= 3 {
        NameHasNoPlus(names[i - 3]);
      }
    }
    NoPlusNoSplit(fs);
  }

  lemma OfIsCount(names: seq<string>, digits: string, total: string, lib: Library)
    requires names != [] && AllIdentifiers(names) && IsDigits(digits) && IsDigits(total)
    requires DigitsValue(total) == |names| && 1 <= DigitsValue(digits) <= |names|
    requires lib.number(digits) == Some(DigitsValue(digits) as real)
    ensures ReadQuorum(OfFields(digits, total, names), lib) == CountOf(names, digits, lib)
  {
    var fs := OfFields(digits, total, names);
    OfHasNoPlus(digits, total, names);
    assert FormOf(fs) == OfForm;
    assert fs[3..] == names;
    DigitsAreUnsigned(digits);
    DigitsAreUnsigned(total);
  }

  lemma DigitsAreUnsigned(s: string)
    requires IsDigits(s)
    ensures IntegerValue(s) == DigitsValue(s)
  {
    assert '0' <= s[0] <= '9';
  }

  // ---- a + b >= n ----

  function PlusFields(names: seq<string>, digits: string): seq<string> {
    PlusList(names) + [">=", digits]
  }

  lemma {:induction false} PlusListShape(names: seq<string>)
    requires names != [] && AllIdentifiers(names)
    ensures |PlusList(names)| == 2 * |names| - 1 && PlusList(names)[0] == names[0]
    ensures forall i :: 0 <= i < |PlusList(names)| ==> PlusList(names)[i] != ">="
    ensures Alternating(PlusList(names)) == Some(names)
  {
    NameHasNoPlus(names[0]);
    if |names| == 1 {
      assert PlusList(names) == names;
    } else {
      var rest := PlusList(names[1..]);
      PlusListShape(names[1..]);
      assert PlusList(names)[2..] == rest && PlusList(names)[1] == "+";
      assert [names[0]] + names[1..] == names;
    }
  }

  lemma {:induction false} FirstGte(a: seq<string>, b: seq<string>)
    requires forall i :: 0 <= i < |a| ==> a[i] != ">="
    ensures IndexOfGte(a + [">="] + b) == |a|
  {
    var all := a + [">="] + b;
    if a != [] {
      assert all[0] == a[0] && all[1..] == a[1..] + [">="] + b;
      FirstGte(a[1..], b);
    }
  }

  lemma {:induction false} SplitsConcat(a: seq<string>, b: seq<string>)
    ensures SplitPlusFields(a + b) == SplitPlusFields(a) + SplitPlusFields(b)
  {
    if a == [] {
      assert a + b == b;
    } else {
      assert (a + b)[0] == a[0] && (a + b)[1..] == a[1..] + b;
      SplitsConcat(a[1..], b);
    }
  }

  lemma PlusSplitsBack(names: seq<string>, digits: string)
    requires AllIdentifiers(names) && IsDigits(digits)
    ensures SplitPlusFields(PlusFields(names, digits)) == PlusFields(names, digits)
  {
    PlusListSplits(names);
    ThresholdSplits(digits);
    SplitsConcat(PlusList(names), [">=", digits]);
  }

  lemma NameThenBlank(name: string, rest: string)
    requires IsIdentifier(name)
    ensures var text := name + (" " + rest); !("count(" <= text) && !IsSpace(text[0])
  {
    var text := name + (" " + rest);
    assert IsNameChar(name[0]);
    if |name| > 5 {
      assert text[5] == name[5] && IsNameChar(name[5]);
    } else {
      assert text[|name|] == ' ';
    }
  }

  lemma JoinStarts(fields: seq<string>)
    requires |fields| > 1
    ensures Join(fields) == fields[0] + (" " + Join(fields[1..]))
  {
  }

  lemma NoCallStart(text: string)
    requires text != "" && !IsSpace(text[0]) && !("count(" <= text)
    ensures !StartsCount(text)
  {
    if StartsCount(text) {
      StartsStay(text);
    }
  }

  /** A joined list starts with the first name and a blank, so it does not start like a call. */
  lemma PlusIsNoCall(names: seq<string>)
    requires |names| > 1 && AllIdentifiers(names)
    ensures !StartsCount(Join(PlusList(names)))
  {
    var list := PlusList(names);
    PlusListShape(names);
    JoinStarts(list);
    NameThenBlank(names[0], Join(list[1..]));
    NoCallStart(Join(list));
  }

  lemma {:induction false} StartsStay(text: string)
    requires "count(" <= TrimRight(text)
    ensures "count(" <= text
  {
    if text != "" && IsSpace(text[|text| - 1]) {
      StartsStay(text[..|text| - 1]);
    }
  }

  lemma PlusForms(names: seq<string>, digits: string)
    requires |names| > 1 && AllIdentifiers(names) && IsDigits(digits)
    ensures FormOf(PlusFields(names, digits)) == PlusForm
    ensures PlusFields(names, digits)[..|PlusFields(names, digits)| - 2] == PlusList(names)
  {
    var fs := PlusFields(names, digits);
    PlusListShape(names);
    FirstGte(PlusList(names), [digits]);
    assert fs == PlusList(names) + [">="] + [digits];
    PlusIsNoCall(names);
    assert fs[1] == "+";
  }

  lemma PlusIsCount(names: seq<string>, digits: string, lib: Library)
    requires |names| > 1 && AllIdentifiers(names) && IsDigits(digits)
    ensures ReadQuorum(PlusFields(names, digits), lib) == CountOf(names, digits, lib)
  {
    PlusSplitsBack(names, digits);
    PlusForms(names, digits);
    PlusListShape(names);
  }

  /** Whichever way a count is written, it is read as one predicate, or refused alike. */
  lemma SpellingsAgree(names: seq<string>, digits: string, total: string, lib: Library)
    requires |names| > 1 && AllIdentifiers(names) && IsDigits(digits) && IsDigits(total)
    requires DigitsValue(total) == |names| && 1 <= DigitsValue(digits) <= |names|
    requires lib.number(digits) == Some(DigitsValue(digits) as real)
    ensures ReadQuorum([CallOf(names), ">=", digits], lib) == ReadQuorum(PlusFields(names, digits), lib) ==
            ReadQuorum(OfFields(digits, total, names), lib)
  {
    CallIsCount(names, digits, lib);
    PlusIsCount(names, digits, lib);
    OfIsCount(names, digits, total, lib);
  }
}
