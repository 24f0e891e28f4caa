/** The parser makes of the fields of a canonical line what the line was written from. */
module LinesReadBack {
  import opened Names
  import opened QuorumSyntax
  import opened QuorumNormal
  import opened QuorumCompile
  import opened QuorumLexed
  import opened Evidence
  import opened Predicates
  import opened Syntax
  import opened WordLines
  import opened CountLines
  import D = Documents
  import opened DocumentBuilder
  import opened CanonicalLayout
  import opened LineParsing
  import opened CanonicalWords
  import Lexer

  // ---- trimming ----

  lemma TrimmedStays(s: string)
    requires Trimmed(s)
    ensures Trim(s) == s
  {
  }

  lemma {:induction false} AtomHasNoSpace(s: string)
    requires IsAtom(s)
    ensures Trimmed(s) && !Enclosed(s, '"') && !Enclosed(s, '\'')
  {
    assert !Lexer.EndsAtom(s[0]) && !Lexer.EndsAtom(s[|s| - 1]);
  }

  lemma AtomUnquoted(s: string, lib: Library)
    requires IsAtom(s)
    ensures Trim(Unquote(s, lib)) == s
  {
    AtomHasNoSpace(s);
    TrimmedStays(s);
  }

  lemma SourceReadsBack(s: string, lib: Library, pr: Printer)
    requires WritableSource(s, lib, pr)
    ensures Trim(Unquote(SourceWord(s, pr), lib)) == s
  {
    TrimmedStays(s);
    if IsPlainSource(s) {
      PlainSourceIsAtom(s);
      AtomUnquoted(s, lib);
    } else {
      assert Trimmed(pr.quote(s));
      TrimmedStays(pr.quote(s));
    }
  }

  // ---- collectors and signals ----

  lemma HeaderReadsBack(h: D.CollectorHeader, lib: Library, pr: Printer)
    requires WritableHeader(h, lib, pr)
    ensures ReadCollector(HeaderFields(h, pr), lib) == Some(h)
  {
    CanonicalIsFixed(h.name);
    CanonicalIsFixed(h.providerType);
    CanonicalIsFixed(h.connectorKind);
    SourceReadsBack(h.source, lib, pr);
    if h.schema != "" {
      CanonicalIsFixed(h.schema);
    }
  }

  lemma ExpiryReadsBack(mode: string, literal: string, lib: Library)
    requires WritableExpiry(mode, literal, lib)
    ensures ReadExpiry(mode, literal, lib) == Some((mode, literal))
  {
    if mode == "ttl" {
      DurationIsAtom(literal);
    }
    AtomUnquoted(literal, lib);
  }

  lemma EndReadsBack(unit: string, optional: bool, mode: string, literal: string, lib: Library)
    requires WritableExpiry(mode, literal, lib)
    ensures ReadModifiers([mode, literal], unit, optional, lib) == Some(Modifiers(unit, optional, mode, literal))
  {
    ExpiryReadsBack(mode, literal, lib);
  }

  lemma OptionReadsBack(unit: string, optional: bool, mode: string, literal: string, lib: Library)
    requires WritableExpiry(mode, literal, lib)
    ensures ReadModifiers((if optional then ["optional"] else []) + [mode, literal], unit, false, lib) ==
            Some(Modifiers(unit, optional, mode, literal))
  {
    EndReadsBack(unit, optional, mode, literal, lib);
    if optional {
      assert (["optional"] + [mode, literal])[1..] == [mode, literal];
    } else {
      assert [] + [mode, literal] == [mode, literal];
    }
  }

  lemma ModifiersReadBack(s: D.SignalObject, lib: Library)
    requires WritableExpiry(s.mode, s.literal, lib)
    ensures ReadModifiers(ModifierFields(s), "", false, lib) == Some(Modifiers(s.unit, s.optional, s.mode, s.literal))
  {
    var rest := (if s.optional then ["optional"] else []) + [s.mode, s.literal];
    OptionReadsBack(s.unit, s.optional, s.mode, s.literal, lib);
    if s.unit == "" {
      assert [] + rest == rest;
    } else {
      assert (["unit", s.unit] + rest)[2..] == rest;
    }
  }

  lemma SignalReadsBack(s: D.SignalObject, lib: Library, pr: Printer)
    requires WritableSignal(s, lib, pr)
    ensures ReadSignal(SignalFields(s, pr), lib) == Some(s)
  {
    var fields := SignalFields(s, pr);
    CanonicalIsFixed(s.name);
    KindIsAtom(s.kind);
    CanonicalIsFixed(s.kind);
    SourceReadsBack(s.source, lib, pr);
    ModifiersReadBack(s, lib);
    assert fields[5..] == ModifierFields(s);
    if s.unit != "" {
      CanonicalIsFixed(s.unit);
    } else {
      assert NormalizeIdentifier("") == "";
    }
  }

  // ---- members ----

  predicate AllIdentifiers(names: seq<string>) {
    forall i :: 0 <= i < |names| ==> IsIdentifier(names[i])
  }

  lemma NameHasNoPlus(s: string)
    requires IsIdentifier(s)
    ensures '+' !in s && s != "+" && s != ">="
  {
    assert IsLetter(s[0]);
    forall i | 0 <= i < |s|
      ensures s[i] != '+'
    {
      assert IsNameChar(s[i]);
    }
  }

  lemma PlusSplits()
    ensures SplitPlus("+", "") == ["+"]
  {
    assert "+"[1..] == "";
  }

  lemma NameSplits(name: string, rest: seq<string>)
    requires IsIdentifier(name)
    ensures SplitPlusFields([name] + rest) == [name] + SplitPlusFields(rest)
  {
    NameHasNoPlus(name);
    assert ([name] + rest)[1..] == rest;
  }

  lemma PlusThenSplits(rest: seq<string>)
    ensures SplitPlusFields(["+"] + rest) == ["+"] + SplitPlusFields(rest)
  {
    PlusSplits();
    assert (["+"] + rest)[1..] == rest;
  }

  lemma PlusListTail(names: seq<string>)
    requires |names| > 1
    ensures PlusList(names) == [names[0]] + (["+"] + PlusList(names[1..]))
  {
  }

  lemma {:induction false} PlusListSplits(names: seq<string>)
    requires AllIdentifiers(names)
    ensures SplitPlusFields(PlusList(names)) == PlusList(names)
  {
    if |names| == 1 {
      NameSplits(names[0], []);
      assert names == [names[0]] + [];
    } else if names != [] {
      PlusListSplits(names[1..]);
      PlusListTail(names);
      PlusThenSplits(PlusList(names[1..]));
      NameSplits(names[0], ["+"] + PlusList(names[1..]));
    }
  }

  lemma {:induction false} PlusListReads(names: seq<string>)
    requires AllCanonical(names) && names != []
    ensures ReadMembers(PlusList(names), true) == Some(names)
  {
    var list := PlusList(names);
    NameHasNoPlus(names[0]);
    CanonicalIsFixed(names[0]);
    if |names| == 1 {
      assert list == [names[0]] && list[1..] == [] && names == [names[0]] + [];
      assert ReadMembers([], false) == Some([]);
    } else {
      var rest := PlusList(names[1..]);
      PlusListReads(names[1..]);
      assert list[1..] == ["+"] + rest && (["+"] + rest)[1..] == rest;
      assert ReadMembers(["+"] + rest, false) == Some(names[1..]);
      assert [names[0]] + names[1..] == names;
    }
  }

  // ---- counts ----

  /** Cutting a list at its commas gives the names, all but the first with a blank in front. */
  function Spaced(names: seq<string>): seq<string> {
    if names == [] then [] else [[' '] + names[0]] + Spaced(names[1..])
  }

  lemma {:induction false} NoCommaIsOnePart(s: string, rest: string, part: string)
    requires ',' !in s
    ensures SplitAtCommas(s + rest, part) == SplitAtCommas(rest, part + s)
  {
    if s == "" {
      assert s + rest == rest && part + s == part;
    } else {
      assert (s + rest)[0] == s[0] && (s + rest)[1..] == s[1..] + rest;
      NoCommaIsOnePart(s[1..], rest, part + [s[0]]);
      assert part + [s[0]] + s[1..] == part + s;
    }
  }

  lemma NameHasNoComma(s: string)
    requires IsIdentifier(s)
    ensures ',' !in s
  {
    forall i | 0 <= i < |s|
      ensures s[i] != ','
    {
      assert IsNameChar(s[i]);
    }
  }

  lemma {:induction false} ListSplits(names: seq<string>, lead: string)
    requires names != [] && AllIdentifiers(names)
    ensures SplitAtCommas(Listed(names), lead) == [lead + names[0]] + Spaced(names[1..])
  {
    NameHasNoComma(names[0]);
    if |names| == 1 {
      NoCommaIsOnePart(names[0], "", lead);
      assert names[0] + "" == names[0] && names[1..] == [];
    } else {
      var tail := [' '] + Listed(names[1..]);
      NoCommaIsOnePart(names[0], [','] + tail, lead);
      assert Listed(names) == names[0] + ([','] + tail);
      assert ([','] + tail)[1..] == tail && tail[1..] == Listed(names[1..]) && "" + [' '] == [' '];
      ListSplits(names[1..], [' ']);
      assert SplitAtCommas(tail, "") == SplitAtCommas(Listed(names[1..]), [' ']);
    }
  }

  lemma BlankTrims(s: string)
    requires Trimmed(s)
    ensures Trim([' '] + s) == s
  {
    assert ([' '] + s)[1..] == s;
    TrimmedStays(s);
  }

  lemma NameIsTrimmed(s: string)
    requires IsIdentifier(s)
    ensures Trimmed(s) && s != ""
  {
    assert IsNameChar(s[0]) && IsNameChar(s[|s| - 1]);
  }

  lemma {:induction false} SpacedTrims(names: seq<string>)
    requires AllIdentifiers(names)
    ensures TrimEach(Spaced(names)) == names
  {
    if names != [] {
      NameIsTrimmed(names[0]);
      BlankTrims(names[0]);
      SpacedTrims(names[1..]);
      assert Spaced(names)[1..] == Spaced(names[1..]);
    }
  }

  lemma ListTrims(names: seq<string>)
    requires names != [] && AllIdentifiers(names)
    ensures TrimEach(SplitAtCommas(Listed(names), "")) == names
  {
    ListSplits(names, "");
    NameIsTrimmed(names[0]);
    TrimmedStays(names[0]);
    SpacedTrims(names[1..]);
    var parts := [names[0]] + Spaced(names[1..]);
    assert "" + names[0] == names[0] && parts[1..] == Spaced(names[1..]);
  }

  lemma {:induction false} ListIsTrimmed(names: seq<string>)
    requires names != [] && AllIdentifiers(names)
    ensures Listed(names) != "" && Listed(names)[0] == names[0][0] && !IsSpace(Listed(names)[|Listed(names)| - 1])
  {
    NameIsTrimmed(names[0]);
    if |names| > 1 {
      ListIsTrimmed(names[1..]);
    }
  }

  lemma ProvidersReadBack(names: seq<string>)
    requires names != [] && AllIdentifiers(names)
    ensures ReadProviders(CallOf(names)) == Some(names)
  {
    var call, list := CallOf(names), Listed(names);
    ListIsTrimmed(names);
    NameIsTrimmed(names[0]);
    assert call[0] == 'c' && call[|call| - 1] == ')';
    TrimmedStays(call);
    assert call[6..|call| - 1] == list;
    TrimmedStays(list);
    ListTrims(names);
    forall i | 0 <= i < |names|
      ensures names[i] != ""
    {
      NameIsTrimmed(names[i]);
    }
  }

  lemma {:induction false} NamesFoldBack(names: seq<string>)
    requires AllCanonical(names) && StrictlySorted(names)
    ensures FoldDistinct(names) == Some(names)
  {
    if names != [] {
      var front, last := names[..|names| - 1], names[|names| - 1];
      NamesFoldBack(front);
      CanonicalIsFixed(last);
      assert names == front + [last];
      assert last !in front;
    }
  }

  lemma CountNormalizes(names: seq<string>, threshold: int)
    requires 1 <= threshold <= |names| && AllCanonical(names) && StrictlySorted(names)
    ensures NormalizeCount(names, threshold as real) == Some(Count(names, threshold))
  {
    NamesFoldBack(names);
    SortOfSortedStrings(names);
  }

  lemma {:induction false} ListHasNoPlus(names: seq<string>)
    requires AllIdentifiers(names)
    ensures '+' !in Listed(names)
  {
    if names != [] {
      NameHasNoPlus(names[0]);
      if |names| > 1 {
        ListHasNoPlus(names[1..]);
        assert Listed(names) == names[0] + [','] + ([' '] + Listed(names[1..]));
      }
    }
  }

  lemma CallHasNoPlus(names: seq<string>)
    requires AllIdentifiers(names)
    ensures '+' !in CallOf(names) && CallOf(names)[0] == 'c'
  {
    ListHasNoPlus(names);
    assert '+' !in "count(" && '+' !in ")";
  }

  lemma ThresholdSplits(digits: string)
    requires IsDigits(digits)
    ensures SplitPlusFields([">=", digits]) == [">=", digits]
  {
    DigitsAreAtom(digits);
    OneStays(digits, []);
    OneStays(">=", [digits]);
    assert [digits] + [] == [digits] && [">="] + [digits] == [">=", digits];
  }

  lemma OneStays(field: string, rest: seq<string>)
    requires '+' !in field
    ensures SplitPlusFields([field] + rest) == [field] + SplitPlusFields(rest)
  {
    assert ([field] + rest)[1..] == rest;
  }

  lemma CountFieldsForm(names: seq<string>, digits: string)
    requires names != [] && AllIdentifiers(names) && IsDigits(digits)
    ensures var fs := [CallOf(names), ">=", digits]; SplitPlusFields(fs) == fs && FormOf(fs) == CountForm && Join(fs[..1]) == CallOf(names)
  {
    var call, fs := CallOf(names), [CallOf(names), ">=", digits];
    CallHasNoPlus(names);
    ThresholdSplits(digits);
    OneStays(call, [">=", digits]);
    assert fs == [call] + [">=", digits] && fs[..1] == [call] && Join([call]) == call;
    assert IndexOfGte(fs) == 1 by { assert fs[1..][0] == ">=" && call != ">="; }
    CallStarts(names);
  }

  lemma CallStarts(names: seq<string>)
    requires names != [] && AllIdentifiers(names)
    ensures StartsCount(CallOf(names))
  {
    var call := CallOf(names);
    assert call[0] == 'c' && call[|call| - 1] == ')';
    TrimmedStays(call);
    assert call[..6] == "count(";
  }

  lemma CountReadsBack(names: seq<string>, threshold: int, digits: string, lib: Library)
    requires 1 <= threshold <= |names| && AllCanonical(names) && StrictlySorted(names)
    requires IsDigits(digits) && lib.number(digits) == Some(threshold as real)
    ensures ReadPredicate(CountFields(names, digits), lib) == Some(Count(names, threshold))
  {
    var fs := [CallOf(names), ">=", digits];
    assert CountFields(names, digits)[1..] == fs;
    CountFieldsForm(names, digits);
    assert fs[..|fs| - 2] == fs[..1];
    ProvidersReadBack(names);
    CountNormalizes(names, threshold);
  }

  // ---- predicates ----

  lemma ExpressionReads(fs: seq<string>, e: Expr, lib: Library)
    requires SplitPlusFields(fs) == fs && FormOf(fs) == ExpressionForm
    requires ParseQuorumExpression(fs) == Ok(e) && NormalizeQuorum(e) == Ok(e)
    ensures ReadQuorum(fs, lib) == Some(Quorum(e))
  {
  }

  lemma QuorumReadsBack(e: Expr, lib: Library)
    requires NormalForm(e) && Acceptable(e)
    ensures ReadPredicate(["quorum"] + Texts(Tokens(e)), lib) == Some(Quorum(e))
  {
    var fs := Texts(Tokens(e));
    TextsReadAsExpression(e);
    TextsParse(e);
    NormalIsFixed(e);
    ExpressionReads(fs, e, lib);
    SomeToken(e);
    assert (["quorum"] + fs)[1..] == fs;
  }

  lemma NormalIsFixed(e: Expr)
    requires NormalForm(e) && Acceptable(e)
    ensures NormalizeQuorum(e) == Ok(e)
  {
    NormalizeQuorumExact(e);
    NormOfNormal(e);
  }

  lemma {:induction false} SomeToken(e: Expr)
    requires WellFormed(e)
    ensures Tokens(e) != []
  {
  }

  lemma PredicateReadsBack(p: Predicate, lib: Library, pr: Printer)
    requires WritablePredicate(p, lib, pr)
    ensures PredicateFields(p, pr) != [] && IsPredicateWord(PredicateFields(p, pr)[0])
    ensures ReadPredicate(PredicateFields(p, pr), lib) == Some(p) && |PredicateFields(p, pr)| == FieldCount(p)
  {
    match p
    case Quorum(e) => QuorumReadsBack(e, lib);
    case Count(names, threshold) => CountReadsBack(names, threshold, pr.digits(threshold), lib);
    case Block(field) => CanonicalIsFixed(field);
    case _ => assert (["need"] + pr.need(p))[1..] == pr.need(p);
  }

  lemma MembersReadBack(members: seq<string>, lib: Library, pr: Printer)
    requires members != [] && AllCanonical(members)
    ensures ReadLine(LineFields(MembersLine(members), pr), lib) == MembersLine(members)
  {
    PlusListSplits(members);
    PlusListReads(members);
    assert (["rules"] + PlusList(members))[1..] == PlusList(members);
  }

  lemma BlockLineReadsBack(line: Line, lib: Library, pr: Printer)
    requires Writable(line, lib, pr) && !line.CollectorLine? && !line.SignalLine? && !line.MembersLine? && !line.PredicateLine?
    ensures ReadLine(LineFields(line, pr), lib) == line
  {
  }

  lemma PredicateLineReadsBack(p: Predicate, lib: Library, pr: Printer)
    requires WritablePredicate(p, lib, pr)
    ensures ReadLine(PredicateFields(p, pr), lib) == PredicateLine(p, FieldCount(p))
  {
    PredicateReadsBack(p, lib, pr);
  }

  /** What the parser makes of a canonical line's fields is the line. */
  lemma LineReadsBack(line: Line, lib: Library, pr: Printer)
    requires Writable(line, lib, pr)
    ensures ReadLine(LineFields(line, pr), lib) == line
  {
    match line
    case CollectorLine(header) => HeaderReadsBack(header, lib, pr);
    case SignalLine(signal) => SignalReadsBack(signal, lib, pr);
    case MembersLine(members) => MembersReadBack(members, lib, pr);
    case PredicateLine(parsed, _) => PredicateLineReadsBack(parsed, lib, pr);
    case _ => BlockLineReadsBack(line, lib, pr);
  }
}
