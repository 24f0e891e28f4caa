/** How the canonical text writes each line, and that the line is read back. */
module CanonicalWords {
  import opened Names
  import opened QuorumSyntax
  import opened QuorumNormal
  import opened QuorumCompile
  import opened QuorumLexed
  import opened Evidence
  import opened Predicates
  import opened Syntax
  import opened WordLines
  import opened CountLines
  import opened Durations
  import D = Documents
  import opened DocumentBuilder
  import opened CanonicalLayout
  import opened LineParsing
  import Lexer

  /** How the standard library writes literals, and the two sides of a `need`. */
  datatype Printer = Printer(quote: string -> string, digits: int -> string, need: Predicate -> seq<string>)

  // ---- the words of a line ----

  predicate IsPlainSource(s: string) {
    s != "" && forall i :: 0 <= i < |s| ==> IsSourceChar(s[i])
  }

  /** `^[A-Za-z0-9_./:@?-]+$` */
  predicate IsSourceChar(c: char) {
    IsNameChar(c) || c == '/' || c == ':' || c == '@' || c == '?'
  }

  function SourceWord(s: string, pr: Printer): string {
    if IsPlainSource(s) then s else pr.quote(s)
  }

  function HeaderFields(h: D.CollectorHeader, pr: Printer): seq<string> {
    ["collector", h.name, h.providerType, h.connectorKind, "from", SourceWord(h.source, pr)] +
    (if h.schema == "" then [] else ["schema", h.schema])
  }

  function ModifierFields(s: D.SignalObject): seq<string> {
    (if s.unit == "" then [] else ["unit", s.unit]) + ((if s.optional then ["optional"] else []) + [s.mode, s.literal])
  }

  function SignalFields(s: D.SignalObject, pr: Printer): seq<string> {
    ["signal", s.name, s.kind, "from", SourceWord(s.source, pr)] + ModifierFields(s)
  }

  function PlusList(names: seq<string>): seq<string> {
    if names == [] then [] else if |names| == 1 then names else [names[0], "+"] + PlusList(names[1..])
  }

  function LineFields(line: Line, pr: Printer): seq<string> {
    match line
    case VersionLine => ["crl", "v1"]
    case PackageLine(package) => ["package", package]
    case BundleLine(bundle) => ["bundle", bundle]
    case RuleLine(name, _) => ["rule", name]
    case ClusterLine(name) => ["cluster", name]
    case TargetLine(aspect) => ["target", aspect]
    case CollectorLine(header) => HeaderFields(header, pr)
    case SignalLine(signal) => SignalFields(signal, pr)
    case MembersLine(members) => ["rules"] + PlusList(members)
    case PredicateLine(parsed, _) => PredicateFields(parsed, pr)
    case _ => []
  }

  function PredicateFields(p: Predicate, pr: Printer): seq<string> {
    match p
    case Quorum(e) => ["quorum"] + Texts(Tokens(e))
    case Count(names, threshold) => CountFields(names, pr.digits(threshold))
    case Block(field) => ["block", field]
    case _ => ["need"] + pr.need(p)
  }

  function LineText(line: Line, pr: Printer): string {
    if line.PredicateLine? && line.parsed.Quorum? then QuorumLine(line.parsed.expression)
    else if line.PredicateLine? && line.parsed.Count? then CountLine(line.parsed.providers, pr.digits(line.parsed.threshold))
    else Join(LineFields(line, pr))
  }

  // ---- what can be written ----

  /** A source that stands bare, or whose quoted form the library reads back. */
  predicate WritableSource(s: string, lib: Library, pr: Printer) {
    s != "" && Trimmed(s) &&
    (!IsPlainSource(s) ==> IsQuoted(pr.quote(s)) && Enclosed(pr.quote(s), '"') && lib.unquote(pr.quote(s)) == Some(s))
  }

  predicate WritableHeader(h: D.CollectorHeader, lib: Library, pr: Printer) {
    IsCanonical(h.name) && IsCanonical(h.providerType) && IsCanonical(h.connectorKind) && WritableSource(h.source, lib, pr) &&
    (h.schema == "" || IsCanonical(h.schema))
  }

  predicate WritableExpiry(mode: string, literal: string, lib: Library) {
    (mode == "ttl" && Lower(literal) == literal && ParseDurationSeconds(literal).Some?) ||
    (mode == "expires" && IsAtom(literal) && lib.instant(literal) && ParseDurationSeconds(Lower(literal)).None?)
  }

  predicate WritableSignal(s: D.SignalObject, lib: Library, pr: Printer) {
    IsCanonical(s.name) && ValidKind(s.kind) && WritableSource(s.source, lib, pr) &&
    (s.unit == "" || (s.kind == "number" && IsCanonical(s.unit))) && WritableExpiry(s.mode, s.literal, lib)
  }

  predicate AllCanonical(names: seq<string>) {
    forall i :: 0 <= i < |names| ==> IsCanonical(names[i])
  }

  /** A predicate in its compiled form whose literals the library reads back. */
  ghost predicate WritablePredicate(p: Predicate, lib: Library, pr: Printer) {
    match p
    case Quorum(e) => NormalForm(e) && Acceptable(e)
    case Count(names, threshold) =>
      1 <= threshold <= |names| && AllCanonical(names) && StrictlySorted(names) &&
      IsDigits(pr.digits(threshold)) && lib.number(pr.digits(threshold)) == Some(threshold as real)
    case Block(field) => IsCanonical(field)
    case _ => AllWords(pr.need(p)) && |pr.need(p)| + 1 == FieldCount(p) && lib.need(pr.need(p)) == Some(p)
  }

  ghost predicate Writable(line: Line, lib: Library, pr: Printer) {
    match line
    case VersionLine => true
    case PackageLine(package) => IsCanonical(package)
    case BundleLine(bundle) => IsCanonical(bundle)
    case RuleLine(name, parent) => IsCanonical(name) && parent == ""
    case ClusterLine(name) => IsCanonical(name)
    case TargetLine(aspect) => IsCanonical(aspect)
    case CollectorLine(header) => WritableHeader(header, lib, pr)
    case SignalLine(signal) => WritableSignal(signal, lib, pr)
    case MembersLine(members) => members != [] && AllCanonical(members)
    case PredicateLine(parsed, fields) => fields == FieldCount(parsed) && WritablePredicate(parsed, lib, pr)
    case _ => false
  }

  // ---- words lex ----

  lemma CanonicalIsAtom(s: string)
    requires IsCanonical(s)
    ensures IsAtom(s)
  {
    forall i | 0 <= i < |s|
      ensures !Lexer.EndsAtom(s[i])
    {
      assert IsNameChar(s[i]);
    }
  }

  lemma PlainSourceIsAtom(s: string)
    requires IsPlainSource(s)
    ensures IsAtom(s)
  {
    forall i | 0 <= i < |s|
      ensures !Lexer.EndsAtom(s[i])
    {
      assert IsSourceChar(s[i]);
    }
  }

  lemma DigitsAreAtom(s: string)
    requires IsDigits(s)
    ensures IsAtom(s) && '+' !in s
  {
    forall i | 0 <= i < |s|
      ensures !Lexer.EndsAtom(s[i]) && s[i] != '+'
    {
      assert '0' <= s[i] <= '9';
    }
  }

  lemma DurationIsAtom(s: string)
    requires ParseDurationSeconds(s).Some?
    ensures IsAtom(s)
  {
    var k := DigitsLength(s);
    var unit := s[k..];
    UnitIsLetters(unit);
    forall i | 0 <= i < |s|
      ensures !Lexer.EndsAtom(s[i])
    {
      if i < k {
        assert IsDigit(s[i]);
      } else {
        assert s[i] == unit[i - k];
      }
    }
    assert IsDigit(s[0]);
  }

  lemma UnitIsLetters(unit: string)
    requires UnitMillis(unit).Some?
    ensures forall i :: 0 <= i < |unit| ==> 'a' <= unit[i] <= 'z'
  {
  }

  lemma SourceIsWord(s: string, lib: Library, pr: Printer)
    requires WritableSource(s, lib, pr)
    ensures IsWord(SourceWord(s, pr))
  {
    if IsPlainSource(s) {
      PlainSourceIsAtom(s);
    }
  }

  lemma LowerCaseWords(w: string)
    requires w != "" && forall i :: 0 <= i < |w| ==> 'a' <= w[i] <= 'z'
    ensures IsAtom(w)
  {
  }

  lemma TwoWords(a: string, b: string)
    requires IsWord(a) && IsWord(b)
    ensures AllWords([a, b])
  {
  }

  lemma WordsConcatenate(a: seq<string>, b: seq<string>)
    requires AllWords(a) && AllWords(b)
    ensures AllWords(a + b)
  {
  }

  lemma HeaderWords(h: D.CollectorHeader, lib: Library, pr: Printer)
    requires WritableHeader(h, lib, pr)
    ensures AllWords(HeaderFields(h, pr))
  {
    CanonicalIsAtom(h.name);
    CanonicalIsAtom(h.providerType);
    CanonicalIsAtom(h.connectorKind);
    SourceIsWord(h.source, lib, pr);
    LowerCaseWords("collector");
    LowerCaseWords("from");
    LowerCaseWords("schema");
    if h.schema != "" {
      CanonicalIsAtom(h.schema);
    }
  }

  lemma KindIsAtom(kind: string)
    requires ValidKind(kind)
    ensures IsAtom(kind) && IsCanonical(kind)
  {
    assert Lower(kind) == kind;
  }

  lemma ExpiryWords(mode: string, literal: string, lib: Library)
    requires WritableExpiry(mode, literal, lib)
    ensures AllWords([mode, literal])
  {
    LowerCaseWords("ttl");
    LowerCaseWords("expires");
    if mode == "ttl" {
      DurationIsAtom(literal);
    }
    TwoWords(mode, literal);
  }

  lemma UnitWords(unit: string)
    requires unit == "" || IsCanonical(unit)
    ensures AllWords(if unit == "" then [] else ["unit", unit])
  {
    if unit != "" {
      CanonicalIsAtom(unit);
      LowerCaseWords("unit");
      TwoWords("unit", unit);
    }
  }

  lemma OptionWords(optional: bool)
    ensures AllWords(if optional then ["optional"] else [])
  {
    LowerCaseWords("optional");
  }

  lemma ModifierWords(s: D.SignalObject, lib: Library)
    requires (s.unit == "" || IsCanonical(s.unit)) && WritableExpiry(s.mode, s.literal, lib)
    ensures AllWords(ModifierFields(s))
  {
    UnitWords(s.unit);
    OptionWords(s.optional);
    ExpiryWords(s.mode, s.literal, lib);
    WordsConcatenate(if s.optional then ["optional"] else [], [s.mode, s.literal]);
    WordsConcatenate(if s.unit == "" then [] else ["unit", s.unit], (if s.optional then ["optional"] else []) + [s.mode, s.literal]);
  }

  lemma FiveWords(a: string, b: string, c: string, d: string, e: string)
    requires IsWord(a) && IsWord(b) && IsWord(c) && IsWord(d) && IsWord(e)
    ensures AllWords([a, b, c, d, e])
  {
  }

  lemma SignalWords(s: D.SignalObject, lib: Library, pr: Printer)
    requires WritableSignal(s, lib, pr)
    ensures AllWords(SignalFields(s, pr))
  {
    CanonicalIsAtom(s.name);
    KindIsAtom(s.kind);
    SourceIsWord(s.source, lib, pr);
    LowerCaseWords("signal");
    LowerCaseWords("from");
    FiveWords("signal", s.name, s.kind, "from", SourceWord(s.source, pr));
    ModifierWords(s, lib);
    WordsConcatenate(["signal", s.name, s.kind, "from", SourceWord(s.source, pr)], ModifierFields(s));
  }

  lemma {:induction false} PlusListWords(names: seq<string>)
    requires AllCanonical(names)
    ensures AllWords(PlusList(names)) && (names != [] ==> PlusList(names) != [])
  {
    if names != [] {
      CanonicalIsAtom(names[0]);
      if |names| > 1 {
        PlusListWords(names[1..]);
        TwoWords(names[0], "+");
        WordsConcatenate([names[0], "+"], PlusList(names[1..]));
      }
    }
  }

  /** Every line but a quorum is a line of words. */
  lemma LineWords(line: Line, lib: Library, pr: Printer)
    requires Writable(line, lib, pr) && !(line.PredicateLine? && (line.parsed.Quorum? || line.parsed.Count?))
    ensures LineFields(line, pr) != [] && AllWords(LineFields(line, pr))
  {
    match line
    case VersionLine => LowerCaseWords("crl"); assert IsAtom("v1");
    case PackageLine(package) => LowerCaseWords("package"); CanonicalIsAtom(package);
    case BundleLine(bundle) => LowerCaseWords("bundle"); CanonicalIsAtom(bundle);
    case RuleLine(name, _) => LowerCaseWords("rule"); CanonicalIsAtom(name);
    case ClusterLine(name) => LowerCaseWords("cluster"); CanonicalIsAtom(name);
    case TargetLine(aspect) => LowerCaseWords("target"); CanonicalIsAtom(aspect);
    case CollectorLine(header) => HeaderWords(header, lib, pr);
    case SignalLine(signal) => SignalWords(signal, lib, pr);
    case MembersLine(members) => LowerCaseWords("rules"); PlusListWords(members); WordsConcatenate(["rules"], PlusList(members));
    case PredicateLine(parsed, _) => PredicateWords(parsed, lib, pr);
  }

  lemma PredicateWords(p: Predicate, lib: Library, pr: Printer)
    requires WritablePredicate(p, lib, pr) && !p.Quorum? && !p.Count?
    ensures PredicateFields(p, pr) != [] && AllWords(PredicateFields(p, pr))
  {
    LowerCaseWords("block");
    LowerCaseWords("need");
    if p.Block? {
      CanonicalIsAtom(p.field);
    } else {
      WordsConcatenate(["need"], pr.need(p));
    }
  }

  lemma {:induction false} NamesAreAtoms(names: seq<string>)
    requires AllCanonical(names)
    ensures AllAtoms(names)
  {
    forall i | 0 <= i < |names|
      ensures IsAtom(names[i])
    {
      CanonicalIsAtom(names[i]);
    }
  }

  /** Wherever the line stands, it is one statement with its fields. */
  lemma WritableLineReads(line: Line, lib: Library, pr: Printer)
    requires Writable(line, lib, pr)
    ensures LineReads(LineText(line, pr), LineFields(line, pr))
  {
    if line.PredicateLine? && line.parsed.Quorum? {
      QuorumLineReads(line.parsed.expression);
    } else if line.PredicateLine? && line.parsed.Count? {
      NamesAreAtoms(line.parsed.providers);
      DigitsAreAtom(pr.digits(line.parsed.threshold));
      CountLineReads(line.parsed.providers, pr.digits(line.parsed.threshold));
    } else {
      LineWords(line, lib, pr);
      WordLineReads(LineFields(line, pr));
    }
  }
}
