/** What the parser makes of the fields of one statement. Literals are read by the standard library, which is a
    parameter here, and so is the reading of the two sides of a `need`. */
module LineParsing {
  import opened Names
  import opened QuorumCompile
  import opened Evidence
  import opened Predicates
  import opened Syntax
  import opened Durations
  import D = Documents
  import opened DocumentBuilder

  datatype Library = Library(
    unquote: string -> Option<string>, number: string -> Option<real>, instant: string -> bool, need: seq<string> -> Option<Predicate>)

  // ---- single fields ----

  function Trim(s: string): string {
    TrimRight(TrimLeft(s))
  }

  predicate Enclosed(s: string, c: char) {
    |s| >= 2 && s[0] == c && s[|s| - 1] == c
  }

  /** `unquote` */
  function Unquote(raw: string, lib: Library): string {
    var t := Trim(raw);
    if !Enclosed(t, '"') && !Enclosed(t, '\'') then t
    else
      match lib.unquote(t)
      case Some(value) => value
      case None => t[1..|t| - 1]
  }

  // ---- collectors ----

  predicate ValidHeader(h: D.CollectorHeader) {
    IsIdentifier(h.name) && IsIdentifier(h.providerType) && IsIdentifier(h.connectorKind) && h.source != "" &&
    (h.schema == "" || IsIdentifier(h.schema))
  }

  /** `parseCollector` */
  function ReadCollector(fields: seq<string>, lib: Library): Option<D.CollectorHeader> {
    if |fields| != 6 && |fields| != 8 then None
    else if fields[4] != "from" || (|fields| == 8 && fields[6] != "schema") then None
    else
      var h := D.CollectorHeader(
        NormalizeIdentifier(fields[1]), NormalizeIdentifier(fields[2]), NormalizeIdentifier(fields[3]), Trim(Unquote(fields[5], lib)),
        if |fields| == 8 then NormalizeIdentifier(fields[7]) else "");
      if ValidHeader(h) then Some(h) else None
  }

  // ---- signals ----

  /** What stands between the source of a signal and its expiry, and the expiry. */
  datatype Modifiers = Modifiers(unit: string, optional: bool, mode: string, literal: string)

  /** `parseSignalExpiry` */
  function ReadExpiry(mode: string, raw: string, lib: Library): Option<(string, string)> {
    var literal := Trim(Unquote(raw, lib));
    if ParseDurationSeconds(Lower(literal)).Some? then Some(("ttl", Lower(literal)))
    else if mode == "expires" && lib.instant(literal) then Some(("expires", literal))
    else None
  }

  /** The modifier loop of `parseSignal`: an expiry ends it, and nothing may follow. */
  function ReadModifiers(fields: seq<string>, unit: string, optional: bool, lib: Library): Option<Modifiers>
    decreases |fields|
  {
    if fields == [] then None
    else if fields[0] == "unit" then
      if |fields| < 2 then None else ReadModifiers(fields[2..], fields[1], optional, lib)
    else if fields[0] == "required" then ReadModifiers(fields[1..], unit, false, lib)
    else if fields[0] == "optional" then ReadModifiers(fields[1..], unit, true, lib)
    else if fields[0] == "ttl" || fields[0] == "expires" then
      if |fields| != 2 then None
      else
        match ReadExpiry(fields[0], fields[1], lib)
        case None => None
        case Some(expiry) => Some(Modifiers(unit, optional, expiry.0, expiry.1))
    else None
  }

  method ParseModifiers(fields: seq<string>, lib: Library) returns (r: Option<Modifiers>)
    ensures r == ReadModifiers(fields, "", false, lib)
  {
    var i, unit, optional := 0, "", false;
    assert fields[0..] == fields;
    while i < |fields|
      invariant i <= |fields|
      invariant ReadModifiers(fields, "", false, lib) == ReadModifiers(fields[i..], unit, optional, lib)
    {
      assert fields[i..][0] == fields[i] && fields[i..][1..] == fields[i + 1..];
      assert i + 1 < |fields| ==> fields[i..][1] == fields[i + 1] && fields[i..][2..] == fields[i + 2..];
      if fields[i] == "unit" {
        if i + 1 >= |fields| {
          return None;
        }
        unit := fields[i + 1];
        i := i + 2;
      } else if fields[i] == "required" {
        optional := false;
        i := i + 1;
      } else if fields[i] == "optional" {
        optional := true;
        i := i + 1;
      } else if fields[i] == "ttl" || fields[i] == "expires" {
        if i + 2 != |fields| {
          return None;
        }
        var expiry := ReadExpiry(fields[i], fields[i + 1], lib);
        if expiry.None? {
          return None;
        }
        return Some(Modifiers(unit, optional, expiry.value.0, expiry.value.1));
      } else {
        return None;
      }
    }
    return None;
  }

  predicate ValidKind(kind: string) {
    kind == "number" || kind == "bool" || kind == "string" || kind == "time"
  }

  predicate ValidSignal(s: D.SignalObject) {
    IsIdentifier(s.name) && ValidKind(s.kind) && s.source != "" && (s.unit == "" || (s.kind == "number" && IsIdentifier(s.unit)))
  }

  /** `parseSignal` */
  function ReadSignal(fields: seq<string>, lib: Library): Option<D.SignalObject> {
    if |fields| < 7 || fields[3] != "from" then None
    else
      match ReadModifiers(fields[5..], "", false, lib)
      case None => None
      case Some(m) =>
        var s := D.SignalObject(NormalizeIdentifier(fields[1]), NormalizeIdentifier(fields[2]), Trim(Unquote(fields[4], lib)),
                                NormalizeIdentifier(m.unit), m.optional, m.mode, m.literal);
        if ValidSignal(s) then Some(s) else None
  }

  // ---- members of a cluster ----

  function ReadMembers(fields: seq<string>, due: bool): Option<seq<string>> {
    if fields == [] then (if due then None else Some([]))
    else if fields[0] == "+" then (if due then None else ReadMembers(fields[1..], true))
    else if !due || !IsIdentifier(NormalizeIdentifier(fields[0])) then None
    else
      match ReadMembers(fields[1..], false)
      case None => None
      case Some(rest) => Some([NormalizeIdentifier(fields[0])] + rest)
  }

  /** The members read so far, followed by the members of the rest. */
  function After(done: seq<string>, rest: Option<seq<string>>): Option<seq<string>> {
    match rest
    case None => None
    case Some(more) => Some(done + more)
  }

  method ParseClusterRules(fields: seq<string>) returns (r: Option<seq<string>>)
    ensures r == ReadMembers(SplitPlusFields(fields), true)
  {
    var split := SplitPlusFields(fields);
    var rules: seq<string> := [];
    var due := true;
    assert split[0..] == split;
    AfterNothing(ReadMembers(split, true));
    for i := 0 to |split|
      invariant ReadMembers(split, true) == After(rules, ReadMembers(split[i..], due))
    {
      assert split[i..][0] == split[i] && split[i..][1..] == split[i + 1..];
      if split[i] == "+" {
        if due {
          return None;
        }
        due := true;
      } else {
        var rule := NormalizeIdentifier(split[i]);
        if !due || !IsIdentifier(rule) {
          return None;
        }
        AfterOne(rules, rule, ReadMembers(split[i + 1..], false));
        rules := rules + [rule];
        due := false;
      }
    }
    assert split[|split|..] == [];
    if due {
      return None;
    }
    assert rules + [] == rules;
    return Some(rules);
  }

  lemma AfterNothing(rest: Option<seq<string>>)
    ensures After([], rest) == rest
  {
    assert rest.Some? ==> [] + rest.value == rest.value;
  }

  lemma AfterOne(done: seq<string>, one: string, rest: Option<seq<string>>)
    ensures After(done, After([one], rest)) == After(done + [one], rest)
  {
    assert rest.Some? ==> done + ([one] + rest.value) == done + [one] + rest.value;
  }

  // ---- quorums ----

  /** Folded names, each valid and none twice. */
  function FoldDistinct(names: seq<string>): Option<seq<string>> {
    if names == [] then Some([])
    else
      match FoldDistinct(names[..|names| - 1])
      case None => None
      case Some(done) =>
        var last := NormalizeIdentifier(names[|names| - 1]);
        if !IsIdentifier(last) || last in done then None else Some(done + [last])
  }

  lemma {:induction false} FoldingStops(names: seq<string>, k: nat)
    requires k <= |names| && FoldDistinct(names[..k]) == None
    ensures FoldDistinct(names) == None
  {
    if k < |names| {
      assert names[..|names| - 1][..k] == names[..k];
      FoldingStops(names[..|names| - 1], k);
    } else {
      assert names[..k] == names;
    }
  }

  method FoldProviders(names: seq<string>) returns (r: Option<seq<string>>)
    ensures r == FoldDistinct(names)
  {
    var done: seq<string> := [];
    for i := 0 to |names|
      invariant FoldDistinct(names[..i]) == Some(done)
    {
      assert names[..i + 1][..i] == names[..i];
      var provider := NormalizeIdentifier(names[i]);
      if !IsIdentifier(provider) || provider in done {
        FoldingStops(names, i + 1);
        return None;
      }
      done := done + [provider];
    }
    assert names[..|names|] == names;
    return Some(done);
  }

  /** What `normalizePredicate` makes of a count. */
  function NormalizeCount(names: seq<string>, threshold: real): Option<Predicate> {
    if threshold < 1.0 || threshold != threshold.Floor as real || names == [] then None
    else
      match FoldDistinct(names)
      case None => None
      case Some(folded) => if threshold > |folded| as real then None else Some(Count(SortStrings(folded), threshold.Floor))
  }

  function CountOf(names: seq<string>, threshold: string, lib: Library): Option<Predicate> {
    match lib.number(threshold)
    case None => None
    case Some(value) => NormalizeCount(names, value)
  }

  function SplitAtCommas(s: string, part: string): seq<string> {
    if s == "" then [part]
    else if s[0] == ',' then [part] + SplitAtCommas(s[1..], "")
    else SplitAtCommas(s[1..], part + [s[0]])
  }

  function TrimEach(parts: seq<string>): seq<string> {
    if parts == [] then [] else [Trim(parts[0])] + TrimEach(parts[1..])
  }

  /** `parseCountQuorumProviders` on a text that starts like a call. */
  function ReadProviders(raw: string): Option<seq<string>> {
    var call := Trim(raw);
    if |call| < 7 || call[|call| - 1] != ')' then None
    else
      var inner := Trim(call[6..|call| - 1]);
      var names := TrimEach(SplitAtCommas(inner, ""));
      if inner == "" || "" in names then None else Some(names)
  }

  function IntegerValue(s: string): int
    requires IsInteger(s)
  {
    var value: int := DigitsValue(if IsDigits(s) then s else s[1..]);
    if s[0] == '-' then -value else value
  }

  /** Every other field, when those between are plus signs. */
  function Alternating(fields: seq<string>): Option<seq<string>> {
    if fields == [] then None
    else if |fields| == 1 then Some(fields)
    else if fields[1] != "+" then None
    else
      match Alternating(fields[2..])
      case None => None
      case Some(rest) => Some([fields[0]] + rest)
  }

  /** `parseQuorum` */
  function ReadQuorum(fields: seq<string>, lib: Library): Option<Predicate> {
    var fs := SplitPlusFields(fields);
    match FormOf(fs)
    case OfForm =>
      var n, m := IntegerValue(fs[0]), IntegerValue(fs[2]);
      if m != |fs| - 3 || n < 1 || n > m then None else NormalizeCount(fs[3..], n as real)
    case CountForm =>
      (match ReadProviders(Join(fs[..|fs| - 2]))
       case None => None
       case Some(names) => CountOf(names, fs[|fs| - 1], lib))
    case ExpressionForm =>
      (match ParseQuorumExpression(fs)
       case Err(_) => None
       case Ok(e) =>
         match NormalizeQuorum(e)
         case Err(_) => None
         case Ok(n) => Some(Quorum(n)))
    case PlusForm =>
      (match Alternating(fs[..|fs| - 2])
       case None => None
       case Some(names) => CountOf(names, fs[|fs| - 1], lib))
  }

  /** `parseBundlePredicate` */
  function ReadPredicate(fields: seq<string>, lib: Library): Option<Predicate>
    requires fields != []
  {
    if fields[0] == "need" then (if |fields| < 4 then None else lib.need(fields[1..]))
    else if fields[0] == "block" then
      if |fields| != 2 || !IsIdentifier(NormalizeIdentifier(fields[1])) then None else Some(Block(NormalizeIdentifier(fields[1])))
    else if |fields| < 2 then None
    else ReadQuorum(fields[1..], lib)
  }

  // ---- a statement ----

  predicate IsPredicateWord(word: string) {
    word == "need" || word == "block" || word == "quorum"
  }

  function NameIn(fields: seq<string>, k: nat): Option<(string, string)> {
    if |fields| == k + 1 then Some((fields[k], ""))
    else if |fields| == k + 3 && fields[k + 1] == "extends" then Some((fields[k], fields[k + 2]))
    else None
  }

  function ReadBlockLine(fields: seq<string>): Line
    requires fields != []
  {
    if fields[0] == "crl" then (if |fields| == 2 && (fields[1] == "v1" || fields[1] == "crl/v1") then VersionLine else BadLine)
    else if fields[0] == "package" then (if |fields| == 2 then PackageLine(fields[1]) else BadLine)
    else if fields[0] == "bundle" then (if |fields| == 2 then BundleLine(fields[1]) else BadLine)
    else if fields[0] == "cluster" then (if |fields| == 2 then ClusterLine(fields[1]) else BadLine)
    else if fields[0] == "target" then (if |fields| == 2 then TargetLine(fields[1]) else BadLine)
    else if fields[0] == "rule" then
      match NameIn(fields, 1) case None => BadLine case Some(n) => RuleLine(n.0, n.1)
    else if fields[0] == "constructor" then
      match NameIn(fields, 1) case None => BadLine case Some(n) => ConstructorLine(n.0, n.1)
    else if fields[0] == "abstract" && |fields| > 1 && fields[1] == "rule" then
      match NameIn(fields, 2) case None => BadLine case Some(n) => AbstractLine(n.0, n.1)
    else BadLine
  }

  /** The keyword decides how the rest is read; what no parser accepts is a `BadLine`. */
  function ReadLine(fields: seq<string>, lib: Library): Line {
    if fields == [] then BadLine
    else if fields[0] == "collector" then
      match ReadCollector(fields, lib) case None => BadLine case Some(h) => CollectorLine(h)
    else if fields[0] == "signal" then
      match ReadSignal(fields, lib) case None => BadLine case Some(s) => SignalLine(s)
    else if fields[0] == "rules" then
      match ReadMembers(SplitPlusFields(fields[1..]), true) case None => BadLine case Some(ms) => MembersLine(ms)
    else if IsPredicateWord(fields[0]) then
      match ReadPredicate(fields, lib) case None => BadLine case Some(p) => PredicateLine(p, |fields|)
    else ReadBlockLine(fields)
  }
}
