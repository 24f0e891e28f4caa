/** One predicate against a fact map: comparisons, blockers, temporal relations and quorums. */
module Predicates {
  import opened Names
  import opened QuorumSyntax
  import opened QuorumRoundTrip
  import opened Kleene
  import opened Evidence

  datatype CompareOp = Eq | Ne | Gt | Gte | Lt | Lte

  datatype Literal = NumberLit(number: real) | BoolLit(b: bool) | TextLit(text: string)

  datatype Reference = NowRef | InstantRef(ns: int) | FieldRef(field: string)

  datatype Relation =
    | Before(reference: Reference) | After(reference: Reference)
    | WithinBefore(seconds: int, reference: Reference) | WithinAfter(seconds: int, reference: Reference)
    | AgeLte(seconds: int) | AgeGte(seconds: int)

  datatype Predicate =
    | Need(field: string, op: CompareOp, expected: Literal)
    | NeedSignal(field: string, op: CompareOp, reference: string)
    | Block(field: string)
    | Temporal(field: string, relation: Relation)
    | Count(providers: seq<string>, threshold: int)
    | Quorum(expression: Expr)

  datatype Reason =
    | NoReason | UnknownFact | ExpiredEvidence | ActiveBlocker | QuorumNotMet | TypeMismatch | UnsupportedOp | InvalidSyntax

  datatype Check = Check(passed: bool, reason: Reason)

  function Failed(reason: Reason): Check { Check(false, reason) }

  function Verdict(passed: bool): Check { Check(passed, NoReason) }

  // ---- comparison ----

  predicate CompareReal(op: CompareOp, a: real, b: real) {
    match op
    case Eq => a == b case Ne => a != b case Gt => a > b case Gte => a >= b case Lt => a < b case Lte => a <= b
  }

  predicate CompareNum(op: CompareOp, a: Num, b: real) {
    match a
    case Finite(v) => CompareReal(op, v, b)
    case PosInf => op == Ne || op == Gt || op == Gte
    case NegInf => op == Ne || op == Lt || op == Lte
    case NotANumber => op == Ne
  }

  function Compare(actual: Value, op: CompareOp, expected: Literal): Check {
    match expected
    case NumberLit(number) =>
      if actual.NumV? then Verdict(CompareNum(op, actual.n, number)) else Failed(TypeMismatch)
    case BoolLit(b) =>
      if !actual.BoolV? then Failed(TypeMismatch)
      else if op == Eq then Verdict(actual.b == b)
      else if op == Ne then Verdict(actual.b != b)
      else Failed(UnsupportedOp)
    case TextLit(text) =>
      if !actual.TextV? then Failed(TypeMismatch)
      else if op == Eq then Verdict(actual.text == text)
      else if op == Ne then Verdict(actual.text != text)
      else Failed(UnsupportedOp)
  }

  function EvaluateBlock(actual: Value): Check {
    if !actual.BoolV? && !actual.NumV? then Failed(TypeMismatch)
    else if (if actual.BoolV? then actual.b else actual.n != Finite(0.0)) then Failed(ActiveBlocker)
    else Verdict(true)
  }

  /** Both operands present, fresh, numeric and finite. */
  function EvaluateNeedSignal(actual: Value, op: CompareOp, reference: string, facts: Facts, index: Index, now: Clock): Check {
    if reference !in facts then Failed(UnknownFact)
    else if FieldExpired(reference, facts, index, now) then Failed(ExpiredEvidence)
    else
      var raw := facts[reference];
      if !actual.NumV? || !actual.n.Finite? || !raw.NumV? || !raw.n.Finite? then Failed(TypeMismatch)
      else Verdict(CompareReal(op, actual.n.v, raw.n.v))
  }

  // ---- temporal relations ----

  const MaxDuration: int := 0x7FFF_FFFF_FFFF_FFFF
  const MinDuration: int := -0x8000_0000_0000_0000

  /** `Time.Sub`, which saturates at the limits of a 64-bit duration. */
  function SaturatingSub(a: int, b: int): int {
    if a - b > MaxDuration then MaxDuration else if a - b < MinDuration then MinDuration else a - b
  }

  datatype Resolved = Instant(ns: int) | Unresolved(reason: Reason)

  function ResolveReference(r: Reference, facts: Facts, index: Index, now: Clock): Resolved {
    match r
    case NowRef => if now == NoClock then Unresolved(InvalidSyntax) else Instant(now.ns)
    case InstantRef(ns) => Instant(ns)
    case FieldRef(field) =>
      if field !in facts then Unresolved(UnknownFact)
      else if Stale(field, facts, index, now) then Unresolved(ExpiredEvidence)
      else
        match TimeFact(facts[field])
        case None => Unresolved(TypeMismatch)
        case Some(ns) => Instant(ns)
  }

  function ReferenceOf(relation: Relation): Reference {
    if relation.AgeLte? || relation.AgeGte? then NowRef else relation.reference
  }

  function EvaluateRelation(relation: Relation, actual: int, reference: int, now: Clock): Check {
    match relation
    case Before(_) => Verdict(actual < reference)
    case After(_) => Verdict(actual > reference)
    case WithinBefore(seconds, _) =>
      if reference - seconds * Second <= actual <= reference then Verdict(true) else Failed(ExpiredEvidence)
    case WithinAfter(seconds, _) =>
      if reference <= actual <= reference + seconds * Second then Verdict(true) else Failed(ExpiredEvidence)
    case AgeLte(seconds) =>
      if now == NoClock || actual > now.ns then Failed(UnknownFact)
      else if SaturatingSub(now.ns, actual) <= seconds * Second then Verdict(true)
      else Failed(ExpiredEvidence)
    case AgeGte(seconds) =>
      if now == NoClock || actual > now.ns then Failed(UnknownFact)
      else Verdict(SaturatingSub(now.ns, actual) >= seconds * Second)
  }

  function EvaluateTemporal(field: string, relation: Relation, facts: Facts, index: Index, now: Clock): Check {
    if field !in facts then Failed(UnknownFact)
    else
      match TimeFact(facts[field])
      case None => Failed(TypeMismatch)
      case Some(actual) =>
        if FieldExpired(field, facts, index, now) then Failed(ExpiredEvidence)
        else
          match ResolveReference(ReferenceOf(relation), facts, index, now)
          case Unresolved(reason) => Failed(reason)
          case Instant(reference) => EvaluateRelation(relation, actual, reference, now)
  }

  // ---- quorums ----

  function CountPresent(names: seq<string>, facts: Facts, index: Index, now: Clock): nat {
    if names == [] then 0
    else CountPresent(names[..|names| - 1], facts, index, now) + if Present(facts, names[|names| - 1], index, now) then 1 else 0
  }

  function CountTruthy(names: seq<string>, facts: Facts): nat {
    if names == [] then 0
    else CountTruthy(names[..|names| - 1], facts) + if Truthy(facts, names[|names| - 1]) then 1 else 0
  }

  function Shortfall(staleIsTheShortfall: bool): Check {
    Failed(if staleIsTheShortfall then ExpiredEvidence else QuorumNotMet)
  }

  /** A count passes on its fresh providers; it is expired when the stale ones would have completed it. */
  function EvaluateCount(providers: seq<string>, threshold: int, facts: Facts, index: Index, now: Clock): Check {
    if CountPresent(providers, facts, index, now) >= threshold then Verdict(true)
    else Shortfall(CountTruthy(providers, facts) >= threshold)
  }

  predicate AnyStale(e: Expr, facts: Facts, index: Index, now: Clock) {
    exists i :: 0 <= i < |Leaves(e)| && Stale(NormalizeIdentifier(Leaves(e)[i]), facts, index, now)
  }

  function EvaluateExpression(e: Expr, facts: Facts, index: Index, now: Clock): Check {
    if EvalQuorum(e, facts, index, now, Enforce) == True then Verdict(true)
    else Shortfall(AnyStale(e, facts, index, now) && EvalQuorum(e, facts, index, now, AssumeFresh) == True)
  }

  /** The provider loop of the count form: fresh and stale providers are tallied separately. */
  method TallyCount(providers: seq<string>, threshold: int, facts: Facts, index: Index, now: Clock) returns (check: Check)
    ensures check == EvaluateCount(providers, threshold, facts, index, now)
  {
    var current, aged := 0, 0;
    for i := 0 to |providers|
      invariant current == CountPresent(providers[..i], facts, index, now)
      invariant current + aged == CountTruthy(providers[..i], facts)
    {
      assert providers[..i + 1][..i] == providers[..i];
      if Present(facts, providers[i], index, now) {
        current := current + 1;
      } else if Truthy(facts, providers[i]) {
        aged := aged + 1;
      }
    }
    assert providers[..|providers|] == providers;
    if current >= threshold {
      return Verdict(true);
    }
    return Shortfall(current + aged >= threshold);
  }

  // ---- any predicate ----

  function EvaluatePredicate(p: Predicate, facts: Facts, index: Index, now: Clock): Check {
    match p
    case Count(providers, threshold) => EvaluateCount(providers, threshold, facts, index, now)
    case Quorum(e) => EvaluateExpression(e, facts, index, now)
    case Temporal(field, relation) => EvaluateTemporal(field, relation, facts, index, now)
    case _ =>
      if p.field !in facts then Failed(UnknownFact)
      else if FieldExpired(p.field, facts, index, now) then Failed(ExpiredEvidence)
      else
        match p
        case Block(_) => EvaluateBlock(facts[p.field])
        case NeedSignal(_, op, reference) => EvaluateNeedSignal(facts[p.field], op, reference, facts, index, now)
        case Need(_, op, expected) => Compare(facts[p.field], op, expected)
        case _ => Failed(InvalidSyntax)
  }

  lemma OneProviderCounts(c: string, f: Facts, index: Index, now: Clock)
    ensures EvaluatePredicate(Count([c], 1), f, index, now).passed == Present(f, c, index, now)
  {
    assert [c][..0] == [];
    assert CountPresent([], f, index, now) == 0;
    assert CountPresent([c], f, index, now) == if Present(f, c, index, now) then 1 else 0;
  }
}
