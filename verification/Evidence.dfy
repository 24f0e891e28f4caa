/** Facts, the clock, and how old evidence is judged. */
module Evidence {
  import opened Names
  import opened QuorumSyntax
  import opened Kleene

  datatype Option<+T> = None | Some(value: T)

  /** A float64 up to rounding. */
  datatype Num = Finite(v: real) | PosInf | NegInf | NotANumber

  /** A fact's value. A text carries the instant RFC 3339 parsing gives it, when it gives one. */
  datatype Value =
    | BoolV(b: bool)
    | NumV(n: Num)
    | TextV(text: string, instant: Option<int>)
    | TimeV(ns: int)
    | OtherV

  type Facts = map<string, Value>

  /** The evaluation instant in nanoseconds, or the zero time of a clockless evaluation. */
  datatype Clock = NoClock | At(ns: int)

  const Second: int := 1_000_000_000

  // ---- fact keys ----

  datatype Prefix = Plain | Provider | ProviderColon | RuleOf | ClusterOf | ObservedAt

  function PrefixText(p: Prefix): string {
    match p
    case Plain => ""
    case Provider => "provider."
    case ProviderColon => "provider:"
    case RuleOf => "rule."
    case ClusterOf => "cluster."
    case ObservedAt => "observed_at."
  }

  function Key(p: Prefix, name: string): string {
    if p == Plain then name else PrefixText(p) + name
  }

  /** A canonical name that does not start like one of the derived keys. */
  predicate Clean(name: string) {
    IsCanonical(name) &&
    !("observed_at." <= name) && !("provider." <= name) && !("rule." <= name) && !("cluster." <= name)
  }

  /** Derived keys of clean names never collide. */
  lemma KeysDistinct(p: Prefix, m: string, q: Prefix, n: string)
    requires Clean(m) && Clean(n)
    ensures Key(p, m) == Key(q, n) ==> p == q && m == n
  {
    if p == q {
      var k := |PrefixText(p)|;
      assert m == Key(p, m)[k..] && n == Key(q, n)[k..];
    } else if p == Plain {
      PlainIsNoPrefix(m, q, n);
    } else if q == Plain {
      PlainIsNoPrefix(n, p, m);
    } else {
      assert Key(p, m)[0] == PrefixText(p)[0] && Key(q, n)[0] == PrefixText(q)[0];
      if PrefixText(p)[0] == PrefixText(q)[0] {
        assert Key(p, m)[8] == PrefixText(p)[8] && Key(q, n)[8] == PrefixText(q)[8];
      }
    }
  }

  lemma PlainIsNoPrefix(m: string, q: Prefix, n: string)
    requires Clean(m) && q != Plain
    ensures m != Key(q, n) && Key(Plain, m) == m
  {
    assert Key(q, n)[..|PrefixText(q)|] == PrefixText(q);
    if q == ProviderColon {
      assert Key(q, n)[8] == ':';
      assert |m| > 8 ==> IsNameChar(m[8]);
    }
  }

  // ---- expiry ----

  datatype FieldKind = NumberKind | BoolKind | TextKind | TimeKind

  /** An expiry keeps its literal; `Until` also holds the instant the literal parses to, if it does. */
  datatype Expiry = Ttl(literal: string, seconds: int) | Until(literal: string, instant: Option<int>) | Unlimited

  datatype Signal = Signal(name: string, kind: FieldKind, expiry: Expiry)

  function TimeFact(v: Value): Option<int> {
    match v
    case TimeV(ns) => Some(ns)
    case TextV(_, instant) => instant
    case _ => None
  }

  /** A declared expiry has lapsed, or cannot be shown not to have. */
  predicate Expired(s: Signal, facts: Facts, now: Clock) {
    match s.expiry
    case Unlimited => false
    case Until(_, instant) => now == NoClock || instant == None || now.ns > instant.value
    case Ttl(_, seconds) =>
      seconds > 0 &&
      (now == NoClock || Key(ObservedAt, s.name) !in facts ||
       var observed := TimeFact(facts[Key(ObservedAt, s.name)]);
       observed == None || observed.value > now.ns || now.ns > observed.value + seconds * Second)
  }

  /** Which declared signals govern a name: the signal itself, or a collector's signals. */
  datatype Index = Index(signals: map<string, Signal>, collectors: map<string, seq<Signal>>)

  predicate InPlay(s: Signal, facts: Facts) {
    s.name in facts || Key(ObservedAt, s.name) in facts
  }

  predicate FieldExpired(name: string, facts: Facts, index: Index, now: Clock) {
    name in index.signals && Expired(index.signals[name], facts, now)
  }

  predicate CollectorStale(name: string, facts: Facts, index: Index, now: Clock) {
    name in index.collectors &&
    exists i :: 0 <= i < |index.collectors[name]| &&
      InPlay(index.collectors[name][i], facts) && Expired(index.collectors[name][i], facts, now)
  }

  predicate Stale(name: string, facts: Facts, index: Index, now: Clock) {
    FieldExpired(name, facts, index, now) || CollectorStale(name, facts, index, now)
  }

  // ---- quorum subjects ----

  function AliasKeys(name: string): seq<string> {
    [Key(Plain, name), Key(Provider, name), Key(ProviderColon, name), Key(RuleOf, name), Key(ClusterOf, name)]
  }

  function FirstValue(facts: Facts, keys: seq<string>): Option<Value> {
    if keys == [] then None
    else if keys[0] in facts then Some(facts[keys[0]])
    else FirstValue(facts, keys[1..])
  }

  predicate Blank(s: string) {
    forall i :: 0 <= i < |s| ==> IsSpace(s[i])
  }

  predicate TruthyValue(v: Value) {
    match v
    case BoolV(b) => b
    case TextV(text, _) => !Blank(text)
    case NumV(n) => n != Finite(0.0)
    case _ => false
  }

  /** What the facts hold for a subject, under the first of its spellings that is present. */
  function SubjectValue(facts: Facts, name: string): Option<Value> {
    FirstValue(facts, AliasKeys(name))
  }

  predicate Truthy(facts: Facts, name: string) {
    SubjectValue(facts, name).Some? && TruthyValue(SubjectValue(facts, name).value)
  }

  predicate Present(facts: Facts, name: string, index: Index, now: Clock) {
    Truthy(facts, name) && !Stale(name, facts, index, now)
  }

  datatype Freshness = Enforce | AssumeFresh

  function Reading(facts: Facts, name: string, index: Index, now: Clock, mode: Freshness): Tri {
    if SubjectValue(facts, name) == None then Unknown
    else if mode == Enforce && Stale(name, facts, index, now) then Unknown
    else if Truthy(facts, name) then True
    else False
  }

  function EvalQuorum(e: Expr, facts: Facts, index: Index, now: Clock, mode: Freshness): Tri {
    Evaluate(e, name => Reading(facts, name, index, now, mode))
  }

  // ---- what a fact map says about a name ----

  /** The two fact maps agree at `key`. */
  ghost predicate SameAt(f: Facts, g: Facts, key: string) {
    (key in f <==> key in g) && (key in f ==> f[key] == g[key])
  }

  ghost predicate SameKeys(f: Facts, g: Facts, keys: seq<string>) {
    forall i :: 0 <= i < |keys| ==> SameAt(f, g, keys[i])
  }

  lemma {:induction false} SameFirstValue(f: Facts, g: Facts, keys: seq<string>)
    requires SameKeys(f, g, keys)
    ensures FirstValue(f, keys) == FirstValue(g, keys)
  {
    if keys != [] {
      assert SameAt(f, g, keys[0]);
      assert SameKeys(f, g, keys[1..]) by {
        assert forall i :: 0 <= i < |keys[1..]| ==> keys[1..][i] == keys[i + 1];
      }
      SameFirstValue(f, g, keys[1..]);
    }
  }

  /** Trees whose subjects read alike evaluate alike. */
  lemma {:induction false} EvaluateCongruent(e: Expr, v: string -> Tri, w: string -> Tri, names: set<string>)
    requires SubjectsWithin(e, names)
    requires forall n :: n in names ==> v(n) == w(n)
    ensures Evaluate(e, v) == Evaluate(e, w)
  {
    match e
    case Malformed =>
    case Subject(_) =>
    case Not(x) => EvaluateCongruent(x, v, w, names);
    case Binary(_, l, r) =>
      EvaluateCongruent(l, v, w, names);
      EvaluateCongruent(r, v, w, names);
  }

  /** Every subject of `e` folds to one of `names`. */
  predicate SubjectsWithin(e: Expr, names: set<string>) {
    match e
    case Malformed => true
    case Subject(name) => NormalizeIdentifier(name) in names
    case Not(x) => SubjectsWithin(x, names)
    case Binary(_, l, r) => SubjectsWithin(l, names) && SubjectsWithin(r, names)
  }
}
