/** What the compiler checks before it accepts a bundle. */
module Analysis {
  import opened Names
  import opened QuorumSyntax
  import opened QuorumRoundTrip
  import opened QuorumNormal
  import opened Evidence
  import opened Predicates
  import opened Bundles
  import Durations

  // ---- symbols ----

  datatype SymbolKind = RuleSymbol | ClusterSymbol | CollectorSymbol | SignalSymbol | KernelSymbol

  datatype Symbol = Symbol(kind: SymbolKind, name: string, kindOfValue: FieldKind)

  const KernelFact: string := "min_provider_trust"

  predicate CompatibleSymbol(existing: Symbol, next: Symbol) {
    existing.kind == SignalSymbol && next.kind == SignalSymbol && existing.kindOfValue == next.kindOfValue
  }

  /** A name is declared twice only as a signal of one type. */
  ghost predicate Unambiguous(symbols: seq<Symbol>) {
    forall i, j {:trigger Agree(symbols, i, j)} :: 0 <= i < j < |symbols| ==> Agree(symbols, i, j)
  }

  predicate Agree(symbols: seq<Symbol>, i: nat, j: nat)
    requires i < |symbols| && j < |symbols|
  {
    symbols[i].name == symbols[j].name ==> CompatibleSymbol(symbols[i], symbols[j])
  }

  class SemanticBuilder {
    var symbols: seq<Symbol>
    var byName: map<string, Symbol>

    ghost predicate Valid()
      reads this
    {
      Unambiguous(symbols) &&
      (forall s :: s in symbols ==> s.name in byName) &&
      (forall n :: n in byName ==> byName[n] in symbols && byName[n].name == n)
    }

    constructor ()
      ensures Valid() && symbols == []
    {
      symbols := [];
      byName := map[];
    }

    /** Rejects exactly the symbols that would make a name ambiguous, and then changes nothing. */
    method Add(symbol: Symbol) returns (ok: bool)
      requires Valid()
      modifies this
      ensures Valid()
      ensures ok == Unambiguous(old(symbols) + [symbol])
      ensures symbols == if ok then old(symbols) + [symbol] else old(symbols)
    {
      var after := symbols + [symbol];
      if symbol.name in byName {
        var existing := byName[symbol.name];
        ghost var k :| 0 <= k < |symbols| && symbols[k] == existing;
        assert after[k] == existing && after[|symbols|] == symbol;
        if CompatibleSymbol(existing, symbol) {
          forall i | 0 <= i < |symbols| && symbols[i].name == symbol.name
            ensures CompatibleSymbol(symbols[i], symbol)
          {
            assert (i < k ==> Agree(symbols, i, k)) && (k < i ==> Agree(symbols, k, i));
          }
          AppendKeepsUnambiguous(symbols, symbol);
          symbols := after;
          return true;
        }
        assert !Agree(after, k, |symbols|);
        return false;
      }
      AppendKeepsUnambiguous(symbols, symbol);
      byName := byName[symbol.name := symbol];
      symbols := after;
      return true;
    }
  }

  lemma AppendKeepsUnambiguous(symbols: seq<Symbol>, symbol: Symbol)
    requires Unambiguous(symbols)
    requires forall i :: 0 <= i < |symbols| && symbols[i].name == symbol.name ==> CompatibleSymbol(symbols[i], symbol)
    ensures Unambiguous(symbols + [symbol])
  {
    var all := symbols + [symbol];
    forall i, j | 0 <= i < j < |all|
      ensures Agree(all, i, j)
    {
      assert j < |symbols| ==> Agree(symbols, i, j);
    }
  }

  lemma PrefixUnambiguous(a: seq<Symbol>, b: seq<Symbol>)
    requires Unambiguous(a + b)
    ensures Unambiguous(a)
  {
    forall i, j | 0 <= i < j < |a|
      ensures Agree(a, i, j)
    {
      assert Agree(a + b, i, j);
    }
  }

  /** Adding symbols one by one succeeds exactly when the whole list is unambiguous. */
  method AddAll(all: seq<Symbol>) returns (ok: bool)
    ensures ok == Unambiguous(all)
  {
    var builder := new SemanticBuilder();
    for i := 0 to |all|
      invariant builder.Valid() && builder.symbols == all[..i]
      invariant fresh(builder)
    {
      assert all[..i + 1] == all[..i] + [all[i]];
      assert all == all[..i + 1] + all[i + 1..];
      var added := builder.Add(all[i]);
      if !added {
        if Unambiguous(all) {
          PrefixUnambiguous(all[..i + 1], all[i + 1..]);
        }
        return false;
      }
    }
    assert all[..|all|] == all;
    return true;
  }

  function SignalSymbols(signals: seq<Signal>): seq<Symbol> {
    if signals == [] then []
    else [Symbol(SignalSymbol, signals[0].name, signals[0].kind)] + SignalSymbols(signals[1..])
  }

  function CollectorSymbols(collectors: seq<Collector>): seq<Symbol> {
    if collectors == [] then []
    else
      [Symbol(CollectorSymbol, collectors[0].name, BoolKind)] + SignalSymbols(collectors[0].signals) + CollectorSymbols(collectors[1..])
  }

  function RuleSymbols(rules: seq<Rule>): seq<Symbol> {
    if rules == [] then []
    else [Symbol(RuleSymbol, rules[0].name, BoolKind)] + CollectorSymbols(rules[0].collectors) + RuleSymbols(rules[1..])
  }

  function ClusterSymbols(clusters: seq<Cluster>): seq<Symbol> {
    if clusters == [] then [] else [Symbol(ClusterSymbol, clusters[0].name, BoolKind)] + ClusterSymbols(clusters[1..])
  }

  /** Every symbol in the order the analyser adds them. */
  function SymbolsOf(b: Bundle): seq<Symbol> {
    [Symbol(KernelSymbol, KernelFact, NumberKind)] + RuleSymbols(b.rules) + ClusterSymbols(b.clusters)
  }

  // ---- names by kind ----

  function RuleNames(b: Bundle): set<string> {
    set r | r in b.rules :: r.name
  }

  function ClusterNames(b: Bundle): set<string> {
    set c | c in b.clusters :: c.name
  }

  function CollectorNames(b: Bundle): set<string> {
    set r, c | r in b.rules && c in r.collectors :: c.name
  }

  function SignalNames(b: Bundle): set<string> {
    set r, c, s | r in b.rules && c in r.collectors && s in c.signals :: s.name
  }

  /** Names whose facts are supplied from outside. */
  function EvidenceNames(b: Bundle): set<string> {
    SignalNames(b) + CollectorNames(b) + {KernelFact}
  }

  /** Names the run itself publishes. */
  function PublishedNames(b: Bundle): set<string> {
    RuleNames(b) + ClusterNames(b)
  }

  ghost predicate DeclaredAs(b: Bundle, n: string, kind: SymbolKind) {
    exists x :: x in SymbolsOf(b) && x.name == n && x.kind == kind
  }

  lemma SymbolAt(b: Bundle, n: string, kind: SymbolKind) returns (i: nat)
    requires DeclaredAs(b, n, kind)
    ensures i < |SymbolsOf(b)| && SymbolsOf(b)[i].name == n && SymbolsOf(b)[i].kind == kind
  {
    var x :| x in SymbolsOf(b) && x.name == n && x.kind == kind;
    i :| 0 <= i < |SymbolsOf(b)| && SymbolsOf(b)[i] == x;
  }

  lemma OneKindPerName(b: Bundle, n: string, k: SymbolKind, m: SymbolKind)
    requires Unambiguous(SymbolsOf(b)) && DeclaredAs(b, n, k) && DeclaredAs(b, n, m)
    ensures k == m
  {
    var all := SymbolsOf(b);
    var i := SymbolAt(b, n, k);
    var j := SymbolAt(b, n, m);
    assert (i < j ==> Agree(all, i, j)) && (j < i ==> Agree(all, j, i));
  }

  lemma DeclaredNames(b: Bundle, n: string)
    ensures n in RuleNames(b) ==> DeclaredAs(b, n, RuleSymbol)
    ensures n in ClusterNames(b) ==> DeclaredAs(b, n, ClusterSymbol)
    ensures n in CollectorNames(b) ==> DeclaredAs(b, n, CollectorSymbol)
    ensures n in SignalNames(b) ==> DeclaredAs(b, n, SignalSymbol)
    ensures n == KernelFact ==> DeclaredAs(b, n, KernelSymbol)
  {
    var all := SymbolsOf(b);
    assert all[0] == Symbol(KernelSymbol, KernelFact, NumberKind);
    if n in RuleNames(b) {
      var r :| r in b.rules && r.name == n;
      RuleIsSymbol(b.rules, r);
      assert Symbol(RuleSymbol, n, BoolKind) in all;
    }
    if n in ClusterNames(b) {
      var c :| c in b.clusters && c.name == n;
      ClusterIsSymbol(b.clusters, c);
      assert Symbol(ClusterSymbol, n, BoolKind) in all;
    }
    if n in CollectorNames(b) {
      var r, c :| r in b.rules && c in r.collectors && c.name == n;
      DeclaredInRule(b, r, c);
      assert Symbol(CollectorSymbol, n, BoolKind) in all;
    }
    if n in SignalNames(b) {
      var r, c, s :| r in b.rules && c in r.collectors && s in c.signals && s.name == n;
      DeclaredInRule(b, r, c);
      assert Symbol(SignalSymbol, n, s.kind) in all;
    }
  }

  lemma {:induction false} SignalIsSymbol(signals: seq<Signal>, x: Signal)
    requires x in signals
    ensures Symbol(SignalSymbol, x.name, x.kind) in SignalSymbols(signals)
  {
    if x != signals[0] {
      SignalIsSymbol(signals[1..], x);
    }
  }

  lemma {:induction false} CollectorIsSymbol(collectors: seq<Collector>, c: Collector)
    requires c in collectors
    ensures Symbol(CollectorSymbol, c.name, BoolKind) in CollectorSymbols(collectors)
    ensures forall x :: x in c.signals ==> Symbol(SignalSymbol, x.name, x.kind) in CollectorSymbols(collectors)
  {
    if c != collectors[0] {
      CollectorIsSymbol(collectors[1..], c);
    } else {
      forall x | x in c.signals
        ensures Symbol(SignalSymbol, x.name, x.kind) in CollectorSymbols(collectors)
      {
        SignalIsSymbol(c.signals, x);
      }
    }
  }

  lemma {:induction false} RuleIsSymbol(rules: seq<Rule>, r: Rule)
    requires r in rules
    ensures Symbol(RuleSymbol, r.name, BoolKind) in RuleSymbols(rules)
    ensures forall x :: x in CollectorSymbols(r.collectors) ==> x in RuleSymbols(rules)
  {
    if r != rules[0] {
      RuleIsSymbol(rules[1..], r);
    }
  }

  lemma {:induction false} ClusterIsSymbol(clusters: seq<Cluster>, c: Cluster)
    requires c in clusters
    ensures Symbol(ClusterSymbol, c.name, BoolKind) in ClusterSymbols(clusters)
  {
    if c != clusters[0] {
      ClusterIsSymbol(clusters[1..], c);
    }
  }

  lemma DeclaredInRule(b: Bundle, r: Rule, c: Collector)
    requires r in b.rules && c in r.collectors
    ensures Symbol(CollectorSymbol, c.name, BoolKind) in SymbolsOf(b)
    ensures forall s :: s in c.signals ==> Symbol(SignalSymbol, s.name, s.kind) in SymbolsOf(b)
  {
    RuleIsSymbol(b.rules, r);
    CollectorIsSymbol(r.collectors, c);
  }

  lemma NamesAreDisjoint(b: Bundle)
    requires Unambiguous(SymbolsOf(b))
    ensures RuleNames(b) !! ClusterNames(b)
    ensures EvidenceNames(b) !! PublishedNames(b)
    ensures SignalNames(b) !! CollectorNames(b)
    ensures KernelFact !in SignalNames(b) && KernelFact !in CollectorNames(b)
  {
    forall n, k, m | DeclaredAs(b, n, k) && DeclaredAs(b, n, m)
      ensures k == m
    {
      OneKindPerName(b, n, k, m);
    }
    forall n
      ensures n in RuleNames(b) ==> n !in ClusterNames(b) && n !in EvidenceNames(b)
      ensures n in ClusterNames(b) ==> n !in EvidenceNames(b)
      ensures n in SignalNames(b) ==> n !in CollectorNames(b)
      ensures n == KernelFact ==> n !in SignalNames(b) && n !in CollectorNames(b)
    {
      DeclaredNames(b, n);
    }
  }

  // ---- predicates in scope ----

  /** What a predicate may refer to at its level. */
  datatype Scope = Scope(signals: map<string, FieldKind>, collectors: set<string>, rules: set<string>, clusters: set<string>)

  function KindOf(field: string, scope: Scope): Option<FieldKind> {
    if field == KernelFact then Some(NumberKind)
    else if field in scope.signals then Some(scope.signals[field])
    else if field in scope.rules || field in scope.clusters then Some(BoolKind)
    else None
  }

  function LiteralKind(l: Literal): FieldKind {
    match l case NumberLit(_) => NumberKind case BoolLit(_) => BoolKind case TextLit(_) => TextKind
  }

  /** `validateBundlePredicate` */
  predicate InScope(p: Predicate, scope: Scope) {
    match p
    case NeedSignal(field, _, reference) =>
      field in scope.signals && scope.signals[field] == NumberKind &&
      reference in scope.signals && scope.signals[reference] == NumberKind
    case Need(field, op, expected) =>
      KindOf(field, scope) == Some(LiteralKind(expected)) && (expected.NumberLit? || op == Eq || op == Ne)
    case Block(field) => KindOf(field, scope) == Some(BoolKind) || KindOf(field, scope) == Some(NumberKind)
    case Temporal(field, relation) =>
      KindOf(field, scope) == Some(TimeKind) &&
      (ReferenceOf(relation).FieldRef? ==> KindOf(ReferenceOf(relation).field, scope) == Some(TimeKind))
    case Quorum(e) => forall n :: n in Leaves(e) ==> n in scope.collectors || KindOf(n, scope).Some?
    case Count(providers, _) =>
      forall n :: n in providers ==> n in scope.collectors || n in scope.rules || n in scope.clusters
  }

  /** What `normalizePredicate` leaves behind. */
  predicate Normalized(p: Predicate) {
    match p
    case Quorum(e) => NormalForm(e)
    case Count(providers, threshold) =>
      1 <= threshold <= |providers| && forall i, j :: 0 <= i < j < |providers| ==> providers[i] != providers[j]
    case _ => true
  }

  predicate AllInScope(ps: seq<Predicate>, scope: Scope) {
    forall p :: p in ps ==> Normalized(p) && InScope(p, scope)
  }

  lemma CountOfOne(n: string, scope: Scope)
    requires n in scope.collectors
    ensures Normalized(Count([n], 1)) && InScope(Count([n], 1), scope)
  {
  }

  function SignalKinds(b: Bundle): map<string, FieldKind> {
    var m := IndexSignals(AllSignals(AllCollectors(b.rules)));
    map n | n in m :: m[n].kind
  }

  function RuleScope(b: Bundle): Scope {
    Scope(SignalKinds(b), CollectorNames(b), {}, {})
  }

  function ClusterScope(b: Bundle): Scope {
    RuleScope(b).(rules := RuleNames(b))
  }

  function GlobalScope(b: Bundle): Scope {
    ClusterScope(b).(clusters := ClusterNames(b))
  }

  // ---- polarity ----

  /** The first rule or cluster found under an odd number of negations. */
  function NegatedRuleOrCluster(e: Expr, published: set<string>, negated: bool): Option<string> {
    match e
    case Malformed => None
    case Subject(name) => if negated && NormalizeIdentifier(name) in published then Some(name) else None
    case Not(x) => NegatedRuleOrCluster(x, published, !negated)
    case Binary(_, l, r) =>
      var left := NegatedRuleOrCluster(l, published, negated);
      if left.Some? then left else NegatedRuleOrCluster(r, published, negated)
  }

  predicate NegativeBoolNeed(op: CompareOp, expected: Literal) {
    expected.BoolLit? && ((op == Eq && !expected.b) || (op == Ne && expected.b))
  }

  /** The predicate gates on a rule or cluster failing. */
  predicate Inverted(p: Predicate, published: set<string>) {
    match p
    case Block(field) => field in published
    case Need(field, op, expected) => field in published && NegativeBoolNeed(op, expected)
    case Quorum(e) => NegatedRuleOrCluster(e, published, false).Some?
    case _ => false
  }

  predicate MonotoneIn(ps: seq<Predicate>, published: set<string>) {
    forall p :: p in ps ==> !Inverted(p, published)
  }

  // ---- acceptance ----

  /** The same signal name carries the same expiry, literal included, wherever it is declared. */
  ghost predicate ConsistentExpiry(signals: seq<Signal>) {
    forall i, j :: 0 <= i < j < |signals| && signals[i].name == signals[j].name ==> signals[i].expiry == signals[j].expiry
  }

  method ValidateSignalExpiry(signals: seq<Signal>) returns (ok: bool)
    ensures ok == ConsistentExpiry(signals)
  {
    var seen: map<string, Expiry> := map[];
    for i := 0 to |signals|
      invariant ConsistentExpiry(signals[..i])
      invariant forall k :: 0 <= k < i ==> signals[k].name in seen && seen[signals[k].name] == signals[k].expiry
      invariant forall n :: n in seen ==> exists k :: 0 <= k < i && signals[k].name == n
    {
      var s := signals[i];
      if s.name in seen {
        if seen[s.name] != s.expiry {
          var k :| 0 <= k < i && signals[k].name == s.name;
          return false;
        }
      } else {
        seen := seen[s.name := s.expiry];
      }
      assert forall k :: 0 <= k < i ==> signals[..i + 1][k] == signals[..i][k];
    }
    assert signals[..|signals|] == signals;
    return true;
  }

  predicate RuleShape(r: Rule, b: Bundle) {
    r.predicates != [] && r.collectors != [] &&
    (forall c :: c in r.collectors ==> c.signals != []) &&
    AllInScope(r.predicates, RuleScope(b))
  }

  predicate ClusterShape(c: Cluster, b: Bundle) {
    c.rules != [] && c.predicates != [] &&
    (forall r :: r in c.rules ==> r in RuleNames(b)) &&
    AllInScope(c.predicates, ClusterScope(b))
  }

  ghost predicate DistinctCollectors(cs: seq<Collector>) {
    forall i, j :: 0 <= i < j < |cs| ==> cs[i].name != cs[j].name
  }

  ghost predicate DistinctRules(b: Bundle) {
    forall i, j :: 0 <= i < j < |b.rules| ==> b.rules[i].name != b.rules[j].name
  }

  ghost predicate DistinctClusters(b: Bundle) {
    forall i, j :: 0 <= i < j < |b.clusters| ==> b.clusters[i].name != b.clusters[j].name
  }

  /** `normalizeBundle` on a bundle that is already in its normalised form. */
  ghost predicate WellShaped(b: Bundle) {
    b.rules != [] &&
    DistinctRules(b) && DistinctClusters(b) && DistinctCollectors(AllCollectors(b.rules)) &&
    (forall r {:trigger RuleShape(r, b)} :: r in b.rules ==> RuleShape(r, b)) &&
    (forall c {:trigger ClusterShape(c, b)} :: c in b.clusters ==> ClusterShape(c, b)) &&
    AllInScope(b.predicates, GlobalScope(b))
  }

  /** The structural half of `validateFinalPolicyMonotone`. */
  ghost predicate Monotone(b: Bundle) {
    (forall c :: c in b.clusters ==> MonotoneIn(c.predicates, PublishedNames(b))) &&
    MonotoneIn(b.predicates, PublishedNames(b))
  }

  /** The instant the compiler probes a final policy at: 2000-01-01T00:00:00Z. */
  const ProbeClock: Clock := At(946_684_800 * Second)

  /** The other half: the policy must withhold on empty facts. */
  ghost predicate ProbeWithholds(b: Bundle) {
    b.predicates != [] ==> !EvalBundle(b, map[], ProbeClock).authorized
  }

  /** Everything acceptance requires except the probe. */
  ghost predicate PassesStructure(b: Bundle) {
    WellShaped(b) && Monotone(b) &&
    ConsistentExpiry(AllSignals(AllCollectors(b.rules))) && Unambiguous(SymbolsOf(b))
  }

  ghost predicate Accepted(b: Bundle) {
    PassesStructure(b) && ProbeWithholds(b)
  }

  // ---- independent quorums, reachable policies ----

  function QuorumSubjects(p: Predicate): seq<string> {
    match p
    case Quorum(e) => Leaves(e)
    case Count(providers, _) => providers
    case _ => []
  }

  /** `validateQuorumSourceIndependence`: no two subjects of a quorum are collectors of one source. */
  ghost predicate Independent(p: Predicate, collectors: seq<Collector>) {
    forall c, d :: c in collectors && d in collectors && c.name in QuorumSubjects(p) && d.name in QuorumSubjects(p) && c.name != d.name ==>
      c.source != d.source
  }

  ghost predicate AllIndependent(ps: seq<Predicate>, collectors: seq<Collector>) {
    forall p :: p in ps ==> Independent(p, collectors)
  }

  ghost predicate IndependentQuorums(b: Bundle) {
    (forall r :: r in b.rules ==> AllIndependent(r.predicates, AllCollectors(b.rules))) &&
    (forall c :: c in b.clusters ==> AllIndependent(c.predicates, AllCollectors(b.rules))) &&
    AllIndependent(b.predicates, AllCollectors(b.rules))
  }

  lemma OneSubjectIsIndependent(p: Predicate, n: string, collectors: seq<Collector>)
    requires forall m :: m in QuorumSubjects(p) ==> m == n
    ensures Independent(p, collectors)
  {
  }

  function PolicySubjects(p: Predicate): seq<string> {
    match p
    case Need(field, _, _) => [field]
    case Block(field) => [field]
    case NeedSignal(field, _, reference) => [field, reference]
    case Temporal(_, _) => []
    case _ => QuorumSubjects(p)
  }

  ghost predicate NamedByPolicy(b: Bundle, n: string) {
    exists p :: p in b.predicates && n in PolicySubjects(p)
  }

  /** `validateFinalPolicyReachability`: a final policy requires something, and reaches every rule and cluster. */
  ghost predicate ReachesAll(b: Bundle) {
    b.predicates != [] ==>
      (exists p :: p in b.predicates && !p.Block?) &&
      (forall c :: c in b.clusters ==> NamedByPolicy(b, c.name)) &&
      (forall r :: r in b.rules ==> NamedByPolicy(b, r.name) || exists c :: c in b.clusters && r.name in c.rules)
  }

  // ---- what every rule and collector must state ----

  /** An expiry with a literal the compiler can read. */
  predicate Readable(e: Expiry) {
    match e
    case Ttl(literal, seconds) => Durations.ParseDurationSeconds(literal) == Some(seconds)
    case Until(_, instant) => instant.Some?
    case Unlimited => false
  }

  predicate CollectorStated(c: Collector) {
    c.source != "" && (forall s :: s in c.signals ==> Readable(s.expiry)) &&
    forall i, j :: 0 <= i < j < |c.signals| ==> c.signals[i].name != c.signals[j].name
  }

  /** Every rule has a target, every collector a source and signals of its own with an expiry. */
  ghost predicate FieldsStated(b: Bundle) {
    (forall r :: r in b.rules ==> IsCanonical(r.target)) &&
    forall c :: c in AllCollectors(b.rules) ==> CollectorStated(c)
  }

  /** The compiler takes the bundle: the checks above, and the ones that no result about evaluation needs. */
  ghost predicate Compiles(b: Bundle) {
    Accepted(b) && FieldsStated(b) && IndependentQuorums(b) && ReachesAll(b)
  }

  /** No declared name is spelled like a key the evaluator derives. */
  ghost predicate CleanNames(b: Bundle) {
    forall n :: n in EvidenceNames(b) + PublishedNames(b) ==> Clean(n)
  }

  /** Names are distinct, unambiguous and clean. */
  ghost predicate WellNamed(b: Bundle) {
    Unambiguous(SymbolsOf(b)) && CleanNames(b) && DistinctRules(b) && DistinctClusters(b)
  }
}
