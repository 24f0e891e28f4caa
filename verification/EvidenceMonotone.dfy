/** Authorization is kept when facts are supplemented: when what was fresh stays fresh and what was known
    stays known. The polarity check lets a verdict stand only where its rise cannot take truth away, so a
    passed check stays passed, through rules, clusters and the final policy. Which facts supplement which
    is a question of its own: a stale signal added to a collector makes a known collector unknown. */
module EvidenceMonotone {
  import opened Names
  import opened QuorumSyntax
  import opened QuorumNormal
  import opened Kleene
  import opened Evidence
  import opened Predicates
  import opened Bundles
  import opened Analysis
  import opened Layering
  import opened LayerIndependence

  function FieldNames(b: Bundle): set<string> {
    SignalNames(b) + {KernelFact}
  }

  /** Whatever `f` holds fresh for the name, `g` holds fresh too, with the same value. */
  ghost predicate KeepsField(f: Facts, g: Facts, n: string, index: Index, now: Clock) {
    n in f && !FieldExpired(n, f, index, now) ==> n in g && g[n] == f[n] && !FieldExpired(n, g, index, now)
  }

  /** A subject `f` already knows reads the same in `g`. */
  ghost predicate KeepsReading(f: Facts, g: Facts, n: string, index: Index, now: Clock) {
    Reading(f, n, index, now, Enforce) != Unknown ==>
      Reading(g, n, index, now, Enforce) == Reading(f, n, index, now, Enforce)
  }

  /** What quorums can see of a name: its reading, or, for one spelled like an operator, which no expression
      can name, whether it counts. */
  ghost predicate KeepsSubject(f: Facts, g: Facts, n: string, index: Index, now: Clock) {
    if IsOperatorWord(n)
    then Present(f, n, index, now) ==> Present(g, n, index, now)
    else KeepsReading(f, g, n, index, now)
  }

  /** `g` keeps every field `f` holds fresh and every subject `f` makes known. It may refresh what is stale and
      settle what is unknown either way, and add facts as long as no subject that was known turns stale. */
  ghost predicate Supplements(b: Bundle, f: Facts, g: Facts, now: Clock) {
    (forall n {:trigger KeepsField(f, g, n, BundleIndex(b), now)} :: n in FieldNames(b) ==> KeepsField(f, g, n, BundleIndex(b), now)) &&
    (forall n {:trigger KeepsSubject(f, g, n, BundleIndex(b), now)} :: n in EvidenceNames(b) ==> KeepsSubject(f, g, n, BundleIndex(b), now))
  }

  /** A published name's verdict may only have turned from false to true. */
  ghost predicate Raised(f: Facts, g: Facts, n: string) {
    exists v, w :: Holds(f, n, v) && Holds(g, n, w) && (v ==> w)
  }

  // ---- the polarity induction ----

  /** Subjects are either evidence that stays known, or verdicts that only rise. */
  ghost predicate SubjectRelated(f: Facts, g: Facts, n: string, index: Index, now: Clock, published: set<string>) {
    if n in published
    then Reading(f, n, index, now, Enforce) != Unknown && Reading(g, n, index, now, Enforce) != Unknown &&
         (Reading(f, n, index, now, Enforce) == True ==> Reading(g, n, index, now, Enforce) == True)
    else KeepsReading(f, g, n, index, now)
  }

  /** Where no rule or cluster stands under an odd number of negations, truth is kept at positive
      positions and falsehood at negative ones. */
  lemma {:induction false} PolarityInduction(e: Expr, f: Facts, g: Facts, index: Index, now: Clock,
                                             published: set<string>, names: set<string>, negated: bool)
    requires SubjectsWithin(e, names) && NegatedRuleOrCluster(e, published, negated) == None
    requires forall n :: n in names ==> SubjectRelated(f, g, n, index, now, published)
    ensures var settled := if negated then False else True;
            EvalQuorum(e, f, index, now, Enforce) == settled ==> EvalQuorum(e, g, index, now, Enforce) == settled
  {
    match e
    case Malformed =>
    case Subject(name) =>
      assert SubjectRelated(f, g, NormalizeIdentifier(name), index, now, published);
    case Not(x) => PolarityInduction(x, f, g, index, now, published, names, !negated);
    case Binary(_, l, r) =>
      PolarityInduction(l, f, g, index, now, published, names, negated);
      PolarityInduction(r, f, g, index, now, published, names, negated);
  }

  // ---- one predicate at any level ----

  /** The fields of the two working fact maps at one level: fresh ones kept, verdicts rising. */
  ghost predicate FieldsRelated(b: Bundle, scope: Scope, f: Facts, g: Facts, now: Clock) {
    (forall n {:trigger KeepsField(f, g, n, BundleIndex(b), now)} :: n in FieldNames(b) ==> KeepsField(f, g, n, BundleIndex(b), now)) &&
    forall n :: n in scope.rules + scope.clusters ==> Raised(f, g, n)
  }

  /** The two working fact maps at one level: same declared evidence improving, verdicts rising. */
  ghost predicate LevelRelated(b: Bundle, scope: Scope, f: Facts, g: Facts, now: Clock) {
    Supplements(b, f, g, now) &&
    forall n :: n in scope.rules + scope.clusters ==> Raised(f, g, n)
  }

  /** What the scope of a predicate must be for the argument: the bundle's own signals and
      collectors, plus published names. */
  ghost predicate ScopeOf(b: Bundle, scope: Scope) {
    scope.signals == SignalKinds(b) && scope.collectors == CollectorNames(b) &&
    scope.rules + scope.clusters <= PublishedNames(b)
  }

  lemma PublishedNotIndexed(b: Bundle, n: string)
    requires Unambiguous(SymbolsOf(b)) && n in PublishedNames(b)
    ensures n !in BundleIndex(b).signals && n !in BundleIndex(b).collectors && n !in EvidenceNames(b)
  {
    NamesAreDisjoint(b);
    IndexNames(b);
  }

  lemma RaisedReading(b: Bundle, f: Facts, g: Facts, n: string, now: Clock)
    requires Unambiguous(SymbolsOf(b)) && n in PublishedNames(b) && Raised(f, g, n)
    ensures SubjectRelated(f, g, n, BundleIndex(b), now, PublishedNames(b))
    ensures Present(f, n, BundleIndex(b), now) ==> Present(g, n, BundleIndex(b), now)
  {
    PublishedNotIndexed(b, n);
    var v, w :| Holds(f, n, v) && Holds(g, n, w) && (v ==> w);
    HoldsIsView(f, n, v);
    HoldsIsView(g, n, w);
  }

  lemma SubjectsRelated(b: Bundle, scope: Scope, f: Facts, g: Facts, now: Clock)
    requires Unambiguous(SymbolsOf(b)) && ScopeOf(b, scope) && LevelRelated(b, scope, f, g, now)
    ensures forall n :: n in EvidenceNames(b) + scope.rules + scope.clusters && !IsOperatorWord(n) ==>
              SubjectRelated(f, g, n, BundleIndex(b), now, PublishedNames(b))
    ensures forall n :: n in EvidenceNames(b) + scope.rules + scope.clusters ==>
              (Present(f, n, BundleIndex(b), now) ==> Present(g, n, BundleIndex(b), now))
  {
    NamesAreDisjoint(b);
    forall n | n in EvidenceNames(b) + scope.rules + scope.clusters
      ensures !IsOperatorWord(n) ==> SubjectRelated(f, g, n, BundleIndex(b), now, PublishedNames(b))
      ensures Present(f, n, BundleIndex(b), now) ==> Present(g, n, BundleIndex(b), now)
    {
      if n in EvidenceNames(b) {
        assert KeepsSubject(f, g, n, BundleIndex(b), now);
      } else {
        assert n in PublishedNames(b);
        RaisedReading(b, f, g, n, now);
      }
    }
  }

  lemma {:induction false} CountRises(names: seq<string>, f: Facts, g: Facts, index: Index, now: Clock)
    requires forall n :: n in names ==> (Present(f, n, index, now) ==> Present(g, n, index, now))
    ensures CountPresent(names, f, index, now) <= CountPresent(names, g, index, now)
  {
    if names != [] {
      CountRises(names[..|names| - 1], f, g, index, now);
      assert names[|names| - 1] in names;
    }
  }

  lemma FieldOfKind(b: Bundle, scope: Scope, field: string)
    requires ScopeOf(b, scope) && KindOf(field, scope).Some?
    ensures field in FieldNames(b) || (field in scope.rules + scope.clusters && KindOf(field, scope) == Some(BoolKind))
  {
    IndexNames(b);
  }

  lemma NeedRises(b: Bundle, scope: Scope, p: Predicate, f: Facts, g: Facts, now: Clock)
    requires Unambiguous(SymbolsOf(b)) && ScopeOf(b, scope) && FieldsRelated(b, scope, f, g, now)
    requires p.Need? && InScope(p, scope) && !Inverted(p, PublishedNames(b))
    requires EvaluatePredicate(p, f, BundleIndex(b), now).passed
    ensures EvaluatePredicate(p, g, BundleIndex(b), now).passed
  {
    FieldOfKind(b, scope, p.field);
    if p.field in FieldNames(b) {
      assert KeepsField(f, g, p.field, BundleIndex(b), now);
    } else {
      PublishedNotIndexed(b, p.field);
      var v, w :| Holds(f, p.field, v) && Holds(g, p.field, w) && (v ==> w);
    }
  }

  lemma BlockRises(b: Bundle, scope: Scope, p: Predicate, f: Facts, g: Facts, now: Clock)
    requires ScopeOf(b, scope) && FieldsRelated(b, scope, f, g, now)
    requires p.Block? && InScope(p, scope) && !Inverted(p, PublishedNames(b))
    requires EvaluatePredicate(p, f, BundleIndex(b), now).passed
    ensures EvaluatePredicate(p, g, BundleIndex(b), now).passed
  {
    FieldOfKind(b, scope, p.field);
    assert KeepsField(f, g, p.field, BundleIndex(b), now);
  }

  lemma NeedSignalRises(b: Bundle, scope: Scope, p: Predicate, f: Facts, g: Facts, now: Clock)
    requires ScopeOf(b, scope) && FieldsRelated(b, scope, f, g, now)
    requires p.NeedSignal? && InScope(p, scope)
    requires EvaluatePredicate(p, f, BundleIndex(b), now).passed
    ensures EvaluatePredicate(p, g, BundleIndex(b), now).passed
  {
    IndexNames(b);
    assert KeepsField(f, g, p.field, BundleIndex(b), now);
    assert KeepsField(f, g, p.reference, BundleIndex(b), now);
  }

  lemma ReferenceKept(b: Bundle, scope: Scope, r: Reference, f: Facts, g: Facts, now: Clock)
    requires Unambiguous(SymbolsOf(b)) && ScopeOf(b, scope) && FieldsRelated(b, scope, f, g, now)
    requires r.FieldRef? ==> KindOf(r.field, scope) == Some(TimeKind)
    requires ResolveReference(r, f, BundleIndex(b), now).Instant?
    ensures ResolveReference(r, g, BundleIndex(b), now) == ResolveReference(r, f, BundleIndex(b), now)
  {
    if r.FieldRef? {
      FieldOfKind(b, scope, r.field);
      FieldIsNoCollector(b, r.field);
      assert KeepsField(f, g, r.field, BundleIndex(b), now);
    }
  }

  lemma FieldIsNoCollector(b: Bundle, n: string)
    requires Unambiguous(SymbolsOf(b)) && n in FieldNames(b)
    ensures n !in BundleIndex(b).collectors
  {
    NamesAreDisjoint(b);
    IndexNames(b);
  }

  lemma TemporalRises(b: Bundle, scope: Scope, p: Predicate, f: Facts, g: Facts, now: Clock)
    requires Unambiguous(SymbolsOf(b)) && ScopeOf(b, scope) && FieldsRelated(b, scope, f, g, now)
    requires p.Temporal? && InScope(p, scope)
    requires EvaluatePredicate(p, f, BundleIndex(b), now).passed
    ensures EvaluatePredicate(p, g, BundleIndex(b), now).passed
  {
    FieldOfKind(b, scope, p.field);
    assert KeepsField(f, g, p.field, BundleIndex(b), now);
    ReferenceKept(b, scope, ReferenceOf(p.relation), f, g, now);
  }

  lemma CountPasses(b: Bundle, scope: Scope, p: Predicate, f: Facts, g: Facts, now: Clock)
    requires Unambiguous(SymbolsOf(b)) && ScopeOf(b, scope) && LevelRelated(b, scope, f, g, now)
    requires p.Count? && InScope(p, scope)
    requires EvaluatePredicate(p, f, BundleIndex(b), now).passed
    ensures EvaluatePredicate(p, g, BundleIndex(b), now).passed
  {
    SubjectsRelated(b, scope, f, g, now);
    CountRises(p.providers, f, g, BundleIndex(b), now);
  }

  lemma {:induction false} NormalLeavesAreNoOperators(e: Expr, names: set<string>)
    requires NormalForm(e) && SubjectsWithin(e, names)
    ensures SubjectsWithin(e, set n | n in names && !IsOperatorWord(n))
  {
    match e
    case Subject(name) => CanonicalIsFixed(name);
    case Not(x) => NormalLeavesAreNoOperators(x, names);
    case Binary(_, l, r) => NormalLeavesAreNoOperators(l, names); NormalLeavesAreNoOperators(r, names);
  }

  lemma QuorumPasses(b: Bundle, scope: Scope, p: Predicate, f: Facts, g: Facts, now: Clock)
    requires Unambiguous(SymbolsOf(b)) && ScopeOf(b, scope) && LevelRelated(b, scope, f, g, now)
    requires p.Quorum? && Normalized(p) && InScope(p, scope) && !Inverted(p, PublishedNames(b))
    requires EvaluatePredicate(p, f, BundleIndex(b), now).passed
    ensures EvaluatePredicate(p, g, BundleIndex(b), now).passed
  {
    var names := EvidenceNames(b) + scope.rules + scope.clusters;
    SubjectsRelated(b, scope, f, g, now);
    ScopeBoundsReads(b, p, scope, names);
    NormalLeavesAreNoOperators(p.expression, names);
    PolarityInduction(p.expression, f, g, BundleIndex(b), now, PublishedNames(b), set n | n in names && !IsOperatorWord(n), false);
  }

  /** A predicate that holds on the poorer facts holds on the richer ones. */
  lemma PredicateRises(b: Bundle, scope: Scope, p: Predicate, f: Facts, g: Facts, now: Clock)
    requires Unambiguous(SymbolsOf(b)) && ScopeOf(b, scope) && LevelRelated(b, scope, f, g, now)
    requires Normalized(p) && InScope(p, scope) && !Inverted(p, PublishedNames(b))
    ensures EvaluatePredicate(p, f, BundleIndex(b), now).passed ==> EvaluatePredicate(p, g, BundleIndex(b), now).passed
  {
    if EvaluatePredicate(p, f, BundleIndex(b), now).passed {
      match p
      case Need(_, _, _) => NeedRises(b, scope, p, f, g, now);
      case NeedSignal(_, _, _) => NeedSignalRises(b, scope, p, f, g, now);
      case Block(_) => BlockRises(b, scope, p, f, g, now);
      case Temporal(_, _) => TemporalRises(b, scope, p, f, g, now);
      case Count(_, _) => CountPasses(b, scope, p, f, g, now);
      case Quorum(_) => QuorumPasses(b, scope, p, f, g, now);
    }
  }

  lemma ChecksRise(b: Bundle, scope: Scope, ps: seq<Predicate>, f: Facts, g: Facts, now: Clock)
    requires Unambiguous(SymbolsOf(b)) && ScopeOf(b, scope) && LevelRelated(b, scope, f, g, now)
    requires AllInScope(ps, scope) && MonotoneIn(ps, PublishedNames(b))
    requires AllPass(Checks(ps, f, BundleIndex(b), now))
    ensures AllPass(Checks(ps, g, BundleIndex(b), now))
  {
    forall i | 0 <= i < |ps|
      ensures Checks(ps, g, BundleIndex(b), now)[i].passed
    {
      assert Checks(ps, f, BundleIndex(b), now)[i].passed;
      PredicateRises(b, scope, ps[i], f, g, now);
    }
  }

  // ---- lifting through the layers ----

  /** Rules cannot refer to rules or clusters, so their polarity is free. */
  lemma {:induction false} NoPublishedNoNegation(e: Expr, names: set<string>, published: set<string>, negated: bool)
    requires SubjectsWithin(e, names) && names !! published
    ensures NegatedRuleOrCluster(e, published, negated) == None
  {
    match e
    case Malformed =>
    case Subject(_) =>
    case Not(x) => NoPublishedNoNegation(x, names, published, !negated);
    case Binary(_, l, r) =>
      NoPublishedNoNegation(l, names, published, negated);
      NoPublishedNoNegation(r, names, published, negated);
  }

  lemma RulePredicatesMonotone(b: Bundle, ps: seq<Predicate>)
    requires Unambiguous(SymbolsOf(b)) && AllInScope(ps, RuleScope(b))
    ensures MonotoneIn(ps, PublishedNames(b))
  {
    NamesAreDisjoint(b);
    forall p | p in ps
      ensures !Inverted(p, PublishedNames(b))
    {
      ScopeBoundsReads(b, p, RuleScope(b), EvidenceNames(b));
      if p.Quorum? {
        NoPublishedNoNegation(p.expression, EvidenceNames(b), PublishedNames(b), false);
      }
    }
  }

  lemma RuleRises(b: Bundle, i: nat, f: Facts, g: Facts, now: Clock)
    requires WellShaped(b) && Unambiguous(SymbolsOf(b)) && Supplements(b, f, g, now) && i < |b.rules|
    ensures RulesOn(b, f, now)[i].authorized ==> RulesOn(b, g, now)[i].authorized
  {
    var r := b.rules[i];
    assert RuleShape(r, b);
    RulePredicatesMonotone(b, r.predicates);
    if RulesOn(b, f, now)[i].authorized {
      ChecksRise(b, RuleScope(b), r.predicates, f, g, now);
    }
  }

  lemma NameTransport(f: Facts, g: Facts, w: Facts, v: Facts, n: string, index: Index, now: Clock)
    requires SameAge(f, w, index) && SameAge(g, v, index) && SameView(f, w, n) && SameView(g, v, n)
    ensures KeepsSubject(f, g, n, index, now) ==> KeepsSubject(w, v, n, index, now)
    ensures KeepsField(f, g, n, index, now) ==> KeepsField(w, v, n, index, now)
  {
    SameStale(n, f, w, index, now);
    SameStale(n, g, v, index, now);
  }

  /** Improvement of the supplied facts is improvement of the working facts. */
  lemma SupplementsTransport(b: Bundle, f: Facts, g: Facts, w: Facts, v: Facts, now: Clock)
    requires Supplements(b, f, g, now) && SameEvidence(b, f, w) && SameEvidence(b, g, v)
    ensures Supplements(b, w, v, now)
  {
    EvidenceViews(b, f, w);
    EvidenceViews(b, g, v);
    forall n | n in EvidenceNames(b)
      ensures KeepsSubject(w, v, n, BundleIndex(b), now)
      ensures n in FieldNames(b) ==> KeepsField(w, v, n, BundleIndex(b), now)
    {
      assert KeepsSubject(f, g, n, BundleIndex(b), now);
      assert n in FieldNames(b) ==> KeepsField(f, g, n, BundleIndex(b), now);
      NameTransport(f, g, w, v, n, BundleIndex(b), now);
    }
    assert forall n :: n in FieldNames(b) ==> n in EvidenceNames(b);
  }

  lemma RulesRaised(b: Bundle, f: Facts, g: Facts, w: Facts, v: Facts, now: Clock)
    requires WellShaped(b) && Unambiguous(SymbolsOf(b)) && Supplements(b, f, g, now)
    requires RuleVerdictsHold(b, w, f, now) && RuleVerdictsHold(b, v, g, now)
    ensures forall n :: n in RuleNames(b) ==> Raised(w, v, n)
  {
    forall n | n in RuleNames(b)
      ensures Raised(w, v, n)
    {
      var i := RuleAt(b, n);
      RuleRises(b, i, f, g, now);
      assert Holds(w, n, RulesOn(b, f, now)[i].authorized) && Holds(v, n, RulesOn(b, g, now)[i].authorized);
    }
  }

  lemma ClusterAt(b: Bundle, n: string) returns (i: nat)
    requires n in ClusterNames(b)
    ensures i < |b.clusters| && b.clusters[i].name == n
  {
    var c :| c in b.clusters && c.name == n;
    i :| 0 <= i < |b.clusters| && b.clusters[i] == c;
  }

  lemma RuleAt(b: Bundle, n: string) returns (i: nat)
    requires n in RuleNames(b)
    ensures i < |b.rules| && b.rules[i].name == n
  {
    var r :| r in b.rules && r.name == n;
    i :| 0 <= i < |b.rules| && b.rules[i] == r;
  }

  lemma MemberTrace(b: Bundle, f: Facts, now: Clock, n: string) returns (i: nat)
    requires DistinctRules(b) && n in RuleNames(b)
    ensures i < |b.rules| && b.rules[i].name == n
    ensures MemberOf(n, ByName(RulesOn(b, f, now))).authorized == RulesOn(b, f, now)[i].authorized
  {
    i := RuleAt(b, n);
    DistinctTraces(b, f, now);
    ByNameFinds(RulesOn(b, f, now), i);
  }

  lemma MemberRises(b: Bundle, n: string, f: Facts, g: Facts, now: Clock)
    requires WellShaped(b) && Unambiguous(SymbolsOf(b)) && Supplements(b, f, g, now) && n in RuleNames(b)
    ensures MemberOf(n, ByName(RulesOn(b, f, now))).authorized ==> MemberOf(n, ByName(RulesOn(b, g, now))).authorized
  {
    var i := MemberTrace(b, f, now, n);
    var j := MemberTrace(b, g, now, n);
    assert i == j;
    RuleRises(b, i, f, g, now);
  }

  lemma ClusterRises(b: Bundle, i: nat, f: Facts, g: Facts, now: Clock)
    requires WellShaped(b) && WellNamed(b) && Monotone(b) && Supplements(b, f, g, now) && i < |b.clusters|
    ensures ClustersOn(b, f, now)[i].authorized ==> ClustersOn(b, g, now)[i].authorized
  {
    if ClustersOn(b, f, now)[i].authorized {
      var c := b.clusters[i];
      var w, v := AfterRules(b, f, now), AfterRules(b, g, now);
      assert ClusterShape(c, b);
      ClusterLevel(b, f, g, now);
      ChecksRise(b, ClusterScope(b), c.predicates, w, v, now);
      ClusterMembersRise(b, c.rules, f, g, now);
    }
  }

  lemma ClusterLevel(b: Bundle, f: Facts, g: Facts, now: Clock)
    requires WellShaped(b) && WellNamed(b) && Supplements(b, f, g, now)
    ensures LevelRelated(b, ClusterScope(b), AfterRules(b, f, now), AfterRules(b, g, now), now)
  {
    var w, v := AfterRules(b, f, now), AfterRules(b, g, now);
    AfterRulesHolds(b, f, now);
    AfterRulesHolds(b, g, now);
    SupplementsTransport(b, f, g, w, v, now);
    RulesRaised(b, f, g, w, v, now);
  }

  lemma ClusterMembersRise(b: Bundle, rules: seq<string>, f: Facts, g: Facts, now: Clock)
    requires WellShaped(b) && Unambiguous(SymbolsOf(b)) && Supplements(b, f, g, now)
    requires forall n :: n in rules ==> n in RuleNames(b)
    requires AllMembers(Members(rules, ByName(RulesOn(b, f, now))))
    ensures AllMembers(Members(rules, ByName(RulesOn(b, g, now))))
  {
    forall k | 0 <= k < |rules|
      ensures Members(rules, ByName(RulesOn(b, g, now)))[k].authorized
    {
      assert Members(rules, ByName(RulesOn(b, f, now)))[k].authorized;
      MemberRises(b, rules[k], f, g, now);
    }
  }

  lemma ClustersRaised(b: Bundle, f: Facts, g: Facts, w: Facts, v: Facts, now: Clock)
    requires WellShaped(b) && WellNamed(b) && Monotone(b) && Supplements(b, f, g, now)
    requires ClusterVerdictsHold(b, w, f, now) && ClusterVerdictsHold(b, v, g, now)
    ensures forall n :: n in ClusterNames(b) ==> Raised(w, v, n)
  {
    forall n | n in ClusterNames(b)
      ensures Raised(w, v, n)
    {
      var i := ClusterAt(b, n);
      ClusterRaised(b, i, f, g, w, v, now);
    }
  }

  lemma ClusterRaised(b: Bundle, i: nat, f: Facts, g: Facts, w: Facts, v: Facts, now: Clock)
    requires WellShaped(b) && WellNamed(b) && Monotone(b) && Supplements(b, f, g, now) && i < |b.clusters|
    requires ClusterVerdictsHold(b, w, f, now) && ClusterVerdictsHold(b, v, g, now)
    ensures Raised(w, v, b.clusters[i].name)
  {
    ClusterRises(b, i, f, g, now);
    var n := b.clusters[i].name;
    assert Holds(w, n, ClustersOn(b, f, now)[i].authorized) && Holds(v, n, ClustersOn(b, g, now)[i].authorized);
  }

  lemma GlobalLevel(b: Bundle, f: Facts, g: Facts, now: Clock)
    requires WellShaped(b) && WellNamed(b) && Monotone(b) && Supplements(b, f, g, now)
    ensures LevelRelated(b, GlobalScope(b), AfterClusters(b, f, now), AfterClusters(b, g, now), now)
  {
    var w, v := AfterClusters(b, f, now), AfterClusters(b, g, now);
    AfterClustersHolds(b, f, now);
    AfterClustersHolds(b, g, now);
    SupplementsTransport(b, f, g, w, v, now);
    RulesRaised(b, f, g, w, v, now);
    ClustersRaised(b, f, g, w, v, now);
  }

  lemma GlobalsRise(b: Bundle, f: Facts, g: Facts, now: Clock)
    requires WellShaped(b) && WellNamed(b) && Monotone(b) && Supplements(b, f, g, now)
    ensures AllPass(GlobalsOn(b, f, now)) ==> AllPass(GlobalsOn(b, g, now))
  {
    if AllPass(GlobalsOn(b, f, now)) {
      GlobalLevel(b, f, g, now);
      ChecksRise(b, GlobalScope(b), b.predicates, AfterClusters(b, f, now), AfterClusters(b, g, now), now);
    }
  }

  lemma EveryVerdictRises(b: Bundle, f: Facts, g: Facts, now: Clock)
    requires WellShaped(b) && WellNamed(b) && Monotone(b) && Supplements(b, f, g, now)
    ensures EveryRule(b, f, now) ==> EveryRule(b, g, now)
    ensures EveryCluster(b, f, now) ==> EveryCluster(b, g, now)
  {
    forall i | 0 <= i < |b.rules|
      ensures RulesOn(b, f, now)[i].authorized ==> RulesOn(b, g, now)[i].authorized
    {
      RuleRises(b, i, f, g, now);
    }
    forall i | 0 <= i < |b.clusters|
      ensures ClustersOn(b, f, now)[i].authorized ==> ClustersOn(b, g, now)[i].authorized
    {
      ClusterRises(b, i, f, g, now);
    }
  }

  /** For every accepted bundle and every clock, facts that keep what was fresh and what was known authorize
      whatever the facts they supplement authorized. */
  lemma SupplementingKeepsAuthorization(b: Bundle, f: Facts, g: Facts, now: Clock)
    requires Accepted(b) && CleanNames(b)
    requires Supplements(b, f, g, now)
    ensures EvalBundle(b, f, now).authorized ==> EvalBundle(b, g, now).authorized
  {
    LoopIsSimultaneous(b, f, now);
    LoopIsSimultaneous(b, g, now);
    SimultaneousDecision(b, f, now);
    SimultaneousDecision(b, g, now);
    GlobalsRise(b, f, g, now);
    EveryVerdictRises(b, f, g, now);
  }
}
