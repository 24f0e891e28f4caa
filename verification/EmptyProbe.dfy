/** The structural polarity check already implies what the compile-time probe tests at one instant. */
module EmptyProbe {
  import opened QuorumSyntax
  import opened QuorumNormal
  import opened Kleene
  import opened Evidence
  import opened Predicates
  import opened Bundles
  import opened Analysis
  import opened Layering
  import opened LayerIndependence
  import opened EvidenceMonotone

  /** No declared evidence at all, and every visible verdict false. */
  ghost predicate NothingProven(b: Bundle, scope: Scope, w: Facts) {
    (forall n :: n in EvidenceNames(b) ==> n !in w && SubjectValue(w, n) == None) &&
    (forall n :: n in scope.rules + scope.clusters ==> Holds(w, n, false))
  }

  /** With nothing proven, no tree without a negated rule or cluster comes out true. */
  lemma {:induction false} NothingIsTrue(e: Expr, w: Facts, index: Index, now: Clock,
                                         published: set<string>, names: set<string>, negated: bool)
    requires NormalForm(e) && SubjectsWithin(e, names) && NegatedRuleOrCluster(e, published, negated) == None
    requires forall n :: n in names ==> Reading(w, n, index, now, Enforce) == if n in published then False else Unknown
    ensures EvalQuorum(e, w, index, now, Enforce) != if negated then False else True
  {
    match e
    case Subject(_) =>
    case Not(x) => NothingIsTrue(x, w, index, now, published, names, !negated);
    case Binary(_, l, r) =>
      NothingIsTrue(l, w, index, now, published, names, negated);
      NothingIsTrue(r, w, index, now, published, names, negated);
  }

  lemma ReadingsOfNothing(b: Bundle, scope: Scope, w: Facts, now: Clock)
    requires Unambiguous(SymbolsOf(b)) && ScopeOf(b, scope) && NothingProven(b, scope, w)
    ensures forall n :: n in EvidenceNames(b) + scope.rules + scope.clusters ==>
              Reading(w, n, BundleIndex(b), now, Enforce) == (if n in PublishedNames(b) then False else Unknown) && !Truthy(w, n)
  {
    NamesAreDisjoint(b);
    forall n | n in EvidenceNames(b) + scope.rules + scope.clusters
      ensures Reading(w, n, BundleIndex(b), now, Enforce) == (if n in PublishedNames(b) then False else Unknown) && !Truthy(w, n)
    {
      if n !in EvidenceNames(b) {
        PublishedNotIndexed(b, n);
        HoldsIsView(w, n, false);
      }
    }
  }

  lemma {:induction false} CountOfNothing(names: seq<string>, w: Facts, index: Index, now: Clock)
    requires forall n :: n in names ==> !Truthy(w, n)
    ensures CountPresent(names, w, index, now) == 0
  {
    if names != [] {
      CountOfNothing(names[..|names| - 1], w, index, now);
      assert names[|names| - 1] in names;
    }
  }

  lemma NoFieldPasses(b: Bundle, scope: Scope, p: Predicate, w: Facts, now: Clock)
    requires ScopeOf(b, scope) && NothingProven(b, scope, w)
    requires !p.Quorum? && !p.Count? && InScope(p, scope) && !Inverted(p, PublishedNames(b))
    ensures !EvaluatePredicate(p, w, BundleIndex(b), now).passed
  {
    if p.NeedSignal? {
      IndexNames(b);
    } else {
      FieldOfKind(b, scope, p.field);
      if p.field !in FieldNames(b) {
        assert Holds(w, p.field, false);
      }
    }
  }

  lemma NothingPasses(b: Bundle, scope: Scope, p: Predicate, w: Facts, now: Clock)
    requires Unambiguous(SymbolsOf(b)) && ScopeOf(b, scope) && NothingProven(b, scope, w)
    requires Normalized(p) && InScope(p, scope) && !Inverted(p, PublishedNames(b))
    ensures !EvaluatePredicate(p, w, BundleIndex(b), now).passed
  {
    if p.Quorum? {
      var names := EvidenceNames(b) + scope.rules + scope.clusters;
      ReadingsOfNothing(b, scope, w, now);
      ScopeBoundsReads(b, p, scope, names);
      NothingIsTrue(p.expression, w, BundleIndex(b), now, PublishedNames(b), names, false);
    } else if p.Count? {
      ReadingsOfNothing(b, scope, w, now);
      CountOfNothing(p.providers, w, BundleIndex(b), now);
    } else {
      NoFieldPasses(b, scope, p, w, now);
    }
  }

  lemma ChecksFail(b: Bundle, scope: Scope, ps: seq<Predicate>, w: Facts, now: Clock)
    requires Unambiguous(SymbolsOf(b)) && ScopeOf(b, scope) && NothingProven(b, scope, w)
    requires ps != [] && AllInScope(ps, scope) && MonotoneIn(ps, PublishedNames(b))
    ensures !AllPass(Checks(ps, w, BundleIndex(b), now))
  {
    NothingPasses(b, scope, ps[0], w, now);
    assert Checks(ps, w, BundleIndex(b), now)[0] == EvaluatePredicate(ps[0], w, BundleIndex(b), now);
  }

  lemma EmptyHoldsNothing(b: Bundle, w: Facts)
    requires SameEvidence(b, map[], w)
    ensures forall n :: n in EvidenceNames(b) ==> n !in w && SubjectValue(w, n) == None
  {
    EvidenceViews(b, map[], w);
    forall n | n in EvidenceNames(b)
      ensures n !in w && SubjectValue(w, n) == None
    {
      assert SameView(map[], w, n);
      assert SubjectValue(map[], n) == None by { EmptyValue(AliasKeys(n)); }
    }
  }

  lemma {:induction false} EmptyValue(keys: seq<string>)
    ensures FirstValue(map[], keys) == None
  {
    if keys != [] {
      EmptyValue(keys[1..]);
    }
  }

  lemma RuleFails(b: Bundle, i: nat, now: Clock)
    requires WellShaped(b) && Unambiguous(SymbolsOf(b)) && i < |b.rules|
    ensures !RulesOn(b, map[], now)[i].authorized
  {
    assert RuleShape(b.rules[i], b);
    RulePredicatesMonotone(b, b.rules[i].predicates);
    assert SameEvidence(b, map[], map[]);
    EmptyHoldsNothing(b, map[]);
    ChecksFail(b, RuleScope(b), b.rules[i].predicates, map[], now);
  }

  lemma ClusterFails(b: Bundle, i: nat, now: Clock)
    requires WellShaped(b) && Unambiguous(SymbolsOf(b)) && i < |b.clusters|
    ensures !ClustersOn(b, map[], now)[i].authorized
  {
    var c := b.clusters[i];
    assert ClusterShape(c, b);
    var k := MemberTrace(b, map[], now, c.rules[0]);
    RuleFails(b, k, now);
    assert !Members(c.rules, ByName(RulesOn(b, map[], now)))[0].authorized;
  }

  lemma VerdictsAllFalse(b: Bundle, w: Facts, now: Clock)
    requires WellShaped(b) && Unambiguous(SymbolsOf(b))
    requires RuleVerdictsHold(b, w, map[], now) && ClusterVerdictsHold(b, w, map[], now)
    ensures forall n :: n in PublishedNames(b) ==> Holds(w, n, false)
  {
    forall n | n in RuleNames(b)
      ensures Holds(w, n, false)
    {
      RuleVerdictFalse(b, w, now, n);
    }
    forall n | n in ClusterNames(b)
      ensures Holds(w, n, false)
    {
      ClusterVerdictFalse(b, w, now, n);
    }
  }

  lemma RuleVerdictFalse(b: Bundle, w: Facts, now: Clock, n: string)
    requires WellShaped(b) && Unambiguous(SymbolsOf(b)) && RuleVerdictsHold(b, w, map[], now) && n in RuleNames(b)
    ensures Holds(w, n, false)
  {
    var i := RuleAt(b, n);
    RuleFails(b, i, now);
  }

  lemma ClusterVerdictFalse(b: Bundle, w: Facts, now: Clock, n: string)
    requires WellShaped(b) && Unambiguous(SymbolsOf(b)) && ClusterVerdictsHold(b, w, map[], now) && n in ClusterNames(b)
    ensures Holds(w, n, false)
  {
    var i := ClusterAt(b, n);
    ClusterFails(b, i, now);
  }

  lemma GlobalsFail(b: Bundle, now: Clock)
    requires WellShaped(b) && WellNamed(b) && Monotone(b) && b.predicates != []
    ensures !AllPass(GlobalsOn(b, map[], now))
  {
    var w := AfterClusters(b, map[], now);
    AfterClustersHolds(b, map[], now);
    EmptyHoldsNothing(b, w);
    VerdictsAllFalse(b, w, now);
    ChecksFail(b, GlobalScope(b), b.predicates, w, now);
  }

  /** A bundle that passes the structural checks authorizes nothing on empty facts, at any clock. */
  lemma EmptyEvidenceNeverAuthorizes(b: Bundle, now: Clock)
    requires PassesStructure(b) && CleanNames(b)
    ensures !EvalBundle(b, map[], now).authorized
  {
    LoopIsSimultaneous(b, map[], now);
    SimultaneousDecision(b, map[], now);
    if b.predicates != [] {
      GlobalsFail(b, now);
    } else {
      RuleFails(b, 0, now);
    }
  }

  /** The probe therefore rejects nothing the structural checks let through. */
  lemma ProbeNeverFires(b: Bundle)
    requires CleanNames(b)
    ensures Accepted(b) <==> PassesStructure(b)
  {
    if PassesStructure(b) {
      EmptyEvidenceNeverAuthorizes(b, ProbeClock);
    }
  }
}
