/** Leaving evidence out, and what a bundle authorizes: exactly when nothing that can be built on the declared
    collectors gains by it. */
module WithholdingExactly {
  import opened Names
  import opened Evidence
  import opened Predicates
  import opened Bundles
  import opened Analysis
  import opened Layering
  import opened LayerIndependence
  import opened EvidenceMonotone
  import opened EmptyProbe
  import opened Withholding

  // ---- bundles over the same collectors ----

  /** Bundles that declare the same collectors, in the same order; everything else may differ. */
  ghost predicate SameCollectors(b: Bundle, k: Bundle) {
    AllCollectors(k.rules) == AllCollectors(b.rules)
  }

  lemma SameEvidenceNames(b: Bundle, k: Bundle)
    requires SameCollectors(b, k)
    ensures BundleIndex(k) == BundleIndex(b) && EvidenceNames(k) == EvidenceNames(b)
    ensures CollectorNames(k) == CollectorNames(b) && RuleScope(k) == RuleScope(b)
  {
    IndexedNames(b);
    IndexedNames(k);
  }

  lemma IndexedNames(b: Bundle)
    ensures SignalNames(b) == BundleIndex(b).signals.Keys && CollectorNames(b) == BundleIndex(b).collectors.Keys
  {
    IndexNames(b);
  }

  /** No bundle the compiler takes over these collectors authorizes on what is left what it would not have authorized. */
  ghost predicate NeverGains(b: Bundle, g: Facts, names: set<string>, now: Clock) {
    forall k {:trigger Compiles(k)} :: Compiles(k) && CleanNames(k) && SameCollectors(b, k) ==>
      EvalBundle(k, Withheld(g, names), now).authorized ==> EvalBundle(k, g, now).authorized
  }

  lemma GainsNothingAnywhere(b: Bundle, k: Bundle, g: Facts, names: set<string>, now: Clock)
    requires SameCollectors(b, k) && Accepted(k) && CleanNames(k) && names <= EvidenceNames(b) && GainsNothing(b, g, names, now)
    ensures EvalBundle(k, Withheld(g, names), now).authorized ==> EvalBundle(k, g, now).authorized
  {
    SameEvidenceNames(b, k);
    forall c | c in CollectorNames(k) && c !in names && Visible(g, c) && Stale(c, g, BundleIndex(k), now)
      ensures StaleWitness(k, g, names, c, now)
    {
      assert StaleWitness(b, g, names, c, now);
    }
    WithheldIsSupplemented(k, g, names, now);
    SupplementingKeepsAuthorization(k, Withheld(g, names), g, now);
  }

  // ---- one predicate for every rule ----

  /** The bundle with the one predicate in every rule, and nothing above the rules. */
  function Reduced(b: Bundle, p: Predicate): Bundle {
    Bundle(Gated(b.rules, p), [], [])
  }

  function Gated(rules: seq<Rule>, p: Predicate): (rs: seq<Rule>)
    ensures |rs| == |rules|
    ensures forall i :: 0 <= i < |rules| ==> rs[i] == rules[i].(predicates := [p])
  {
    if rules == [] then [] else [rules[0].(predicates := [p])] + Gated(rules[1..], p)
  }

  lemma {:induction false} GatedCollectors(rules: seq<Rule>, p: Predicate)
    ensures AllCollectors(Gated(rules, p)) == AllCollectors(rules)
  {
    if rules != [] {
      var n := |rules| - 1;
      GatedCollectors(rules[..n], p);
      assert Gated(rules, p)[..n] == Gated(rules[..n], p);
    }
  }

  lemma {:induction false} GatedSymbols(rules: seq<Rule>, p: Predicate)
    ensures RuleSymbols(Gated(rules, p)) == RuleSymbols(rules)
  {
    if rules != [] {
      GatedSymbols(rules[1..], p);
      assert Gated(rules, p)[1..] == Gated(rules[1..], p);
    }
  }

  lemma ReducedNames(b: Bundle, p: Predicate)
    ensures SameCollectors(b, Reduced(b, p))
    ensures RuleNames(Reduced(b, p)) == RuleNames(b) && ClusterNames(Reduced(b, p)) == {}
  {
    var k := Reduced(b, p);
    GatedCollectors(b.rules, p);
    forall n | n in RuleNames(b)
      ensures n in RuleNames(k)
    {
      var i := RuleAt(b, n);
      assert k.rules[i] in k.rules;
    }
    forall n | n in RuleNames(k)
      ensures n in RuleNames(b)
    {
      var i := RuleAt(k, n);
      assert b.rules[i] in b.rules;
    }
  }

  lemma ReducedUnambiguous(b: Bundle, p: Predicate)
    requires Unambiguous(SymbolsOf(b))
    ensures Unambiguous(SymbolsOf(Reduced(b, p)))
  {
    GatedSymbols(b.rules, p);
    assert SymbolsOf(b) == SymbolsOf(Reduced(b, p)) + ClusterSymbols(b.clusters);
    PrefixUnambiguous(SymbolsOf(Reduced(b, p)), ClusterSymbols(b.clusters));
  }

  lemma ReducedShape(b: Bundle, p: Predicate)
    requires WellShaped(b) && Normalized(p) && InScope(p, RuleScope(b))
    ensures WellShaped(Reduced(b, p))
  {
    var k := Reduced(b, p);
    ReducedNames(b, p);
    SameEvidenceNames(b, k);
    forall r | r in k.rules
      ensures RuleShape(r, k)
    {
      var i :| 0 <= i < |k.rules| && k.rules[i] == r;
      assert RuleShape(b.rules[i], b);
    }
    assert DistinctRules(k) by { assert forall i :: 0 <= i < |b.rules| ==> k.rules[i].name == b.rules[i].name; }
  }

  lemma ReducedIsAccepted(b: Bundle, p: Predicate)
    requires PassesStructure(b) && CleanNames(b) && Normalized(p) && InScope(p, RuleScope(b))
    ensures Accepted(Reduced(b, p)) && CleanNames(Reduced(b, p))
  {
    var k := Reduced(b, p);
    ReducedNames(b, p);
    SameEvidenceNames(b, k);
    ReducedShape(b, p);
    ReducedUnambiguous(b, p);
    assert CleanNames(k) by { assert EvidenceNames(k) + PublishedNames(k) <= EvidenceNames(b) + PublishedNames(b); }
    assert Monotone(k);
    ProbeNeverFires(k);
  }

  lemma ReducedIsStated(b: Bundle, p: Predicate)
    requires FieldsStated(b)
    ensures FieldsStated(Reduced(b, p))
  {
    GatedCollectors(b.rules, p);
    forall r | r in Reduced(b, p).rules
      ensures IsCanonical(r.target)
    {
      var i :| 0 <= i < |b.rules| && r == b.rules[i].(predicates := [p]);
    }
  }

  lemma ReducedIsIndependent(b: Bundle, p: Predicate)
    requires Independent(p, AllCollectors(b.rules))
    ensures IndependentQuorums(Reduced(b, p))
  {
    GatedCollectors(b.rules, p);
    forall r | r in Reduced(b, p).rules
      ensures r.predicates == [p]
    {
    }
  }

  lemma ReducedCompiles(b: Bundle, p: Predicate)
    requires Compiles(b) && CleanNames(b) && Normalized(p) && InScope(p, RuleScope(b)) && Independent(p, AllCollectors(b.rules))
    ensures Compiles(Reduced(b, p)) && CleanNames(Reduced(b, p)) && SameCollectors(b, Reduced(b, p))
  {
    ReducedIsAccepted(b, p);
    ReducedNames(b, p);
    ReducedIsIndependent(b, p);
    ReducedIsStated(b, p);
  }

  /** The reduced bundle authorizes exactly when the one predicate passes. */
  lemma ReducedDecides(b: Bundle, p: Predicate, f: Facts, now: Clock)
    requires PassesStructure(b) && CleanNames(b) && Normalized(p) && InScope(p, RuleScope(b))
    ensures EvalBundle(Reduced(b, p), f, now).authorized == EvaluatePredicate(p, f, BundleIndex(b), now).passed
  {
    var k := Reduced(b, p);
    ReducedIsAccepted(b, p);
    ReducedNames(b, p);
    LoopIsSimultaneous(k, f, now);
    SimultaneousDecision(k, f, now);
    forall i | 0 <= i < |k.rules|
      ensures RulesOn(k, f, now)[i].authorized == EvaluatePredicate(p, f, BundleIndex(b), now).passed
    {
      OneCheck(k.rules[i], p, f, BundleIndex(k), now);
    }
    assert RulesOn(k, f, now)[0].authorized == EvaluatePredicate(p, f, BundleIndex(b), now).passed;
  }

  // ---- the exact condition ----

  /** Leaving the names out authorizes nothing new, whatever rules, clusters and final policy stand on the declared
      collectors, exactly when no stale collector with a visible value loses all its stale signals. */
  lemma WithholdingNeverAuthorizes(b: Bundle, g: Facts, names: set<string>, now: Clock)
    requires Compiles(b) && CleanNames(b) && names <= EvidenceNames(b)
    ensures NeverGains(b, g, names, now) <==> GainsNothing(b, g, names, now)
  {
    if GainsNothing(b, g, names, now) {
      forall k | Compiles(k) && CleanNames(k) && SameCollectors(b, k)
        ensures EvalBundle(k, Withheld(g, names), now).authorized ==> EvalBundle(k, g, now).authorized
      {
        GainsNothingAnywhere(b, k, g, names, now);
      }
    } else {
      NoPredicateGainsExactly(b, g, names, now);
      var p :| Normalized(p) && InScope(p, RuleScope(b)) && Independent(p, AllCollectors(b.rules)) &&
               EvaluatePredicate(p, Withheld(g, names), BundleIndex(b), now).passed && !EvaluatePredicate(p, g, BundleIndex(b), now).passed;
      ReducedCompiles(b, p);
      ReducedDecides(b, p, g, now);
      ReducedDecides(b, p, Withheld(g, names), now);
      assert Compiles(Reduced(b, p));
    }
  }

  // ---- a condition on the names alone ----

  /** Whoever withholds a signal also withholds every collector that declares it. */
  ghost predicate WholeCollectors(b: Bundle, names: set<string>) {
    forall c, i {:trigger BundleIndex(b).collectors[c][i]} :: c in BundleIndex(b).collectors && 0 <= i < |BundleIndex(b).collectors[c]| ==>
      BundleIndex(b).collectors[c][i].name in names ==> c in names
  }

  lemma WholeCollectorStaysStale(b: Bundle, g: Facts, names: set<string>, c: string, now: Clock)
    requires Unambiguous(SymbolsOf(b)) && WholeCollectors(b, names)
    requires c in CollectorNames(b) && c !in names && Stale(c, g, BundleIndex(b), now)
    ensures StaleWitness(b, g, names, c, now)
  {
    var index := BundleIndex(b);
    CollectorIsNoSignal(b, c);
    var i :| 0 <= i < |index.collectors[c]| && InPlay(index.collectors[c][i], g) && Expired(index.collectors[c][i], g, now);
    assert WitnessAt(index.collectors[c][i], g, names, now);
  }

  lemma CollectorIsNoSignal(b: Bundle, c: string)
    requires Unambiguous(SymbolsOf(b)) && c in CollectorNames(b)
    ensures c !in BundleIndex(b).signals && c in BundleIndex(b).collectors
  {
    NamesAreDisjoint(b);
    IndexNames(b);
  }

  /** Withholding collectors together with all their signals never authorizes, whatever the facts. */
  lemma WithholdingWholeCollectorsNeverAuthorizes(b: Bundle, g: Facts, names: set<string>, now: Clock)
    requires Accepted(b) && CleanNames(b) && names <= EvidenceNames(b) && WholeCollectors(b, names)
    ensures EvalBundle(b, Withheld(g, names), now).authorized ==> EvalBundle(b, g, now).authorized
  {
    forall c | c in CollectorNames(b) && c !in names && Stale(c, g, BundleIndex(b), now)
      ensures StaleWitness(b, g, names, c, now)
    {
      WholeCollectorStaysStale(b, g, names, c, now);
    }
    GainsNothingAnywhere(b, b, g, names, now);
  }
}
