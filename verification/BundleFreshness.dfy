/** What a report of expired evidence means in an accepted bundle. */
module BundleFreshness {
  import opened Evidence
  import opened Predicates
  import opened Bundles
  import opened Analysis
  import opened Layering
  import opened LayerIndependence
  import opened QuorumCounting
  import opened SmallBundle

  lemma DeclaredIsListed(b: Bundle, s: Signal)
    requires Declared(BundleIndex(b), s)
    ensures s in AllSignals(AllCollectors(b.rules))
  {
    var cs := AllCollectors(b.rules);
    IndexedSignals(AllSignals(cs));
    forall n, i | n in BundleIndex(b).collectors && 0 <= i < |BundleIndex(b).collectors[n]|
      ensures BundleIndex(b).collectors[n][i] in AllSignals(cs)
    {
      CollectorIndexSignals(cs, n, i);
    }
  }

  /** The index of a bundle holds every declared signal under its own clean name. */
  lemma BundleIndexIsKeyed(b: Bundle)
    requires PassesStructure(b) && CleanNames(b)
    ensures Keyed(BundleIndex(b)) && CleanIndex(BundleIndex(b))
  {
    var all := AllSignals(AllCollectors(b.rules));
    IndexedSignals(all);
    forall s | Declared(BundleIndex(b), s)
      ensures s.name in BundleIndex(b).signals && BundleIndex(b).signals[s.name] == s && Clean(s.name)
    {
      DeclaredIsListed(b, s);
      SameSignalSameContract(b, s, BundleIndex(b).signals[s.name]);
      IndexNames(b);
      assert s.name in EvidenceNames(b) + PublishedNames(b);
    }
  }

  // ---- what "expired" promises ----

  /** Every unmet quorum that may stand in the scope reports expired exactly when re-observation at the clock
      would meet it, whatever the facts. */
  ghost predicate ExpiredMeansCurable(b: Bundle, scope: Scope, now: int) {
    forall p, f, g :: MayStand(p, b, scope) && Reobserved(f, g, BundleIndex(b), now) ==> ReportsCurably(p, f, g, BundleIndex(b), now)
  }

  /** A quorum the compiler lets stand in the scope. */
  ghost predicate MayStand(p: Predicate, b: Bundle, scope: Scope) {
    (p.Count? || p.Quorum?) && Normalized(p) && InScope(p, scope) && Independent(p, AllCollectors(b.rules))
  }

  ghost predicate ReportsCurably(p: Predicate, f: Facts, g: Facts, index: Index, now: int) {
    !EvaluatePredicate(p, f, index, At(now)).passed ==>
      (EvaluatePredicate(p, f, index, At(now)).reason == ExpiredEvidence <==> EvaluatePredicate(p, g, index, At(now)).passed)
  }

  lemma QuorumReportsCurably(b: Bundle, p: Predicate, f: Facts, g: Facts, now: int)
    requires PassesStructure(b) && CleanNames(b) && NothingLapsed(BundleIndex(b), now)
    requires MayStand(p, b, GlobalScope(b)) && Reobserved(f, g, BundleIndex(b), now)
    ensures ReportsCurably(p, f, g, BundleIndex(b), now)
  {
    var names := EvidenceNames(b) + PublishedNames(b);
    BundleIndexIsKeyed(b);
    ScopeBoundsReads(b, p, GlobalScope(b), names);
    if !EvaluatePredicate(p, f, BundleIndex(b), At(now)).passed {
      ExpiredIsCounterfactual(p, names, f, g, BundleIndex(b), now);
    }
  }

  lemma RuleScopeIsGlobal(b: Bundle, p: Predicate)
    requires MayStand(p, b, RuleScope(b))
    ensures MayStand(p, b, GlobalScope(b))
  {
  }

  // ---- an expiry that has lapsed ----

  ghost predicate Lapsed(s: Signal, now: int) {
    s.expiry.Until? && !(s.expiry.instant.Some? && now <= s.expiry.instant.value)
  }

  lemma DeclaringCollector(b: Bundle, s: Signal) returns (c: Collector)
    requires PassesStructure(b) && Declared(BundleIndex(b), s)
    ensures s in c.signals && c.name in CollectorNames(b)
    ensures c.name in BundleIndex(b).collectors && BundleIndex(b).collectors[c.name] == c.signals
  {
    var cs := AllCollectors(b.rules);
    DeclaredIsListed(b, s);
    AllSignalsAre(cs);
    c :| c in cs && s in c.signals;
    AllCollectorsAre(b.rules);
    IndexOfCollector(cs, c);
  }

  lemma LapsedMakesStale(c: string, signals: seq<Signal>, s: Signal, f: Facts, index: Index, now: int)
    requires c in index.collectors && index.collectors[c] == signals && s in signals
    requires Lapsed(s, now) && s.name in f
    ensures Stale(c, f, index, At(now))
  {
    var i :| 0 <= i < |signals| && signals[i] == s;
    assert InPlay(index.collectors[c][i], f) && Expired(index.collectors[c][i], f, At(now));
  }

  /** A lapsed absolute expiry cannot be cured: the count of a collector that declares the signal reports expired
      and still fails on the re-observed facts. */
  lemma LapsedIsNotCured(b: Bundle, now: int, s: Signal) returns (p: Predicate, f: Facts, g: Facts)
    requires PassesStructure(b) && CleanNames(b) && Declared(BundleIndex(b), s) && Lapsed(s, now)
    ensures MayStand(p, b, RuleScope(b)) && Reobserved(f, g, BundleIndex(b), now)
    ensures EvaluatePredicate(p, f, BundleIndex(b), At(now)) == EvaluatePredicate(p, g, BundleIndex(b), At(now)) == Shortfall(true)
  {
    var index := BundleIndex(b);
    BundleIndexIsKeyed(b);
    var c := DeclaringCollector(b, s);
    p := Count([c.name], 1);
    f := map[c.name := BoolV(true), s.name := BoolV(true)];
    g := Reobserve(f, index, now);
    CountMayStand(b, c.name);
    assert SubjectValue(f, c.name) == Some(BoolV(true));
    StillLapsed(c, s, f, g, index, now);
  }

  lemma CountMayStand(b: Bundle, n: string)
    requires CleanNames(b) && n in CollectorNames(b)
    ensures MayStand(Count([n], 1), b, RuleScope(b)) && Clean(n)
  {
    assert n in EvidenceNames(b) + PublishedNames(b);
    CountOfOne(n, RuleScope(b));
    OneSubjectIsIndependent(Count([n], 1), n, AllCollectors(b.rules));
  }

  lemma StillLapsed(c: Collector, s: Signal, f: Facts, g: Facts, index: Index, now: int)
    requires Reobserved(f, g, index, now) && CleanIndex(index) && Clean(c.name) && Clean(s.name)
    requires c.name in index.collectors && index.collectors[c.name] == c.signals && s in c.signals && Lapsed(s, now)
    requires s.name in f && Truthy(f, c.name)
    ensures EvaluatePredicate(Count([c.name], 1), f, index, At(now)) == EvaluatePredicate(Count([c.name], 1), g, index, At(now)) == Shortfall(true)
  {
    ValuesKept(f, g, index, now, c.name);
    KeyKept(f, g, index, now, Plain, s.name);
    LapsedMakesStale(c.name, c.signals, s, f, index, now);
    LapsedMakesStale(c.name, c.signals, s, g, index, now);
    OneProvider(c.name, f, index, now);
    OneProvider(c.name, g, index, now);
  }

  /** In every bundle that passes the structural checks, "expired" means "would pass if observed now", for every
      quorum a rule may hold, and likewise for every quorum of the final policy, exactly when no absolute expiry
      declared in the bundle has passed. */
  lemma CurableIffNothingLapsed(b: Bundle, now: int)
    requires PassesStructure(b) && CleanNames(b)
    ensures ExpiredMeansCurable(b, RuleScope(b), now) <==> NothingLapsed(BundleIndex(b), now)
    ensures ExpiredMeansCurable(b, GlobalScope(b), now) <==> NothingLapsed(BundleIndex(b), now)
  {
    if NothingLapsed(BundleIndex(b), now) {
      forall p, f, g | MayStand(p, b, GlobalScope(b)) && Reobserved(f, g, BundleIndex(b), now)
        ensures ReportsCurably(p, f, g, BundleIndex(b), now)
      {
        QuorumReportsCurably(b, p, f, g, now);
      }
      forall p | MayStand(p, b, RuleScope(b))
        ensures MayStand(p, b, GlobalScope(b))
      {
        RuleScopeIsGlobal(b, p);
      }
    } else {
      var s :| Declared(BundleIndex(b), s) && Lapsed(s, now);
      var p, f, g := LapsedIsNotCured(b, now, s);
      RuleScopeIsGlobal(b, p);
      assert !ReportsCurably(p, f, g, BundleIndex(b), now);
    }
  }

  // ---- a bundle on which "expired" cannot be cured ----

  const Past: Expiry := Until("1970-01-01T00:00:00Z", Some(0))

  const Lapsing: Bundle := House(Past, Minute)

  const Supplied: Facts := map["c" := BoolV(true), "s" := NumV(Finite(1.0))]

  /** A bundle the compiler takes, with a lapsed absolute expiry: its one check reports expired, and re-observing every
      signal leaves the bundle unauthorized. */
  lemma LapsedExpiryIsNotCured()
    ensures Compiles(Lapsing) && CleanNames(Lapsing)
    ensures Gate in Lapsing.rules[0].predicates
    ensures EvaluatePredicate(Gate, Supplied, BundleIndex(Lapsing), At(1)) == Failed(ExpiredEvidence)
    ensures exists g :: Reobserved(Supplied, g, BundleIndex(Lapsing), 1)
    ensures forall g :: Reobserved(Supplied, g, BundleIndex(Lapsing), 1) ==> !EvalBundle(Lapsing, g, At(1)).authorized
  {
    MinuteIsReadable();
    HouseCompiles(Past, Minute);
    BundleIndexIsKeyed(Lapsing);
    var h := Reobserve(Supplied, BundleIndex(Lapsing), 1);
    LapsingStays(h);
    forall g | Reobserved(Supplied, g, BundleIndex(Lapsing), 1)
      ensures !EvalBundle(Lapsing, g, At(1)).authorized
    {
      LapsingStays(g);
      HouseDecides(Past, Minute, g, At(1));
      OneProviderCounts("c", g, BundleIndex(Lapsing), At(1));
    }
  }

  lemma LapsingStays(g: Facts)
    requires CleanIndex(BundleIndex(Lapsing)) && Reobserved(Supplied, g, BundleIndex(Lapsing), 1)
    ensures EvaluatePredicate(Gate, Supplied, BundleIndex(Lapsing), At(1)) == EvaluatePredicate(Gate, g, BundleIndex(Lapsing), At(1)) == Failed(ExpiredEvidence)
  {
    LetterIsClean("c");
    LetterIsClean("s");
    HouseIndex(Past, Minute);
    assert Front(Past) in [Front(Past), Back(Minute)];
    StillLapsed(Pair(Past, Minute), Front(Past), Supplied, g, BundleIndex(Lapsing), 1);
  }
}
