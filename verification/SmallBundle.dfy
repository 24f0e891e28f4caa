/** A smallest accepted bundle: one rule that counts one collector of two signals, whatever their expiries. */
module SmallBundle {
  import opened Names
  import opened Evidence
  import opened Predicates
  import opened Bundles
  import opened Analysis
  import opened Layering
  import opened LayerIndependence
  import opened EmptyProbe
  import opened Durations

  function Front(x: Expiry): Signal { Signal("s", NumberKind, x) }

  function Back(y: Expiry): Signal { Signal("t", NumberKind, y) }

  function Pair(x: Expiry, y: Expiry): Collector { Collector("c", "sensor", [Front(x), Back(y)]) }

  const Gate: Predicate := Count(["c"], 1)

  function Only(x: Expiry, y: Expiry): Rule { Rule("r", "door", [Pair(x, y)], [Gate]) }

  function House(x: Expiry, y: Expiry): Bundle { Bundle([Only(x, y)], [], []) }

  // ---- the bundle is accepted ----

  lemma HouseNames(x: Expiry, y: Expiry)
    ensures SignalNames(House(x, y)) == {"s", "t"} && CollectorNames(House(x, y)) == {"c"}
    ensures RuleNames(House(x, y)) == {"r"} && ClusterNames(House(x, y)) == {}
  {
    assert House(x, y).rules == [Only(x, y)] && Only(x, y).collectors == [Pair(x, y)] && Pair(x, y).signals == [Front(x), Back(y)];
    assert Only(x, y) in House(x, y).rules && Pair(x, y) in Only(x, y).collectors && Front(x) in Pair(x, y).signals && Back(y) in Pair(x, y).signals;
  }

  lemma LetterIsClean(n: string)
    requires |n| == 1 && 'a' <= n[0] <= 'z'
    ensures Clean(n)
  {
    assert Lower(n) == n;
  }

  /** One-letter names, and the kernel's own. */
  predicate Short(n: string) {
    n == KernelFact || (|n| == 1 && 'a' <= n[0] <= 'z')
  }

  lemma ShortNamesAreClean(names: set<string>)
    requires forall n :: n in names ==> Short(n)
    ensures forall n :: n in names ==> Clean(n)
  {
    KernelIsClean();
    forall n | n in names && n != KernelFact
      ensures Clean(n)
    {
      LetterIsClean(n);
    }
  }

  lemma HouseIsClean(x: Expiry, y: Expiry)
    ensures CleanNames(House(x, y))
  {
    HouseNames(x, y);
    ShortNamesAreClean(EvidenceNames(House(x, y)) + PublishedNames(House(x, y)));
  }

  lemma KernelIsClean()
    ensures Clean(KernelFact)
  {
    assert Lower(KernelFact) == KernelFact;
    assert KernelFact[0] == 'm';
  }

  lemma HouseSymbols(x: Expiry, y: Expiry)
    ensures SymbolsOf(House(x, y)) == [
      Symbol(KernelSymbol, KernelFact, NumberKind), Symbol(RuleSymbol, "r", BoolKind), Symbol(CollectorSymbol, "c", BoolKind),
      Symbol(SignalSymbol, "s", NumberKind), Symbol(SignalSymbol, "t", NumberKind)]
  {
    assert SignalSymbols([Back(y)]) == [Symbol(SignalSymbol, "t", NumberKind)];
    assert [Front(x), Back(y)][1..] == [Back(y)];
    assert SignalSymbols([Front(x), Back(y)]) == [Symbol(SignalSymbol, "s", NumberKind)] + SignalSymbols([Back(y)]);
    assert CollectorSymbols([Pair(x, y)]) == [Symbol(CollectorSymbol, "c", BoolKind)] + SignalSymbols([Front(x), Back(y)]) + CollectorSymbols([]);
    assert RuleSymbols([Only(x, y)]) == [Symbol(RuleSymbol, "r", BoolKind)] + CollectorSymbols([Pair(x, y)]) + RuleSymbols([]);
  }

  lemma HouseListing(x: Expiry, y: Expiry)
    ensures AllCollectors(House(x, y).rules) == [Pair(x, y)] && AllSignals([Pair(x, y)]) == [Front(x), Back(y)]
  {
    assert [Only(x, y)][..0] == [] && [Pair(x, y)][..0] == [];
    assert AllCollectors([Only(x, y)]) == AllCollectors([]) + [Pair(x, y)];
    assert AllSignals([Pair(x, y)]) == AllSignals([]) + [Front(x), Back(y)];
  }

  lemma GateStands(scope: Scope)
    requires "c" in scope.collectors
    ensures AllInScope([Gate], scope)
  {
    CountOfOne("c", scope);
  }

  lemma OnlyShape(x: Expiry, y: Expiry)
    ensures RuleShape(Only(x, y), House(x, y))
  {
    HouseNames(x, y);
    GateStands(RuleScope(House(x, y)));
  }

  lemma HouseShape(x: Expiry, y: Expiry)
    ensures WellShaped(House(x, y))
  {
    HouseListing(x, y);
    OnlyShape(x, y);
    assert House(x, y).rules == [Only(x, y)] && House(x, y).clusters == [] && House(x, y).predicates == [];
  }

  lemma HouseUnambiguous(x: Expiry, y: Expiry)
    ensures Unambiguous(SymbolsOf(House(x, y)))
  {
    HouseSymbols(x, y);
    var all := SymbolsOf(House(x, y));
    assert |KernelFact| > 1;
    forall i, j | 0 <= i < j < |all|
      ensures Agree(all, i, j)
    {
      assert all[i].name != all[j].name;
    }
  }

  lemma HouseExpiry(x: Expiry, y: Expiry)
    ensures ConsistentExpiry(AllSignals(AllCollectors(House(x, y).rules)))
  {
    HouseListing(x, y);
    DifferentNames(Front(x), Back(y));
  }

  lemma DifferentNames(s: Signal, t: Signal)
    requires s.name != t.name
    ensures ConsistentExpiry([s, t])
  {
  }

  lemma HouseIsAccepted(x: Expiry, y: Expiry)
    ensures Accepted(House(x, y)) && CleanNames(House(x, y))
  {
    HouseIsClean(x, y);
    HouseShape(x, y);
    HouseUnambiguous(x, y);
    HouseExpiry(x, y);
    assert Monotone(House(x, y));
    ProbeNeverFires(House(x, y));
  }

  const Minute: Expiry := Ttl("60s", 60)

  lemma MinuteIsReadable()
    ensures Readable(Minute)
  {
    assert DigitsLength("60s"[2..]) == 0 && DigitsLength("60s"[1..]) == 1 && DigitsLength("60s") == 2;
    assert "60s"[..2] == "60" && "60s"[2..] == "s";
    assert "60"[..1] == "6" && "6"[..0] == "";
    assert DigitsValue("6") == 6 && DigitsValue("60") == 60;
  }

  lemma HouseIsStated(x: Expiry, y: Expiry)
    requires Readable(x) && Readable(y)
    ensures FieldsStated(House(x, y))
  {
    HouseListing(x, y);
    PairIsStated(x, y);
    DoorIsCanonical();
  }

  lemma PairIsStated(x: Expiry, y: Expiry)
    requires Readable(x) && Readable(y)
    ensures CollectorStated(Pair(x, y))
  {
    var signals := [Front(x), Back(y)];
    assert signals[0].name == "s" && signals[1].name == "t";
  }

  lemma DoorIsCanonical()
    ensures IsCanonical("door")
  {
    assert Lower("door") == "door";
  }

  lemma HouseCompiles(x: Expiry, y: Expiry)
    requires Readable(x) && Readable(y)
    ensures Compiles(House(x, y)) && CleanNames(House(x, y))
  {
    HouseIsAccepted(x, y);
    HouseIsStated(x, y);
    OneSubjectIsIndependent(Gate, "c", AllCollectors(House(x, y).rules));
    assert House(x, y).rules == [Only(x, y)] && Only(x, y).predicates == [Gate];
  }

  // ---- what the evaluation decides ----

  lemma IndexTwo(s: Signal, t: Signal)
    ensures IndexSignals([s, t]) == map[][s.name := s][t.name := t]
  {
    assert [s, t][..1] == [s] && [s][..0] == [];
    assert IndexSignals([s]) == map[][s.name := s];
  }

  lemma IndexOne(c: Collector)
    ensures IndexCollectors([c]) == map[][c.name := c.signals]
  {
    assert [c][..0] == [] && [] + c.signals == c.signals;
  }

  lemma HouseIndex(x: Expiry, y: Expiry)
    ensures BundleIndex(House(x, y)).collectors == map["c" := [Front(x), Back(y)]]
    ensures BundleIndex(House(x, y)).signals == map["s" := Front(x), "t" := Back(y)]
  {
    HouseListing(x, y);
    IndexOne(Pair(x, y));
    IndexTwo(Front(x), Back(y));
  }

  lemma OnlyDecides(x: Expiry, y: Expiry, f: Facts, index: Index, now: Clock)
    ensures EvalRule(Only(x, y), f, index, now).authorized == Present(f, "c", index, now)
  {
    OneProviderCounts("c", f, index, now);
    OneCheck(Only(x, y), Gate, f, index, now);
  }

  /** The house authorizes exactly when its collector counts. */
  lemma HouseDecides(x: Expiry, y: Expiry, f: Facts, now: Clock)
    ensures EvalBundle(House(x, y), f, now).authorized == Present(f, "c", BundleIndex(House(x, y)), now)
  {
    HouseIsAccepted(x, y);
    LoopIsSimultaneous(House(x, y), f, now);
    SimultaneousDecision(House(x, y), f, now);
    OnlyDecides(x, y, f, BundleIndex(House(x, y)), now);
    assert RulesOn(House(x, y), f, now)[0] == EvalRule(Only(x, y), f, BundleIndex(House(x, y)), now);
  }
}
