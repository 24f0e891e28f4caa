/** Two rules with one quorum many times over: what an abstract rule's quorums come to in two heirs. */
module HeirBundle {
  import opened Names
  import opened Evidence
  import opened Predicates
  import opened Bundles
  import opened Analysis
  import opened EmptyProbe
  import opened SmallBundle

  function Emits(name: string): Signal { Signal(name, NumberKind, Minute) }

  function Reporter(name: string, source: string, signal: string): Collector { Collector(name, source, [Emits(signal)]) }

  function Same(n: nat): (ps: seq<Predicate>)
    ensures |ps| == n && forall i :: 0 <= i < n ==> ps[i] == Gate
  {
    if n == 0 then [] else [Gate] + Same(n - 1)
  }

  function Watcher(n: nat): Rule { Rule("x", "t", [Reporter("c", "u", "s")], Same(n)) }

  function Listener(n: nat): Rule { Rule("y", "t", [Reporter("d", "v", "e")], Same(n)) }

  function Heirs(n: nat): Bundle { Bundle([Watcher(n), Listener(n)], [], []) }

  lemma HeirListing(n: nat)
    ensures AllCollectors(Heirs(n).rules) == [Reporter("c", "u", "s"), Reporter("d", "v", "e")]
    ensures AllSignals(AllCollectors(Heirs(n).rules)) == [Emits("s"), Emits("e")]
  {
    var c, d := Reporter("c", "u", "s"), Reporter("d", "v", "e");
    var x, y := Watcher(n), Listener(n);
    assert [x, y][..1] == [x] && [x][..0] == [] && [c, d][..1] == [c] && [c][..0] == [];
    assert AllCollectors([x]) == [] + [c] == [c];
    assert AllCollectors([x, y]) == [c] + [d] == [c, d];
    TwoSignals(c, d, Emits("s"), Emits("e"));
  }

  lemma TwoSignals(c: Collector, d: Collector, s: Signal, t: Signal)
    requires c.signals == [s] && d.signals == [t]
    ensures AllSignals([c, d]) == [s, t]
  {
    assert [c, d][..1] == [c] && [c][..0] == [];
    assert AllSignals([c]) == [] + [s] == [s];
    assert AllSignals([c, d]) == [s] + [t];
  }

  lemma HeirNames(n: nat)
    ensures SignalNames(Heirs(n)) == {"s", "e"} && CollectorNames(Heirs(n)) == {"c", "d"}
    ensures RuleNames(Heirs(n)) == {"x", "y"} && ClusterNames(Heirs(n)) == {}
  {
    var x, y := Watcher(n), Listener(n);
    assert Heirs(n).rules == [x, y] && x in Heirs(n).rules && y in Heirs(n).rules;
    assert Reporter("c", "u", "s") in x.collectors && Reporter("d", "v", "e") in y.collectors;
    assert Emits("s") in Reporter("c", "u", "s").signals && Emits("e") in Reporter("d", "v", "e").signals;
  }

  lemma HeirNamesAreShort(n: nat)
    ensures forall m :: m in EvidenceNames(Heirs(n)) + PublishedNames(Heirs(n)) ==> Short(m)
  {
    HeirNames(n);
    TwoShortNames(SignalNames(Heirs(n)), "s", "e");
    TwoShortNames(CollectorNames(Heirs(n)), "c", "d");
    TwoShortNames(RuleNames(Heirs(n)), "x", "y");
  }

  lemma TwoShortNames(names: set<string>, m: string, n: string)
    requires names == {m, n} && |m| == |n| == 1 && 'a' <= m[0] <= 'z' && 'a' <= n[0] <= 'z'
    ensures forall k :: k in names ==> Short(k)
  {
  }

  lemma HeirsAreClean(n: nat)
    ensures CleanNames(Heirs(n))
  {
    HeirNamesAreShort(n);
    ShortNamesAreClean(EvidenceNames(Heirs(n)) + PublishedNames(Heirs(n)));
  }

  lemma OneCollectorSymbols(c: Collector, s: Signal)
    requires c.signals == [s]
    ensures CollectorSymbols([c]) == [Symbol(CollectorSymbol, c.name, BoolKind), Symbol(SignalSymbol, s.name, s.kind)]
  {
    assert SignalSymbols([s]) == [Symbol(SignalSymbol, s.name, s.kind)] + SignalSymbols([]);
    assert CollectorSymbols([c]) == [Symbol(CollectorSymbol, c.name, BoolKind)] + SignalSymbols([s]) + CollectorSymbols([]);
  }

  lemma HeirSymbols(n: nat)
    ensures SymbolsOf(Heirs(n)) == [
      Symbol(KernelSymbol, KernelFact, NumberKind),
      Symbol(RuleSymbol, "x", BoolKind), Symbol(CollectorSymbol, "c", BoolKind), Symbol(SignalSymbol, "s", NumberKind),
      Symbol(RuleSymbol, "y", BoolKind), Symbol(CollectorSymbol, "d", BoolKind), Symbol(SignalSymbol, "e", NumberKind)]
  {
    var x, y := Watcher(n), Listener(n);
    OneCollectorSymbols(Reporter("c", "u", "s"), Emits("s"));
    OneCollectorSymbols(Reporter("d", "v", "e"), Emits("e"));
    assert [x, y][1..] == [y] && [y][1..] == [];
    assert RuleSymbols([y]) == [Symbol(RuleSymbol, "y", BoolKind)] + CollectorSymbols(y.collectors) + [];
    assert RuleSymbols([x, y]) == [Symbol(RuleSymbol, "x", BoolKind)] + CollectorSymbols(x.collectors) + RuleSymbols([y]);
  }

  lemma HeirsUnambiguous(n: nat)
    ensures Unambiguous(SymbolsOf(Heirs(n)))
  {
    HeirSymbols(n);
    var all := SymbolsOf(Heirs(n));
    assert |KernelFact| > 1;
    forall i, j | 0 <= i < j < |all|
      ensures Agree(all, i, j)
    {
      assert all[i].name != all[j].name;
    }
  }

  lemma HeirRuleShape(n: nat, r: Rule)
    requires n > 0 && r in Heirs(n).rules
    ensures RuleShape(r, Heirs(n))
  {
    HeirNames(n);
    CountOfOne("c", RuleScope(Heirs(n)));
    assert r == Watcher(n) || r == Listener(n);
    assert r.predicates == Same(n);
    assert AllInScope(Same(n), RuleScope(Heirs(n)));
  }

  lemma HeirsAreShaped(n: nat)
    requires n > 0
    ensures WellShaped(Heirs(n))
  {
    HeirListing(n);
    forall r | r in Heirs(n).rules
      ensures RuleShape(r, Heirs(n))
    {
      HeirRuleShape(n, r);
    }
  }

  lemma HeirsAreAccepted(n: nat)
    requires n > 0
    ensures Accepted(Heirs(n)) && CleanNames(Heirs(n))
  {
    HeirListing(n);
    DifferentNames(Emits("s"), Emits("e"));
    HeirsAreShaped(n);
    HeirsAreClean(n);
    HeirsUnambiguous(n);
    assert Monotone(Heirs(n));
    ProbeNeverFires(Heirs(n));
  }

  lemma HeirsAreStated(n: nat)
    ensures FieldsStated(Heirs(n))
  {
    HeirListing(n);
    MinuteIsReadable();
    assert CollectorStated(Reporter("c", "u", "s")) && CollectorStated(Reporter("d", "v", "e"));
    assert Lower("t") == "t";
  }

  lemma HeirsAreIndependent(n: nat)
    ensures IndependentQuorums(Heirs(n))
  {
    OneSubjectIsIndependent(Gate, "c", AllCollectors(Heirs(n).rules));
    forall r | r in Heirs(n).rules
      ensures r.predicates == Same(n)
    {
    }
  }

  /** The compiler takes the two heirs. */
  lemma HeirsCompile(n: nat)
    requires n > 0
    ensures Compiles(Heirs(n)) && CleanNames(Heirs(n))
  {
    HeirsAreAccepted(n);
    HeirsAreStated(n);
    HeirsAreIndependent(n);
  }
}
