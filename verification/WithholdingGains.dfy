/** An input on which leaving evidence out does authorize: one bundle, one clock, two fact maps. The collector
    of the bundle is stale because of one of its two signals, and fresh once that signal is left out. */
module WithholdingGains {
  import opened Evidence
  import opened Bundles
  import opened Analysis
  import opened Withholding
  import opened SmallBundle

  const Yard: Bundle := House(Minute, Minute)

  const Noon: Clock := At(100 * Second)

  /** The collector with both its signals, one observed now and one long ago. */
  const Everything: Facts :=
    map["c" := BoolV(true),
        "s" := NumV(Finite(1.0)), "observed_at.s" := TimeV(100 * Second),
        "t" := NumV(Finite(1.0)), "observed_at.t" := TimeV(0)]

  lemma EverythingIsStale()
    ensures Truthy(Everything, "c") && Stale("c", Everything, BundleIndex(Yard), Noon)
  {
    HouseIndex(Minute, Minute);
    assert Key(ObservedAt, "t") == "observed_at.t" && Key(Plain, "c") == "c";
    assert InPlay(Back(Minute), Everything) && Expired(Back(Minute), Everything, Noon);
    assert BundleIndex(Yard).collectors["c"][1] == Back(Minute);
  }

  lemma WithoutOldIsFresh()
    ensures !StaleWitness(Yard, Everything, {"t"}, "c", Noon)
  {
    HouseIndex(Minute, Minute);
    assert Key(ObservedAt, "s") == "observed_at.s";
    assert !Expired(Front(Minute), Everything, Noon);
  }

  /** Leaving out the old signal turns a refusal into an authorization: the collector was stale because of
      it, and without it is not. */
  lemma WithholdingCanAuthorize()
    ensures Compiles(Yard) && CleanNames(Yard)
    ensures !EvalBundle(Yard, Everything, Noon).authorized
    ensures EvalBundle(Yard, Withheld(Everything, {"t"}), Noon).authorized
  {
    MinuteIsReadable();
    HouseCompiles(Minute, Minute);
    HouseNames(Minute, Minute);
    EverythingIsStale();
    WithoutOldIsFresh();
    WithheldKeeps(Yard, Everything, {"t"}, "c");
    StaleRemains(Yard, Everything, {"t"}, "c", Noon);
    HouseDecides(Minute, Minute, Everything, Noon);
    HouseDecides(Minute, Minute, Withheld(Everything, {"t"}), Noon);
  }
}
