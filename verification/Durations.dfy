/** Duration literals and the 64-bit arithmetic built on them. */
module Durations {
  import opened Evidence
  import opened Predicates

  /** Whole seconds that still fit a signed 64-bit count of nanoseconds. */
  const MaxSeconds: int := MaxDuration / Second

  // ---- the literal ----

  predicate IsDigit(c: char) {
    '0' <= c <= '9'
  }

  function DigitsLength(s: string): (k: nat)
    ensures k <= |s|
    ensures forall i :: 0 <= i < k ==> IsDigit(s[i])
    ensures k < |s| ==> !IsDigit(s[k])
  {
    if s == "" || !IsDigit(s[0]) then 0 else 1 + DigitsLength(s[1..])
  }

  function DigitsValue(s: string): nat
    requires forall i :: 0 <= i < |s| ==> IsDigit(s[i])
  {
    if s == "" then 0
    else
      assert IsDigit(s[|s| - 1]);
      10 * DigitsValue(s[..|s| - 1]) + (s[|s| - 1] as int - '0' as int)
  }

  /** Milliseconds per unit. */
  function UnitMillis(unit: string): Option<int> {
    if unit == "ms" then Some(1)
    else if unit == "s" then Some(1000)
    else if unit == "m" then Some(60 * 1000)
    else if unit == "h" then Some(60 * 60 * 1000)
    else if unit == "d" then Some(24 * 60 * 60 * 1000)
    else if unit == "w" then Some(7 * 24 * 60 * 60 * 1000)
    else if unit == "y" then Some(365 * 24 * 60 * 60 * 1000)
    else None
  }

  /** The literal's shape: a number without leading zero, then a unit. */
  predicate Matches(s: string) {
    DigitsLength(s) > 0 && s[0] != '0' && UnitMillis(s[DigitsLength(s)..]).Some?
  }

  /** What the literal denotes over the unbounded integers, rounded up to whole seconds. */
  function DenotedSeconds(s: string): int
    requires Matches(s)
  {
    (DigitsValue(s[..DigitsLength(s)]) * UnitMillis(s[DigitsLength(s)..]).value + 999) / 1000
  }

  // ---- the code ----

  /** Two's complement reduction to 64 bits. */
  function Wrap64(x: int): int {
    (x + 0x8000_0000_0000_0000) % 0x1_0000_0000_0000_0000 - 0x8000_0000_0000_0000
  }

  /** `checkedDurationSeconds`, with the product taken in 64 bits. */
  function CheckedSeconds(value: int, unitSeconds: int): Option<int>
    requires unitSeconds > 0
  {
    if value > MaxSeconds / unitSeconds then None else Some(Wrap64(value * unitSeconds))
  }

  function UnitSeconds(unit: string): (u: int)
    ensures u > 0
  {
    if unit == "m" then 60
    else if unit == "h" then 60 * 60
    else if unit == "d" then 24 * 60 * 60
    else if unit == "w" then 7 * 24 * 60 * 60
    else if unit == "y" then 365 * 24 * 60 * 60
    else 1
  }

  /** `parseDurationSeconds` */
  function ParseDurationSeconds(s: string): Option<int> {
    if !Matches(s) then None
    else
      var value := DigitsValue(s[..DigitsLength(s)]);
      var unit := s[DigitsLength(s)..];
      if value > MaxDuration then None
      else if unit == "ms" then
        CheckedSeconds(if value % 1000 != 0 then value / 1000 + 1 else value / 1000, 1)
      else CheckedSeconds(value, UnitSeconds(unit))
  }

  // ---- exactness ----

  lemma WrapIsIdentity(x: int)
    requires MinDuration <= x <= MaxDuration
    ensures Wrap64(x) == x
  {
  }

  lemma {:induction false} LeadingDigit(s: string)
    requires s != "" && s[0] != '0' && forall i :: 0 <= i < |s| ==> IsDigit(s[i])
    ensures DigitsValue(s) >= 1
  {
    if |s| > 1 {
      LeadingDigit(s[..|s| - 1]);
    }
  }

  lemma DivisionBound(value: int, unit: int, bound: int)
    requires unit > 0 && value >= 0 && bound >= 0
    ensures value > bound / unit <==> value * unit > bound
  {
    var q, r := bound / unit, bound % unit;
    assert bound == q * unit + r && 0 <= r < unit;
    if value > q {
      assert value * unit >= (q + 1) * unit;
    } else {
      assert value * unit <= q * unit;
    }
  }

  /** The check accepts exactly the products that fit, and then the 64-bit product is the product. */
  lemma CheckedSecondsExact(value: int, unit: int)
    requires unit > 0 && value >= 0
    ensures CheckedSeconds(value, unit) == if value * unit <= MaxSeconds then Some(value * unit) else None
  {
    DivisionBound(value, unit, MaxSeconds);
    if value * unit <= MaxSeconds {
      assert 0 <= value * unit;
      WrapIsIdentity(value * unit);
    }
  }

  lemma WholeUnits(value: int, unit: string)
    requires value >= 1 && unit != "ms" && UnitMillis(unit).Some?
    ensures (value * UnitMillis(unit).value + 999) / 1000 == value * UnitSeconds(unit)
    ensures value * UnitSeconds(unit) >= value
  {
    var u := UnitSeconds(unit);
    assert UnitMillis(unit).value == 1000 * u;
    assert value * (1000 * u) == 1000 * (value * u);
    assert value * u >= value * 1;
  }

  /** A literal of the right shape is accepted exactly when what it denotes, rounded up to whole
      seconds, still fits a 64-bit nanosecond count; the result is then exactly that. */
  lemma DurationsAreExact(s: string)
    ensures ParseDurationSeconds(s).Some? <==> Matches(s) && DenotedSeconds(s) <= MaxSeconds
    ensures ParseDurationSeconds(s).Some? ==> ParseDurationSeconds(s).value == DenotedSeconds(s) >= 1
  {
    if Matches(s) {
      var digits, unit := s[..DigitsLength(s)], s[DigitsLength(s)..];
      var value := DigitsValue(digits);
      LeadingDigit(digits);
      if unit == "ms" {
        var rounded := if value % 1000 != 0 then value / 1000 + 1 else value / 1000;
        assert rounded == (value + 999) / 1000;
        CheckedSecondsExact(rounded, 1);
      } else {
        WholeUnits(value, unit);
        CheckedSecondsExact(value, UnitSeconds(unit));
      }
    }
  }

  /** An accepted duration converts to nanoseconds without wrapping, in either direction of time. */
  lemma NanosecondsFit(s: string)
    requires ParseDurationSeconds(s).Some?
    ensures var n := ParseDurationSeconds(s).value * Second;
            Wrap64(n) == n && Wrap64(-n) == -n && 0 < n <= MaxDuration
  {
    DurationsAreExact(s);
    var n := ParseDurationSeconds(s).value * Second;
    assert n <= MaxSeconds * Second;
    WrapIsIdentity(n);
    WrapIsIdentity(-n);
  }

  /** Age tests on the saturating difference decide what the exact difference decides. */
  lemma SaturationDecidesNothing(seconds: int, now: int, actual: int)
    requires 0 <= seconds <= MaxSeconds
    ensures SaturatingSub(now, actual) <= seconds * Second <==> now - actual <= seconds * Second
    ensures SaturatingSub(now, actual) >= seconds * Second <==> now - actual >= seconds * Second
  {
    assert 0 <= seconds * Second <= MaxSeconds * Second <= MaxDuration;
  }

  /** For windows that came from accepted literals, an age check is the comparison over the unbounded integers. */
  lemma AgeChecksAreExact(window: string, actual: int, now: int)
    requires ParseDurationSeconds(window).Some? && actual <= now
    ensures var seconds := ParseDurationSeconds(window).value;
            (EvaluateRelation(AgeLte(seconds), actual, now, At(now)).passed <==> now - actual <= seconds * Second) &&
            (EvaluateRelation(AgeGte(seconds), actual, now, At(now)).passed <==> now - actual >= seconds * Second)
  {
    DurationsAreExact(window);
    SaturationDecidesNothing(ParseDurationSeconds(window).value, now, actual);
  }
}
