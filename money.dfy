/**
 * Amounts: stored as integer minor units (cents, paise); shown as major units.
 * Major-unit values are exact rationals here, not binary floating point.
 */
module Money {

  /** `Math.round(x)`: the nearest integer, a half rounded up. */
  function Round(x: real): (n: int)
    ensures n as real - 0.5 <= x < n as real + 0.5
  {
    (x + 0.5).Floor
  }

  /** `minor / 100`: minor units shown as major units. */
  function ToMajor(minor: int): real
  {
    minor as real / 100.0
  }

  /** `Math.round(major * 100)`: major units stored as minor units. */
  function ToMinor(major: real): int
  {
    Round(major * 100.0)
  }

  /** `parseFloat(x.toFixed(2))`: a major-unit value rounded to whole minor units. */
  function RoundToMinor(major: real): real
  {
    ToMajor(ToMinor(major))
  }

  /** Showing stored minor units and storing them again gives back the same minor units. */
  lemma MinorRoundTrip(minor: int)
    ensures ToMinor(ToMajor(minor)) == minor
  {
    assert ToMajor(minor) * 100.0 == minor as real;
  }

  /** A major-unit value with at most two fractional digits survives storing and showing. */
  lemma MajorRoundTrip(major: real)
    requires (major * 100.0).Floor as real == major * 100.0
    ensures ToMajor(ToMinor(major)) == major
    ensures RoundToMinor(major) == major
  {
    var n := (major * 100.0).Floor;
    assert ToMinor(major) == n;
  }

  /**
   * A positive amount is stored as a non-negative number of minor units, and as a
   * positive one exactly when it is at least half a minor unit.
   */
  lemma PositiveAmountStored(major: real)
    requires major > 0.0
    ensures ToMinor(major) >= 0
    ensures ToMinor(major) > 0 <==> major >= 0.005
  {
  }
}
