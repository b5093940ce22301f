/** Conversion between display amounts in US dollars and ledger base units
    (stroops), as done by `usdToStroops` and `stroopsToUsd` in
    frontend/src/utils/stellar.ts. The source computes with JavaScript
    doubles; this model uses exact rationals (`real`), so it states what the
    code computes when no floating-point rounding occurs. */
module Units {

  /** STROOP_MULTIPLIER in frontend/src/config/constants.ts. */
  const StroopMultiplier: int := 10_000_000

  /** One stroop, in dollars. */
  const OneStroopUsd: real := 1.0 / StroopMultiplier as real

  /** `Math.floor(usdAmount * STROOP_MULTIPLIER)`: truncation toward minus
      infinity, never rounding up. */
  function UsdToStroops(usd: real): (s: int)
    ensures s as real <= usd * StroopMultiplier as real < s as real + 1.0
  {
    (usd * StroopMultiplier as real).Floor
  }

  /** `Number(stroops) / STROOP_MULTIPLIER`. */
  function StroopsToUsd(stroops: int): (usd: real)
    ensures usd * StroopMultiplier as real == stroops as real
    ensures stroops >= 0 <==> usd >= 0.0
  {
    stroops as real / StroopMultiplier as real
  }

  /** A non-negative dollar amount never becomes a negative ledger amount. */
  lemma NonNegativeStaysNonNegative(usd: real)
    requires usd >= 0.0
    ensures UsdToStroops(usd) >= 0
  {
  }

  /** Converting to stroops and back loses less than one stroop, and never
      gives more than was entered. */
  lemma RoundTripTruncates(usd: real)
    requires usd >= 0.0
    ensures StroopsToUsd(UsdToStroops(usd)) <= usd
    ensures usd - StroopsToUsd(UsdToStroops(usd)) < OneStroopUsd
  {
    var s := UsdToStroops(usd);
    var m := StroopMultiplier as real;
    assert s as real <= usd * m < s as real + 1.0;
    assert StroopsToUsd(s) * m == s as real;
    assert (usd - StroopsToUsd(s)) * m < 1.0;
  }

  /** Every ledger amount survives the trip to dollars and back unchanged. */
  lemma StroopsRoundTrip(stroops: int)
    ensures UsdToStroops(StroopsToUsd(stroops)) == stroops
  {
    var m := StroopMultiplier as real;
    assert StroopsToUsd(stroops) * m == stroops as real;
  }

  /** A larger dollar amount never yields fewer stroops. */
  lemma UsdToStroopsMonotonic(a: real, b: real)
    requires a <= b
    ensures UsdToStroops(a) <= UsdToStroops(b)
  {
    var m := StroopMultiplier as real;
    assert a * m <= b * m;
  }
}
