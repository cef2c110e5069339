/** The few JavaScript number and date primitives the engine relies on,
    over exact reals: Math.max, Math.round, and the conversion of a number
    into a Date whose ISO rendering is taken.
 */
module JsMath {
  import opened Outcomes

  function Max(a: real, b: real): (r: real)
    ensures r >= a && r >= b
    ensures r == a || r == b
  {
    if a >= b then a else b
  }

  /** Math.round: the nearest integer, with halves rounded towards +infinity. */
  function Round(x: real): (r: int)
    ensures x - 0.5 < r as real <= x + 0.5
  {
    (x + 0.5).Floor
  }

  lemma RoundMonotonic(x: real, y: real)
    requires x <= y
    ensures Round(x) <= Round(y)
  {
  }

  /** Rounding a non-negative number gives a non-negative integer, and a
      number below one half rounds to zero. */
  lemma RoundNonNegative(x: real)
    requires x >= 0.0
    ensures Round(x) >= 0
    ensures x < 0.5 <==> Round(x) == 0
  {
  }

  /** Largest magnitude of a valid Date time value (ECMAScript TimeClip). */
  const MAX_TIME_VALUE: int := 8_640_000_000_000_000

  predicate ValidTimeValue(t: int) {
    -MAX_TIME_VALUE <= t <= MAX_TIME_VALUE
  }

  /** ToIntegerOrInfinity on a finite number: truncation towards zero. */
  function TruncateTowardZero(x: real): (r: int)
    ensures 0.0 <= x ==> 0 <= r && r as real <= x < r as real + 1.0
    ensures x < 0.0 ==> r <= 0 && r as real - 1.0 < x <= r as real
  {
    if x >= 0.0 then x.Floor else -((-x).Floor)
  }

  /** `new Date(x).toISOString()` for a finite number x: the integral time
      value of the date, or None where the Date is invalid and the rendering
      throws a RangeError. */
  function DateFromNumber(x: real): (r: Option<int>)
    ensures r.Some? <==> -(MAX_TIME_VALUE as real) <= x <= MAX_TIME_VALUE as real
    ensures r.Some? ==> ValidTimeValue(r.value)
    ensures r.Some? ==> -1.0 < x - r.value as real < 1.0
    ensures r.Some? && x >= 0.0 ==> r.value as real <= x
    ensures r.Some? && x < 0.0 ==> x <= r.value as real
  {
    if -(MAX_TIME_VALUE as real) <= x <= MAX_TIME_VALUE as real then Some(TruncateTowardZero(x)) else None
  }

  /** A whole number of milliseconds converts to itself when it is in range. */
  lemma DateFromWholeNumber(t: int)
    ensures DateFromNumber(t as real) == if ValidTimeValue(t) then Some(t) else None
  {
  }
}
