// The tolerance test `between(value, min, max, epsilon)`: the value, widened by
// epsilon on both sides, must reach into the band [min, max]. The reporting
// calls (log on success, error on failure) are replaced by the boolean verdict.
module Between {

  /** Go's math.Max on two finite numbers. */
  function Max(a: real, b: real): (r: real)
    ensures r >= a && r >= b
    ensures r == a || r == b
  {
    if a >= b then a else b
  }

  /** Go's math.Min on two finite numbers. */
  function Min(a: real, b: real): (r: real)
    ensures r <= a && r <= b
    ensures r == a || r == b
  {
    if a <= b then a else b
  }

  /** lower := math.Max(value, value+epsilon): never below the value. */
  function Lower(value: real, epsilon: real): (r: real)
    ensures r >= value
    ensures r == (if epsilon >= 0.0 then value + epsilon else value)
  {
    Max(value, value + epsilon)
  }

  /** upper := math.Min(value, value-epsilon): never above the value. */
  function Upper(value: real, epsilon: real): (r: real)
    ensures r <= value
    ensures r == (if epsilon >= 0.0 then value - epsilon else value)
  {
    Min(value, value - epsilon)
  }

  /** The verdict of `between`: true where `between` logs success, false where it reports an error.
      For a non-negative epsilon the band is widened by epsilon on both sides; for a negative one
      both bounds collapse onto the value itself. */
  function Accepts(value: real, min: real, max: real, epsilon: real): (ok: bool)
    ensures epsilon >= 0.0 ==> (ok <==> value + epsilon >= min && value - epsilon <= max)
    ensures epsilon <= 0.0 ==> (ok <==> min <= value <= max)
    ensures min <= value <= max ==> ok
  {
    Lower(value, epsilon) >= min && Upper(value, epsilon) <= max
  }

  /** Whatever the sign of epsilon, the accepted values are exactly the band widened by max(epsilon, 0). */
  lemma AcceptsBand(value: real, min: real, max: real, epsilon: real)
    ensures Accepts(value, min, max, epsilon)
        <==> min - Max(epsilon, 0.0) <= value <= max + Max(epsilon, 0.0)
  {
  }

  /** Widening the tolerance never rejects a value that was accepted. */
  lemma AcceptsMonotone(value: real, min: real, max: real, e1: real, e2: real)
    requires e1 <= e2
    requires Accepts(value, min, max, e1)
    ensures Accepts(value, min, max, e2)
  {
  }
}
