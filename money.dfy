/** Integer clamping of a JavaScript number (`clampInt` of the money
    utilities). A number is a `real` here; NaN and the infinities are not. */
module Money {

  /** `Math.trunc`: the integer part, rounding toward zero. */
  function Trunc(x: real): (r: int)
    ensures 0.0 <= x ==> r as real <= x < r as real + 1.0
    ensures x < 0.0 ==> r as real - 1.0 < x <= r as real
  {
    if x >= 0.0 then x.Floor else -((-x).Floor)
  }

  /** `Math.max(min, Math.min(max, Math.trunc(n)))`. */
  function ClampInt(n: real, min: int, max: int): (r: int)
    ensures min <= r
    ensures min <= max ==> r <= max
    ensures min <= Trunc(n) <= max ==> r == Trunc(n)
    ensures Trunc(n) < min ==> r == min
    ensures max < Trunc(n) && min <= max ==> r == max
    ensures max < min ==> r == min
  {
    var t := Trunc(n);
    var upper := if max < t then max else t;
    if min > upper then min else upper
  }

  /** A whole number is its own integer part, so one already in range
      comes back unchanged. */
  lemma ClampIntOfInteger(n: int, min: int, max: int)
    requires min <= n <= max
    ensures ClampInt(n as real, min, max) == n
  {
  }

  /** Clamping an already clamped value changes nothing. */
  lemma ClampIntIdempotent(n: real, min: int, max: int)
    ensures ClampInt(ClampInt(n, min, max) as real, min, max) == ClampInt(n, min, max)
  {
  }
}
