/**
 * Numeric helpers. JavaScript numbers are modelled as exact reals: `Math.round`
 * rounds half up, which is `Floor(x + 1/2)` on the reals, and `Math.floor` is
 * the real floor.
 */
module Numeric {

  /** `Math.round(x)`: the nearest integer, ties rounded up. */
  function Round(x: real): (r: int)
    ensures x - 0.5 < r as real <= x + 0.5
  {
    (x + 0.5).Floor
  }

  /** `Math.floor(x)`. */
  function Floor(x: real): (r: int)
    ensures r as real <= x < r as real + 1.0
  {
    x.Floor
  }

  lemma RoundOfInteger(n: int)
    ensures Round(n as real) == n
  {
  }

  /** Rounding is monotone. */
  lemma RoundMonotone(x: real, y: real)
    requires x <= y
    ensures Round(x) <= Round(y)
  {
  }

  /** `Span(w, n)` is `w / 2^n`, written as repeated halving so that it stays linear. */
  function Span(w: real, n: nat): (r: real)
    ensures w >= 0.0 ==> r >= 0.0
    ensures w > 0.0 ==> r > 0.0
  {
    if n == 0 then w else Span(w, n - 1) / 2.0
  }

  function Min(a: real, b: real): (r: real)
    ensures r <= a && r <= b && (r == a || r == b)
  {
    if a <= b then a else b
  }

  function MaxInt(a: int, b: int): (r: int)
    ensures r >= a && r >= b && (r == a || r == b)
  {
    if a >= b then a else b
  }

  function Clamp(x: int, lo: int, hi: int): (r: int)
    requires lo <= hi
    ensures lo <= r <= hi
    ensures lo <= x <= hi ==> r == x
  {
    if x < lo then lo else if x > hi then hi else x
  }
}
