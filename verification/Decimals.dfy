/** The decimal arithmetic the daemon configures: eight fractional digits, halves rounded away from zero.
    A decimal is an integer count of 10^-8. */
module Decimals {

  const SCALE := 100_000_000

  type pos = x: int | x > 0 witness 1

  /** `a / b` to the nearest integer, a half going away from zero. */
  function RoundDiv(a: int, b: int): (r: int)
    requires b > 0
    ensures -b <= 2 * (b * r - a) <= b
    ensures a > 0 ==> 2 * (b * r - a) > -b
    ensures a < 0 ==> 2 * (b * r - a) < b
    ensures a >= 0 ==> r >= 0
    ensures a <= 0 ==> r <= 0
  {
    if a >= 0 then RoundUp(a, b) else 0 - RoundUp(-a, b)
  }

  function RoundUp(a: nat, b: int): (r: nat)
    requires b > 0
    ensures 2 * a - b < 2 * (b * r) <= 2 * a + b
  {
    var q := a / b;
    assert a == b * q + a % b;
    if 2 * (a % b) >= b then q + 1 else q
  }

  /** Division of decimals: the quotient of the two counts, rounded at eight digits. */
  function Div(x: int, y: int): int
    requires y != 0
  {
    if y > 0 then RoundDiv(x * SCALE, y) else RoundDiv(0 - x * SCALE, 0 - y)
  }

  // ---- Products ----

  lemma MulLe(a: int, b: int, c: int)
    requires a <= b && c >= 0
    ensures a * c <= b * c
  {
    assert (b - a) * c >= 0;
  }

  lemma MulCancel(a: int, b: int, c: int)
    requires a * c < b * c && c > 0
    ensures a < b
  {
    if a >= b { MulLe(b, a, c); }
  }

  lemma Nearest(k: int, b: int, r: int)
    requires b > 0 && -b <= 2 * (b * r - k * b) <= b
    ensures r == k
  {
    var x, y := r * b, k * b;
    assert b * r == x;
    assert (k + 1) * b == y + b && (r + 1) * b == x + b;
    MulCancel(r, k + 1, b);
    MulCancel(k, r + 1, b);
  }

  /** Rounding a multiple of the divisor is exact. */
  lemma RoundExact(k: int, b: int)
    requires b > 0
    ensures RoundDiv(k * b, b) == k
  {
    Nearest(k, b, RoundDiv(k * b, b));
  }
}
