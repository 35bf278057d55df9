/**
 * The pieces of JavaScript number semantics the model needs, stated over
 * exact reals: the two constants of `Math`, `Math.abs`, `Math.max`, and the
 * `%` operator, which truncates toward zero (unlike Dafny's Euclidean `%`).
 */
module Numerics {

  /** `Math.PI` as the double literal it denotes. */
  const PI: real := 3.141592653589793

  /** `Math.E` as the double literal it denotes. */
  const E: real := 2.718281828459045

  function Abs(x: real): (r: real)
    ensures r >= 0.0
    ensures r == x || r == -x
  {
    if x < 0.0 then -x else x
  }

  function Max(a: real, b: real): (r: real)
    ensures r >= a && r >= b
    ensures r == a || r == b
  {
    if a >= b then a else b
  }

  /** Rounds toward zero: the integer part JavaScript's `%` removes. */
  function Trunc(q: real): (n: int)
    ensures 0.0 <= q ==> 0 <= n && n as real <= q < n as real + 1.0
    ensures q < 0.0 ==> n <= 0 && n as real - 1.0 < q <= n as real
  {
    if q >= 0.0 then q.Floor else -((-q).Floor)
  }

  /**
   * JavaScript's `x % y` for finite `x` and non-zero `y`: the remainder
   * carries the sign of the dividend.
   */
  function Rem(x: real, y: real): real
    requires y != 0.0
  {
    x - y * (Trunc(x / y) as real)
  }

  /**
   * `x % 360`, the only remainder whose size matters here: smaller than 360
   * in magnitude, with the sign of `x`, and differing from `x` by a whole
   * number of turns.
   */
  lemma RemTurn(x: real)
    ensures -360.0 < Rem(x, 360.0) < 360.0
    ensures x >= 0.0 ==> Rem(x, 360.0) >= 0.0
    ensures x <= 0.0 ==> Rem(x, 360.0) <= 0.0
    ensures Rem(x, 360.0) == x - 360.0 * (Trunc(x / 360.0) as real)
  {
  }

  /** Whenever the dividend is an integer multiple of the divisor, `%` gives 0. */
  lemma RemOfMultiple(k: int, y: real)
    requires y != 0.0
    ensures Rem(k as real * y, y) == 0.0
  {
    assert (k as real * y) / y == k as real;
  }

  /** A quotient of a non-negative real by a positive one is non-negative. */
  lemma NonNegativeQuotient(x: real, y: real)
    requires 0.0 <= x && 0.0 < y
    ensures 0.0 <= x / y
  {
  }

  /** A product of two positive reals is positive. */
  lemma PositiveProduct(a: real, b: real)
    requires 0.0 < a && 0.0 < b
    ensures 0.0 < a * b
  {
  }

  /** A product of two non-negative reals is non-negative. */
  lemma NonNegativeProduct(a: real, b: real)
    requires 0.0 <= a && 0.0 <= b
    ensures 0.0 <= a * b
  {
  }

  /**
   * For a non-negative dividend and a positive divisor `%` is the usual
   * remainder: it lies in [0, divisor) and the dividend minus it is the
   * whole multiple `Trunc(x / y) * y`.
   */
  lemma RemOfNonNegative(x: real, y: real)
    requires 0.0 < y && 0.0 <= x
    ensures 0.0 <= Rem(x, y) < y
    ensures Rem(x, y) == x - Trunc(x / y) as real * y
  {
    var q := x / y;
    var n := Trunc(q) as real;
    NonNegativeQuotient(x, y);
    assert q * y == x;
    assert (q - n) * y == x - n * y;
    assert (n + 1.0 - q) * y == n * y + y - x;
    assert n <= q < n + 1.0;
    PositiveProduct(n + 1.0 - q, y);
    assert Rem(x, y) == x - y * n;
    assert x < n * y + y;
  }
}
