/**
 * The numeric helpers of data/utils.js and the JavaScript number operators
 * the program relies on. `Math.random()` is not called here: every random
 * helper takes the draw `r` it would have produced as a parameter.
 */
module Utils {

  /** A result that may be missing, where JavaScript would yield `undefined`,
      `NaN` or throw. */
  datatype Option<T> = None | Some(value: T)

  /** A value `Math.random()` can return. */
  predicate IsDraw(r: real) {
    0.0 <= r < 1.0
  }

  function Min(a: real, b: real): real {
    if a <= b then a else b
  }

  function Max(a: real, b: real): real {
    if a >= b then a else b
  }

  /** `Math.abs(x)`. */
  function Abs(x: real): real {
    if x < 0.0 then -x else x
  }

  /** `Utils.clamp(n, min, max)`, i.e. `Math.min(Math.max(n, min), max)`. */
  function Clamp(n: real, min: real, max: real): (r: real)
    ensures min <= max ==> min <= r <= max
    ensures min <= n <= max ==> r == n
    ensures n < min && min <= max ==> r == min
    ensures n > max ==> r == max
    ensures min > max ==> r == max
  {
    Min(Max(n, min), max)
  }

  lemma ClampIdempotent(n: real, min: real, max: real)
    requires min <= max
    ensures Clamp(Clamp(n, min, max), min, max) == Clamp(n, min, max)
  {
  }

  lemma ClampMonotone(a: real, b: real, min: real, max: real)
    ensures a <= b ==> Clamp(a, min, max) <= Clamp(b, min, max)
  {
  }

  /** `r * k` lies in `[0, k)` for a draw `r` and positive `k`. */
  lemma ScaledDraw(r: real, k: real)
    ensures IsDraw(r) && k > 0.0 ==> 0.0 <= r * k < k
  {
    if IsDraw(r) && k > 0.0 {
      assert (1.0 - r) * k > 0.0;
    }
  }

  /** `Utils.randomInt(min, max)`: `Math.floor(r * (max - min) + min)`. */
  function RandomInt(min: int, max: int, r: real): (n: int)
    ensures IsDraw(r) && min < max ==> min <= n < max
  {
    var k := (max - min) as real;
    ScaledDraw(r, k);
    (r * k + min as real).Floor
  }

  /** `randomInt(0, k)` is 0 exactly when `r < 1/k`. */
  lemma RandomIntZero(k: int, r: real)
    requires IsDraw(r) && k > 0
    ensures RandomInt(0, k, r) == 0 <==> r * k as real < 1.0
  {
    ScaledDraw(r, k as real);
    assert RandomInt(0, k, r) == (r * k as real + 0.0).Floor;
  }

  /** `Utils.randomFloat(min, max)`: `r * (max - min) + min`. */
  function RandomFloat(min: real, max: real, r: real): (x: real)
    ensures IsDraw(r) && min < max ==> min <= x < max
  {
    var k := max - min;
    ScaledDraw(r, k);
    assert IsDraw(r) && min < max ==> r * k < max - min;
    r * k + min
  }

  /** JavaScript's `~~x` (and `parseInt` of a plain decimal number):
      truncation toward zero. The 32-bit wrap of `~~` is not reached by the
      magnitudes the program uses. */
  function Trunc(x: real): (n: int)
    ensures x >= 0.0 ==> n as real <= x < n as real + 1.0
    ensures x < 0.0 ==> n as real - 1.0 < x <= n as real
  {
    if x >= 0.0 then x.Floor else -((-x).Floor)
  }

  /** `Math.round(x)`: the nearest integer, halves rounded up. */
  function Round(x: real): (n: int)
    ensures x - 0.5 < n as real <= x + 0.5
  {
    (x + 0.5).Floor
  }

  /** Bounds on a quotient by a positive divisor, from bounds on the dividend. */
  lemma QuotientBounds(x: real, d: real, lo: real, hi: real)
    requires d > 0.0
    ensures lo * d <= x ==> lo <= x / d
    ensures x < hi * d ==> x / d < hi
    ensures x <= hi * d ==> x / d <= hi
  {
    var q := x / d;
    assert q * d == x;
    assert (q - lo) * d == x - lo * d;
    assert (hi - q) * d == hi * d - x;
    ProductSign(q - lo, d);
    ProductSign(hi - q, d);
    assert lo * d <= x ==> (q - lo) * d >= 0.0;
    assert lo * d <= x ==> q - lo >= 0.0;
    assert x <= hi * d ==> (hi - q) * d >= 0.0;
  }

  /** Multiplying by a non-zero factor and dividing by it again is the identity. */
  lemma CancelFactor(y: real, s: real)
    requires s != 0.0
    ensures y * s / s == y
  {
  }

  lemma ProductSign(a: real, d: real)
    ensures d > 0.0 && a < 0.0 ==> a * d < 0.0
    ensures d > 0.0 && a <= 0.0 ==> a * d <= 0.0
  {
  }

  /** The product of two non-negative reals is non-negative. */
  lemma MulNonNegative(a: real, b: real)
    requires a >= 0.0 && b >= 0.0
    ensures a * b >= 0.0
  {
  }
}
