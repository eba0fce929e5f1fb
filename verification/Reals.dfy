/** Exact-number stand-ins for the floating-point helpers of the limit algorithms, and the few
    facts about products the solver is not left to find. */
module Reals {

  function Max(a: real, b: real): real { if a < b then b else a }

  function Min(a: real, b: real): real { if a < b then a else b }

  /** int(x): towards zero. */
  function Trunc(x: real): (r: int)
    ensures x >= 0.0 ==> r as real <= x < r as real + 1.0
    ensures x <= 0.0 ==> r as real - 1.0 < x <= r as real
  {
    if x >= 0.0 then x.Floor else -((-x).Floor)
  }

  function Ceil(x: real): (r: int)
    ensures r as real - 1.0 < x <= r as real
  {
    -((-x).Floor)
  }

  lemma ProductNotNegative(a: real, b: real)
    requires a >= 0.0 && b >= 0.0
    ensures a * b >= 0.0
  {
  }

  lemma ProductPositive(a: real, b: real)
    requires a > 0.0 && b > 0.0
    ensures a * b > 0.0
  {
  }

  lemma Scale(a: real, b: real, c: real)
    requires a <= b && c >= 0.0
    ensures a * c <= b * c
  {
    ProductNotNegative(b - a, c);
    assert (b - a) * c == b * c - a * c;
  }

  lemma StrictScale(a: real, b: real, c: real)
    requires a < b && c > 0.0
    ensures a * c < b * c
  {
    ProductPositive(b - a, c);
    assert (b - a) * c == b * c - a * c;
  }

  lemma Cancel(a: real, b: real, c: real)
    requires c > 0.0 && a * c <= b * c
    ensures a <= b
  {
    if b < a {
      StrictScale(b, a, c);
    }
  }

  lemma StrictCancel(a: real, b: real, c: real)
    requires c > 0.0 && a * c < b * c
    ensures a < b
  {
    if b <= a {
      Scale(b, a, c);
    }
  }

  lemma ScaleOrder(q: real, k: real, n: real)
    requires n > 0.0
    ensures q >= k <==> q * n >= k * n
    ensures q <= k <==> q * n <= k * n
  {
    if q < k {
      StrictScale(q, k, n);
    } else if k < q {
      StrictScale(k, q, n);
    }
  }

  /** Comparisons of a quotient are comparisons by multiplication. */
  lemma QuotientAtLeast(x: real, n: real, k: real)
    requires n > 0.0
    ensures x / n >= k <==> x >= k * n
    ensures x / n <= k <==> x <= k * n
  {
    ShareExact(x, n);
    ScaleOrder(x / n, k, n);
  }

  lemma ShareExact(x: real, n: real)
    requires n != 0.0
    ensures x / n * n == x
  {
  }

  lemma StrictSquare(a: real, b: real)
    requires 0.0 <= a < b
    ensures a * a < b * b
  {
    ProductPositive(b - a, b + a);
    assert (b - a) * (b + a) == b * b - a * a;
  }

  lemma Shrink(x: real, f: real)
    requires x >= 0.0 && f <= 1.0
    ensures x * f <= x
  {
    Scale(f, 1.0, x);
  }

  lemma RootOrder(a: real, b: real)
    requires a >= 0.0 && b >= 0.0 && a * a <= b * b
    ensures a <= b
  {
    if b < a {
      StrictSquare(b, a);
    }
  }

  lemma QuotientBetween(x: real, n: real, lo: real, hi: real)
    requires n > 0.0 && n * lo <= x <= n * hi
    ensures lo <= x / n <= hi
  {
    var q := x / n;
    assert q * n == x;
    Cancel(lo, q, n);
    Cancel(q, hi, n);
  }

  function Mixture(x: real, y: real, f: real): real { x * (1.0 - f) + y * f }

  /** The same as a share f of the way from x to y. */
  function PartWay(x: real, y: real, f: real): real { x + f * (y - x) }

  lemma MixtureIsPartWay(x: real, y: real, f: real)
    ensures Mixture(x, y, f) == PartWay(x, y, f)
  {
  }

  lemma MixtureAtLeast(x: real, y: real, f: real, lo: real)
    requires lo <= x && lo <= y && 0.0 <= f <= 1.0
    ensures lo <= Mixture(x, y, f)
  {
    ProductNotNegative(x - lo, 1.0 - f);
    ProductNotNegative(y - lo, f);
    assert (x - lo) * (1.0 - f) + (y - lo) * f == Mixture(x, y, f) - lo;
  }

  lemma MixtureAtMost(x: real, y: real, f: real, hi: real)
    requires x <= hi && y <= hi && 0.0 <= f <= 1.0
    ensures Mixture(x, y, f) <= hi
  {
    ProductNotNegative(hi - x, 1.0 - f);
    ProductNotNegative(hi - y, f);
    assert (hi - x) * (1.0 - f) + (hi - y) * f == hi - Mixture(x, y, f);
  }

  /** A weighted mean lies between the bounds of what it is the mean of. */
  lemma MixtureBetween(x: real, y: real, f: real, lo: real, hi: real)
    requires lo <= x <= hi && lo <= y <= hi && 0.0 <= f <= 1.0
    ensures lo <= Mixture(x, y, f) <= hi
  {
    MixtureAtLeast(x, y, f, lo);
    MixtureAtMost(x, y, f, hi);
  }

  lemma MixtureRises(x: real, y: real, f: real)
    requires x < y && f > 0.0
    ensures x < Mixture(x, y, f)
  {
    ProductPositive(y - x, f);
    assert (y - x) * f == Mixture(x, y, f) - x;
  }

  lemma MixtureFalls(x: real, y: real, f: real)
    requires y < x && f > 0.0
    ensures Mixture(x, y, f) < x
  {
    ProductPositive(x - y, f);
    assert (x - y) * f == x - Mixture(x, y, f);
  }

  lemma MixtureBelow(x: real, d: real, f: real)
    ensures Mixture(x, x - d, f) == x - f * d
  {
  }

  lemma MixtureOfEquals(x: real, f: real)
    ensures Mixture(x, x, f) == x
  {
  }

  /** x / n kept between a half and one. */
  function ClippedRatio(x: real, n: real): (g: real)
    requires n > 0.0
    ensures 0.5 <= g <= 1.0
  {
    Max(0.5, Min(1.0, x / n))
  }

  /** The same by multiplication. */
  lemma ClippedRatioExact(x: real, n: real)
    requires n > 0.0
    ensures x >= n ==> ClippedRatio(x, n) == 1.0
    ensures x <= 0.5 * n ==> ClippedRatio(x, n) == 0.5
    ensures 0.5 * n <= x <= n ==> ClippedRatio(x, n) * n == x
  {
    QuotientAtLeast(x, n, 1.0);
    QuotientAtLeast(x, n, 0.5);
    ShareExact(x, n);
  }
}
