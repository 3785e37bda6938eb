/** The force taper of the simulation: `clamp` and the cubic Hermite `smoothstep`
    (nbody.h), with the float parameters idealised as reals. */
module Shaping {

  /** clamp(x, lowerlimit, upperlimit): the lower limit is tested first, so for
      crossed limits a value below both yields the lower one. */
  function Clamp(x: real, lowerLimit: real, upperLimit: real): (r: real)
    ensures x < lowerLimit ==> r == lowerLimit
    ensures lowerLimit <= x && upperLimit < x ==> r == upperLimit
    ensures lowerLimit <= x <= upperLimit ==> r == x
    ensures lowerLimit <= upperLimit ==> lowerLimit <= r <= upperLimit
  {
    if x < lowerLimit then lowerLimit
    else if x > upperLimit then upperLimit
    else x
  }

  /** Clamping twice to the same (ordered) limits is clamping once. */
  lemma ClampIdempotent(x: real, lo: real, hi: real)
    requires lo <= hi
    ensures Clamp(Clamp(x, lo, hi), lo, hi) == Clamp(x, lo, hi)
  {
  }

  /** Clamping to ordered limits preserves the order of its arguments. */
  lemma ClampMonotone(x: real, y: real, lo: real, hi: real)
    requires lo <= hi && x <= y
    ensures Clamp(x, lo, hi) <= Clamp(y, lo, hi)
  {
  }

  /** The Hermite cubic h(t) = t^2 (3 - 2t) that smoothstep evaluates. */
  function Hermite(t: real): real
  {
    t * t * (3.0 - 2.0 * t)
  }

  /** h maps [0, 1] into [0, 1]: h(t) >= 0 and 1 - h(t) = (1 - t)^2 (1 + 2t). */
  lemma HermiteBounds(t: real)
    requires 0.0 <= t <= 1.0
    ensures 0.0 <= Hermite(t) <= 1.0
  {
    ProductNonnegative(t * t, 3.0 - 2.0 * t);
    assert 1.0 - Hermite(t) == (1.0 - t) * (1.0 - t) * (1.0 + 2.0 * t);
    ProductNonnegative((1.0 - t) * (1.0 - t), 1.0 + 2.0 * t);
  }

  /** h is non-decreasing on [0, 1]:
      h(b) - h(a) = (b - a) (a (3 - 2a - b) + b (3 - 2b - a)). */
  lemma HermiteMonotone(a: real, b: real)
    requires 0.0 <= a <= b <= 1.0
    ensures Hermite(a) <= Hermite(b)
  {
    var k := a * (3.0 - 2.0 * a - b) + b * (3.0 - 2.0 * b - a);
    assert Hermite(b) - Hermite(a) == (b - a) * k;
    ProductNonnegative(a, 3.0 - 2.0 * a - b);
    ProductNonnegative(b, 3.0 - 2.0 * b - a);
    ProductNonnegative(b - a, k);
  }

  /** The product of two non-negative reals is non-negative. */
  lemma ProductNonnegative(p: real, q: real)
    requires 0.0 <= p && 0.0 <= q
    ensures 0.0 <= p * q
  {
  }

  /** Where a quotient by a positive number lies against 0 and 1. */
  lemma QuotientBounds(p: real, d: real)
    requires 0.0 < d
    ensures p <= 0.0 ==> p / d <= 0.0
    ensures d <= p ==> 1.0 <= p / d
  {
    DivideByPositive(p, 0.0, d);
    DivideByPositive(d, p, d);
  }

  /** A quotient by a positive number keeps the sign and the order of numerators. */
  lemma DivideByPositive(p: real, q: real, d: real)
    requires 0.0 < d
    ensures p <= q ==> p / d <= q / d
  {
    assert q / d - p / d == (q - p) / d;
  }

  /** smoothstep(edge0, edge1, x): scale x to t = (x - edge0) / (edge1 - edge0),
      clamp t to [0, 1] and return h(t). The source divides by edge1 - edge0
      unconditionally; equal edges are excluded here. */
  function Smoothstep(edge0: real, edge1: real, x: real): (r: real)
    requires edge0 != edge1
    ensures edge0 < edge1 ==> 0.0 <= r <= 1.0
    ensures edge0 < edge1 && x <= edge0 ==> r == 0.0
    ensures edge0 < edge1 && edge1 <= x ==> r == 1.0
  {
    var t := Clamp((x - edge0) / (edge1 - edge0), 0.0, 1.0);
    if edge0 < edge1 then
      QuotientBounds(x - edge0, edge1 - edge0);
      HermiteBounds(t);
      Hermite(t)
    else
      Hermite(t)
  }

  /** For ordered edges smoothstep is non-decreasing in x. */
  lemma SmoothstepMonotone(edge0: real, edge1: real, x: real, y: real)
    requires edge0 < edge1 && x <= y
    ensures Smoothstep(edge0, edge1, x) <= Smoothstep(edge0, edge1, y)
  {
    var w := edge1 - edge0;
    DivideByPositive(x - edge0, y - edge0, w);
    ClampMonotone((x - edge0) / w, (y - edge0) / w, 0.0, 1.0);
    HermiteMonotone(Clamp((x - edge0) / w, 0.0, 1.0), Clamp((y - edge0) / w, 0.0, 1.0));
  }
}
