/**
 * Small facts about products and quotients of reals, each stated on bare variables.
 * Products that take part in sums are written with `Times` and `Square`, so that a proof about
 * the sum is linear.
 */
module Reals {

  function Times(x: real, w: real): (r: real)
    ensures 0.0 <= x <= 1.0 && w >= 0.0 ==> 0.0 <= r <= w
  {
    Scaled(x, w);
    x * w
  }

  function Square(x: real): (r: real)
    ensures r >= 0.0
  {
    SquareNonNegative(x);
    x * x
  }

  lemma SquareNonNegative(x: real)
    ensures x * x >= 0.0
  {
    if x < 0.0 { assert x * x == (-x) * (-x); }
  }

  /** A factor in [0, 1] shrinks a non-negative number. */
  lemma Scaled(x: real, w: real)
    ensures 0.0 <= x <= 1.0 && w >= 0.0 ==> 0.0 <= x * w <= w
  {
    assert (1.0 - x) * w == w - x * w;
    if 0.0 <= x <= 1.0 && w >= 0.0 {
      assert (1.0 - x) * w >= 0.0;
    }
  }

  /** Multiplying by a positive number keeps and reflects the order. */
  lemma MulOrder(x: real, y: real, d: real)
    requires d > 0.0
    ensures x * d >= y * d <==> x >= y
  {
    assert (x - y) * d == x * d - y * d;
  }

  lemma MulMonotone(x: real, y: real, d: real)
    requires d >= 0.0 && x <= y
    ensures x * d <= y * d && Times(x, d) <= Times(y, d)
  {
    assert (y - x) * d >= 0.0;
    assert (y - x) * d == y * d - x * d;
  }

  lemma DivBounds(x: real, d: real, lo: real, hi: real)
    requires d > 0.0 && lo * d <= x <= hi * d
    ensures lo <= x / d <= hi
  {
    var q := x / d;
    assert q * d == x;
    MulOrder(q, lo, d);
    MulOrder(hi, q, d);
  }

  lemma PositiveProduct(x: real, y: real)
    requires x > 0.0 && y > 0.0
    ensures x * y > 0.0
  {
  }

  /** The sign of a product. */
  lemma SignOfTimes(x: real, y: real)
    requires y > 0.0
    ensures (x > 0.0 ==> Times(x, y) > 0.0) && (x < 0.0 ==> Times(x, y) < 0.0)
  {
    if x > 0.0 { PositiveProduct(x, y); }
    if x < 0.0 { PositiveProduct(-x, y); assert (-x) * y == -(x * y); }
  }

  /** A non-negative number whose square is at most that of another is at most the other. */
  lemma SquareRoot(x: real, y: real)
    requires y >= 0.0 && x * x <= y * y
    ensures x <= y
  {
    assert (x - y) * (x + y) == x * x - y * y;
    if x > y {
      PositiveProduct(x - y, x + y);
    }
  }

  lemma QuotientInUnit(x: real, d: real)
    requires d > 0.0 && 0.0 <= x <= d
    ensures 0.0 <= x / d <= 1.0
  {
    DivBounds(x, d, 0.0, 1.0);
  }

  lemma ConvexMix(p: real, w: real, q: real, m: real)
    requires 0.0 <= p <= 1.0 && 0.0 <= q <= 1.0 && w > 0.0 && m >= 0.0
    ensures 0.0 <= (p * w + q * m) / (w + m) <= 1.0
  {
    var a, b := p * w, q * m;
    assert 0.0 <= a <= w by { Scaled(p, w); }
    assert 0.0 <= b <= m by { Scaled(q, m); }
    QuotientInUnit(a + b, w + m);
  }

  lemma DivMonotone(x: real, y: real, d: real)
    requires d > 0.0 && x <= y
    ensures x / d <= y / d
  {
    assert (x / d) * d == x && (y / d) * d == y;
    MulOrder(y / d, x / d, d);
  }

  lemma QuotientOrder(a: real, d: real, b: real, e: real)
    requires d > 0.0 && e > 0.0 && a * e <= b * d
    ensures a / d <= b / e
  {
    var x, y := a / d, b / e;
    assert x * d == a && y * e == b;
    assert (x * d) * e == x * (d * e) && (y * e) * d == y * (d * e);
    PositiveProduct(d, e);
    MulOrder(y, x, d * e);
  }

  /** How far `w` units of evidence at distance `x` from a prior of mass `m` move the mean. */
  function Pull(x: real, w: real, m: real): (r: real)
    requires w >= 0.0 && m > 0.0
  {
    x * (w / (w + m))
  }

  lemma ShareMonotone(v: real, w: real, m: real)
    requires 0.0 <= v <= w && m > 0.0
    ensures 0.0 <= v / (v + m) <= w / (w + m)
  {
    QuotientInUnit(v, v + m);
    MulMonotone(v, w, m);
    assert v * (w + m) == v * w + v * m && w * (v + m) == v * w + w * m;
    QuotientOrder(v, v + m, w, w + m);
  }

  lemma ProductOrder(x: real, y: real, a: real, b: real)
    requires x <= y && 0.0 <= y && 0.0 <= a <= b
    ensures x * a <= y * b
  {
    MulMonotone(x, y, a);
    MulMonotone(a, b, y);
  }

  lemma PullBound(x: real, y: real, v: real, w: real, m: real)
    requires x <= y && 0.0 <= y && 0.0 <= v <= w && m > 0.0
    ensures Pull(x, v, m) <= Pull(y, w, m)
  {
    ShareMonotone(v, w, m);
    ProductOrder(x, y, v / (v + m), w / (w + m));
  }

  /** Shrinkage is the prior plus a pull. */
  lemma PullForm(p: real, w: real, q: real, m: real)
    requires w > 0.0 && m > 0.0
    ensures (p * w + q * m) / (w + m) == q + Pull(p - q, w, m)
  {
    var t, r := w / (w + m), (p * w + q * m) / (w + m);
    assert t * (w + m) == w && r * (w + m) == p * w + q * m;
    assert ((p - q) * t) * (w + m) == (p - q) * (t * (w + m)) == (p - q) * w;
    assert (p - q) * w == p * w - q * w && q * (w + m) == q * w + q * m;
    var s := q + (p - q) * t;
    assert s * (w + m) == q * (w + m) + ((p - q) * t) * (w + m);
    MulOrder(r, s, w + m);
    MulOrder(s, r, w + m);
  }
}
