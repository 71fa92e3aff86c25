/**
 * The lattice of search cells, in metres of the plane around the city centre: what it covers, how
 * far it reaches, and how many cells it has.
 */
module GridCover {
  import opened Reals

  type Point = (real, real)

  function Norm2(p: Point): real { Square(p.0) + Square(p.1) }

  function Minus(p: Point, q: Point): Point { (p.0 - q.0, p.1 - q.1) }

  /** `max(1, radius // cell)` */
  function Reach(radius: real, cell: real): int
    requires cell > 0.0
  {
    var n := (radius / cell).Floor;
    if n < 1 then 1 else n
  }

  function CenterAt(cell: real, shift: real, i: int, j: int): Point {
    (Times(i as real, cell) + shift, Times(j as real, cell) + shift)
  }

  /** The centre (i, j) is one of the cells that the sweep searches. */
  predicate Kept(radius: real, cell: real, shift: real, i: int, j: int)
    requires cell > 0.0
  {
    var n := Reach(radius, cell);
    -n <= i <= n && -n <= j <= n && Norm2(CenterAt(cell, shift, i, j)) <= Square(radius)
  }

  ghost predicate IsCenter(radius: real, cell: real, shift: real, p: Point)
    requires cell > 0.0
  {
    exists i, j :: Kept(radius, cell, shift, i, j) && p == CenterAt(cell, shift, i, j)
  }

  /** The kept centres whose indices come before (i, j) in the order of the loops. */
  ghost predicate IsCenterBefore(radius: real, cell: real, shift: real, i: int, j: int, p: Point)
    requires cell > 0.0
  {
    exists k, l :: Kept(radius, cell, shift, k, l) && p == CenterAt(cell, shift, k, l) && (k < i || (k == i && l < j))
  }

  lemma NextCenter(radius: real, cell: real, shift: real, i: int, j: int, p: Point)
    requires cell > 0.0
    ensures IsCenterBefore(radius, cell, shift, i, j + 1, p)
            <==> IsCenterBefore(radius, cell, shift, i, j, p) || (Kept(radius, cell, shift, i, j) && p == CenterAt(cell, shift, i, j))
  {
    if k, l :| Kept(radius, cell, shift, k, l) && p == CenterAt(cell, shift, k, l) && (k < i || (k == i && l < j)) {}
  }

  lemma NextRow(radius: real, cell: real, shift: real, i: int, p: Point)
    requires cell > 0.0
    ensures IsCenterBefore(radius, cell, shift, i, Reach(radius, cell) + 1, p)
            <==> IsCenterBefore(radius, cell, shift, i + 1, -Reach(radius, cell), p)
  {
  }

  method GridCenters(radius: real, cell: real, offsetFraction: real) returns (centers: seq<Point>)
    requires cell > 0.0
    ensures forall p :: p in centers <==> IsCenter(radius, cell, Times(offsetFraction, cell), p)
    ensures |centers| <= (2 * Reach(radius, cell) + 1) * (2 * Reach(radius, cell) + 1)
  {
    var n := Reach(radius, cell);
    var shift := Times(offsetFraction, cell);
    centers := [];
    for i := -n to n + 1
      invariant forall p :: p in centers <==> IsCenterBefore(radius, cell, shift, i, -n, p)
      invariant |centers| <= (i + n) * (2 * n + 1)
    {
      centers := GridRow(radius, cell, shift, i, centers);
      forall p ensures p in centers <==> IsCenterBefore(radius, cell, shift, i + 1, -n, p) { NextRow(radius, cell, shift, i, p); }
      assert (i + n) * (2 * n + 1) + (2 * n + 1) == (i + 1 + n) * (2 * n + 1);
    }
    forall p ensures IsCenterBefore(radius, cell, shift, n + 1, -n, p) <==> IsCenter(radius, cell, shift, p) {
      AllCenters(radius, cell, shift, p);
    }
  }

  lemma AllCenters(radius: real, cell: real, shift: real, p: Point)
    requires cell > 0.0
    ensures IsCenterBefore(radius, cell, shift, Reach(radius, cell) + 1, -Reach(radius, cell), p) <==> IsCenter(radius, cell, shift, p)
  {
  }

  method GridRow(radius: real, cell: real, shift: real, i: int, before: seq<Point>) returns (centers: seq<Point>)
    requires cell > 0.0 && -Reach(radius, cell) <= i <= Reach(radius, cell)
    requires forall p :: p in before <==> IsCenterBefore(radius, cell, shift, i, -Reach(radius, cell), p)
    ensures forall p :: p in centers <==> IsCenterBefore(radius, cell, shift, i, Reach(radius, cell) + 1, p)
    ensures |centers| <= |before| + 2 * Reach(radius, cell) + 1
  {
    var n := Reach(radius, cell);
    centers := before;
    for j := -n to n + 1
      invariant forall p :: p in centers <==> IsCenterBefore(radius, cell, shift, i, j, p)
      invariant |centers| <= |before| + j + n
    {
      forall p { NextCenter(radius, cell, shift, i, j, p); }
      var center := CenterAt(cell, shift, i, j);
      if Norm2(center) <= Square(radius) {
        centers := centers + [center];
      }
    }
  }

  // ---- geometry ----

  /** Lagrange's identity in the plane. */
  lemma Lagrange(a: real, b: real, x: real, y: real)
    ensures Square(a * x + b * y) + Square(a * y - b * x) == Times(Square(a) + Square(b), Square(x) + Square(y))
  {
    var p, q, r, s := a * x, b * y, a * y, b * x;
    SquareOfSum(p, q);
    SquareOfDifference(r, s);
    CrossProducts(a, b, x, y);
    Quartic(a, x);
    Quartic(a, y);
    Quartic(b, x);
    Quartic(b, y);
    TwoByTwo(Square(a), Square(b), Square(x), Square(y));
  }

  lemma SquareOfSum(p: real, q: real)
    ensures Square(p + q) == Square(p) + 2.0 * (p * q) + Square(q)
  {
  }

  lemma SquareOfDifference(p: real, q: real)
    ensures Square(p - q) == Square(p) - 2.0 * (p * q) + Square(q)
  {
  }

  lemma CrossProducts(a: real, b: real, x: real, y: real)
    ensures (a * x) * (b * y) == (a * y) * (b * x)
  {
    var m, n := a * b, x * y;
    assert (a * x) * (b * y) == m * n by { Regroup(a, x, b, y); }
    assert (a * y) * (b * x) == m * n by {
      Regroup(a, y, b, x);
      assert y * x == x * y;
    }
  }

  lemma Regroup(a: real, x: real, b: real, y: real)
    ensures (a * x) * (b * y) == (a * b) * (x * y)
  {
    var z := b * y;
    assert (a * x) * z == a * (x * z);
    assert x * z == b * (x * y) by { assert x * (b * y) == (x * b) * y == (b * x) * y == b * (x * y); }
    var xy := x * y;
    assert a * (b * xy) == (a * b) * xy;
  }

  lemma TwoByTwo(a: real, b: real, x: real, y: real)
    ensures Times(a + b, x + y) == Times(a, x) + Times(a, y) + Times(b, x) + Times(b, y)
  {
    var t := x + y;
    assert (a + b) * t == a * t + b * t;
    assert a * t == a * x + a * y && b * t == b * x + b * y;
  }

  lemma Quartic(a: real, x: real)
    ensures Square(a * x) == Times(Square(a), Square(x)) && Square(Times(a, x)) == Times(Square(a), Square(x))
  {
    Regroup(a, x, a, x);
  }

  lemma DotBound(p: Point, d: Point, r: real, h: real)
    requires r >= 0.0 && h >= 0.0 && Norm2(p) <= Square(r) && Norm2(d) <= Square(h)
    ensures p.0 * d.0 + p.1 * d.1 <= r * h
  {
    var dot := p.0 * d.0 + p.1 * d.1;
    Lagrange(p.0, p.1, d.0, d.1);
    TimesOrder(Norm2(p), Square(r), Norm2(d), Square(h));
    Quartic(r, h);
    MulMonotone(0.0, r, h);
    RootOrder(dot, r * h);
  }

  lemma TimesOrder(x: real, y: real, a: real, b: real)
    requires x <= y && 0.0 <= y && 0.0 <= a <= b
    ensures Times(x, a) <= Times(y, b)
  {
    ProductOrder(x, y, a, b);
  }

  /** The triangle inequality, on squares. */
  lemma Triangle(p: Point, d: Point, r: real, h: real)
    requires r >= 0.0 && h >= 0.0 && Norm2(p) <= Square(r) && Norm2(d) <= Square(h)
    ensures Norm2((p.0 + d.0, p.1 + d.1)) <= Square(r + h)
  {
    DotBound(p, d, r, h);
    assert (r + h) * (r + h) == r * r + 2.0 * (r * h) + h * h;
    assert (p.0 + d.0) * (p.0 + d.0) == p.0 * p.0 + 2.0 * (p.0 * d.0) + d.0 * d.0;
    assert (p.1 + d.1) * (p.1 + d.1) == p.1 * p.1 + 2.0 * (p.1 * d.1) + d.1 * d.1;
  }

  lemma SquareOrder(x: real, y: real)
    requires -y <= x <= y
    ensures Square(x) <= Square(y)
  {
    assert (y - x) * (y + x) == y * y - x * x;
    MulMonotone(0.0, y - x, y + x);
  }

  lemma RootOrder(x: real, y: real)
    requires y >= 0.0 && Square(x) <= Square(y)
    ensures -y <= x <= y
  {
    SquareRoot(x, y);
    NegatedSquare(x);
    SquareRoot(-x, y);
  }

  // ---- cover, with the cell as the unit of length ----

  /** Half the diagonal of a unit cell. */
  predicate HalfDiagonal(h: real) { h > 0.0 && 2.0 * Square(h) == 1.0 }

  lemma HalfDiagonalBounds(h: real)
    requires HalfDiagonal(h)
    ensures 0.7 < h < 0.75
  {
    if h <= 0.7 { SquareOrder(h, 0.7); }
    if h >= 0.75 { SquareOrder(0.75, h); }
  }

  function UnitCenter(fraction: real, i: int, j: int): Point { (i as real + fraction, j as real + fraction) }

  /** Points this close to a point well inside the circle are in the circle. */
  lemma StaysInside(p: Point, c: Point, rho: real, h: real)
    requires HalfDiagonal(h) && rho >= 1.0 && Norm2(p) <= Square(rho - h) && Norm2(Minus(p, c)) <= Square(h)
    ensures Norm2(c) <= Square(rho)
  {
    HalfDiagonalBounds(h);
    var d := Minus(c, p);
    assert Square(d.0) == Square(p.0 - c.0) && Square(d.1) == Square(p.1 - c.1) by {
      NegatedSquare(p.0 - c.0);
      NegatedSquare(p.1 - c.1);
    }
    Triangle(p, d, rho - h, h);
    assert (p.0 + d.0, p.1 + d.1) == c;
  }

  lemma NegatedSquare(x: real)
    ensures Square(-x) == Square(x)
  {
  }

  /** In the base lattice the nearest centre is searched, and is at most half a diagonal away. */
  lemma BaseCover(p: Point, rho: real, h: real) returns (i: int, j: int)
    requires HalfDiagonal(h) && rho >= 1.0 && Norm2(p) <= Square(rho - h)
    ensures -rho.Floor <= i <= rho.Floor && -rho.Floor <= j <= rho.Floor
    ensures Norm2(UnitCenter(0.0, i, j)) <= Square(rho)
    ensures Norm2(Minus(p, UnitCenter(0.0, i, j))) <= Square(h)
  {
    i, j := (p.0 + 0.5).Floor, (p.1 + 0.5).Floor;
    var c := UnitCenter(0.0, i, j);
    SquareOrder(p.0 - c.0, 0.5);
    SquareOrder(p.1 - c.1, 0.5);
    StaysInside(p, c, rho, h);
    RootOrder(c.0, rho);
    RootOrder(c.1, rho);
  }

  lemma CornerTooFar(u: real, v: real, n: real, rho: real, h: real)
    requires HalfDiagonal(h) && n >= 1.0 && n <= rho < n + 1.0 && u < -n && v < -n
    ensures Square(u) + Square(v) > Square(rho - h)
  {
    HalfDiagonalBounds(h);
    NegatedSquare(u);
    NegatedSquare(v);
    SquareOrder(n, -u);
    SquareOrder(n, -v);
    SquareOrder(rho - h, n + 0.3);
    assert Square(n + 0.3) == Square(n) + 0.6 * n + 0.09 by { assert (n + 0.3) * (n + 0.3) == n * n + 0.6 * n + 0.09; }
    assert Square(n) >= n by { MulMonotone(1.0, n, n); }
    assert Square(u) + Square(v) >= 2.0 * Square(n);
  }

  /** A coordinate in the column that the lattice leaves out is close enough to the next one. */
  lemma MissingColumn(u: real, other: real, n: int, rho: real, h: real)
    requires HalfDiagonal(h) && n >= 1 && n as real <= rho < n as real + 1.0
    requires Square(u) + Square(other) <= Square(rho - h) && u.Floor == -n - 1
    ensures Square(u - (-n as real + 0.5)) <= 0.64
    ensures Square(-n as real + 0.5) <= Square(u.Floor as real + 0.5)
    ensures other >= -n as real
  {
    HalfDiagonalBounds(h);
    RootOrder(u, rho - h);
    NegatedSquare(u - (-n as real + 0.5));
    SquareOrder(-u - n as real + 0.5, 0.8);
    NegatedSquare(-n as real + 0.5);
    NegatedSquare(u.Floor as real + 0.5);
    SquareOrder(n as real - 0.5, n as real + 0.5);
    if other < -n as real { CornerTooFar(u, other, n as real, rho, h); }
  }

  /** In the half-cell offset lattice some searched centre is at most one cell away. */
  lemma OffsetCover(p: Point, rho: real, h: real) returns (i: int, j: int)
    requires HalfDiagonal(h) && rho >= 1.0 && Norm2(p) <= Square(rho - h)
    ensures -rho.Floor <= i <= rho.Floor && -rho.Floor <= j <= rho.Floor
    ensures Norm2(UnitCenter(0.5, i, j)) <= Square(rho)
    ensures Norm2(Minus(p, UnitCenter(0.5, i, j))) <= 1.0
  {
    i, j := p.0.Floor, p.1.Floor;
    var n, c := rho.Floor, UnitCenter(0.5, i, j);
    SquareOrder(p.0 - c.0, 0.5);
    SquareOrder(p.1 - c.1, 0.5);
    StaysInside(p, c, rho, h);
    RootOrder(c.0, rho);
    RootOrder(c.1, rho);
    if i == -n - 1 {
      MissingColumn(p.0, p.1, n, rho, h);
      i := -n;
    } else if j == -n - 1 {
      MissingColumn(p.1, p.0, n, rho, h);
      j := -n;
    }
  }

  // ---- cover, in metres ----

  lemma ScaledNorm(p: Point, cell: real)
    ensures Norm2((Times(p.0, cell), Times(p.1, cell))) == Times(Norm2(p), Square(cell))
  {
    Quartic(p.0, cell);
    Quartic(p.1, cell);
  }

  lemma ScaledOrder(a: real, b: real, cell: real)
    requires a <= b
    ensures Times(a, Square(cell)) <= Times(b, Square(cell))
  {
    MulMonotone(a, b, Square(cell));
  }

  lemma ScaledCenter(cell: real, fraction: real, i: int, j: int)
    ensures CenterAt(cell, Times(fraction, cell), i, j)
            == (Times(UnitCenter(fraction, i, j).0, cell), Times(UnitCenter(fraction, i, j).1, cell))
  {
    Distribute(i as real, fraction, cell);
    Distribute(j as real, fraction, cell);
  }

  lemma Distribute(x: real, y: real, z: real)
    ensures Times(x + y, z) == Times(x, z) + Times(y, z)
    ensures Times(x - y, z) == Times(x, z) - Times(y, z)
  {
  }

  lemma InsideInMetres(radius: real, cell: real, fraction: real, rho: real, i: int, j: int)
    requires cell > 0.0 && Times(rho, cell) == radius && Norm2(UnitCenter(fraction, i, j)) <= Square(rho)
    ensures Norm2(CenterAt(cell, Times(fraction, cell), i, j)) <= Square(radius)
  {
    var c := UnitCenter(fraction, i, j);
    ScaledCenter(cell, fraction, i, j);
    ScaledNorm(c, cell);
    ScaledOrder(Norm2(c), Square(rho), cell);
    Quartic(rho, cell);
  }

  lemma KeptInMetres(radius: real, cell: real, fraction: real, i: int, j: int)
    requires cell > 0.0 && radius >= cell
    requires var n := (radius / cell).Floor; -n <= i <= n && -n <= j <= n
    requires Norm2(UnitCenter(fraction, i, j)) <= Square(radius / cell)
    ensures Kept(radius, cell, Times(fraction, cell), i, j)
  {
    AtLeastOne(radius, cell);
    assert Times(radius / cell, cell) == radius;
    InsideInMetres(radius, cell, fraction, radius / cell, i, j);
  }

  lemma DistanceInMetres(cell: real, fraction: real, u: Point, p: Point, i: int, j: int, reach: real)
    requires p == (Times(u.0, cell), Times(u.1, cell))
    requires Norm2(Minus(u, UnitCenter(fraction, i, j))) <= reach
    ensures Norm2(Minus(p, CenterAt(cell, Times(fraction, cell), i, j))) <= Times(reach, Square(cell))
  {
    var c := UnitCenter(fraction, i, j);
    var d := Minus(u, c);
    ScaledCenter(cell, fraction, i, j);
    Distribute(u.0, c.0, cell);
    Distribute(u.1, c.1, cell);
    ScaledNorm(d, cell);
    ScaledOrder(Norm2(d), reach, cell);
  }

  /** The factor that turns metres into cells. */
  lemma Reciprocal(cell: real) returns (k: real)
    requires cell > 0.0
    ensures k * cell == 1.0 && k > 0.0
  {
    k := 1.0 / cell;
    if k <= 0.0 { MulMonotone(k, 0.0, cell); }
  }

  lemma DividedBy(x: real, k: real, cell: real)
    requires cell > 0.0 && k * cell == 1.0
    ensures x / cell == Times(x, k)
  {
    Inverse(x, k, cell);
    var q := x / cell;
    assert q * cell == x;
    MulOrder(q, Times(x, k), cell);
    MulOrder(Times(x, k), q, cell);
  }

  lemma UnitHalf(half: real, cell: real, k: real)
    requires half > 0.0 && k > 0.0 && k * cell == 1.0 && 2.0 * Square(half) == Square(cell)
    ensures HalfDiagonal(Times(half, k)) && Times(Square(Times(half, k)), Square(cell)) == Square(half)
  {
    var h := Times(half, k);
    PositiveProduct(half, k);
    Quartic(half, k);
    Quartic(cell, k);
    Quartic(h, cell);
    Inverse(half, k, cell);
    assert cell * k == 1.0;
    assert 2.0 * Times(Square(half), Square(k)) == Times(2.0 * Square(half), Square(k));
  }

  lemma UnitNorm(p: Point, reach: real, k: real)
    requires Norm2(p) <= Square(reach)
    ensures Norm2((Times(p.0, k), Times(p.1, k))) <= Square(Times(reach, k))
  {
    ScaledNorm(p, k);
    ScaledOrder(Norm2(p), Square(reach), k);
    Quartic(reach, k);
  }

  /** The point in units of the cell. */
  lemma ToUnits(radius: real, cell: real, half: real, p: Point) returns (u: Point, h: real)
    requires cell > 0.0 && radius >= cell && half > 0.0 && 2.0 * Square(half) == Square(cell)
    requires Norm2(p) <= Square(radius - half)
    ensures p == (Times(u.0, cell), Times(u.1, cell)) && HalfDiagonal(h) && radius / cell >= 1.0
    ensures Norm2(u) <= Square(radius / cell - h)
    ensures Times(Square(h), Square(cell)) == Square(half)
  {
    var k := Reciprocal(cell);
    u, h := (Times(p.0, k), Times(p.1, k)), Times(half, k);
    Inverse(p.0, k, cell);
    Inverse(p.1, k, cell);
    UnitHalf(half, cell, k);
    UnitNorm(p, radius - half, k);
    Distribute(radius, half, k);
    DividedBy(radius, k, cell);
    AtLeastOne(radius, cell);
  }

  lemma AtLeastOne(radius: real, cell: real)
    requires radius >= cell > 0.0
    ensures radius / cell >= 1.0
  {
    var q := radius / cell;
    assert q * cell == radius && 1.0 * cell == cell;
    MulOrder(q, 1.0, cell);
  }

  lemma Inverse(x: real, k: real, cell: real)
    requires k * cell == 1.0
    ensures Times(Times(x, k), cell) == x
  {
    assert (x * k) * cell == x * (k * cell);
  }

  /**
   * Every place at least half a cell diagonal inside the radius is within half a diagonal of a centre
   * of the base sweep, and within one cell, the search radius, of a centre of the offset sweep.
   */
  lemma SweepsCover(radius: real, cell: real, half: real, p: Point)
    requires cell > 0.0 && radius >= cell && half > 0.0 && 2.0 * Square(half) == Square(cell)
    requires Norm2(p) <= Square(radius - half)
    ensures exists c :: IsCenter(radius, cell, Times(0.0, cell), c) && Norm2(Minus(p, c)) <= Square(half)
    ensures exists c :: IsCenter(radius, cell, Times(0.5, cell), c) && Norm2(Minus(p, c)) <= Square(cell)
  {
    var u, h := ToUnits(radius, cell, half, p);
    var i, j := BaseCover(u, radius / cell, h);
    KeptInMetres(radius, cell, 0.0, i, j);
    DistanceInMetres(cell, 0.0, u, p, i, j, Square(h));
    assert IsCenter(radius, cell, Times(0.0, cell), CenterAt(cell, Times(0.0, cell), i, j));
    i, j := OffsetCover(u, radius / cell, h);
    KeptInMetres(radius, cell, 0.5, i, j);
    DistanceInMetres(cell, 0.5, u, p, i, j, 1.0);
    assert Times(1.0, Square(cell)) == Square(cell);
    assert IsCenter(radius, cell, Times(0.5, cell), CenterAt(cell, Times(0.5, cell), i, j));
  }

  /** Each search reaches one cell around its centre, so nothing further than that outside the city is ever searched. */
  lemma SearchesStayNear(radius: real, cell: real, shift: real, c: Point, p: Point)
    requires cell > 0.0 && radius >= 0.0 && IsCenter(radius, cell, shift, c) && Norm2(Minus(p, c)) <= Square(cell)
    ensures Norm2(c) <= Square(radius) && Norm2(p) <= Square(radius + cell)
  {
    var d := Minus(p, c);
    Triangle(c, d, radius, cell);
    assert (c.0 + d.0, c.1 + d.1) == p;
  }
}
