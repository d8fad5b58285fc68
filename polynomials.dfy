/**
 * Polynomial identities over the reals, stated one coordinate at a time.
 * The vector lemmas of the model instantiate them coordinate by coordinate
 * (cyclically permuting x, y, z), which keeps every nonlinear step small.
 */
module Polynomials {

  lemma ZeroProduct(a: real, b: real)
    requires a * b == 0.0
    ensures a == 0.0 || b == 0.0
  {
  }

  /** A sum of three squares is non-negative, and zero only when every term is. */
  lemma SumOfSquares(x: real, y: real, z: real)
    ensures 0.0 <= x * x + y * y + z * z
    ensures x * x + y * y + z * z == 0.0 <==> x == 0.0 && y == 0.0 && z == 0.0
  {
    var a, b, c := x * x, y * y, z * z;
    assert 0.0 <= a && 0.0 <= b && 0.0 <= c;
    if a + b + c == 0.0 {
      ZeroProduct(x, x);
      ZeroProduct(y, y);
      ZeroProduct(z, z);
    }
  }

  lemma ScaledSquares(x: real, y: real, z: real, k: real, s: real)
    requires s == x * x + y * y + z * z
    ensures (x * k) * (x * k) + (y * k) * (y * k) + (z * k) * (z * k) == (k * k) * s
  {
  }

  lemma ScaledRoot(a: real, m: real, kk: real, s: real)
    requires a * a == kk && m * m == s
    ensures (a * m) * (a * m) == kk * s
  {
    assert (a * m) * (a * m) == (a * a) * (m * m);
  }

  /**
   * The length of `(x, y, z) * k` is `a * m` when `m` is the length of
   * `(x, y, z)` and `a` is the absolute value of `k`.
   */
  lemma ScaledNorm(x: real, y: real, z: real, k: real, a: real, m: real, mw: real)
    requires 0.0 <= a && a * a == k * k
    requires 0.0 <= m && m * m == x * x + y * y + z * z
    requires 0.0 <= mw && mw * mw == (x * k) * (x * k) + (y * k) * (y * k) + (z * k) * (z * k)
    ensures mw == a * m
  {
    ScaledSquares(x, y, z, k, x * x + y * y + z * z);
    ProductNonNegative(a, m);
    ScaledRoot(a, m, k * k, x * x + y * y + z * z);
    NonNegativeRootUnique(mw, a * m);
  }

  /** Two non-negative numbers with the same square are equal. */
  lemma NonNegativeRootUnique(p: real, q: real)
    requires 0.0 <= p && 0.0 <= q && p * p == q * q
    ensures p == q
  {
    assert (p - q) * (p + q) == 0.0;
    ZeroProduct(p - q, p + q);
  }

  lemma ProductNonNegative(a: real, b: real)
    requires 0.0 <= a && 0.0 <= b
    ensures 0.0 <= a * b
  {
  }

  /** Solving the linear equation `t * a - b == 0` for `t`. */
  lemma SolveLinear(t: real, a: real, b: real)
    requires a != 0.0
    ensures t * a - b == 0.0 <==> t == b / a
  {
    if t == b / a {
      assert t * a == b;
    }
  }

  /** The root of `t * a - b`, read off a zero value `e` of it. */
  lemma RootOfLinear(e: real, t: real, a: real, b: real)
    requires a != 0.0 && e == t * a - b && e == 0.0
    ensures t == b / a
  {
    SolveLinear(t, a, b);
  }

  /** Dividing out a non-zero factor from `u * a == v * b`. */
  lemma DivideOut(u: real, a: real, v: real, b: real)
    requires a != 0.0 && u * a == v * b
    ensures u == v * (b / a)
  {
    assert v * (b / a) == (v * b) / a;
  }

  /** `k * m / (2 * (m / 2)) == k` for a non-zero `m`. */
  lemma CancelHalfArea(k: real, m: real)
    requires m != 0.0
    ensures (k * m) / (2.0 * (m / 2.0)) == k
  {
    assert 2.0 * (m / 2.0) == m;
  }

  /** The plane equation along the line `p + d * t`, relative to the point `o`. */
  lemma PlaneEquationCoordinates(
    px: real, py: real, pz: real, dx: real, dy: real, dz: real,
    ox: real, oy: real, oz: real, nx: real, ny: real, nz: real, t: real)
    ensures ((px + dx * t) - ox) * nx + ((py + dy * t) - oy) * ny + ((pz + dz * t) - oz) * nz
         == t * (dx * nx + dy * ny + dz * nz) - ((ox - px) * nx + (oy - py) * ny + (oz - pz) * nz)
  {
  }

  /** One coordinate of `(a x b) x a == b (a . a) - a (a . b)`. */
  lemma TripleProductCoordinate(ax: real, ay: real, az: real, bx: real, b_y: real, bz: real, aa: real, ab: real)
    requires aa == ax * ax + ay * ay + az * az && ab == ax * bx + ay * b_y + az * bz
    ensures (az * bx - ax * bz) * az - (ax * b_y - ay * bx) * ay == bx * aa - ax * ab
  {
  }

  /**
   * One coordinate of "`b` is a multiple of `a` when `a x b == 0`": the
   * y and z coordinates of `a x b` vanish, so by the coordinate identity
   * above `bx * (a . a) == ax * (a . b)`.
   */
  lemma ParallelCoordinate(ax: real, ay: real, az: real, bx: real, b_y: real, bz: real, aa: real, ab: real)
    requires aa == ax * ax + ay * ay + az * az && ab == ax * bx + ay * b_y + az * bz && aa != 0.0
    requires az * bx - ax * bz == 0.0 && ax * b_y - ay * bx == 0.0
    ensures bx == ax * (ab / aa)
  {
    TripleProductCoordinate(ax, ay, az, bx, b_y, bz, aa, ab);
    DivideOut(bx, aa, ax, ab);
  }

  lemma ParallelCoordinates(ax: real, ay: real, az: real, bx: real, b_y: real, bz: real, aa: real, ab: real)
    requires aa == ax * ax + ay * ay + az * az && ab == ax * bx + ay * b_y + az * bz && aa != 0.0
    requires ay * bz - az * b_y == 0.0 && az * bx - ax * bz == 0.0 && ax * b_y - ay * bx == 0.0
    ensures bx == ax * (ab / aa) && b_y == ay * (ab / aa) && bz == az * (ab / aa)
  {
    ParallelCoordinate(ax, ay, az, bx, b_y, bz, aa, ab);
    ParallelCoordinate(ay, az, ax, b_y, bz, bx, aa, ab);
    ParallelCoordinate(az, ax, ay, bz, bx, b_y, aa, ab);
  }

  /** One coordinate of `(a * t) x b == (a x b) * t`. */
  lemma ScaleLeft(p: real, q: real, r: real, s: real, t: real)
    ensures (p * t) * q - (r * t) * s == (p * q - r * s) * t
  {
  }

  /** One coordinate of `a x (b * t) == (a x b) * t`. */
  lemma ScaleRight(p: real, q: real, r: real, s: real, t: real)
    ensures p * (q * t) - r * (s * t) == (p * q - r * s) * t
  {
  }

  /** One coordinate of `a x (a * k) == 0`. */
  lemma CrossParallelCoordinate(ay: real, az: real, k: real)
    ensures ay * (az * k) - az * (ay * k) == 0.0
  {
  }

  /**
   * Cramer's rule in the plane spanned by `e1` and `e2`: when `n` is
   * `e1 x e2` and `w . n == 0`, then `nx * w == bn * e1 + cn * e2` for the
   * numerators returned.
   */
  lemma InPlaneNumerators(
    e1x: real, e1y: real, e1z: real, e2x: real, e2y: real, e2z: real,
    wx: real, wy: real, wz: real, nx: real, ny: real, nz: real) returns (bn: real, cn: real)
    requires nx == e1y * e2z - e1z * e2y && ny == e1z * e2x - e1x * e2z && nz == e1x * e2y - e1y * e2x
    requires wx * nx + wy * ny + wz * nz == 0.0
    ensures nx * wx == bn * e1x + cn * e2x
    ensures nx * wy == bn * e1y + cn * e2y
    ensures nx * wz == bn * e1z + cn * e2z
  {
    bn, cn := wy * e2z - wz * e2y, e1y * wz - e1z * wy;
    assert bn * e1x + cn * e2x == -(wy * ny + wz * nz);
  }

  lemma SplitQuotient(w: real, nn: real, e1: real, bn: real, e2: real, cn: real)
    requires nn != 0.0 && nn * w == bn * e1 + cn * e2
    ensures w == e1 * (bn / nn) + e2 * (cn / nn)
  {
    assert e1 * (bn / nn) + e2 * (cn / nn) == (bn * e1 + cn * e2) / nn;
  }

  /**
   * Solves `w == e1 * b + e2 * c` when `w . (e1 x e2) == 0` and the x
   * coordinate of `e1 x e2` is non-zero. Callers rotate the coordinates to
   * use a non-zero y or z coordinate instead.
   */
  lemma SolveInPlane(
    e1x: real, e1y: real, e1z: real, e2x: real, e2y: real, e2z: real,
    wx: real, wy: real, wz: real, nx: real, ny: real, nz: real) returns (b: real, c: real)
    requires nx == e1y * e2z - e1z * e2y && ny == e1z * e2x - e1x * e2z && nz == e1x * e2y - e1y * e2x
    requires nx != 0.0 && wx * nx + wy * ny + wz * nz == 0.0
    ensures wx == e1x * b + e2x * c
    ensures wy == e1y * b + e2y * c
    ensures wz == e1z * b + e2z * c
  {
    var bn, cn := InPlaneNumerators(e1x, e1y, e1z, e2x, e2y, e2z, wx, wy, wz, nx, ny, nz);
    SplitQuotient(wx, nx, e1x, bn, e2x, cn);
    SplitQuotient(wy, nx, e1y, bn, e2y, cn);
    SplitQuotient(wz, nx, e1z, bn, e2z, cn);
    b, c := bn / nx, cn / nx;
  }
}
