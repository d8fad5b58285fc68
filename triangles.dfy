/**
 * The point-in-triangle test by sub-triangle areas (q2.py,
 * point_in_triangle), and what it means geometrically: over exact reals it
 * accepts every point of the closed triangle, and every point of the plane
 * it accepts is within EPSILON / 2 of the triangle in barycentric terms.
 */
module Triangles {
  import opened Vectors
  import opened Geometry
  import opened Polynomials

  /** Half the magnitude of `(v1 - v0) x (v2 - v0)`; zero exactly for a degenerate face. */
  function TriangleArea(root: real -> real, t: Plane): (area: real)
    requires IsSqrt(root)
    ensures 0.0 <= area
    ensures area == 0.0 <==> t.NormalVector() == Zero
  {
    Magnitude(root, CrossProduct(Sub(t.v1, t.v0), Sub(t.v2, t.v0))) / 2.0
  }

  /** Area of the triangle (point, a, b) as a fraction of the face's area; never negative, so the source's lower-bound checks always pass. */
  function AreaRatio(root: real -> real, point: Vector3, a: Vector3, b: Vector3, t: Plane): (ratio: real)
    requires IsSqrt(root)
    requires t.NormalVector() != Zero
    ensures 0.0 <= ratio
  {
    Magnitude(root, CrossProduct(Sub(point, a), Sub(point, b))) / (2.0 * TriangleArea(root, t))
  }

  /**
   * Every sub-triangle ratio lies in [0, 1] and their sum exceeds 1 by less
   * than EPSILON (only the upper side is checked). The source divides by the
   * area, so a degenerate triangle is excluded by the precondition.
   */
  function PointInTriangle(root: real -> real, point: Vector3, triangle: Plane): bool
    requires IsSqrt(root)
    requires triangle.NormalVector() != Zero
  {
    var s1 := AreaRatio(root, point, triangle.v1, triangle.v2, triangle);
    var s2 := AreaRatio(root, point, triangle.v2, triangle.v0, triangle);
    var s3 := AreaRatio(root, point, triangle.v0, triangle.v1, triangle);
    (0.0 <= s1 <= 1.0 && 0.0 <= s2 <= 1.0 && 0.0 <= s3 <= 1.0) && s1 + s2 + s3 - 1.0 < EPSILON
  }

  /** The point with barycentric coordinates `(1 - b - c, b, c)` on the face. */
  function Bary(t: Plane, b: real, c: real): Vector3 {
    Add(t.v0, Add(Mul(Sub(t.v1, t.v0), b), Mul(Sub(t.v2, t.v0), c)))
  }

  /** `p` has barycentric coordinates on the face that are all at least `-slack`; slack 0 is the closed triangle. */
  ghost predicate NearTriangle(p: Vector3, t: Plane, slack: real) {
    exists b: real, c: real :: p == Bary(t, b, c) && -slack <= b && -slack <= c && -slack <= 1.0 - b - c
  }

  /** The first vertex has barycentric coordinates `(1, 0, 0)`. */
  lemma FirstVertexIsBary(t: Plane)
    ensures t.v0 == Bary(t, 0.0, 0.0)
  {
    BaryByCoordinates(t, 0.0, 0.0, t.v0);
  }

  /** A point given coordinate by coordinate by the barycentric formula. */
  lemma BaryByCoordinates(t: Plane, b: real, c: real, q: Vector3)
    requires q.x == t.v0.x + (t.v1.x - t.v0.x) * b + (t.v2.x - t.v0.x) * c
    requires q.y == t.v0.y + (t.v1.y - t.v0.y) * b + (t.v2.y - t.v0.y) * c
    requires q.z == t.v0.z + (t.v1.z - t.v0.z) * b + (t.v2.z - t.v0.z) * c
    ensures q == Bary(t, b, c)
  {
  }

  /** The point's offsets from the three vertices, as combinations of the edges at `v0`. */
  lemma BaryOffsets(t: Plane, b: real, c: real)
    ensures Sub(Bary(t, b, c), t.v0) == Add(Mul(Sub(t.v1, t.v0), b), Mul(Sub(t.v2, t.v0), c))
    ensures Sub(Bary(t, b, c), t.v1) == Add(Mul(Sub(t.v1, t.v0), b - 1.0), Mul(Sub(t.v2, t.v0), c))
    ensures Sub(Bary(t, b, c), t.v2) == Add(Mul(Sub(t.v1, t.v0), b), Mul(Sub(t.v2, t.v0), c - 1.0))
  {
  }

  /** The sub-triangle opposite `v0` spans the normal scaled by the first barycentric coordinate `1 - b - c`. */
  lemma CrossOppositeV0(t: Plane, b: real, c: real)
    ensures CrossProduct(Sub(Bary(t, b, c), t.v1), Sub(Bary(t, b, c), t.v2)) == Mul(t.NormalVector(), 1.0 - b - c)
  {
    CrossOfCombinations(Sub(t.v1, t.v0), Sub(t.v2, t.v0), b - 1.0, c, b, c - 1.0, 1.0 - b - c);
    BaryOffsets(t, b, c);
  }

  /** The sub-triangle opposite `v1` spans the normal scaled by `b`. */
  lemma CrossOppositeV1(t: Plane, b: real, c: real)
    ensures CrossProduct(Sub(Bary(t, b, c), t.v2), Sub(Bary(t, b, c), t.v0)) == Mul(t.NormalVector(), b)
  {
    CrossOfCombinations(Sub(t.v1, t.v0), Sub(t.v2, t.v0), b, c - 1.0, b, c, b);
    BaryOffsets(t, b, c);
  }

  /** The sub-triangle opposite `v2` spans the normal scaled by `c`. */
  lemma CrossOppositeV2(t: Plane, b: real, c: real)
    ensures CrossProduct(Sub(Bary(t, b, c), t.v0), Sub(Bary(t, b, c), t.v1)) == Mul(t.NormalVector(), c)
  {
    CrossOfCombinations(Sub(t.v1, t.v0), Sub(t.v2, t.v0), b, c, b - 1.0, c, c);
    BaryOffsets(t, b, c);
  }

  /** A sub-triangle whose cross product is `k` times the normal has area ratio `|k|`. */
  lemma RatioOfScaledNormal(root: real -> real, t: Plane, point: Vector3, a: Vector3, b: Vector3, k: real)
    requires IsSqrt(root)
    requires t.NormalVector() != Zero
    requires CrossProduct(Sub(point, a), Sub(point, b)) == Mul(t.NormalVector(), k)
    ensures AreaRatio(root, point, a, b, t) == Abs(k)
  {
    var m := Magnitude(root, t.NormalVector());
    assert TriangleArea(root, t) == m / 2.0;
    MagnitudeOfMul(root, t.NormalVector(), k);
    assert Magnitude(root, CrossProduct(Sub(point, a), Sub(point, b))) == Abs(k) * m;
    CancelHalfArea(Abs(k), m);
  }

  /** The area ratios of a point are the absolute values of its barycentric coordinates. */
  lemma BarycentricRatios(root: real -> real, t: Plane, b: real, c: real)
    requires IsSqrt(root)
    requires t.NormalVector() != Zero
    ensures AreaRatio(root, Bary(t, b, c), t.v1, t.v2, t) == Abs(1.0 - b - c)
    ensures AreaRatio(root, Bary(t, b, c), t.v2, t.v0, t) == Abs(b)
    ensures AreaRatio(root, Bary(t, b, c), t.v0, t.v1, t) == Abs(c)
  {
    var p := Bary(t, b, c);
    CrossOppositeV0(t, b, c);
    CrossOppositeV1(t, b, c);
    CrossOppositeV2(t, b, c);
    RatioOfScaledNormal(root, t, p, t.v1, t.v2, 1.0 - b - c);
    RatioOfScaledNormal(root, t, p, t.v2, t.v0, b);
    RatioOfScaledNormal(root, t, p, t.v0, t.v1, c);
  }

  /**
   * Cramer's rule for a point of the face's plane when the x coordinate of
   * the normal is non-zero: its offset from `v0` is a combination of the
   * two edges at `v0`.
   */
  lemma EdgeCombinationX(t: Plane, p: Vector3) returns (b: real, c: real)
    requires t.NormalVector().x != 0.0
    requires OnPlane(p, t)
    ensures Sub(p, t.v0) == Add(Mul(Sub(t.v1, t.v0), b), Mul(Sub(t.v2, t.v0), c))
  {
    var e1, e2, n, w := Sub(t.v1, t.v0), Sub(t.v2, t.v0), t.NormalVector(), Sub(p, t.v0);
    b, c := SolveInPlane(e1.x, e1.y, e1.z, e2.x, e2.y, e2.z, w.x, w.y, w.z, n.x, n.y, n.z);
    CombinationByCoordinates(w, e1, e2, b, c);
  }

  /** As `EdgeCombinationX`, solving with the y coordinate of the normal. */
  lemma EdgeCombinationY(t: Plane, p: Vector3) returns (b: real, c: real)
    requires t.NormalVector().y != 0.0
    requires OnPlane(p, t)
    ensures Sub(p, t.v0) == Add(Mul(Sub(t.v1, t.v0), b), Mul(Sub(t.v2, t.v0), c))
  {
    var e1, e2, n, w := Sub(t.v1, t.v0), Sub(t.v2, t.v0), t.NormalVector(), Sub(p, t.v0);
    b, c := SolveInPlane(e1.y, e1.z, e1.x, e2.y, e2.z, e2.x, w.y, w.z, w.x, n.y, n.z, n.x);
    CombinationByCoordinates(w, e1, e2, b, c);
  }

  /** As `EdgeCombinationX`, solving with the z coordinate of the normal. */
  lemma EdgeCombinationZ(t: Plane, p: Vector3) returns (b: real, c: real)
    requires t.NormalVector().z != 0.0
    requires OnPlane(p, t)
    ensures Sub(p, t.v0) == Add(Mul(Sub(t.v1, t.v0), b), Mul(Sub(t.v2, t.v0), c))
  {
    var e1, e2, n, w := Sub(t.v1, t.v0), Sub(t.v2, t.v0), t.NormalVector(), Sub(p, t.v0);
    b, c := SolveInPlane(e1.z, e1.x, e1.y, e2.z, e2.x, e2.y, w.z, w.x, w.y, n.z, n.x, n.y);
    CombinationByCoordinates(w, e1, e2, b, c);
  }

  /** Every point of a non-degenerate face's plane has barycentric coordinates. */
  lemma PlanarPointCoordinates(t: Plane, p: Vector3) returns (b: real, c: real)
    requires t.NormalVector() != Zero
    requires OnPlane(p, t)
    ensures p == Bary(t, b, c)
  {
    var n := t.NormalVector();
    if n.x != 0.0 {
      b, c := EdgeCombinationX(t, p);
    } else if n.y != 0.0 {
      b, c := EdgeCombinationY(t, p);
    } else {
      b, c := EdgeCombinationZ(t, p);
    }
    AddSubInverse(p, t.v0);
  }

  /** Completeness: every point of the closed triangle passes the test. */
  lemma ClosedTriangleIsAccepted(root: real -> real, t: Plane, p: Vector3)
    requires IsSqrt(root)
    requires t.NormalVector() != Zero
    requires NearTriangle(p, t, 0.0)
    ensures PointInTriangle(root, p, t)
  {
    var b, c :| p == Bary(t, b, c) && 0.0 <= b && 0.0 <= c && 0.0 <= 1.0 - b - c;
    BarycentricRatios(root, t, b, c);
  }

  /**
   * Soundness: a point of the face's plane that passes the test has
   * barycentric coordinates that all lie in `[-EPSILON / 2, 1]`.
   */
  lemma AcceptedPointIsNearTriangle(root: real -> real, t: Plane, p: Vector3)
    requires IsSqrt(root)
    requires t.NormalVector() != Zero
    requires OnPlane(p, t)
    requires PointInTriangle(root, p, t)
    ensures NearTriangle(p, t, EPSILON / 2.0)
    ensures exists b: real, c: real ::
      p == Bary(t, b, c) &&
      -EPSILON / 2.0 <= b <= 1.0 && -EPSILON / 2.0 <= c <= 1.0 && -EPSILON / 2.0 <= 1.0 - b - c <= 1.0
  {
    var b, c := PlanarPointCoordinates(t, p);
    BarycentricRatios(root, t, b, c);
    assert -EPSILON / 2.0 <= b && -EPSILON / 2.0 <= c && -EPSILON / 2.0 <= 1.0 - b - c;
  }

  /**
   * For a point of the face's plane the three ratios always add up to at
   * least 1, so the source's one-sided sum check loses nothing over exact
   * reals.
   */
  lemma RatioSumAtLeastOne(root: real -> real, t: Plane, p: Vector3)
    requires IsSqrt(root)
    requires t.NormalVector() != Zero
    requires OnPlane(p, t)
    ensures AreaRatio(root, p, t.v1, t.v2, t) + AreaRatio(root, p, t.v2, t.v0, t) + AreaRatio(root, p, t.v0, t.v1, t) >= 1.0
  {
    var b, c := PlanarPointCoordinates(t, p);
    BarycentricRatios(root, t, b, c);
  }

  /** The barycentric point lies on the face's plane. */
  lemma BaryOnPlane(t: Plane, b: real, c: real)
    ensures OnPlane(Bary(t, b, c), t)
  {
    var e1, e2, n := Sub(t.v1, t.v0), Sub(t.v2, t.v0), t.NormalVector();
    assert Sub(Bary(t, b, c), t.v0) == Add(Mul(e1, b), Mul(e2, c));
    NormalIsOrthogonal(t);
    DotBilinear(Mul(e1, b), n, Mul(e2, c), 0.0);
    DotBilinear(e1, n, Zero, b);
    DotBilinear(e2, n, Zero, c);
    DotSymmetric(e1, n);
    DotSymmetric(e2, n);
  }
}
