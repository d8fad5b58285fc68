/**
 * Three-dimensional vectors over exact reals (q2.py, class Vector3).
 * Every operation of the source returns a fresh vector and never mutates
 * its operands, so vectors are values here.
 */
module Vectors {
  import opened Polynomials

  datatype Vector3 = Vector3(x: real, y: real, z: real)

  const Zero: Vector3 := Vector3(0.0, 0.0, 0.0)

  function CrossProduct(a: Vector3, b: Vector3): Vector3 {
    Vector3(a.y * b.z - a.z * b.y, a.z * b.x - a.x * b.z, a.x * b.y - a.y * b.x)
  }

  function DotProduct(a: Vector3, b: Vector3): real {
    a.x * b.x + a.y * b.y + a.z * b.z
  }

  function Sub(a: Vector3, b: Vector3): Vector3 {
    Vector3(a.x - b.x, a.y - b.y, a.z - b.z)
  }

  function Add(a: Vector3, b: Vector3): Vector3 {
    Vector3(a.x + b.x, a.y + b.y, a.z + b.z)
  }

  /** `v * k` in the source: multiplication by a scalar on the right. */
  function Mul(v: Vector3, k: real): Vector3 {
    Vector3(v.x * k, v.y * k, v.z * k)
  }

  function Abs(r: real): real {
    if r < 0.0 then -r else r
  }

  lemma AbsSquared(r: real)
    ensures Abs(r) * Abs(r) == r * r
  {
    if r < 0.0 {
      assert (-r) * (-r) == r * r;
    }
  }

  /**
   * The square-root routine the source imports is foreign code; the model
   * takes it as a parameter and assumes only that it is an exact
   * non-negative square root on the non-negative reals.
   */
  ghost predicate IsSqrt(root: real -> real) {
    forall x: real :: 0.0 <= x ==> 0.0 <= root(x) && root(x) * root(x) == x
  }

  /** What `IsSqrt` promises at one argument. */
  lemma RootAt(root: real -> real, x: real)
    requires IsSqrt(root) && 0.0 <= x
    ensures 0.0 <= root(x) && root(x) * root(x) == x
  {
  }

  /** Euclidean norm: the square root of the sum of the squared coordinates. */
  function Magnitude(root: real -> real, v: Vector3): (m: real)
    requires IsSqrt(root)
    ensures 0.0 <= m && m * m == DotProduct(v, v)
    ensures m == 0.0 <==> v == Zero
  {
    var s := v.x * v.x + v.y * v.y + v.z * v.z;
    SquaresNonNegative(v);
    RootAt(root, s);
    RootZeroIff(root(s), s);
    root(s)
  }

  lemma SquaresNonNegative(v: Vector3)
    ensures 0.0 <= v.x * v.x + v.y * v.y + v.z * v.z
    ensures v.x * v.x + v.y * v.y + v.z * v.z == DotProduct(v, v)
    ensures v.x * v.x + v.y * v.y + v.z * v.z == 0.0 <==> v == Zero
  {
    SumOfSquares(v.x, v.y, v.z);
  }

  lemma RootZeroIff(m: real, s: real)
    requires 0.0 <= m && m * m == s
    ensures m == 0.0 <==> s == 0.0
  {
    if s == 0.0 {
      ZeroProduct(m, m);
    }
  }

  // ---------------------------------------------------------------------
  // Algebraic laws of the vector operations
  // ---------------------------------------------------------------------

  lemma CrossAnticommutative(a: Vector3, b: Vector3)
    ensures CrossProduct(a, b) == Mul(CrossProduct(b, a), -1.0)
  {
  }

  lemma CrossSelfIsZero(a: Vector3)
    ensures CrossProduct(a, a) == Zero
  {
  }

  lemma CrossOrthogonal(a: Vector3, b: Vector3)
    ensures DotProduct(CrossProduct(a, b), a) == 0.0
    ensures DotProduct(CrossProduct(a, b), b) == 0.0
  {
  }

  lemma DotSymmetric(a: Vector3, b: Vector3)
    ensures DotProduct(a, b) == DotProduct(b, a)
  {
  }

  lemma DotBilinear(a: Vector3, b: Vector3, c: Vector3, k: real)
    ensures DotProduct(Mul(a, k), b) == k * DotProduct(a, b)
    ensures DotProduct(Add(a, c), b) == DotProduct(a, b) + DotProduct(c, b)
    ensures DotProduct(Sub(a, c), b) == DotProduct(a, b) - DotProduct(c, b)
  {
  }

  lemma AddSubInverse(a: Vector3, b: Vector3)
    ensures Add(Sub(a, b), b) == a
    ensures Sub(Add(a, b), b) == a
  {
  }

  /** Scaling a vector scales its magnitude by the absolute value of the factor. */
  lemma MagnitudeOfMul(root: real -> real, v: Vector3, k: real)
    requires IsSqrt(root)
    ensures Magnitude(root, Mul(v, k)) == Abs(k) * Magnitude(root, v)
  {
    AbsSquared(k);
    ScaledNorm(v.x, v.y, v.z, k, Abs(k), Magnitude(root, v), Magnitude(root, Mul(v, k)));
  }

  lemma CrossAddLeft(a: Vector3, b: Vector3, c: Vector3)
    ensures CrossProduct(Add(a, b), c) == Add(CrossProduct(a, c), CrossProduct(b, c))
  {
  }

  lemma CrossAddRight(a: Vector3, b: Vector3, c: Vector3)
    ensures CrossProduct(a, Add(b, c)) == Add(CrossProduct(a, b), CrossProduct(a, c))
  {
  }

  lemma CrossMulLeft(a: Vector3, s: real, b: Vector3)
    ensures CrossProduct(Mul(a, s), b) == Mul(CrossProduct(a, b), s)
  {
    var l, r := CrossProduct(Mul(a, s), b), Mul(CrossProduct(a, b), s);
    ScaleLeft(a.y, b.z, a.z, b.y, s);
    assert l.x == r.x;
    ScaleLeft(a.z, b.x, a.x, b.z, s);
    assert l.y == r.y;
    ScaleLeft(a.x, b.y, a.y, b.x, s);
    assert l.z == r.z;
  }

  lemma CrossMulRight(a: Vector3, b: Vector3, t: real)
    ensures CrossProduct(a, Mul(b, t)) == Mul(CrossProduct(a, b), t)
  {
    var l, r := CrossProduct(a, Mul(b, t)), Mul(CrossProduct(a, b), t);
    ScaleRight(a.y, b.z, a.z, b.y, t);
    assert l.x == r.x;
    ScaleRight(a.z, b.x, a.x, b.z, t);
    assert l.y == r.y;
    ScaleRight(a.x, b.y, a.y, b.x, t);
    assert l.z == r.z;
  }

  lemma MulMul(v: Vector3, s: real, t: real)
    ensures Mul(Mul(v, s), t) == Mul(v, s * t)
  {
  }

  lemma CrossScaled(a: Vector3, b: Vector3, s: real, t: real)
    ensures CrossProduct(Mul(a, s), Mul(b, t)) == Mul(CrossProduct(a, b), s * t)
  {
    CrossMulLeft(a, s, Mul(b, t));
    CrossMulRight(a, b, t);
    MulMul(CrossProduct(a, b), t, s);
    assert t * s == s * t;
  }

  /** `(Zero * p + n * q) + ((n * -1) * r + Zero * s) == n * (q - r)`. */
  lemma CollectMultiples(n: Vector3, p: real, q: real, r: real, s: real)
    ensures Add(Add(Mul(Zero, p), Mul(n, q)), Add(Mul(Mul(n, -1.0), r), Mul(Zero, s))) == Mul(n, q - r)
  {
  }

  /**
   * The cross product of two combinations of `e1` and `e2` is `e1 x e2`
   * scaled by the determinant of their coefficients.
   */
  lemma CrossOfCombinations(e1: Vector3, e2: Vector3, a1: real, a2: real, b1: real, b2: real, det: real)
    requires det == a1 * b2 - a2 * b1
    ensures CrossProduct(Add(Mul(e1, a1), Mul(e2, a2)), Add(Mul(e1, b1), Mul(e2, b2)))
         == Mul(CrossProduct(e1, e2), det)
  {
    var u1, u2, w1, w2 := Mul(e1, a1), Mul(e2, a2), Mul(e1, b1), Mul(e2, b2);
    CrossAddLeft(u1, u2, Add(w1, w2));
    CrossAddRight(u1, w1, w2);
    CrossAddRight(u2, w1, w2);
    CrossScaled(e1, e1, a1, b1);
    CrossSelfIsZero(e1);
    CrossScaled(e1, e2, a1, b2);
    CrossScaled(e2, e1, a2, b1);
    CrossAnticommutative(e2, e1);
    CrossScaled(e2, e2, a2, b2);
    CrossSelfIsZero(e2);
    CollectMultiples(CrossProduct(e1, e2), a1 * b1, a1 * b2, a2 * b1, a2 * b2);
  }

  /** A vector given coordinate by coordinate as a combination of `e1` and `e2`. */
  lemma CombinationByCoordinates(w: Vector3, e1: Vector3, e2: Vector3, b: real, c: real)
    requires w.x == e1.x * b + e2.x * c && w.y == e1.y * b + e2.y * c && w.z == e1.z * b + e2.z * c
    ensures w == Add(Mul(e1, b), Mul(e2, c))
  {
  }

  lemma CrossWithZero(b: Vector3)
    ensures CrossProduct(Zero, b) == Zero
  {
  }

  /** A vector crossed with a multiple of itself is zero. */
  lemma ParallelCrossIsZero(a: Vector3, k: real)
    ensures CrossProduct(a, Mul(a, k)) == Zero
  {
    CrossParallelCoordinate(a.y, a.z, k);
    CrossParallelCoordinate(a.z, a.x, k);
    CrossParallelCoordinate(a.x, a.y, k);
  }

  /** Conversely, a vector whose cross product with a non-zero `a` is zero is a multiple of `a`. */
  lemma ZeroCrossIsParallel(a: Vector3, b: Vector3)
    requires a != Zero && CrossProduct(a, b) == Zero
    ensures DotProduct(a, a) != 0.0
    ensures b == Mul(a, DotProduct(a, b) / DotProduct(a, a))
  {
    SquaresNonNegative(a);
    ParallelCoordinates(a.x, a.y, a.z, b.x, b.y, b.z, DotProduct(a, a), DotProduct(a, b));
  }
}
