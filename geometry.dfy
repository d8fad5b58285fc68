/**
 * Lines, planes, pyramids and the line-plane solver (q2.py, classes Line,
 * Plane and Pyramid and function line_plane_intersection_point).
 * Coordinates are exact reals; the source's tolerance is kept as the
 * exact rational EPSILON.
 */
module Geometry {
  import opened Wrappers
  import opened Vectors
  import opened Polynomials

  /** Threshold under which a float is treated as zero. */
  const EPSILON: real := 0.00001

  /** A full line `point1 + direction * d` for every real `d` (not a ray). */
  datatype Line = Line(point1: Vector3, direction: Vector3)

  /**
   * Three ordered vertices. The same value serves as an infinite plane
   * (through `v0` with the normal below) and as a triangle.
   */
  datatype Plane = Plane(v0: Vector3, v1: Vector3, v2: Vector3) {

    /** The unnormalised normal `(v1 - v0) x (v2 - v0)` (see `NormalIsOrthogonal`). */
    function NormalVector(): Vector3 {
      CrossProduct(Sub(v1, v0), Sub(v2, v0))
    }
  }

  /** `q` lies on the infinite plane through the face. */
  predicate OnPlane(q: Vector3, plane: Plane) {
    DotProduct(Sub(q, plane.v0), plane.NormalVector()) == 0.0
  }

  /** `q` is `point1 + direction * d` for some real `d`, of either sign. */
  ghost predicate OnLine(q: Vector3, line: Line) {
    exists d: real :: q == Add(line.point1, Mul(line.direction, d))
  }

  /** Index triples of the faces: the 3-element combinations of 0..3 in the order the source enumerates them. */
  const FaceIndices: seq<(nat, nat, nat)> := [(0, 1, 2), (0, 1, 3), (0, 2, 3), (1, 2, 3)]

  /** Lexicographic order on index triples. */
  predicate LexLess(s: (nat, nat, nat), t: (nat, nat, nat)) {
    s.0 < t.0 || (s.0 == t.0 && (s.1 < t.1 || (s.1 == t.1 && s.2 < t.2)))
  }

  /** Four vertices, assumed (not checked) to span a solid. */
  datatype Pyramid = Pyramid(p0: Vector3, p1: Vector3, p2: Vector3, p3: Vector3) {

    function Vertex(i: nat): Vector3
      requires i < 4
    {
      if i == 0 then p0 else if i == 1 then p1 else if i == 2 then p2 else p3
    }

    /** The face spanned by the vertices at the three indices, in that order. */
    function Face(t: (nat, nat, nat)): Plane
      requires t.0 < 4 && t.1 < 4 && t.2 < 4
    {
      Plane(Vertex(t.0), Vertex(t.1), Vertex(t.2))
    }

    /** The four triangular faces, one per 3-combination of vertex indices, in combination order. */
    function Faces(): (fs: seq<Plane>)
      ensures |fs| == |FaceIndices| == 4
      ensures forall k :: 0 <= k < 4 ==> fs[k] == Face(FaceIndices[k])
    {
      [Plane(p0, p1, p2), Plane(p0, p1, p3), Plane(p0, p2, p3), Plane(p1, p2, p3)]
    }
  }

  /**
   * The face index triples are exactly the strictly increasing triples over
   * 0..3, listed in strictly increasing lexicographic order (so none twice).
   */
  lemma FaceIndicesAreCombinations()
    ensures forall t :: t in FaceIndices <==> t.0 < t.1 < t.2 < 4
    ensures forall i, j :: 0 <= i < j < |FaceIndices| ==> LexLess(FaceIndices[i], FaceIndices[j])
  {
    forall t: (nat, nat, nat) | t.0 < t.1 < t.2 < 4
      ensures t in FaceIndices
    {
      if t.0 == 0 {
        if t.1 == 1 {
          assert t == FaceIndices[0] || t == FaceIndices[1];
        } else {
          assert t == FaceIndices[2];
        }
      } else {
        assert t == FaceIndices[3];
      }
    }
  }

  /**
   * The point where the line crosses the face's plane, or None when the line
   * is (nearly) parallel to the plane or its origin lies (nearly) on it. Both
   * tolerances are on dot products with the unnormalised normal `n`, so in
   * terms of distance the second cut-off is EPSILON / |n|, which differs from
   * face to face.
   */
  function LinePlaneIntersectionPoint(line: Line, plane: Plane): (r: Option<Vector3>)
    ensures r.None? <==>
      Abs(DotProduct(line.direction, plane.NormalVector())) < EPSILON ||
      Abs(DotProduct(Sub(plane.v0, line.point1), plane.NormalVector())) < EPSILON
    ensures r.Some? ==> OnLine(r.value, line) && OnPlane(r.value, plane)
  {
    var n := plane.NormalVector();
    if Abs(DotProduct(line.direction, n)) < EPSILON then
      None
    else if Abs(DotProduct(Sub(plane.v0, line.point1), n)) < EPSILON then
      None
    else
      var d := DotProduct(Sub(plane.v0, line.point1), n) / DotProduct(line.direction, n);
      var q := Add(line.point1, Mul(line.direction, d));
      SolutionOnPlane(line, plane, d);
      Some(q)
  }

  /**
   * The plane equation evaluated at `point1 + direction * t`: it is zero
   * exactly when `t * (direction . n) == (v0 - point1) . n`.
   */
  lemma PlaneEquationAlongLine(line: Line, plane: Plane, t: real)
    ensures var n := plane.NormalVector();
      DotProduct(Sub(Add(line.point1, Mul(line.direction, t)), plane.v0), n)
      == t * DotProduct(line.direction, n) - DotProduct(Sub(plane.v0, line.point1), n)
  {
    var p, d, o, n := line.point1, line.direction, plane.v0, plane.NormalVector();
    PlaneEquationCoordinates(p.x, p.y, p.z, d.x, d.y, d.z, o.x, o.y, o.z, n.x, n.y, n.z, t);
  }

  /** The parameter `d` of the solver puts `point1 + direction * d` on the plane. */
  lemma SolutionOnPlane(line: Line, plane: Plane, d: real)
    requires DotProduct(line.direction, plane.NormalVector()) != 0.0
    requires d == DotProduct(Sub(plane.v0, line.point1), plane.NormalVector()) / DotProduct(line.direction, plane.NormalVector())
    ensures OnPlane(Add(line.point1, Mul(line.direction, d)), plane)
  {
    PlaneEquationAlongLine(line, plane, d);
    SolveLinear(d, DotProduct(line.direction, plane.NormalVector()), DotProduct(Sub(plane.v0, line.point1), plane.NormalVector()));
  }

  /**
   * When neither guard fires, the solver's point is `point1 + direction * d`
   * for the `d` with `d * (direction . n) == (v0 - point1) . n`.
   */
  lemma SolverPointByParameter(line: Line, plane: Plane, dn: real, wn: real, d: real)
    requires DotProduct(line.direction, plane.NormalVector()) == dn && EPSILON <= Abs(dn)
    requires DotProduct(Sub(plane.v0, line.point1), plane.NormalVector()) == wn && EPSILON <= Abs(wn)
    requires d * dn == wn
    ensures LinePlaneIntersectionPoint(line, plane) == Some(Add(line.point1, Mul(line.direction, d)))
  {
    assert d == wn / dn;
  }

  /** A line starting at the face's first vertex starts on its plane, so it gets no point. */
  lemma LineFromVertexHasNoPoint(line: Line, plane: Plane)
    requires line.point1 == plane.v0
    ensures LinePlaneIntersectionPoint(line, plane) == None
  {
    assert Sub(line.point1, plane.v0) == Zero;
    LineInPlaneHasNoPoint(line, plane);
  }

  /**
   * A line that is not parallel to the plane has at most one point on it:
   * the one at parameter `((v0 - point1) . n) / (direction . n)`.
   */
  lemma CommonPointIsSolution(line: Line, plane: Plane, q: Vector3)
    requires DotProduct(line.direction, plane.NormalVector()) != 0.0
    requires OnLine(q, line) && OnPlane(q, plane)
    ensures q == Add(line.point1, Mul(line.direction,
      DotProduct(Sub(plane.v0, line.point1), plane.NormalVector()) / DotProduct(line.direction, plane.NormalVector())))
  {
    var t :| q == Add(line.point1, Mul(line.direction, t));
    PlaneEquationAlongLine(line, plane, t);
    RootOfLinear(DotProduct(Sub(q, plane.v0), plane.NormalVector()), t,
      DotProduct(line.direction, plane.NormalVector()), DotProduct(Sub(plane.v0, line.point1), plane.NormalVector()));
  }

  /**
   * When the solver returns a point, it is the only point the line and the
   * plane have in common.
   */
  lemma IntersectionIsUnique(line: Line, plane: Plane, q: Vector3)
    requires LinePlaneIntersectionPoint(line, plane).Some?
    requires OnLine(q, line) && OnPlane(q, plane)
    ensures q == LinePlaneIntersectionPoint(line, plane).value
  {
    CommonPointIsSolution(line, plane, q);
  }

  /** A solver hit implies a non-degenerate face: its normal, hence its area, is non-zero. */
  lemma HitFaceHasPositiveArea(root: real -> real, line: Line, plane: Plane)
    requires IsSqrt(root)
    requires LinePlaneIntersectionPoint(line, plane).Some?
    ensures plane.NormalVector() != Zero
    ensures Magnitude(root, plane.NormalVector()) / 2.0 > 0.0
  {
    assert Abs(DotProduct(line.direction, plane.NormalVector())) >= EPSILON;
  }

  /** A degenerate face (zero normal) never yields a point, so it is never divided by. */
  lemma DegenerateFaceHasNoPoint(line: Line, plane: Plane)
    requires plane.NormalVector() == Zero
    ensures LinePlaneIntersectionPoint(line, plane) == None
  {
  }

  /** A line parallel to the face's plane gets no point, whatever its offset. */
  lemma ParallelLineHasNoPoint(line: Line, plane: Plane)
    requires DotProduct(line.direction, plane.NormalVector()) == 0.0
    ensures LinePlaneIntersectionPoint(line, plane) == None
  {
  }

  /** A line whose origin lies on the face's plane gets no point, whatever its direction. */
  lemma LineInPlaneHasNoPoint(line: Line, plane: Plane)
    requires OnPlane(line.point1, plane)
    ensures LinePlaneIntersectionPoint(line, plane) == None
  {
    DotBilinear(Sub(line.point1, plane.v0), plane.NormalVector(), Zero, -1.0);
    assert Sub(plane.v0, line.point1) == Mul(Sub(line.point1, plane.v0), -1.0);
  }

  /** The normal is orthogonal to both edges at `v0`, hence to the whole face. */
  lemma NormalIsOrthogonal(plane: Plane)
    ensures DotProduct(Sub(plane.v1, plane.v0), plane.NormalVector()) == 0.0
    ensures DotProduct(Sub(plane.v2, plane.v0), plane.NormalVector()) == 0.0
  {
    var e1, e2 := Sub(plane.v1, plane.v0), Sub(plane.v2, plane.v0);
    CrossOrthogonal(e1, e2);
    DotSymmetric(CrossProduct(e1, e2), e1);
    DotSymmetric(CrossProduct(e1, e2), e2);
  }

  /** The normal is the zero vector exactly when the three vertices are collinear. */
  lemma NormalZeroIffCollinear(plane: Plane)
    ensures plane.NormalVector() == Zero <==>
      (Sub(plane.v1, plane.v0) == Zero ||
       exists k: real :: Sub(plane.v2, plane.v0) == Mul(Sub(plane.v1, plane.v0), k))
  {
    var e1, e2 := Sub(plane.v1, plane.v0), Sub(plane.v2, plane.v0);
    if e1 == Zero {
      CrossWithZero(e2);
    } else if plane.NormalVector() == Zero {
      ZeroCrossIsParallel(e1, e2);
    }
    if exists k: real :: e2 == Mul(e1, k) {
      var k :| e2 == Mul(e1, k);
      ParallelCrossIsZero(e1, k);
    }
  }
}
