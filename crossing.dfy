/**
 * The line-plane solver and the pyramid query with the second guard of
 * line_plane_intersection_point (q2.py) removed. As written, that guard
 * drops every line whose ORIGIN lies on the face's plane, although a line
 * that is not parallel to the plane meets it at exactly one point; a line
 * lying in the plane is already dropped by the parallel guard. Without it
 * the answers depend on the line only, not on which of its points is the
 * origin. The as-written definitions in Geometry and PyramidQuery stay the
 * model of the source; these are the corrected ones beside them.
 */
module Crossing {
  import opened Wrappers
  import opened Vectors
  import opened Polynomials
  import opened Geometry
  import opened Triangles
  import opened PyramidQuery

  /**
   * The point where the line crosses the plane; None exactly when `abs(direction . n) < EPSILON`
   * with `n` unnormalised: a parallel line, and also any line against a face whose normal is short.
   */
  function CrossingPoint(line: Line, plane: Plane): (r: Option<Vector3>)
    ensures r.None? <==> Abs(DotProduct(line.direction, plane.NormalVector())) < EPSILON
    ensures r.Some? ==> OnLine(r.value, line) && OnPlane(r.value, plane)
  {
    var n := plane.NormalVector();
    if Abs(DotProduct(line.direction, n)) < EPSILON then
      None
    else
      var d := DotProduct(Sub(plane.v0, line.point1), n) / DotProduct(line.direction, n);
      SolutionOnPlane(line, plane, d);
      Some(Add(line.point1, Mul(line.direction, d)))
  }

  /** The corrected point is the only point the line and the plane have in common. */
  lemma CrossingPointIsUnique(line: Line, plane: Plane, q: Vector3)
    requires CrossingPoint(line, plane).Some?
    requires OnLine(q, line) && OnPlane(q, plane)
    ensures q == CrossingPoint(line, plane).value
  {
    CommonPointIsSolution(line, plane, q);
  }

  /** The solver as written is the corrected one, except that it gives None when `abs((v0 - point1) . n) < EPSILON`. */
  lemma AsWrittenDropsOnlyOriginOnPlane(line: Line, plane: Plane)
    ensures LinePlaneIntersectionPoint(line, plane) ==
      if Abs(DotProduct(Sub(plane.v0, line.point1), plane.NormalVector())) < EPSILON then None
      else CrossingPoint(line, plane)
  {
  }

  /**
   * The discrepancy: a line that is not parallel to the plane and starts on
   * it crosses the plane at its origin, yet the solver as written gives None.
   */
  lemma OriginOnPlaneIsDropped(line: Line, plane: Plane)
    requires OnPlane(line.point1, plane)
    requires EPSILON <= Abs(DotProduct(line.direction, plane.NormalVector()))
    ensures LinePlaneIntersectionPoint(line, plane) == None
    ensures CrossingPoint(line, plane) == Some(line.point1)
  {
    LineInPlaneHasNoPoint(line, plane);
    assert line.point1 == Add(line.point1, Mul(line.direction, 0.0));
    CrossingPointIsUnique(line, plane, line.point1);
  }

  /** A point of the line taken as the new origin: the new line has no point the old one lacks. */
  lemma ShiftedOriginOnLine(line: Line, p: Vector3, q: Vector3)
    requires OnLine(p, line) && OnLine(q, Line(p, line.direction))
    ensures OnLine(q, line)
  {
    var s :| p == Add(line.point1, Mul(line.direction, s));
    var t :| q == Add(p, Mul(line.direction, t));
    assert q == Add(line.point1, Mul(line.direction, s + t));
  }

  /** The corrected point depends on the line only, not on which of its points is the origin. */
  lemma CrossingIgnoresOrigin(line: Line, other: Line, plane: Plane)
    requires other.direction == line.direction && OnLine(other.point1, line)
    ensures CrossingPoint(other, plane) == CrossingPoint(line, plane)
  {
    if CrossingPoint(other, plane).Some? {
      var q := CrossingPoint(other, plane).value;
      ShiftedOriginOnLine(line, other.point1, q);
      CrossingPointIsUnique(line, plane, q);
    }
  }

  /** A crossed face has a non-zero normal, so its area, which the triangle test divides by, is positive. */
  lemma CrossedFaceHasPositiveArea(root: real -> real, line: Line, plane: Plane)
    requires IsSqrt(root)
    requires CrossingPoint(line, plane).Some?
    ensures plane.NormalVector() != Zero
    ensures Magnitude(root, plane.NormalVector()) / 2.0 > 0.0
  {
    assert Abs(DotProduct(line.direction, plane.NormalVector())) >= EPSILON;
  }

  /** The corrected point exists and passes the triangle test. */
  predicate FaceCrossed(root: real -> real, line: Line, face: Plane)
    requires IsSqrt(root)
  {
    match CrossingPoint(line, face)
    case None => false
    case Some(q) =>
      CrossedFaceHasPositiveArea(root, line, face);
      PointInTriangle(root, q, face)
  }

  /** Specification of the corrected query: some face of the list is crossed. */
  predicate AnyFaceCrossed(root: real -> real, line: Line, faces: seq<Plane>)
    requires IsSqrt(root)
  {
    exists k :: 0 <= k < |faces| && FaceCrossed(root, line, faces[k])
  }

  /** The corrected query: the faces in order, stopping at the first crossed one. */
  method LineCrossesPyramid(root: real -> real, line: Line, pyramid: Pyramid) returns (crossed: bool)
    requires IsSqrt(root)
    ensures crossed == AnyFaceCrossed(root, line, pyramid.Faces())
  {
    var faces := pyramid.Faces();
    for i := 0 to |faces|
      invariant forall k :: 0 <= k < i ==> !FaceCrossed(root, line, faces[k])
    {
      var point := CrossingPoint(line, faces[i]);
      if point.None? {
        continue;
      }
      CrossedFaceHasPositiveArea(root, line, faces[i]);
      if PointInTriangle(root, point.value, faces[i]) {
        return true;
      }
    }
    return false;
  }

  /** The corrected answer is the same whichever point of the line is its origin. */
  lemma QueryIgnoresOrigin(root: real -> real, line: Line, other: Line, faces: seq<Plane>)
    requires IsSqrt(root)
    requires other.direction == line.direction && OnLine(other.point1, line)
    ensures AnyFaceCrossed(root, other, faces) == AnyFaceCrossed(root, line, faces)
  {
    forall k | 0 <= k < |faces|
      ensures FaceCrossed(root, other, faces[k]) == FaceCrossed(root, line, faces[k])
    {
      CrossingIgnoresOrigin(line, other, faces[k]);
    }
  }

  /** Every true answer of the query as written is a true answer of the corrected query. */
  lemma AsWrittenHitIsCrossing(root: real -> real, line: Line, faces: seq<Plane>)
    requires IsSqrt(root)
    requires AnyFaceHit(root, line, faces)
    ensures AnyFaceCrossed(root, line, faces)
  {
    var k :| 0 <= k < |faces| && FaceHit(root, line, faces[k]);
    AsWrittenDropsOnlyOriginOnPlane(line, faces[k]);
    assert FaceCrossed(root, line, faces[k]);
  }

  /** When `abs((v0 - point1) . n) >= EPSILON` on every face (`n` unnormalised), the two queries give the same answer. */
  lemma QueriesAgreeOffPlanes(root: real -> real, line: Line, faces: seq<Plane>)
    requires IsSqrt(root)
    requires forall k :: 0 <= k < |faces| ==>
      EPSILON <= Abs(DotProduct(Sub(faces[k].v0, line.point1), faces[k].NormalVector()))
    ensures AnyFaceCrossed(root, line, faces) == AnyFaceHit(root, line, faces)
  {
    forall k | 0 <= k < |faces|
      ensures FaceCrossed(root, line, faces[k]) == FaceHit(root, line, faces[k])
    {
      AsWrittenDropsOnlyOriginOnPlane(line, faces[k]);
    }
  }
}
