/**
 * The line-pyramid query (q2.py, line_intersection_with_pyramid): the
 * faces are tried in order and the first face whose solver point passes
 * the triangle test answers true.
 */
module PyramidQuery {
  import opened Wrappers
  import opened Vectors
  import opened Geometry
  import opened Triangles

  /** The solver gives a point on the face's plane and that point passes the triangle test. */
  predicate FaceHit(root: real -> real, line: Line, face: Plane)
    requires IsSqrt(root)
  {
    match LinePlaneIntersectionPoint(line, face)
    case None => false
    case Some(q) =>
      HitFaceHasPositiveArea(root, line, face);
      PointInTriangle(root, q, face)
  }

  /** Specification of the query: some face of the list is hit. */
  predicate AnyFaceHit(root: real -> real, line: Line, faces: seq<Plane>)
    requires IsSqrt(root)
  {
    exists k :: 0 <= k < |faces| && FaceHit(root, line, faces[k])
  }

  /** Tries the faces in order and stops at the first hit. */
  method LineIntersectionWithPyramid(root: real -> real, line: Line, pyramid: Pyramid) returns (crossed: bool)
    requires IsSqrt(root)
    ensures crossed == AnyFaceHit(root, line, pyramid.Faces())
  {
    var faces := pyramid.Faces();
    for i := 0 to |faces|
      invariant forall k :: 0 <= k < i ==> !FaceHit(root, line, faces[k])
    {
      var point := LinePlaneIntersectionPoint(line, faces[i]);
      if point.None? {
        continue;
      }
      HitFaceHasPositiveArea(root, line, faces[i]);
      if PointInTriangle(root, point.value, faces[i]) {
        return true;
      }
    }
    return false;
  }

  /**
   * Soundness: a true answer names a face and a point of the line on that
   * face's plane whose barycentric coordinates are all above -EPSILON / 2.
   */
  lemma QueryHitIsNearFace(root: real -> real, line: Line, faces: seq<Plane>)
    requires IsSqrt(root)
    requires AnyFaceHit(root, line, faces)
    ensures exists k: int, q: Vector3 :: 0 <= k < |faces| && OnLine(q, line) && OnPlane(q, faces[k])
              && NearTriangle(q, faces[k], EPSILON / 2.0)
  {
    var k :| 0 <= k < |faces| && FaceHit(root, line, faces[k]);
    var q := LinePlaneIntersectionPoint(line, faces[k]).value;
    HitFaceHasPositiveArea(root, line, faces[k]);
    AcceptedPointIsNearTriangle(root, faces[k], q);
  }

  /**
   * Completeness: when the solver gives a point for a face and the line
   * meets the closed triangle of that face, the answer is true.
   */
  lemma QueryFindsClosedTriangle(root: real -> real, line: Line, faces: seq<Plane>, k: int, q: Vector3)
    requires IsSqrt(root)
    requires 0 <= k < |faces|
    requires LinePlaneIntersectionPoint(line, faces[k]).Some?
    requires OnLine(q, line) && NearTriangle(q, faces[k], 0.0)
    ensures AnyFaceHit(root, line, faces)
  {
    var face := faces[k];
    var b, c :| q == Bary(face, b, c) && 0.0 <= b && 0.0 <= c && 0.0 <= 1.0 - b - c;
    BaryOnPlane(face, b, c);
    IntersectionIsUnique(line, face, q);
    HitFaceHasPositiveArea(root, line, face);
    ClosedTriangleIsAccepted(root, face, q);
    assert FaceHit(root, line, faces[k]);
  }

  /**
   * With the solver's point given by barycentric coordinates `(1 - b - c, b, c)`,
   * the face is hit exactly when their absolute values are at most 1 and
   * sum to less than `1 + EPSILON`.
   */
  lemma FaceHitAtBarycentric(root: real -> real, line: Line, face: Plane, b: real, c: real)
    requires IsSqrt(root)
    requires LinePlaneIntersectionPoint(line, face) == Some(Bary(face, b, c))
    ensures FaceHit(root, line, face) <==>
      Abs(1.0 - b - c) <= 1.0 && Abs(b) <= 1.0 && Abs(c) <= 1.0 && Abs(1.0 - b - c) + Abs(b) + Abs(c) - 1.0 < EPSILON
  {
    HitFaceHasPositiveArea(root, line, face);
    BarycentricRatios(root, face, b, c);
  }

  /** The solver's point for the face has barycentric coordinates `(1 - b - c, b, c)`, all non-negative. */
  predicate SolverPointInside(line: Line, face: Plane, b: real, c: real) {
    LinePlaneIntersectionPoint(line, face) == Some(Bary(face, b, c)) && 0.0 <= b && 0.0 <= c && b + c <= 1.0
  }

  /** A face whose solver point lies in the closed triangle makes the query answer true. */
  lemma HitInsideTriangle(root: real -> real, line: Line, faces: seq<Plane>, k: int, b: real, c: real)
    requires IsSqrt(root)
    requires 0 <= k < |faces| && SolverPointInside(line, faces[k], b, c)
    ensures AnyFaceHit(root, line, faces)
  {
    FaceHitAtBarycentric(root, line, faces[k], b, c);
    assert FaceHit(root, line, faces[k]);
  }

  /** The solver's point for the face is the face's first vertex. */
  predicate SolverPointAtFirstVertex(line: Line, face: Plane) {
    LinePlaneIntersectionPoint(line, face) == Some(face.v0)
  }

  /** A line whose solver point for the first face is the pyramid's first vertex makes the query answer true. */
  lemma HitAtFirstVertex(root: real -> real, line: Line, pyramid: Pyramid)
    requires IsSqrt(root)
    requires SolverPointAtFirstVertex(line, pyramid.Faces()[0])
    ensures AnyFaceHit(root, line, pyramid.Faces())
  {
    var faces := pyramid.Faces();
    FirstVertexIsBary(faces[0]);
    HitInsideTriangle(root, line, faces, 0, 0.0, 0.0);
  }

  /** The solver's point for the face has barycentric coordinates `(1 - b - c, b, c)` whose absolute values sum to at least `1 + EPSILON`. */
  predicate SolverPointFar(line: Line, face: Plane, b: real, c: real) {
    LinePlaneIntersectionPoint(line, face) == Some(Bary(face, b, c)) &&
    EPSILON <= Abs(1.0 - b - c) + Abs(b) + Abs(c) - 1.0
  }

  /** Such a face is not hit. */
  lemma MissFarFromTriangle(root: real -> real, line: Line, face: Plane, b: real, c: real)
    requires IsSqrt(root)
    requires SolverPointFar(line, face, b, c)
    ensures !FaceHit(root, line, face)
  {
    FaceHitAtBarycentric(root, line, face, b, c);
  }

  /**
   * A line starting at the pyramid's first vertex is skipped by the solver
   * on the three faces through that vertex, so only the last face decides.
   */
  lemma QueryFromFirstVertex(root: real -> real, line: Line, pyramid: Pyramid)
    requires IsSqrt(root)
    requires line.point1 == pyramid.p0
    ensures AnyFaceHit(root, line, pyramid.Faces()) == FaceHit(root, line, pyramid.Faces()[3])
  {
    var faces := pyramid.Faces();
    forall k | 0 <= k < 3
      ensures !FaceHit(root, line, faces[k])
    {
      LineFromVertexHasNoPoint(line, faces[k]);
    }
  }
}
