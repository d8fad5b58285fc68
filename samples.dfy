/**
 * The two sample queries of q2.py: the line through the origin along
 * (1, 1, 1) against two pyramids that share three vertices. Concrete
 * coordinates are passed as parameters fixed by preconditions, and each
 * lemma takes one small step on them: unfolding the solver, the normal and
 * the barycentric point on literal coordinates all in one proof is more than
 * the verifier can do reliably, while a lemma that names the intermediate
 * values (normal, dot products, parameter, point) checks each in isolation
 * and the next lemma only composes those facts.
 */
module Samples {
  import opened Wrappers
  import opened Vectors
  import opened Geometry
  import opened Triangles
  import opened PyramidQuery
  import opened Crossing

  /** The quantities the solver computes for a face: normal, both dot products, parameter and point. */
  predicate SolverSees(line: Line, face: Plane, n: Vector3, dn: real, wn: real, d: real, q: Vector3) {
    face.NormalVector() == n &&
    DotProduct(line.direction, n) == dn && EPSILON <= Abs(dn) &&
    DotProduct(Sub(face.v0, line.point1), n) == wn && EPSILON <= Abs(wn) &&
    d * dn == wn && q == Add(line.point1, Mul(line.direction, d))
  }

  lemma SolverSeesPoint(line: Line, face: Plane, n: Vector3, dn: real, wn: real, d: real, q: Vector3)
    requires SolverSees(line, face, n, dn, wn, d, q)
    ensures LinePlaneIntersectionPoint(line, face) == Some(q)
  {
    SolverPointByParameter(line, face, dn, wn, d);
  }

  /** The last face (1,0,0), (0,1,0), (1,1,1) of the first sample: normal (1, 1, -1), parameter 1. */
  lemma FirstSampleData(line: Line, face: Plane, n: Vector3, q: Vector3, one: real)
    requires line == Line(Vector3(0.0, 0.0, 0.0), Vector3(1.0, 1.0, 1.0))
    requires face == Plane(Vector3(1.0, 0.0, 0.0), Vector3(0.0, 1.0, 0.0), Vector3(1.0, 1.0, 1.0))
    requires n == Vector3(1.0, 1.0, -1.0) && q == Vector3(1.0, 1.0, 1.0) && one == 1.0
    ensures SolverSees(line, face, n, one, one, one, q)
  {
  }

  /** (1, 1, 1) is that face's third vertex: barycentric coordinates (0, 0, 1). */
  lemma FirstSampleBary(face: Plane, q: Vector3, zero: real, one: real)
    requires face == Plane(Vector3(1.0, 0.0, 0.0), Vector3(0.0, 1.0, 0.0), Vector3(1.0, 1.0, 1.0))
    requires q == Vector3(1.0, 1.0, 1.0) && zero == 0.0 && one == 1.0
    ensures q == Bary(face, zero, one)
  {
    BaryByCoordinates(face, zero, one, q);
  }

  /** The solver meets that face at (1, 1, 1). */
  lemma FirstSamplePoint(line: Line, face: Plane)
    requires line == Line(Vector3(0.0, 0.0, 0.0), Vector3(1.0, 1.0, 1.0))
    requires face == Plane(Vector3(1.0, 0.0, 0.0), Vector3(0.0, 1.0, 0.0), Vector3(1.0, 1.0, 1.0))
    ensures LinePlaneIntersectionPoint(line, face) == Some(Vector3(1.0, 1.0, 1.0))
  {
    FirstSampleData(line, face, Vector3(1.0, 1.0, -1.0), Vector3(1.0, 1.0, 1.0), 1.0);
    SolverSeesPoint(line, face, Vector3(1.0, 1.0, -1.0), 1.0, 1.0, 1.0, Vector3(1.0, 1.0, 1.0));
  }

  /** The solver meets the first sample's last face at its vertex (1, 1, 1). */
  lemma FirstSampleLastFace(line: Line, pyramid: Pyramid)
    requires line == Line(Vector3(0.0, 0.0, 0.0), Vector3(1.0, 1.0, 1.0))
    requires pyramid == Pyramid(Vector3(0.0, 0.0, 0.0), Vector3(1.0, 0.0, 0.0), Vector3(0.0, 1.0, 0.0), Vector3(1.0, 1.0, 1.0))
    ensures SolverPointInside(line, pyramid.Faces()[3], 0.0, 1.0)
  {
    var face := pyramid.Faces()[3];
    FirstSamplePoint(line, face);
    FirstSampleBary(face, Vector3(1.0, 1.0, 1.0), 0.0, 1.0);
  }

  /**
   * The first sample: the pyramid (0,0,0), (1,0,0), (0,1,0), (1,1,1) is
   * crossed, through its last face.
   */
  lemma FirstSampleCrosses(root: real -> real, line: Line, pyramid: Pyramid)
    requires IsSqrt(root)
    requires line == Line(Vector3(0.0, 0.0, 0.0), Vector3(1.0, 1.0, 1.0))
    requires pyramid == Pyramid(Vector3(0.0, 0.0, 0.0), Vector3(1.0, 0.0, 0.0), Vector3(0.0, 1.0, 0.0), Vector3(1.0, 1.0, 1.0))
    ensures AnyFaceHit(root, line, pyramid.Faces())
  {
    FirstSampleLastFace(line, pyramid);
    HitInsideTriangle(root, line, pyramid.Faces(), 3, 0.0, 1.0);
  }

  /** The last face (1,0,0), (0,1,0), (0,0,-1) of the second sample: normal (-1, -1, 1), parameter 1. */
  lemma SecondSampleData(line: Line, face: Plane, n: Vector3, q: Vector3, one: real, minusOne: real)
    requires line == Line(Vector3(0.0, 0.0, 0.0), Vector3(1.0, 1.0, 1.0))
    requires face == Plane(Vector3(1.0, 0.0, 0.0), Vector3(0.0, 1.0, 0.0), Vector3(0.0, 0.0, -1.0))
    requires n == Vector3(-1.0, -1.0, 1.0) && q == Vector3(1.0, 1.0, 1.0) && one == 1.0 && minusOne == -1.0
    ensures SolverSees(line, face, n, minusOne, minusOne, one, q)
  {
  }

  /** The solver meets that face at (1, 1, 1). */
  lemma SecondSamplePoint(line: Line, face: Plane)
    requires line == Line(Vector3(0.0, 0.0, 0.0), Vector3(1.0, 1.0, 1.0))
    requires face == Plane(Vector3(1.0, 0.0, 0.0), Vector3(0.0, 1.0, 0.0), Vector3(0.0, 0.0, -1.0))
    ensures LinePlaneIntersectionPoint(line, face) == Some(Vector3(1.0, 1.0, 1.0))
  {
    SecondSampleData(line, face, Vector3(-1.0, -1.0, 1.0), Vector3(1.0, 1.0, 1.0), 1.0, -1.0);
    SolverSeesPoint(line, face, Vector3(-1.0, -1.0, 1.0), -1.0, -1.0, 1.0, Vector3(1.0, 1.0, 1.0));
  }

  /** (1, 1, 1) has barycentric coordinates (1, 1, -1) on that face. */
  lemma SecondSampleBary(face: Plane, q: Vector3, one: real, minusOne: real)
    requires face == Plane(Vector3(1.0, 0.0, 0.0), Vector3(0.0, 1.0, 0.0), Vector3(0.0, 0.0, -1.0))
    requires q == Vector3(1.0, 1.0, 1.0) && one == 1.0 && minusOne == -1.0
    ensures q == Bary(face, one, minusOne)
  {
    BaryByCoordinates(face, one, minusOne, q);
  }

  /** The solver meets the second sample's last face at (1, 1, 1), outside the triangle. */
  lemma SecondSampleLastFace(line: Line, pyramid: Pyramid)
    requires line == Line(Vector3(0.0, 0.0, 0.0), Vector3(1.0, 1.0, 1.0))
    requires pyramid == Pyramid(Vector3(0.0, 0.0, 0.0), Vector3(1.0, 0.0, 0.0), Vector3(0.0, 1.0, 0.0), Vector3(0.0, 0.0, -1.0))
    ensures SolverPointFar(line, pyramid.Faces()[3], 1.0, -1.0)
  {
    var face := pyramid.Faces()[3];
    SecondSamplePoint(line, face);
    SecondSampleBary(face, Vector3(1.0, 1.0, 1.0), 1.0, -1.0);
  }

  /**
   * The second sample: the pyramid (0,0,0), (1,0,0), (0,1,0), (0,0,-1) is
   * not crossed. The three faces through the line's origin are skipped and
   * the last face's point has area ratios 1, 1 and 1.
   */
  lemma SecondSampleMisses(root: real -> real, line: Line, pyramid: Pyramid)
    requires IsSqrt(root)
    requires line == Line(Vector3(0.0, 0.0, 0.0), Vector3(1.0, 1.0, 1.0))
    requires pyramid == Pyramid(Vector3(0.0, 0.0, 0.0), Vector3(1.0, 0.0, 0.0), Vector3(0.0, 1.0, 0.0), Vector3(0.0, 0.0, -1.0))
    ensures !AnyFaceHit(root, line, pyramid.Faces())
  {
    SecondSampleLastFace(line, pyramid);
    MissFarFromTriangle(root, line, pyramid.Faces()[3], 1.0, -1.0);
    QueryFromFirstVertex(root, line, pyramid);
  }

  /** The corrected query keeps the first sample's answer. */
  lemma FirstSampleCorrected(root: real -> real, line: Line, pyramid: Pyramid)
    requires IsSqrt(root)
    requires line == Line(Vector3(0.0, 0.0, 0.0), Vector3(1.0, 1.0, 1.0))
    requires pyramid == Pyramid(Vector3(0.0, 0.0, 0.0), Vector3(1.0, 0.0, 0.0), Vector3(0.0, 1.0, 0.0), Vector3(1.0, 1.0, 1.0))
    ensures AnyFaceCrossed(root, line, pyramid.Faces())
  {
    FirstSampleCrosses(root, line, pyramid);
    AsWrittenHitIsCrossing(root, line, pyramid.Faces());
  }

  /** The sample line started at the origin and at (-1, -1, -1) is one and the same line. */
  lemma SampleLineTwoOrigins(line: Line, shifted: Line)
    requires line == Line(Vector3(0.0, 0.0, 0.0), Vector3(1.0, 1.0, 1.0))
    requires shifted == Line(Vector3(-1.0, -1.0, -1.0), Vector3(1.0, 1.0, 1.0))
    ensures shifted.direction == line.direction
    ensures OnLine(shifted.point1, line) && OnLine(line.point1, shifted)
  {
    assert shifted.point1 == Add(line.point1, Mul(line.direction, -1.0));
    assert line.point1 == Add(shifted.point1, Mul(shifted.direction, 1.0));
  }

  /** The second sample's first face (0,0,0), (1,0,0), (0,1,0) has normal (0, 0, 1). */
  lemma ShiftedSampleNormal(face: Plane, n: Vector3)
    requires face == Plane(Vector3(0.0, 0.0, 0.0), Vector3(1.0, 0.0, 0.0), Vector3(0.0, 1.0, 0.0))
    requires n == Vector3(0.0, 0.0, 1.0)
    ensures face.NormalVector() == n
  {
  }

  /** For the line started at (-1,-1,-1), a face through (0,0,0) with normal (0, 0, 1) is met at parameter 1. */
  lemma ShiftedSampleData(line: Line, face: Plane, n: Vector3, q: Vector3, one: real)
    requires line == Line(Vector3(-1.0, -1.0, -1.0), Vector3(1.0, 1.0, 1.0))
    requires face.v0 == Vector3(0.0, 0.0, 0.0) && face.NormalVector() == n
    requires n == Vector3(0.0, 0.0, 1.0) && q == Vector3(0.0, 0.0, 0.0) && one == 1.0
    ensures SolverSees(line, face, n, one, one, one, q)
  {
  }

  /** The solver meets that face at its first vertex (0, 0, 0). */
  lemma ShiftedSamplePoint(line: Line, face: Plane)
    requires line == Line(Vector3(-1.0, -1.0, -1.0), Vector3(1.0, 1.0, 1.0))
    requires face == Plane(Vector3(0.0, 0.0, 0.0), Vector3(1.0, 0.0, 0.0), Vector3(0.0, 1.0, 0.0))
    ensures LinePlaneIntersectionPoint(line, face) == Some(Vector3(0.0, 0.0, 0.0))
  {
    ShiftedSampleNormal(face, Vector3(0.0, 0.0, 1.0));
    ShiftedSampleData(line, face, Vector3(0.0, 0.0, 1.0), Vector3(0.0, 0.0, 0.0), 1.0);
    SolverSeesPoint(line, face, Vector3(0.0, 0.0, 1.0), 1.0, 1.0, 1.0, Vector3(0.0, 0.0, 0.0));
  }

  /** For the line started at (-1, -1, -1) the solver meets the first face at that face's first vertex. */
  lemma ShiftedSampleFirstFace(line: Line, pyramid: Pyramid)
    requires line == Line(Vector3(-1.0, -1.0, -1.0), Vector3(1.0, 1.0, 1.0))
    requires pyramid == Pyramid(Vector3(0.0, 0.0, 0.0), Vector3(1.0, 0.0, 0.0), Vector3(0.0, 1.0, 0.0), Vector3(0.0, 0.0, -1.0))
    ensures SolverPointAtFirstVertex(line, pyramid.Faces()[0])
  {
    ShiftedSamplePoint(line, pyramid.Faces()[0]);
  }

  /** The second sample's line started at (-1, -1, -1) crosses the pyramid, through its first face. */
  lemma ShiftedSampleCrosses(root: real -> real, line: Line, pyramid: Pyramid)
    requires IsSqrt(root)
    requires line == Line(Vector3(-1.0, -1.0, -1.0), Vector3(1.0, 1.0, 1.0))
    requires pyramid == Pyramid(Vector3(0.0, 0.0, 0.0), Vector3(1.0, 0.0, 0.0), Vector3(0.0, 1.0, 0.0), Vector3(0.0, 0.0, -1.0))
    ensures AnyFaceHit(root, line, pyramid.Faces())
  {
    ShiftedSampleFirstFace(line, pyramid);
    HitAtFirstVertex(root, line, pyramid);
  }

  /**
   * The query as written depends on the line's origin: the second sample's
   * line answers false when it starts at (0, 0, 0) and true when the same
   * line starts at (-1, -1, -1).
   */
  lemma SecondSampleDependsOnOrigin(root: real -> real, line: Line, shifted: Line, pyramid: Pyramid)
    requires IsSqrt(root)
    requires line == Line(Vector3(0.0, 0.0, 0.0), Vector3(1.0, 1.0, 1.0))
    requires shifted == Line(Vector3(-1.0, -1.0, -1.0), Vector3(1.0, 1.0, 1.0))
    requires pyramid == Pyramid(Vector3(0.0, 0.0, 0.0), Vector3(1.0, 0.0, 0.0), Vector3(0.0, 1.0, 0.0), Vector3(0.0, 0.0, -1.0))
    ensures shifted.direction == line.direction && OnLine(shifted.point1, line)
    ensures !AnyFaceHit(root, line, pyramid.Faces()) && AnyFaceHit(root, shifted, pyramid.Faces())
  {
    SampleLineTwoOrigins(line, shifted);
    SecondSampleMisses(root, line, pyramid);
    ShiftedSampleCrosses(root, shifted, pyramid);
  }

  /**
   * The corrected query answers true for the second sample, from either
   * origin: the line touches the pyramid at its vertex (0, 0, 0).
   */
  lemma SecondSampleCorrected(root: real -> real, line: Line, shifted: Line, pyramid: Pyramid)
    requires IsSqrt(root)
    requires line == Line(Vector3(0.0, 0.0, 0.0), Vector3(1.0, 1.0, 1.0))
    requires shifted == Line(Vector3(-1.0, -1.0, -1.0), Vector3(1.0, 1.0, 1.0))
    requires pyramid == Pyramid(Vector3(0.0, 0.0, 0.0), Vector3(1.0, 0.0, 0.0), Vector3(0.0, 1.0, 0.0), Vector3(0.0, 0.0, -1.0))
    ensures AnyFaceCrossed(root, line, pyramid.Faces()) && AnyFaceCrossed(root, shifted, pyramid.Faces())
  {
    SampleLineTwoOrigins(line, shifted);
    ShiftedSampleCrosses(root, shifted, pyramid);
    AsWrittenHitIsCrossing(root, shifted, pyramid.Faces());
    QueryIgnoresOrigin(root, shifted, line, pyramid.Faces());
  }
}
