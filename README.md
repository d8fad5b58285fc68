# Line–pyramid intersection and string rotation, modelled in Dafny

This project models two small Python programs.

- `q2.py` decides whether an infinite line crosses a pyramid (a tetrahedron).
  It builds the pyramid's four triangular faces, intersects the line with
  each face's plane, and tests whether the intersection point lies inside
  that triangle. The test compares the areas of the three sub-triangles
  the point forms with the face's edges.
- `q1.py` rotates a string by 0, 90, 180 or 270 degrees.

## Modules

| module | file | models |
|---|---|---|
| `Vectors` | `vectors.dfy` | `Vector3` and its operations |
| `Geometry` | `geometry.dfy` | `Line`, `Plane` (with its normal), `Pyramid.faces` and the line–plane solver |
| `Triangles` | `triangles.dfy` | `point_in_triangle`, and what it accepts in barycentric terms |
| `PyramidQuery` | `pyramid_query.dfy` | `line_intersection_with_pyramid`, as a loop proved against a specification predicate |
| `Samples` | `samples.dfy` | the two sample queries of the program's main block |
| `Crossing` | `crossing.dfy` | the corrected solver and query (see Findings) |
| `StringRotation` | `string_rotation.dfy` | `string_rotation` |
| `Polynomials` | `polynomials.dfy` | real-number identities, used one coordinate at a time |
| `Wrappers` | `wrappers.dfy` | `Option` |

Modelling choices:

- Coordinates are exact reals, and `EPSILON` is the exact rational `0.00001`.
- The square root is a parameter `root`. The ghost predicate `IsSqrt`
  constrains it to be the exact non-negative square root.
- The source's `None` results stay `None`.
- The exception for a bad angle becomes `None`.

Main results:

- The solver's point is the only common point of the line and the plane.
- The triangle test accepts every point of the closed triangle. Every plane
  point it accepts lies within `EPSILON / 2` of the triangle in barycentric
  coordinates.
- Whenever the query reaches the triangle test, the face's area is positive.
- The query answers true for the first sample and false for the second.

## Model

| member | source | states |
|---|---|---|
| Vectors.CrossProduct | q2.py:20-24 | `cross_product` component by component; characterised by `CrossAnticommutative`, `CrossSelfIsZero`, `CrossOrthogonal` and `ZeroCrossIsParallel` |
| Vectors.DotProduct | q2.py:26-27 | `dot_product`; characterised by `DotSymmetric` and `DotBilinear` |
| Vectors.Sub | q2.py:29-34 | `__sub__` component by component; `AddSubInverse` proves it undoes `Add` |
| Vectors.Add | q2.py:36-41 | `__add__` component by component; `AddSubInverse` proves `Sub` undoes it |
| Vectors.Mul | q2.py:43-48 | `__mul__` by a scalar on the right; `MagnitudeOfMul` and `DotBilinear` state how it scales length and dot products |
| Vectors.Magnitude | q2.py:50-51 | the magnitude is non-negative, its square is `v . v`, and it is zero exactly for the zero vector |
| Vectors.CrossAnticommutative | q2.py:20-24 | `a x b == (b x a) * -1` |
| Vectors.CrossSelfIsZero | q2.py:20-24 | `a x a` is the zero vector |
| Vectors.CrossOrthogonal | q2.py:20-27 | `a x b` is orthogonal to both `a` and `b` |
| Vectors.DotSymmetric | q2.py:26-27 | the dot product is symmetric |
| Vectors.DotBilinear | q2.py:26-48 | the dot product is linear in its first argument over `*`, `+` and `-` |
| Vectors.AddSubInverse | q2.py:29-41 | `(a - b) + b == a` and `(a + b) - b == a` |
| Vectors.MagnitudeOfMul | q2.py:43-51 | `(v * k).magnitude() == abs(k) * v.magnitude()` |
| Vectors.CrossOfCombinations | q2.py:20-24 | the cross product of two combinations of `e1`, `e2` is `e1 x e2` times their determinant |
| Vectors.ParallelCrossIsZero | q2.py:20-24 | a vector crossed with a multiple of itself is zero |
| Vectors.ZeroCrossIsParallel | q2.py:20-24 | conversely, `a x b == 0` with `a != 0` makes `b` a multiple of `a` |
| Geometry.Plane.NormalVector | q2.py:70-75 | the normal `(v1 - v0) x (v2 - v0)`; `NormalIsOrthogonal` and `NormalZeroIffCollinear` characterise it |
| Geometry.Pyramid.Faces | q2.py:86-87 | exactly four faces; face `k` has the vertices at index triple `k` of `(0,1,2), (0,1,3), (0,2,3), (1,2,3)`, in that order |
| Geometry.FaceIndicesAreCombinations | q2.py:86-87 | those triples are exactly the increasing 3-combinations of 0..3, in lexicographic order, none twice |
| Geometry.NormalIsOrthogonal | q2.py:70-72 | the normal is orthogonal to both edges `v1 - v0` and `v2 - v0` |
| Geometry.NormalZeroIffCollinear | q2.py:70-72 | the normal is zero exactly when the three vertices are collinear |
| Geometry.LinePlaneIntersectionPoint | q2.py:90-107 | None exactly when `abs(direction . n) < EPSILON` or `abs((v0 - point1) . n) < EPSILON`; otherwise a point of the line that lies on the plane |
| Geometry.PlaneEquationAlongLine | q2.py:104-107 | the plane equation at `point1 + direction * t` equals `t * (direction . n) - (v0 - point1) . n` |
| Geometry.SolutionOnPlane | q2.py:104-107 | the computed `d` puts `point1 + direction * d` on the plane, whatever the sign of `d` |
| Geometry.SolverPointByParameter | q2.py:104-107 | when neither guard fires, the point is `point1 + direction * d` for the `d` with `d * (direction . n) == (v0 - point1) . n` |
| Geometry.IntersectionIsUnique | q2.py:104-107 | every point that is on both the line and the plane is the solver's point |
| Geometry.ParallelLineHasNoPoint | q2.py:92-93 | a line orthogonal to the normal gets None |
| Geometry.DegenerateFaceHasNoPoint | q2.py:92-93 | a face with a zero normal gets None |
| Geometry.LineInPlaneHasNoPoint | q2.py:96-100 | a line whose origin is on the plane gets None |
| Geometry.LineFromVertexHasNoPoint | q2.py:96-100 | a line starting at the face's first vertex gets None |
| Geometry.HitFaceHasPositiveArea | q2.py:117-122 | when the solver gives a point, the face's normal is non-zero, so the area the triangle test divides by is positive |
| Triangles.TriangleArea | q2.py:117-119 | the area is non-negative, and zero exactly for a zero normal |
| Triangles.AreaRatio | q2.py:120-128 | one sub-triangle's area divided by the face's; never negative, so the `0 <=` half of each bound check at q2.py:131 always holds |
| Triangles.PointInTriangle | q2.py:110-133 | its body is the source's boolean expression over the three ratios; `ClosedTriangleIsAccepted`, `AcceptedPointIsNearTriangle` and `PyramidQuery.FaceHitAtBarycentric` characterise what it accepts |
| Triangles.RatioOfScaledNormal | q2.py:120-128 | a sub-triangle whose cross product is `k` times the normal has area ratio `abs(k)` |
| Triangles.CrossOppositeV0 | q2.py:120-122 | the first sub-triangle's cross product is the normal times the first barycentric coordinate `1 - b - c` |
| Triangles.CrossOppositeV1 | q2.py:123-125 | the second sub-triangle's cross product is the normal times `b` |
| Triangles.CrossOppositeV2 | q2.py:126-128 | the third sub-triangle's cross product is the normal times `c` |
| Triangles.BarycentricRatios | q2.py:120-128 | the three area ratios of a point are the absolute values of its barycentric coordinates |
| Triangles.PlanarPointCoordinates | q2.py:110-133 | every point of a non-degenerate face's plane has barycentric coordinates |
| Triangles.ClosedTriangleIsAccepted | q2.py:130-133 | every point of the closed triangle passes the test |
| Triangles.AcceptedPointIsNearTriangle | q2.py:130-133 | a plane point that passes has one pair of barycentric coordinates with all three of `1 - b - c`, `b`, `c` in `[-EPSILON / 2, 1]` |
| Triangles.RatioSumAtLeastOne | q2.py:132 | for a plane point the ratios sum to at least 1, so the one-sided sum check loses nothing over exact reals |
| Triangles.BaryOnPlane | q2.py:110-133 | every barycentric combination of the vertices lies on the face's plane |
| PyramidQuery.FaceHit | q2.py:140-143 | one iteration's test: the solver gives a point for the face and that point passes `point_in_triangle` |
| PyramidQuery.AnyFaceHit | q2.py:139-145 | the query's specification: some face of the list is hit |
| PyramidQuery.LineIntersectionWithPyramid | q2.py:136-145 | returns true exactly when some face, tried in order, gets a solver point that passes the triangle test |
| PyramidQuery.QueryHitIsNearFace | q2.py:136-145 | a true answer names a face and a point that is on the line and on that face's plane, within `EPSILON / 2` of the triangle in barycentric coordinates |
| PyramidQuery.QueryFindsClosedTriangle | q2.py:139-145 | a face whose solver point exists and whose closed triangle the line meets makes the answer true |
| PyramidQuery.FaceHitAtBarycentric | q2.py:140-143 | a face with solver point `(1 - b - c, b, c)` is hit exactly when those absolute values are at most 1 and sum to less than `1 + EPSILON` |
| PyramidQuery.HitInsideTriangle | q2.py:139-144 | a face whose solver point has non-negative barycentric coordinates makes the answer true |
| PyramidQuery.HitAtFirstVertex | q2.py:139-144 | a line whose solver point for the first face is that face's first vertex makes the answer true |
| PyramidQuery.MissFarFromTriangle | q2.py:143 | a face whose solver point has barycentric absolute values summing to at least `1 + EPSILON` is not hit |
| PyramidQuery.QueryFromFirstVertex | q2.py:139-142 | for a line starting at the pyramid's first vertex, only the last face can answer |
| Samples.FirstSamplePoint | q2.py:150-153 | the first sample's line meets that pyramid's last face at `(1, 1, 1)` |
| Samples.FirstSampleLastFace | q2.py:149-155 | the first sample's line meets that pyramid's last face at its vertex `(1, 1, 1)`, barycentric coordinates `(0, 0, 1)` |
| Samples.FirstSampleCrosses | q2.py:149-155 | line `(0,0,0) + (1,1,1) d` crosses the pyramid `(0,0,0), (1,0,0), (0,1,0), (1,1,1)` |
| Samples.SecondSamplePoint | q2.py:157-160 | the sample line meets the second pyramid's last face at `(1, 1, 1)` |
| Samples.SecondSampleLastFace | q2.py:157-162 | that point has barycentric coordinates `(1, 1, -1)` on the face, so its area ratios sum to 3, at least `1 + EPSILON`: it is outside the triangle |
| Samples.SecondSampleMisses | q2.py:157-162 | the same line does not cross the pyramid `(0,0,0), (1,0,0), (0,1,0), (0,0,-1)` |
| Samples.ShiftedSampleCrosses | q2.py:96-100 | the same line, given by origin `(-1,-1,-1)`, does cross that pyramid |
| Samples.SecondSampleDependsOnOrigin | q2.py:96-100 | the as-written query answers false or true for one line, depending on which of its points is the origin |
| Samples.FirstSampleCorrected | q2.py:149-155 | the corrected query also answers true for the first sample |
| Samples.SecondSampleCorrected | q2.py:157-162 | the corrected query answers true for the second sample's line from either origin |
| Crossing.CrossingPoint | q2.py:90-107 | corrected solver: None exactly when `abs(direction . n) < EPSILON`, with `n` the unnormalised normal (a parallel line, and also any line against a face whose normal is short); otherwise a point on both the line and the plane |
| Crossing.CrossingPointIsUnique | q2.py:104-107 | the corrected point is the only common point of the line and the plane |
| Crossing.AsWrittenDropsOnlyOriginOnPlane | q2.py:96-100 | the as-written solver equals the corrected one except when `abs((v0 - point1) . n) < EPSILON`, with `n` the unnormalised normal (the origin lies less than `EPSILON / abs(n)` from the plane, a cut-off that differs from face to face), where it gives None |
| Crossing.OriginOnPlaneIsDropped | q2.py:96-100 | a line with `abs(direction . n) >= EPSILON` that starts on the plane crosses it at its origin, yet the as-written solver gives None |
| Crossing.CrossingIgnoresOrigin | q2.py:104-107 | the corrected point is the same for every choice of origin on the line |
| Crossing.CrossedFaceHasPositiveArea | q2.py:117-122 | a face with a corrected point has a non-zero normal, so the area the triangle test divides by is positive |
| Crossing.FaceCrossed | q2.py:140-143 | corrected iteration test: the corrected point exists and passes `point_in_triangle` |
| Crossing.AnyFaceCrossed | q2.py:139-145 | corrected query's specification: some face of the list is crossed |
| Crossing.LineCrossesPyramid | q2.py:136-145 | corrected query: true exactly when some face, tried in order, has a corrected point that passes the triangle test |
| Crossing.QueryIgnoresOrigin | q2.py:136-145 | the corrected answer is the same for every choice of origin on the line |
| Crossing.AsWrittenHitIsCrossing | q2.py:136-145 | every true answer of the as-written query is a true answer of the corrected one |
| Crossing.QueriesAgreeOffPlanes | q2.py:96-100 | when `abs((v0 - point1) . n) >= EPSILON` on every face, with `n` the unnormalised normal, the two queries agree |
| StringRotation.Reversed | q1.py:6-7 | same length; position `i` holds `s[|s| - 1 - i]` |
| StringRotation.JoinWithNewlines | q1.py:8-9 | empty for an empty string, else length `2 |s| - 1`; position `2i` holds `s[i]`, and every odd position holds a newline |
| StringRotation.EvenPositions | q1.py:8-9 | keeps the characters at even positions (the inverse of the join) |
| StringRotation.Rotate | q1.py:1-11 | None exactly for an angle outside {0, 90, 180, 270}; 0 keeps `s`; 180 reverses it; 270 and 90 put `s`, or its reversal, at the even positions with newlines between |
| StringRotation.ReversedTwice | q1.py:6-7 | reversing twice gives the string back |
| StringRotation.HalfTurnTwice | q1.py:6-7 | rotating by 180 twice gives the string back |
| StringRotation.EvenPositionsOfJoin | q1.py:8-9 | taking the even positions of the join gives the string back |
| StringRotation.TwoSeventyIsInvertible | q1.py:8-9 | the 270 output loses nothing: its even positions are the input |
| StringRotation.NinetyIsTwoSeventyOfOneEighty | q1.py:4-9 | the 90 output is the 270 rotation of the 180 output |
| StringRotation.NinetyAndTwoSeventySameLength | q1.py:4-9 | the 90 and 270 outputs have the same length |
| StringRotation.AlloSamples | q1.py:14-17 | "allo" gives "allo" at 0 and "olla" at 180, and angle 45 is refused |
| StringRotation.AlloNinety | q1.py:16 | "allo" at 90 gives "o", "l", "l", "a" on separate lines |
| StringRotation.AlloTwoSeventy | q1.py:18 | "allo" at 270 gives "a", "l", "l", "o" on separate lines |

## Left out

- Floating point: IEEE-754 rounding, overflow and underflow. Coordinates are exact reals, so a float comparison that rounds differently is not modelled.
- `math.sqrt` is foreign code. It is a parameter constrained to be the exact square root.
- `itertools.combinations` is not called. The four index triples it yields are listed explicitly, and `Geometry.FaceIndicesAreCombinations` proves they are the combinations.
- The `__repr__` methods are display only.
- `Line.direction_vector` is the field `direction`.
- `Plane` recomputes its normal on demand instead of storing it. Neither version changes after construction, so this is observationally the same.
- The `__main__` blocks print their results. Their inputs and expected answers are kept as lemmas.
  - The pyramid samples are stated for parameters fixed by preconditions to the sample coordinates.
- The exception object and its message become `None`.
- PointInTriangle: the source divides by the face's area, so a degenerate triangle raises a division error. The model requires a non-zero normal instead. `Geometry.HitFaceHasPositiveArea` proves the query always meets that requirement.
- Pyramids are not checked for degeneracy, just as in the source.
  - A degenerate face gets no solver point (`Geometry.DegenerateFaceHasNoPoint`), so it is never divided by.

## Findings

| source | as written | input that shows it | evidently intended | confidence | as-written member | corrected member |
|---|---|---|---|---|---|---|
| q2.py:95-100 | The second guard returns None whenever `abs((v0 - point1) . n) < EPSILON`, with `n` the unnormalised normal: the line's origin lies less than `EPSILON / abs(n)` from the face's plane. Its comment says it detects a line contained in the plane. But a line that is not parallel to the plane meets it at exactly one point, here the origin, and a contained line is already caught by the parallel guard (q2.py:92-93). | Line `(0,0,0) + (1,1,1) d` against the pyramid `(0,0,0), (1,0,0), (0,1,0), (0,0,-1)` answers false. The same line given by origin `(-1,-1,-1)` answers true, because it meets the first face at the vertex `(0,0,0)`. | The answer depends on the line, not on which of its points is the origin: only the first guard, `abs(direction . n) < EPSILON` (with `n` unnormalised: a parallel line, or a face whose normal is short), gives no point. | medium, not executed | Samples.SecondSampleDependsOnOrigin | Crossing.QueryIgnoresOrigin |

The program's own expectation for its second sample ("should be False")
holds only because of this guard. The sample line touches that pyramid at
its vertex `(0,0,0)`, and the corrected query answers true for it
(`Samples.SecondSampleCorrected`). The first sample's line touches its
pyramid only along the edge from `(0,0,0)` to `(1,1,1)`, and the program
expects true there. So boundary contact counts as crossing in the first
sample, which is why the finding takes the origin-independent reading.

The as-written solver and query remain the model of the program, because
the program's sample answers depend on them. The corrected definitions
(`Crossing.CrossingPoint`, `Crossing.LineCrossesPyramid`) sit beside them,
with their origin independence proved. `Crossing.AsWrittenHitIsCrossing`
and `Crossing.QueriesAgreeOffPlanes` prove how the two versions relate.
