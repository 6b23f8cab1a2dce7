# FlatPhysics kernel in Dafny

This project models the kernel of a small two-dimensional rigid-body physics engine, the `FlatPhysics` library. Its parts are:

- a vector type and its operators (`FlatVector`);
- scalar and vector helpers (`FlatMath`);
- axis-aligned bounding boxes (`FlatAABB`);
- collision detection and contact points (`Collisions`);
- rigid bodies with lazily refreshed caches (`FlatBody`);
- the world, which steps every body and resolves every colliding pair (`FlatWorld`).

Single-precision floats are modelled as Dafny `real`. `MathF.Sqrt`, `MathF.Sin` and `MathF.Cos` are uninterpreted. A contract that depends on them names its hypothesis:

- `SqrtLaws`: the root of a non-negative number is non-negative and squares back to it;
- `TrigLaws`: sin² + cos² = 1.

Monotonicity of the root, and its values at 0 and at squares, are proved from `SqrtLaws` (module `MathF`).

The model follows the source's own form, file by file:

- **`FlatVector`, `FlatMath`, `FlatAABB`** (`flat_vector.dfy`, `flat_math.dfy`, `flat_aabb.dfy`): datatypes and functions. Every property is proved as a lemma.
- **`Collisions`** (`collisions.dfy`): the tests are pure functions, each with a partner lemma stating the geometry it promises. Every C# loop is a Dafny `method` with a `for` loop, proved equal to its specification function:
  - the vertex projection;
  - the closest-vertex search;
  - both separating-axis loops;
  - the circle-polygon contact search;
  - the contact scan with its tolerance tie-break.
- **`FlatBody`** (`flat_body.dfy`): a `class`.
  - The readonly fields are `const`s.
  - The motion state and the two dirty flags are `var`s.
  - The world-vertex cache is an `array` that `GetTransformVertices` refills in place.
  - `Valid()` says that a cleared flag means the cache holds what the getter would compute now.
  - Every mutator is specified by a function on the body's value state (`Body`).
- **`FlatWorld`** (`flat_world.dfy`): a `class`.
  - The body list is a `seq<FlatBody>` field.
  - `Step` runs the movement loop and the two nested collision loops as methods. Each is proved equal to a fold over the pairs it visits.
  - The world step on body states, `WorldStep`, carries the world-level lemmas: every pair visited once, in order (`StepVisitsEachPairOnce`); static bodies fixed (`StaticBodiesStayPut`); well-formedness kept (`WorldStepKeepsWellFormed`).
  - Momentum conservation and the restitution law are proved for the impulse of one colliding pair (`ResolveVelocities`, which `FlatWorld.ResolveCollision` computes). They do not hold for a whole world step: gravity and static bodies change the total momentum.
  - The pair step is kept as a ghost function value (`resolve`, and `rule` for the whole list). This lets the loops be verified without unfolding the physics of every pair.

## Model

| member | source | states |
|---|---|---|
| FlatMath.Clamp | TestingFlatPhysics/FlatPhysics/FlatMath.cs:12-19 | Fails, with the exception's message, exactly when min > max. Returns the value unclamped when min == max. For min < max the result lies in [min, max]: the value itself when inside, otherwise the bound it passed. |
| FlatMath.ClampIdempotent | TestingFlatPhysics/FlatPhysics/FlatMath.cs:12-19 | Clamping a clamped value again changes nothing. |
| FlatMath.DotSymmetric | TestingFlatPhysics/FlatPhysics/FlatMath.cs:39-42 | Dot(a, b) == Dot(b, a). |
| FlatMath.LengthSquaredIsSumOfSquares | TestingFlatPhysics/FlatPhysics/FlatMath.cs:39-42 | Dot(v, v) is the sum of the squared components. It is never negative and is zero exactly for the zero vector. |
| FlatMath.CrossAntisymmetric | TestingFlatPhysics/FlatPhysics/FlatMath.cs:44-47 | Cross(a, b) == -Cross(b, a) and Cross(a, a) == 0. |
| FlatMath.LengthIsRoot | TestingFlatPhysics/FlatPhysics/FlatMath.cs:21-24 | Length is the square root of LengthSquared. |
| FlatMath.DistanceIsRoot | TestingFlatPhysics/FlatPhysics/FlatMath.cs:26-31 | Distance is the square root of DistanceSquared. |
| FlatMath.DistanceSquaredSymmetric | TestingFlatPhysics/FlatPhysics/FlatMath.cs:26-31 | The squared distance does not depend on the order of the points. |
| FlatMath.DistanceSymmetric | TestingFlatPhysics/FlatPhysics/FlatMath.cs:26-31 | Distance(a, b) == Distance(b, a). |
| FlatMath.LengthIsDistanceFromZero | TestingFlatPhysics/FlatPhysics/FlatMath.cs:21-31 | Length(v) == Distance(v, Zero). |
| FlatMath.DistanceToSelf | TestingFlatPhysics/FlatPhysics/FlatMath.cs:26-31 | Under the root laws, Distance(a, a) == 0. |
| FlatMath.LengthSign | TestingFlatPhysics/FlatPhysics/FlatMath.cs:21-24 | Under the root laws a length is non-negative, zero exactly for the zero vector, and squares to LengthSquared. |
| FlatMath.NormalizeIsUnit | TestingFlatPhysics/FlatPhysics/FlatMath.cs:33-37 | Under the root laws a non-zero vector normalizes to unit length: Dot(n, n) == 1. |
| FlatMath.DotWithNormalized | TestingFlatPhysics/FlatPhysics/FlatMath.cs:33-42 | A vector's dot product with its normalization is its length, so never negative. |
| FlatMath.TransformIsRigid | TestingFlatPhysics/FlatPhysics/FlatVector.cs:47-60 | With sin² + cos² = 1 the transform keeps squared distances between points. |
| FlatMath.NearlyEqualIsSymmetric | TestingFlatPhysics/FlatPhysics/Collisions.cs:108-110 | The tolerance comparison the contact scan uses is reflexive and symmetric. |
| FlatVectors.AddSubtractCancel | TestingFlatPhysics/FlatPhysics/FlatVector.cs:22-30 | (a + b) - b == a and (a - b) + b == a. |
| FlatVectors.NegateInvolution | TestingFlatPhysics/FlatPhysics/FlatVector.cs:32-35 | -(-v) == v. |
| FlatVectors.SubtractIsAddNegate | TestingFlatPhysics/FlatPhysics/FlatVector.cs:27-35 | a - b == a + (-b), and a - a == Zero. |
| FlatVectors.ScaleDivideCancel | TestingFlatPhysics/FlatPhysics/FlatVector.cs:37-45 | (v * s) / s == v for s ≠ 0. |
| FlatVectors.MakeTransform | TestingFlatPhysics/FlatPhysics/FlatBody.cs:146 | The transform holds the body's position and the sine and cosine of its angle. |
| FlatVectors.TransformWithoutRotation | TestingFlatPhysics/FlatPhysics/FlatVector.cs:57-59 | With Cos = 1 and Sin = 0, Transform is translation by (PositionX, PositionY). |
| FlatVectors.TransformDifference | TestingFlatPhysics/FlatPhysics/FlatVector.cs:57-59 | Transform(v) - Transform(w) is the rotated difference, whatever the position. |
| FlatVectors.TransformShifted | TestingFlatPhysics/FlatPhysics/FlatVector.cs:57-59 | Shifting the transform's position by an amount shifts every transformed point by that amount. |
| FlatVectors.Equals | TestingFlatPhysics/FlatPhysics/FlatVector.cs:62-65 | Equals(FlatVector) holds exactly when both components are equal. |
| FlatVectors.EqualsObject | TestingFlatPhysics/FlatPhysics/FlatVector.cs:67-75 | Equals(object) holds exactly for a boxed FlatVector equal to this one. It is false for null and for any other type. |
| FlatVectors.EqualsIsEquivalence | TestingFlatPhysics/FlatPhysics/FlatVector.cs:62-65 | Equals is reflexive and symmetric. |
| FlatAABBs.MakeAABB | TestingFlatPhysics/FlatPhysics/FlatAABB.cs:15-19 | Min is (minX, minY) and Max is (maxX, maxY). Any four values are accepted. |
| FlatAABBs.MakeAABBIsOnto | TestingFlatPhysics/FlatPhysics/FlatAABB.cs:9-19 | Every box is the constructor applied to its own corners, so nothing is lost or reordered. |
| Collisions.IntersectAABBsSymmetric | TestingFlatPhysics/FlatPhysics/Collisions.cs:16-27 | The box test does not depend on argument order. |
| Collisions.TouchingAABBsDoNotIntersect | TestingFlatPhysics/FlatPhysics/Collisions.cs:18-23 | Boxes that only share an edge (a.Max.X == b.Min.X or a.Max.Y == b.Min.Y) do not intersect. |
| Collisions.IntersectAABBsMeansSharedInterior | TestingFlatPhysics/FlatPhysics/Collisions.cs:16-27 | For proper boxes the test holds exactly when some point lies strictly inside both, i.e. both axes overlap strictly. |
| Collisions.PointSegmentDistance | TestingFlatPhysics/FlatPhysics/Collisions.cs:153-170 | The closest point lies on the segment (a + (b - a)t with 0 ≤ t ≤ 1), and distanceSquared is the squared distance from p to it. |
| Collisions.PointSegmentBranches | TestingFlatPhysics/FlatPhysics/Collisions.cs:158-167 | For a ≠ b, with d = Dot(p - a, b - a) / LengthSquared(b - a): the point is a when d < 0, b when d ≥ 1, and a + (b - a)d otherwise. |
| Collisions.ClosestPointIsNearest | TestingFlatPhysics/FlatPhysics/Collisions.cs:153-170 | No point of the segment is closer to p than the point returned. |
| Collisions.ClosestAtClippedParameter | TestingFlatPhysics/FlatPhysics/Collisions.cs:160-167 | The point returned is the segment point at the projection parameter clipped to [0, 1]. |
| Collisions.ProjectionIsTight | TestingFlatPhysics/FlatPhysics/Collisions.cs:388-401 | The projection is empty exactly for no vertices. Otherwise min ≤ Dot(v, axis) ≤ max for every vertex, and both bounds are attained. |
| Collisions.ProjectVertices | TestingFlatPhysics/FlatPhysics/Collisions.cs:388-401 | The loop computes the projection specified by Projection (see ProjectionIsTight). |
| Collisions.ProjectCircle | TestingFlatPhysics/FlatPhysics/Collisions.cs:370-386 | After the swap, min ≤ max. |
| Collisions.ProjectCircleIsCentred | TestingFlatPhysics/FlatPhysics/Collisions.cs:370-386 | Under the root laws the projection is Dot(center, axis) ± abs(radius)·Length(axis). |
| Collisions.ProjectCircleAlong | TestingFlatPhysics/FlatPhysics/Collisions.cs:370-386 | The same interval, for any axis whose normalization has the given dot product with it. |
| Collisions.Overlap | TestingFlatPhysics/FlatPhysics/Collisions.cs:246 | When the intervals overlap strictly, MathF.Min(maxB - minA, maxA - minB) is positive. |
| Collisions.AxisOverlap | TestingFlatPhysics/FlatPhysics/Collisions.cs:238-246 | What one axis says: separation (minA >= maxB or minB >= maxA), or a positive overlap. |
| Collisions.Outcomes | TestingFlatPhysics/FlatPhysics/Collisions.cs:229-253 | One outcome per axis, every reported overlap positive. |
| Collisions.OutcomeAt | TestingFlatPhysics/FlatPhysics/Collisions.cs:229-253 | Outcome k is what axis k says. |
| Collisions.OutcomesAreAxisOverlaps | TestingFlatPhysics/FlatPhysics/Collisions.cs:229-253 | Every outcome is what its own axis says. |
| Collisions.SweepFindsSmallestOverlap | TestingFlatPhysics/FlatPhysics/Collisions.cs:241-252 | The loop does not stop exactly when every axis overlaps. The depth is positive and at most float.MaxValue. Without a stop it is the smallest overlap. The normal is an axis attaining it, or Zero with float.MaxValue before any axis. |
| Collisions.SweepStopsAtFirstSeparating | TestingFlatPhysics/FlatPhysics/Collisions.cs:241-244 | A stopped loop stopped at the first separating axis. |
| Collisions.SweepStopped | TestingFlatPhysics/FlatPhysics/Collisions.cs:241-244 | After the early return, further axes change nothing. |
| Collisions.SweepIsSeparatingAxisTest | TestingFlatPhysics/FlatPhysics/Collisions.cs:229-253 | The finished sweep over given axes reports no separation exactly when every axis overlaps. The depth is positive and, without separation, at most every overlap. |
| Collisions.EdgeAxes | TestingFlatPhysics/FlatPhysics/Collisions.cs:231-236 | One axis per edge, axis i being the normalized normal of the edge from vertex i to vertex i + 1 (wrapping). |
| Collisions.EdgeAxisIsNormal | TestingFlatPhysics/FlatPhysics/Collisions.cs:231-236 | Every edge axis is perpendicular to its edge. Under the root laws it has unit length for a non-degenerate edge. |
| Collisions.Orient | TestingFlatPhysics/FlatPhysics/Collisions.cs:275-278 | The normal, or its negation, chosen so that its dot product with the centre-to-centre direction is non-negative. |
| Collisions.PolygonAxes | TestingFlatPhysics/FlatPhysics/Collisions.cs:291-341 | IntersectPolygons tests one axis per edge of A and of B. |
| Collisions.PolygonAxesAt | TestingFlatPhysics/FlatPhysics/Collisions.cs:291-341 | The first axes are A's edge normals and the rest B's, in loop order. |
| Collisions.PolygonsCollisionIsSeparatingAxisTest | TestingFlatPhysics/FlatPhysics/Collisions.cs:283-349 | The polygons collide exactly when no tested axis separates them. The depth is positive and at most the overlap along every axis. On a hit the normal points from A towards B. |
| Collisions.ProjectShapeOnto | TestingFlatPhysics/FlatPhysics/Collisions.cs:238-239 | ProjectVertices for a polygon and ProjectCircle for a circle. |
| Collisions.TestAxis | TestingFlatPhysics/FlatPhysics/Collisions.cs:238-246 | Project both shapes and compare; the result is what the axis says (AxisOverlap). |
| Collisions.SweepEdgeStep | TestingFlatPhysics/FlatPhysics/Collisions.cs:229-253 | One edge of the loop takes one sweep step on that edge's axis. |
| Collisions.SweepEdges | TestingFlatPhysics/FlatPhysics/Collisions.cs:229-253 | The edge loop continues the sweep over its edges' axes. It stops at a separating axis with the sweep's final state; otherwise it returns the sweep state after its last axis. |
| Collisions.PolygonsCollisionOf | TestingFlatPhysics/FlatPhysics/Collisions.cs:283-349 | The outcome of IntersectPolygons is the oriented result of the finished sweep. |
| Collisions.IntersectPolygons | TestingFlatPhysics/FlatPhysics/Collisions.cs:283-349 | The loops compute PolygonsCollision (see PolygonsCollisionIsSeparatingAxisTest). |
| Collisions.ClosestVertex | TestingFlatPhysics/FlatPhysics/Collisions.cs:352-368 | -1 exactly for no vertices. Otherwise the index of a vertex at minimal distance from the centre, with every earlier vertex strictly farther: the first one at the minimum. |
| Collisions.ClosestVertexStep | TestingFlatPhysics/FlatPhysics/Collisions.cs:357-365 | One more vertex becomes the closest exactly when it is strictly nearer than the closest so far (or is the first). |
| Collisions.FindClosestPointOnPolygon | TestingFlatPhysics/FlatPhysics/Collisions.cs:352-368 | The loop computes ClosestVertex. |
| Collisions.CirclePolygonCollisionIsSeparatingAxisTest | TestingFlatPhysics/FlatPhysics/Collisions.cs:221-281 | The axes are the polygon's edge normals plus the axis to its closest vertex. They collide exactly when no axis separates them. The depth is positive and at most every overlap. On a hit the normal points from the circle towards the polygon. |
| Collisions.IntersectCirclePolygon | TestingFlatPhysics/FlatPhysics/Collisions.cs:221-281 | The loop and the last axis compute CirclePolygonCollision. |
| Collisions.IntersectCircles | TestingFlatPhysics/FlatPhysics/Collisions.cs:403-423 | A hit exactly when distance < rA + rB, with depth = rA + rB - distance > 0 and the normalized centre-to-centre normal. Otherwise false, Zero and 0. |
| Collisions.CirclesOverlapWithoutRoot | TestingFlatPhysics/FlatPhysics/Collisions.cs:403-423 | Under the root laws a hit exactly when rA + rB > 0 and the squared distance is below (rA + rB)². The normal points from A to B and has unit length for distinct centres. |
| Collisions.CirclesHitWithoutRoot | TestingFlatPhysics/FlatPhysics/Collisions.cs:411-417 | The verdict compares squared quantities and needs no root. |
| Collisions.CirclesNormal | TestingFlatPhysics/FlatPhysics/Collisions.cs:419 | On a hit the normal points from A to B, with unit length for distinct centres. |
| Collisions.IntersectCirclesSymmetric | TestingFlatPhysics/FlatPhysics/Collisions.cs:403-423 | Swapping the circles keeps the verdict and depth and negates the normal. |
| Collisions.CirclesVerdictSymmetric | TestingFlatPhysics/FlatPhysics/Collisions.cs:411-417 | Swapping the circles keeps the verdict and the depth. |
| Collisions.NormalizeSwap | TestingFlatPhysics/FlatPhysics/Collisions.cs:419 | Normalize(a - b) == -Normalize(b - a). |
| Collisions.CollideBodies | TestingFlatPhysics/FlatPhysics/Collisions.cs:172-219 | A shape type outside Circle and Box gives false, Zero and 0. |
| Collisions.CollisionNormalPointsFromAToB | TestingFlatPhysics/FlatPhysics/Collisions.cs:172-219 | In all four shape cases a hit has Dot(B.Position - A.Position, normal) ≥ 0. The box-circle case gets this by negating the circle-polygon normal. |
| Collisions.Collide | TestingFlatPhysics/FlatPhysics/Collisions.cs:172-219 | Returns CollideBodies of the bodies' states. It leaves the states and bounding boxes alone, and clears the vertex-cache flag of each box it tests. |
| Collisions.CirclesContactOnCircleA | TestingFlatPhysics/FlatPhysics/Collisions.cs:65-69 | For distinct centres the contact lies on circle A, on the line through both centres, and on B's side for a non-negative radius. |
| Collisions.NearestEdge | TestingFlatPhysics/FlatPhysics/Collisions.cs:76-87 | The held edge is -1 or one of the edges tested. |
| Collisions.NearestEdgeIsFirstNearest | TestingFlatPhysics/FlatPhysics/Collisions.cs:76-87 | The scan keeps the first edge attaining the minimum distance, if that minimum is below float.MaxValue, and none otherwise. |
| Collisions.CirclePolygonContactIsNearest | TestingFlatPhysics/FlatPhysics/Collisions.cs:71-88 | No point on the polygon's boundary is nearer the centre than the contact found. |
| Collisions.NearestEdgeBelowEach | TestingFlatPhysics/FlatPhysics/Collisions.cs:76-87 | The best distance is at most every edge's distance. |
| Collisions.FindCirclePolygonContactPoint | TestingFlatPhysics/FlatPhysics/Collisions.cs:71-88 | The loop computes CirclePolygonContact. |
| Collisions.ScanKeepsInvariant | TestingFlatPhysics/FlatPhysics/Collisions.cs:106-121 | After any run of tests: at most two contacts; the minimum within tolerance of every distance seen; contact1 the point of a test at the minimum; contact2 only a point nearly at the minimum distance and not nearly equal to contact1. |
| Collisions.CandidatesEmpty | TestingFlatPhysics/FlatPhysics/Collisions.cs:98-150 | The nested loops test nothing exactly when one vertex array is empty. |
| Collisions.PolygonsContactsAreNearest | TestingFlatPhysics/FlatPhysics/Collisions.cs:90-151 | Both passes keep the scan invariant. An empty array leaves the initial state. A count of 0 means every distance is within tolerance of float.MaxValue or above it. |
| Collisions.ScanVertex | TestingFlatPhysics/FlatPhysics/Collisions.cs:101-122 | The inner loop continues the scan over one vertex's edge tests. |
| Collisions.ScanPolygon | TestingFlatPhysics/FlatPhysics/Collisions.cs:98-123 | The outer loop continues the scan over every vertex of the points against the polygon. |
| Collisions.CandidatesStep | TestingFlatPhysics/FlatPhysics/Collisions.cs:98-123 | One more vertex appends its edge tests. |
| Collisions.PrefixStep | TestingFlatPhysics/FlatPhysics/Collisions.cs:106-121 | One more test is one ConsiderContact step. |
| Collisions.FindPolygonsContactPoints | TestingFlatPhysics/FlatPhysics/Collisions.cs:90-151 | The two passes compute PolygonsContacts. |
| Collisions.BodiesContacts | TestingFlatPhysics/FlatPhysics/Collisions.cs:29-63 | An undeclared shape type gives no contact. Every pair but box-box gives exactly one contact. |
| Collisions.ContactCountInRange | TestingFlatPhysics/FlatPhysics/Collisions.cs:29-63 | The count is 0, 1 or 2. For two boxes a count of 0 means every distance is within tolerance of float.MaxValue or above it. |
| Collisions.FindContactPoints | TestingFlatPhysics/FlatPhysics/Collisions.cs:29-63 | Returns BodiesContacts of the bodies' states. It leaves the states and bounding boxes alone, and clears each used box's vertex-cache flag. |
| FlatBodies.ConstructIsWellFormed | TestingFlatPhysics/FlatPhysics/FlatBody.cs:60-95 | Every factory result becomes a well-formed body: InvMass = 1/Mass for a positive mass and 0 otherwise, and only a box keeps its vertices. |
| FlatBodies.CalculateRotationalInertia | TestingFlatPhysics/FlatPhysics/FlatBody.cs:97-111 | Fails with "Wrong ShapeType" exactly for a shape type outside Circle and Box. |
| FlatBodies.CircleInertia | TestingFlatPhysics/FlatPhysics/FlatBody.cs:101 | A zero mass gives zero inertia. |
| FlatBodies.BoxInertia | TestingFlatPhysics/FlatPhysics/FlatBody.cs:105 | A zero mass gives zero inertia. |
| FlatBodies.CreateBoxVertices | TestingFlatPhysics/FlatPhysics/FlatBody.cs:113-127 | Four corners in the order (left,top), (right,top), (right,bottom), (left,bottom). right - left = width, top - bottom = height, and the box is centred on the origin. |
| FlatBodies.CheckLimits | TestingFlatPhysics/FlatPhysics/FlatBody.cs:255-265 | Passes exactly when area and density are within bounds. The size message comes first; the density message only for a valid size. |
| FlatBodies.CircleBodyDef | TestingFlatPhysics/FlatPhysics/FlatBody.cs:248-285 | Fails with the limit message exactly when a limit is broken. On success: restitution in [0,1] (unchanged when already inside); mass = density·area for a dynamic body; mass and inertia 0 for a static one. |
| FlatBodies.BoxBodyDef | TestingFlatPhysics/FlatPhysics/FlatBody.cs:287-324 | The same for a box of area width·height with the vertices of CreateBoxVertices. |
| FlatBodies.CircleInertiaAgrees | TestingFlatPhysics/FlatPhysics/FlatBody.cs:275 | The circle factory's inertia is CalculateRotationalInertia of the body it builds. |
| FlatBodies.BoxInertiaAgrees | TestingFlatPhysics/FlatPhysics/FlatBody.cs:314 | The box factory's inertia is CalculateRotationalInertia of the body it builds. |
| FlatBodies.WorldVerticesAreRigid | TestingFlatPhysics/FlatPhysics/FlatBody.cs:142-155 | With sin² + cos² = 1 the world vertices keep the local vertices' squared distances. |
| FlatBodies.BoundsOf | TestingFlatPhysics/FlatPhysics/FlatBody.cs:166-179 | No box for no vertices. Otherwise the box holds every vertex and each of its four bounds is attained by a vertex. |
| FlatBodies.CircleBoxHoldsDisc | TestingFlatPhysics/FlatPhysics/FlatBody.cs:180-186 | A circle's box, Position ± Radius, holds every point of the disc. |
| FlatBodies.StepDisplacement | TestingFlatPhysics/FlatPhysics/FlatBody.cs:204-207 | A dynamic body moves by v·dt + g·dt², because the new velocity is used. |
| FlatBodies.MovesCompose | TestingFlatPhysics/FlatPhysics/FlatBody.cs:215-227 | Two moves are one move by the sum, and MoveTo forgets an earlier move. |
| FlatBodies.MoveTranslatesVertices | TestingFlatPhysics/FlatPhysics/FlatBody.cs:215-220 | Moving translates every world vertex by the amount. |
| FlatBodies.RotationsCompose | TestingFlatPhysics/FlatPhysics/FlatBody.cs:229-241 | Two rotations add up, and RotateTo forgets an earlier rotation. |
| FlatBodies.ForceIsReplaced | TestingFlatPhysics/FlatPhysics/FlatBody.cs:243-246 | AddForce overwrites the force rather than accumulating. |
| FlatBodies.MutatorsKeepWellFormed | TestingFlatPhysics/FlatPhysics/FlatBody.cs:199-246 | No mutator breaks what the factories guarantee. |
| FlatBodies.FlatBody.constructor | TestingFlatPhysics/FlatPhysics/FlatBody.cs:60-95 | The body is Construct(def): at rest at the origin, with both caches stale. |
| FlatBodies.FlatBody.CreateCircleBody | TestingFlatPhysics/FlatPhysics/FlatBody.cs:248-285 | ok exactly when CircleBodyDef succeeds: then a fresh valid body and an empty message; otherwise a null body and the limit message. |
| FlatBodies.FlatBody.CreateBoxBody | TestingFlatPhysics/FlatPhysics/FlatBody.cs:287-324 | ok exactly when BoxBodyDef succeeds: then a fresh valid body and an empty message; otherwise a null body and the limit message. |
| FlatBodies.FlatBody.GetTransformVertices | TestingFlatPhysics/FlatPhysics/FlatBody.cs:142-155 | Returns the cache array holding the world vertices and clears the flag. A fresh cache is left untouched, so two calls with no mutation between return the same array contents. |
| FlatBodies.FlatBody.GetAABB | TestingFlatPhysics/FlatPhysics/FlatBody.cs:157-197 | Returns the bounding box of the current state (BoundsOf the world vertices; Position ± Radius for a circle) and clears the flag. A fresh box changes nothing. |
| FlatBodies.FlatBody.Step | TestingFlatPhysics/FlatPhysics/FlatBody.cs:199-213 | A static body is unchanged. A dynamic one takes StepBody (velocity, then position, then angle over time/iterations, force reset) and both flags are set. |
| FlatBodies.FlatBody.Move | TestingFlatPhysics/FlatPhysics/FlatBody.cs:215-220 | Only the position changes, by the amount; both flags are set. |
| FlatBodies.FlatBody.MoveTo | TestingFlatPhysics/FlatPhysics/FlatBody.cs:222-227 | Only the position changes, to the argument; both flags are set. |
| FlatBodies.FlatBody.Rotate | TestingFlatPhysics/FlatPhysics/FlatBody.cs:229-234 | Only the angle changes, by the amount; both flags are set. |
| FlatBodies.FlatBody.RotateTo | TestingFlatPhysics/FlatPhysics/FlatBody.cs:236-241 | Only the angle changes, to the argument; both flags are set. |
| FlatBodies.FlatBody.AddForce | TestingFlatPhysics/FlatPhysics/FlatBody.cs:243-246 | Only the force changes, to the amount; the flags are untouched. |
| FlatBodies.FlatBody.SetLinearVelocity | TestingFlatPhysics/FlatPhysics/FlatBody.cs:54-58 | The LinearVelocity setter changes only the velocity and leaves the flags alone. |
| FlatWorlds.IndexOf | TestingFlatPhysics/FlatPhysics/FlatWorld.cs:38-41 | The first index of the body, or -1 exactly when it is absent. |
| FlatWorlds.RemoveFirstRemovesOne | TestingFlatPhysics/FlatPhysics/FlatWorld.cs:38-41 | Removing takes out exactly one copy of a present body and keeps the rest. An absent body leaves the list unchanged. |
| FlatWorlds.RemoveUndoesAdd | TestingFlatPhysics/FlatPhysics/FlatWorld.cs:33-41 | Removing a newly added body restores the list. |
| FlatWorlds.GetBodyThrowsAtCount | TestingFlatPhysics/FlatPhysics/FlatWorld.cs:47-52 | The guard as written throws for exactly one index, the count. |
| FlatWorlds.GetBodyCorrectedIsTotal | TestingFlatPhysics/FlatPhysics/FlatWorld.cs:43-54 | The corrected guard never throws, finds exactly the indices in range, and agrees with the written one elsewhere. |
| FlatWorlds.SeparationShiftsOffset | TestingFlatPhysics/FlatPhysics/FlatWorld.cs:77-89 | In every branch posB - posA grows by exactly normal·depth, only positions change, and a static body is never moved. |
| FlatWorlds.ResolveChangesOnlyVelocities | TestingFlatPhysics/FlatPhysics/FlatWorld.cs:98-114 | Only the velocities change, and nothing changes when Dot(vB - vA, normal) > 0. |
| FlatWorlds.MomentumConserved | TestingFlatPhysics/FlatPhysics/FlatWorld.cs:105-113 | The divisor is positive when not both bodies are static. Two dynamic bodies keep their total momentum, and a static body's velocity is unchanged. |
| FlatWorlds.ImpulseKeepsMomentum | TestingFlatPhysics/FlatPhysics/FlatWorld.cs:110-113 | Equal and opposite impulses: Mass_A·ΔvA + Mass_B·ΔvB = 0. |
| FlatWorlds.InverseMassSum | TestingFlatPhysics/FlatPhysics/FlatWorld.cs:108 | Two well-formed bodies that are not both static have a positive sum of inverse masses. |
| FlatWorlds.RestitutionLaw | TestingFlatPhysics/FlatPhysics/FlatWorld.cs:105-113 | With a unit normal and e = min(restitutions), the relative normal velocity after the impulse is -e times the one before. |
| FlatWorlds.PairsBounded | TestingFlatPhysics/FlatPhysics/FlatWorld.cs:65-70 | The loops only visit pairs i < j < Count. |
| FlatWorlds.PairsCover | TestingFlatPhysics/FlatPhysics/FlatWorld.cs:65-70 | The loops visit every pair i < j < Count. |
| FlatWorlds.PairsSorted | TestingFlatPhysics/FlatPhysics/FlatWorld.cs:65-70 | The loops visit the pairs in lexicographic order. |
| FlatWorlds.StepVisitsEachPairOnce | TestingFlatPhysics/FlatPhysics/FlatWorld.cs:65-70 | Every pair i < j is visited exactly once, in lexicographic order, and nothing else. |
| FlatWorlds.FoldPairsCongruent | TestingFlatPhysics/FlatPhysics/FlatWorld.cs:65-95 | Two pair steps that agree everywhere give the same loop result. |
| FlatWorlds.FoldPairsConcat | TestingFlatPhysics/FlatPhysics/FlatWorld.cs:65-95 | Running the loop over two runs of pairs is running it over the first and then the second. |
| FlatWorlds.FoldRowIsFoldPairs | TestingFlatPhysics/FlatPhysics/FlatWorld.cs:68-94 | The inner loop visits its row's pairs in order. |
| FlatWorlds.FoldRowsIsFoldPairs | TestingFlatPhysics/FlatPhysics/FlatWorld.cs:65-95 | The nested loops visit exactly the pairs of StepPairs, in order. |
| FlatWorlds.ResolvePair | TestingFlatPhysics/FlatPhysics/FlatWorld.cs:72-92 | Skipping, separating and the impulse keep both bodies well formed. |
| FlatWorlds.ResolvePairKeepsStatic | TestingFlatPhysics/FlatPhysics/FlatWorld.cs:72-92 | Whatever the collision test reports, a pair never changes a static body. |
| FlatWorlds.ResolveBodies | TestingFlatPhysics/FlatPhysics/FlatWorld.cs:72-92 | The pair step with the collision test keeps both bodies well formed. |
| FlatWorlds.PairResolutionIsPairResolver | TestingFlatPhysics/FlatPhysics/FlatWorld.cs:72-92 | The world's pair step agrees with ResolveBodies on well-formed bodies. |
| FlatWorlds.CollisionStep | TestingFlatPhysics/FlatPhysics/FlatWorld.cs:67-93 | A pair step changes no body other than the two of the pair. |
| FlatWorlds.CollisionStepKeepsWellFormed | TestingFlatPhysics/FlatPhysics/FlatWorld.cs:67-93 | A pair step keeps every body well formed. |
| FlatWorlds.CollidePairsKeepsWellFormed | TestingFlatPhysics/FlatPhysics/FlatWorld.cs:65-95 | The collision loops keep the number of bodies and their well-formedness. |
| FlatWorlds.CollidePairsIsDetermined | TestingFlatPhysics/FlatPhysics/FlatWorld.cs:65-95 | Any two pair steps that agree with ResolveBodies give the same collision loops. |
| FlatWorlds.StepAll | TestingFlatPhysics/FlatPhysics/FlatWorld.cs:59-62 | The movement loop keeps the number of bodies. |
| FlatWorlds.StepAllKeepsWellFormed | TestingFlatPhysics/FlatPhysics/FlatWorld.cs:59-62 | The movement loop keeps every body well formed. |
| FlatWorlds.RowsMakeWorldStep | TestingFlatPhysics/FlatPhysics/FlatWorld.cs:56-96 | The movement loop followed by the two nested collision loops is WorldStep. |
| FlatWorlds.WorldStepKeepsWellFormed | TestingFlatPhysics/FlatPhysics/FlatWorld.cs:56-96 | A world step keeps every body and its well-formedness. |
| FlatWorlds.CollidePairsKeepsStatic | TestingFlatPhysics/FlatPhysics/FlatWorld.cs:65-95 | The collision loops never change a static body. |
| FlatWorlds.StaticBodiesStayPut | TestingFlatPhysics/FlatPhysics/FlatWorld.cs:56-96 | A static body ends a world step exactly as it started. |
| FlatWorlds.FlatWorld.constructor | TestingFlatPhysics/FlatPhysics/FlatWorld.cs:28-31 | An empty list and gravity (0, -9.81). |
| FlatWorlds.FlatWorld.BodyCount | TestingFlatPhysics/FlatPhysics/FlatWorld.cs:23-26 | The length of the list. |
| FlatWorlds.FlatWorld.AddBody | TestingFlatPhysics/FlatPhysics/FlatWorld.cs:33-36 | Appends the body at the end. The world invariant is kept when the body is valid, and distinctness when the body is new and shares no vertex cache. |
| FlatWorlds.FlatWorld.RemoveBody | TestingFlatPhysics/FlatPhysics/FlatWorld.cs:38-41 | Answers whether the body was present and removes its first occurrence, keeping the others in order. The world invariant and distinctness are kept. |
| FlatWorlds.FlatWorld.GetBody | TestingFlatPhysics/FlatPhysics/FlatWorld.cs:43-54 | With the corrected guard: ok exactly for an index in range, with the body at that index, and null otherwise. |
| FlatWorlds.FlatWorld.StepBodies | TestingFlatPhysics/FlatPhysics/FlatWorld.cs:59-62 | Every body takes its one-iteration step (StepAll). |
| FlatWorlds.FlatWorld.ResolveCollision | TestingFlatPhysics/FlatPhysics/FlatWorld.cs:98-114 | The two bodies' new states are ResolveVelocities of the old ones (see MomentumConserved and RestitutionLaw). |
| FlatWorlds.FlatWorld.SeparateBodies | TestingFlatPhysics/FlatPhysics/FlatWorld.cs:77-89 | The two bodies' new states are Separate of the old ones (see SeparationShiftsOffset). |
| FlatWorlds.FlatWorld.SolveBodies | TestingFlatPhysics/FlatPhysics/FlatWorld.cs:72-92 | The two bodies' new states are ResolveBodies of the old ones. |
| FlatWorlds.FlatWorld.SolvePair | TestingFlatPhysics/FlatPhysics/FlatWorld.cs:67-93 | The list's new states are the pair step on the old ones; every other body is untouched. |
| FlatWorlds.FlatWorld.CollideRow | TestingFlatPhysics/FlatPhysics/FlatWorld.cs:68-94 | The inner loop runs the pair step over row i. |
| FlatWorlds.FlatWorld.CollideAll | TestingFlatPhysics/FlatPhysics/FlatWorld.cs:65-95 | The outer loop runs every row, Count - 1 of them. |
| FlatWorlds.FlatWorld.Step | TestingFlatPhysics/FlatPhysics/FlatWorld.cs:56-96 | The new states are WorldStep of the old ones (see StepVisitsEachPairOnce, StaticBodiesStayPut and WorldStepKeepsWellFormed). |

## Findings

| source | as written | input that shows it | evidently intended | confidence | as-written member | corrected member |
|---|---|---|---|---|---|---|
| TestingFlatPhysics/FlatPhysics/FlatWorld.cs:47 | `index > bodyList.Count` lets index == Count past the guard, and the list indexer then throws | a world with no bodies and index 0 | `index >= bodyList.Count`, returning false for every index out of range | high (not executed) | FlatWorlds.GetBodyThrowsAtCount | FlatWorlds.GetBodyCorrectedIsTotal |

The world's `GetBody` method (`FlatWorlds.FlatWorld.GetBody`) uses the corrected guard. `FlatWorlds.GetBodyAsWritten` keeps the written one.

## Left out

- Floating point: rounding, overflow, infinities and NaN are not modelled; `float` is `real`.
- MathF.Sqrt, MathF.Sin and MathF.Cos: uninterpreted. MathF.PI is the literal 3.14159265. A property that needs the root or the Pythagorean identity takes `SqrtLaws` or `TrigLaws` as a hypothesis.
- FlatMath.Normalize: the zero vector, whose single-precision result is NaN, normalizes to Zero. The same applies to IntersectCircles and FindCirclesContactPoint with coincident centres.
- Collisions.PointSegmentDistance: a degenerate segment (a == b) divides 0 by 0 in the source and gives NaN. The model takes the parameter 0 and so returns a.
- Sentinels: the float.MaxValue and float.MinValue sentinels of ProjectVertices become an empty projection (None), which separates like the sentinels do. The running minima of the separating-axis, circle-polygon contact and polygon contact loops keep float.MaxValue as a real constant.
- Collisions.FindClosestPointOnPolygon: the running minimum starts from "none yet" (None) rather than float.MaxValue. Over the reals the first vertex is always taken, so the result is -1 only for an empty array. In the source a non-empty array whose every distance is at least float.MaxValue (an overflow to infinity) also leaves -1, and IntersectCirclePolygon then indexes the array at -1. The model does not capture that case.
- Collisions.ContactCountInRange: states that a box-box count of 0 means every distance is within tolerance of float.MaxValue or above it. It does not state that a count of 0 requires an empty vertex array: over the reals a distance can be that large.
- Collisions.IntersectCirclePolygon: requires a non-empty vertex array. With none, the source indexes the array at -1 and throws.
- FlatBodies.FlatBody.GetTransformVertices: requires a box. On a circle the source dereferences a null array.
- FlatBodies.FlatBody.GetAABB: the "Unknown ShapeType." exception is unreachable. A valid body is a circle or a box, so the model does not state it.
- Helper methods: the model factors some loop bodies and branches into methods, each proved against the same specification function. They are Collisions.TestAxis, Collisions.SweepEdges, Collisions.ScanVertex, Collisions.ScanPolygon and Collisions.ProjectShapeOnto, and the FlatWorld methods SolveBodies, SeparateBodies, SolvePair, CollideRow, CollideAll and StepBodies.
- FlatWorlds.FlatWorld.Step: `FlatWorld.Step` calls `FlatBody.Step(time, gravity)`, but the body method also takes `iterations`. The model passes iterations = 1 explicitly.
- FlatWorld.cs:110-113 multiplies a scalar by a vector (`j * normal`, `InvMass * impuls`). FlatVector defines only vector-times-scalar, so the model uses that product.
- FlatWorlds.FlatWorld.Step: requires that no body is listed twice and that no two bodies share a vertex cache. The aliasing of one body listed twice is not modelled.
- FlatWorlds.FlatWorld.ResolveCollision: requires two distinct bodies. It also requires a non-zero sum of inverse masses when the bodies approach; two static bodies divide by zero in the source, and `Step` never makes that call.
- FlatWorlds.CollisionStep: applies the pair step only when both states are well formed. That is always the case in a valid world (WorldStepKeepsWellFormed).
- `FlatWorld.Step` calls the instance method `FlatWorld.Collide` (FlatWorld.cs:75, defined at 116-163), which is token for token the same as `Collisions.Collide`. The model substitutes `Collisions.Collide` for it and models it once.
- The commented-out blocks of FlatWorld.cs and FlatBody.cs are not modelled.
- FlatBody's getters and the `Position` and `Angle` properties are the class's fields. `GetHashCode` and `ToString` are not modelled.
- Game1.cs, FlatEntity.cs and FlatConverter.cs are not part of this model: they are drawing, input and conversion code for the MonoGame host.
- Physical behaviour over many frames (settling, tunnelling, stability) depends on float dynamics and is not stated.
