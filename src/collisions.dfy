/** Collisions: the narrow-phase tests of the kernel. Boxes are tested with
    the separating-axis theorem over the edge normals of their world vertices;
    a circle against a box adds the axis towards the polygon's closest vertex;
    two circles compare their centre distance with their radii. The contact
    point helpers pick the nearest segment points with a running minimum.

    The vertex arrays are only read here, so they are sequences; the float
    sentinels of the running minima and of the projections (float.MaxValue,
    float.MinValue) are an Option that is None until the first value. */
module Collisions {
  import opened Wrappers
  import opened MathF
  import opened FlatVectors
  import opened FlatMath
  import opened FlatAABBs
  import opened FlatBodies

  // ---------------------------------------------------------------- AABBs

  /** Collisions.IntersectAABBs: false as soon as the boxes are apart, or
      only touching, along one axis. */
  function IntersectAABBs(a: FlatAABB, b: FlatAABB): bool
  {
    !(a.Max.X <= b.Min.X || b.Max.X <= a.Min.X || a.Max.Y <= b.Min.Y || b.Max.Y <= a.Min.Y)
  }

  /** The open interior of a box. */
  predicate StrictlyInside(p: FlatVector, box: FlatAABB)
  {
    box.Min.X < p.X < box.Max.X && box.Min.Y < p.Y < box.Max.Y
  }

  lemma IntersectAABBsSymmetric(a: FlatAABB, b: FlatAABB)
    ensures IntersectAABBs(a, b) == IntersectAABBs(b, a)
  {
  }

  /** Boxes that only share an edge do not intersect. */
  lemma TouchingAABBsDoNotIntersect(a: FlatAABB, b: FlatAABB)
    requires a.Max.X == b.Min.X || a.Max.Y == b.Min.Y
    ensures !IntersectAABBs(a, b)
  {
  }

  /** For boxes with an interior, the test says exactly whether some point
      lies strictly inside both. */
  lemma IntersectAABBsMeansSharedInterior(a: FlatAABB, b: FlatAABB)
    requires a.Min.X < a.Max.X && a.Min.Y < a.Max.Y
    requires b.Min.X < b.Max.X && b.Min.Y < b.Max.Y
    ensures IntersectAABBs(a, b) <==> exists p :: StrictlyInside(p, a) && StrictlyInside(p, b)
  {
    if IntersectAABBs(a, b) {
      var lowX := if a.Min.X < b.Min.X then b.Min.X else a.Min.X;
      var highX := if a.Max.X < b.Max.X then a.Max.X else b.Max.X;
      var lowY := if a.Min.Y < b.Min.Y then b.Min.Y else a.Min.Y;
      var highY := if a.Max.Y < b.Max.Y then a.Max.Y else b.Max.Y;
      var p := FlatVector((lowX + highX) / 2.0, (lowY + highY) / 2.0);
      assert StrictlyInside(p, a) && StrictlyInside(p, b);
    }
  }

  // ------------------------------------------------------- point to segment

  /** The result of PointSegmentDistance, its two out-parameters. */
  datatype SegmentPoint = SegmentPoint(distanceSquared: real, closestPoint: FlatVector)

  /** The point a + (b - a) * t. */
  function PointOnSegment(a: FlatVector, b: FlatVector, t: real): FlatVector
  {
    Add(a, Scale(Subtract(b, a), t))
  }

  /** The parameter d of PointSegmentDistance, the projection of p - a onto
      b - a in units of |b - a|^2; taken as 0 when a == b, where the source
      divides zero by zero. */
  function SegmentParameter(p: FlatVector, a: FlatVector, b: FlatVector): real
  {
    var ab := Subtract(b, a);
    var abLenSq := LengthSquared(ab);
    if abLenSq == 0.0 then 0.0 else Dot(Subtract(p, a), ab) / abLenSq
  }

  /** Collisions.PointSegmentDistance: the point of segment ab nearest to p
      and the squared distance to it. */
  function PointSegmentDistance(p: FlatVector, a: FlatVector, b: FlatVector): (r: SegmentPoint)
    ensures r.distanceSquared == DistanceSquared(p, r.closestPoint)
    ensures exists t :: 0.0 <= t <= 1.0 && r.closestPoint == PointOnSegment(a, b, t)
  {
    var d := SegmentParameter(p, a, b);
    var closestPoint := if d < 0.0 then a else if d >= 1.0 then b else PointOnSegment(a, b, d);
    assert PointOnSegment(a, b, 0.0) == a && PointOnSegment(a, b, 1.0) == b;
    SegmentPoint(DistanceSquared(p, closestPoint), closestPoint)
  }

  /** On a proper segment the three branches: below the segment the point is
      a, beyond it b, in between the projection itself. */
  lemma PointSegmentBranches(p: FlatVector, a: FlatVector, b: FlatVector)
    requires a != b
    ensures LengthSquared(Subtract(b, a)) > 0.0
    ensures var d := Dot(Subtract(p, a), Subtract(b, a)) / LengthSquared(Subtract(b, a));
      var c := PointSegmentDistance(p, a, b).closestPoint;
      && (d < 0.0 ==> c == a)
      && (d >= 1.0 ==> c == b)
      && (0.0 <= d < 1.0 ==> c == PointOnSegment(a, b, d))
  {
    var w := Subtract(b, a);
    assert w != Zero by {
      assert a.X != b.X || a.Y != b.Y;
    }
    LengthSquaredIsSumOfSquares(w);
    var d := Dot(Subtract(p, a), w) / LengthSquared(w);
    assert SegmentParameter(p, a, b) == d;
    var c := PointSegmentDistance(p, a, b).closestPoint;
    if d < 0.0 {
      assert c == a;
    } else if d >= 1.0 {
      assert c == b;
    } else {
      assert c == PointOnSegment(a, b, d);
    }
  }

  /** The point found is nearest to p among all points of the segment. */
  lemma ClosestPointIsNearest(p: FlatVector, a: FlatVector, b: FlatVector, t: real)
    requires 0.0 <= t <= 1.0
    ensures PointSegmentDistance(p, a, b).distanceSquared <= DistanceSquared(p, PointOnSegment(a, b, t))
  {
    var d := SegmentParameter(p, a, b);
    var u, w := Subtract(p, a), Subtract(b, a);
    SegmentParameterScales(p, a, b);
    ClosestAtClippedParameter(p, a, b);
    DistanceAlong(p, a, b, t);
    DistanceAlong(p, a, b, ClipUnit(d));
    NearestOnParabola(LengthSquared(u), Dot(u, w), LengthSquared(w), d, t);
  }

  /** The parameter clipped to the segment, [0, 1]. */
  function ClipUnit(d: real): real
  {
    if d < 0.0 then 0.0 else if d >= 1.0 then 1.0 else d
  }

  lemma ClosestAtClippedParameter(p: FlatVector, a: FlatVector, b: FlatVector)
    ensures PointSegmentDistance(p, a, b).closestPoint == PointOnSegment(a, b, ClipUnit(SegmentParameter(p, a, b)))
  {
    assert PointOnSegment(a, b, 0.0) == a && PointOnSegment(a, b, 1.0) == b;
  }

  /** (p - a) . (b - a) is the parameter times |b - a|^2. */
  lemma SegmentParameterScales(p: FlatVector, a: FlatVector, b: FlatVector)
    ensures var u, w := Subtract(p, a), Subtract(b, a);
      && LengthSquared(w) >= 0.0
      && (LengthSquared(w) == 0.0 ==> Dot(u, w) == 0.0 && SegmentParameter(p, a, b) == 0.0)
      && (LengthSquared(w) != 0.0 ==> Dot(u, w) == SegmentParameter(p, a, b) * LengthSquared(w))
  {
    var u, w := Subtract(p, a), Subtract(b, a);
    LengthSquaredIsSumOfSquares(w);
    if LengthSquared(w) == 0.0 {
      DotWithZero(u, w);
    } else {
      QuotientTimes(Dot(u, w), LengthSquared(w));
    }
  }

  lemma DotWithZero(u: FlatVector, w: FlatVector)
    requires w == Zero
    ensures Dot(u, w) == 0.0
  {
  }

  lemma QuotientTimes(x: real, d: real)
    requires d != 0.0
    ensures x / d * d == x
  {
  }

  /** Over t in [0, 1] the quadratic U - 2tP + t^2 L with P = dL (and P = 0
      when L = 0) is smallest at d clipped to [0, 1]. */
  lemma NearestOnParabola(U: real, P: real, L: real, d: real, t: real)
    requires 0.0 <= t <= 1.0 && L >= 0.0
    requires L == 0.0 ==> P == 0.0 && d == 0.0
    requires L != 0.0 ==> P == d * L
    ensures Quadratic(U, P, L, ClipUnit(d)) <= Quadratic(U, P, L, t)
  {
    if L == 0.0 {
      FlatQuadratic(U, P, t);
    } else if d < 0.0 {
      ProductPositive(-d, L);
      LowEnd(U, P, L, t);
    } else if d >= 1.0 {
      ProductNonNegative(d - 1.0, L);
      HighEnd(U, P, L, t);
    } else {
      Interior(U, L, d, t);
    }
  }

  /** |u - w t|^2 = |u|^2 - 2 t (u . w) + t^2 |w|^2 with u = p - a, w = b - a. */
  function Quadratic(U: real, P: real, L: real, t: real): real
  {
    U - 2.0 * t * P + Sq(t) * L
  }

  lemma DistanceAlong(p: FlatVector, a: FlatVector, b: FlatVector, t: real)
    ensures DistanceSquared(p, PointOnSegment(a, b, t))
         == Quadratic(LengthSquared(Subtract(p, a)), Dot(Subtract(p, a), Subtract(b, a)), LengthSquared(Subtract(b, a)), t)
  {
    var u, w := Subtract(p, a), Subtract(b, a);
    assert Subtract(p, PointOnSegment(a, b, t)) == FlatVector(u.X - w.X * t, u.Y - w.Y * t);
    Expansion(u.X, u.Y, w.X, w.Y, t);
  }

  lemma Expansion(x: real, y: real, s: real, r: real, t: real)
    ensures (x - s * t) * (x - s * t) + (y - r * t) * (y - r * t)
         == (x * x + y * y) - 2.0 * t * (x * s + y * r) + Sq(t) * (s * s + r * r)
  {
  }

  lemma FlatQuadratic(U: real, P: real, t: real)
    requires P == 0.0
    ensures Quadratic(U, P, 0.0, t) == Quadratic(U, P, 0.0, 0.0)
  {
  }

  lemma LowEnd(U: real, P: real, L: real, t: real)
    requires L >= 0.0 && P < 0.0 && t >= 0.0
    ensures Quadratic(U, P, L, 0.0) <= Quadratic(U, P, L, t)
  {
    assert Quadratic(U, P, L, t) - Quadratic(U, P, L, 0.0) == t * (t * L - 2.0 * P);
    ProductNonNegative(t, L);
    ProductNonNegative(t, t * L - 2.0 * P);
  }

  lemma HighEnd(U: real, P: real, L: real, t: real)
    requires L >= 0.0 && P >= L && 0.0 <= t <= 1.0
    ensures Quadratic(U, P, L, 1.0) <= Quadratic(U, P, L, t)
  {
    assert Quadratic(U, P, L, t) - Quadratic(U, P, L, 1.0) == (1.0 - t) * (2.0 * P - (1.0 + t) * L);
    ProductNonNegative(1.0 - t, L);
    assert 2.0 * P - (1.0 + t) * L == 2.0 * (P - L) + (1.0 - t) * L;
    ProductNonNegative(1.0 - t, 2.0 * P - (1.0 + t) * L);
  }

  lemma Interior(U: real, L: real, d: real, t: real)
    requires L >= 0.0
    ensures Quadratic(U, d * L, L, d) <= Quadratic(U, d * L, L, t)
  {
    assert Quadratic(U, d * L, L, t) - Quadratic(U, d * L, L, d) == L * Sq(t - d);
    SquareNonNegative(t - d);
    ProductNonNegative(L, Sq(t - d));
  }

  // ------------------------------------------------------------ projections

  /** A projection onto an axis. */
  datatype Interval = Interval(min: real, max: real)

  /** One iteration of ProjectVertices' loop: two independent comparisons
      widen the running interval, which starts empty. */
  function Cover(iv: Option<Interval>, x: real): Interval
  {
    match iv
    case None => Interval(x, x)
    case Some(i) => Interval(if x < i.min then x else i.min, if x > i.max then x else i.max)
  }

  /** The projection of the vertices onto the axis, covering each vertex's
      dot product with the axis in turn; None when there is no vertex. */
  function Projection(vertices: seq<FlatVector>, axis: FlatVector): Option<Interval>
  {
    if |vertices| == 0 then None
    else Some(Cover(Projection(vertices[..|vertices| - 1], axis), Dot(vertices[|vertices| - 1], axis)))
  }

  /** The projection is the smallest interval holding every vertex's dot
      product with the axis: it holds them all and both ends are attained. */
  lemma {:induction false} ProjectionIsTight(vertices: seq<FlatVector>, axis: FlatVector)
    ensures var r := Projection(vertices, axis);
      && (r.None? <==> |vertices| == 0)
      && (r.Some? ==> forall i :: 0 <= i < |vertices| ==> r.value.min <= Dot(vertices[i], axis) <= r.value.max)
      && (r.Some? ==> exists i :: 0 <= i < |vertices| && Dot(vertices[i], axis) == r.value.min)
      && (r.Some? ==> exists i :: 0 <= i < |vertices| && Dot(vertices[i], axis) == r.value.max)
  {
    if |vertices| > 0 {
      var prefix := vertices[..|vertices| - 1];
      ProjectionIsTight(prefix, axis);
      assert forall i :: 0 <= i < |prefix| ==> prefix[i] == vertices[i];
    }
  }

  /** Collisions.ProjectVertices. */
  method ProjectVertices(vertices: seq<FlatVector>, axis: FlatVector) returns (r: Option<Interval>)
    ensures r == Projection(vertices, axis)
  {
    r := None;
    for i := 0 to |vertices|
      invariant r == Projection(vertices[..i], axis)
    {
      assert vertices[..i + 1][..i] == vertices[..i];
      var projection := Dot(vertices[i], axis);
      r := Some(Cover(r, projection));
    }
    assert vertices[..|vertices|] == vertices;
  }

  /** Collisions.ProjectCircle: the dot products of the two points one
      radius from the centre along the normalized axis, in order. */
  function ProjectCircle(center: FlatVector, radius: real, axis: FlatVector): (r: Interval)
    ensures r.min <= r.max
  {
    var radiusDirection := Scale(Normalize(axis), radius);
    var p1 := Add(center, radiusDirection);
    var p2 := Subtract(center, radiusDirection);
    var min := Dot(p1, axis);
    var max := Dot(p2, axis);
    if min > max then Interval(max, min) else Interval(min, max)
  }

  /** The circle projects to its centre's projection widened by the radius
      times the axis length on both sides. */
  lemma ProjectCircleIsCentred(center: FlatVector, radius: real, axis: FlatVector)
    requires SqrtLaws()
    ensures var c, w := Dot(center, axis), Abs(radius) * Length(axis);
            ProjectCircle(center, radius, axis) == Interval(c - w, c + w)
  {
    DotWithNormalized(axis);
    DotSymmetric(axis, Normalize(axis));
    LengthSign(axis);
    ProjectCircleAlong(center, radius, axis, Length(axis));
  }

  /** The same with the length of the axis abstracted to `l`, the dot
      product of the axis with its own direction. */
  lemma ProjectCircleAlong(center: FlatVector, radius: real, axis: FlatVector, l: real)
    requires Dot(Normalize(axis), axis) == l && l >= 0.0
    ensures var c, w := Dot(center, axis), Abs(radius) * l;
            ProjectCircle(center, radius, axis) == Interval(c - w, c + w)
  {
    var direction := Scale(Normalize(axis), radius);
    DotOfScaled(Normalize(axis), radius, axis);
    DotOfSum(center, direction, axis);
    OrderedAround(Dot(center, axis), radius, l);
  }

  lemma DotOfScaled(v: FlatVector, s: real, w: FlatVector)
    ensures Dot(Scale(v, s), w) == s * Dot(v, w)
  {
  }

  lemma DotOfSum(a: FlatVector, b: FlatVector, w: FlatVector)
    ensures Dot(Add(a, b), w) == Dot(a, w) + Dot(b, w)
    ensures Dot(Subtract(a, b), w) == Dot(a, w) - Dot(b, w)
  {
  }

  /** c + r*l and c - r*l, put in order, lie |r|*l either side of c. */
  lemma OrderedAround(c: real, r: real, l: real)
    requires l >= 0.0
    ensures var lo, hi := c + r * l, c - r * l;
            (if lo > hi then Interval(hi, lo) else Interval(lo, hi)) == Interval(c - Abs(r) * l, c + Abs(r) * l)
  {
    if r >= 0.0 {
      ProductNonNegative(r, l);
    } else {
      ProductNonNegative(-r, l);
    }
  }

  // ------------------------------------------------------- separating axes

  /** The early exit of both separating-axis loops, minA >= maxB or
      minB >= maxA. An empty vertex array projects to the sentinels and so
      always separates. */
  predicate Separated(a: Option<Interval>, b: Option<Interval>)
  {
    a.None? || b.None? || a.value.min >= b.value.max || b.value.min >= a.value.max
  }

  /** MathF.Min(maxB - minA, maxA - minB): how far the two projections
      overlap. */
  function Overlap(a: Interval, b: Interval): (r: real)
    ensures a.min < b.max && b.min < a.max ==> r > 0.0
  {
    Min(b.max - a.min, a.max - b.min)
  }

  /** The two kinds of shape the tests project. */
  datatype Shape = Polygon(vertices: seq<FlatVector>) | Disc(center: FlatVector, radius: real)

  function ProjectShape(s: Shape, axis: FlatVector): Option<Interval>
  {
    match s
    case Polygon(vertices) => Projection(vertices, axis)
    case Disc(center, radius) => Some(ProjectCircle(center, radius, axis))
  }

  /** What one axis says about two shapes: None when it separates them,
      otherwise their (positive) overlap along it. */
  function AxisOverlap(a: Shape, b: Shape, axis: FlatVector): (r: Option<real>)
    ensures r.Some? ==> r.value > 0.0
  {
    var pa, pb := ProjectShape(a, axis), ProjectShape(b, axis);
    if Separated(pa, pb) then None else Some(Overlap(pa.value, pb.value))
  }

  /** What every axis says, in order. */
  function Outcomes(a: Shape, b: Shape, axes: seq<FlatVector>): (r: seq<Option<real>>)
    ensures |r| == |axes|
    ensures Positive(r)
  {
    if |axes| == 0 then []
    else Outcomes(a, b, axes[..|axes| - 1]) + [AxisOverlap(a, b, axes[|axes| - 1])]
  }

  lemma {:induction false} OutcomeAt(a: Shape, b: Shape, axes: seq<FlatVector>, k: int)
    requires 0 <= k < |axes|
    ensures Outcomes(a, b, axes)[k] == AxisOverlap(a, b, axes[k])
  {
    var n := |axes| - 1;
    if k < n {
      OutcomeAt(a, b, axes[..n], k);
    }
  }

  /** Every outcome is what its own axis says. */
  lemma OutcomesAreAxisOverlaps(a: Shape, b: Shape, axes: seq<FlatVector>)
    ensures forall k :: 0 <= k < |axes| ==> Outcomes(a, b, axes)[k] == AxisOverlap(a, b, axes[k])
  {
    forall k | 0 <= k < |axes|
      ensures Outcomes(a, b, axes)[k] == AxisOverlap(a, b, axes[k])
    {
      OutcomeAt(a, b, axes, k);
    }
  }

  /** Every overlap reported is positive. */
  predicate Positive(outcomes: seq<Option<real>>)
  {
    forall k :: 0 <= k < |outcomes| && outcomes[k].Some? ==> outcomes[k].value > 0.0
  }

  /** The locals of a separating-axis loop: whether it has returned, and the
      best (smallest) overlap so far with its axis. */
  datatype SatState = SatState(separated: bool, normal: FlatVector, depth: real)

  /** normal = Zero and depth = float.MaxValue before the first axis. */
  const SatStart: SatState := SatState(false, Zero, FloatMaxValue)

  /** One axis of the loop: stop on a separating axis, keeping the best so
      far; otherwise keep the axis if its overlap is strictly smaller. */
  function SatStep(s: SatState, axis: FlatVector, outcome: Option<real>): SatState
  {
    if s.separated then s
    else match outcome
      case None => s.(separated := true)
      case Some(overlap) => if overlap < s.depth then SatState(false, axis, overlap) else s
  }

  /** Axis k separates the shapes and no earlier axis does. */
  predicate FirstSeparating(outcomes: seq<Option<real>>, k: int)
  {
    0 <= k < |outcomes| && outcomes[k].None? &&
    forall j :: 0 <= j < k ==> outcomes[j].Some?
  }

  /** The separating-axis loop over the first n axes and what each of them
      says. */
  function Sweep(axes: seq<FlatVector>, outcomes: seq<Option<real>>, n: nat): SatState
    requires n <= |axes| == |outcomes|
  {
    if n == 0 then SatStart
    else SatStep(Sweep(axes, outcomes, n - 1), axes[n - 1], outcomes[n - 1])
  }

  /** The loop stops exactly when some axis separates; if none does, the
      depth is the smallest overlap (or float.MaxValue before any axis), and
      the normal is an axis attaining it. */
  lemma {:induction false} SweepFindsSmallestOverlap(axes: seq<FlatVector>, outcomes: seq<Option<real>>, n: nat)
    requires n <= |axes| == |outcomes| && Positive(outcomes)
    ensures var r := Sweep(axes, outcomes, n);
      && (!r.separated <==> forall k :: 0 <= k < n ==> outcomes[k].Some?)
      && 0.0 < r.depth <= FloatMaxValue
      && (!r.separated ==> forall k :: 0 <= k < n ==> r.depth <= outcomes[k].value)
      && ((r.normal == Zero && r.depth == FloatMaxValue) ||
          exists k :: 0 <= k < n && r.normal == axes[k] && outcomes[k] == Some(r.depth))
  {
    if n > 0 {
      SweepFindsSmallestOverlap(axes, outcomes, n - 1);
    }
  }

  /** A stopped loop stopped at the first separating axis. */
  lemma {:induction false} SweepStopsAtFirstSeparating(axes: seq<FlatVector>, outcomes: seq<Option<real>>, n: nat)
    requires n <= |axes| == |outcomes| && Positive(outcomes)
    ensures Sweep(axes, outcomes, n).separated ==> exists k :: k < n && FirstSeparating(outcomes, k)
  {
    if n > 0 {
      SweepStopsAtFirstSeparating(axes, outcomes, n - 1);
      SweepFindsSmallestOverlap(axes, outcomes, n - 1);
      if !Sweep(axes, outcomes, n - 1).separated && Sweep(axes, outcomes, n).separated {
        assert FirstSeparating(outcomes, n - 1);
      }
    }
  }

  /** Once the loop has stopped, further axes change nothing. */
  lemma {:induction false} SweepStopped(axes: seq<FlatVector>, outcomes: seq<Option<real>>, n: nat, m: nat)
    requires n <= m <= |axes| == |outcomes|
    requires Sweep(axes, outcomes, n).separated
    ensures Sweep(axes, outcomes, m) == Sweep(axes, outcomes, n)
    decreases m
  {
    if n < m {
      SweepStopped(axes, outcomes, n, m - 1);
    }
  }

  /** The full sweep over the outcomes of the given axes: no separation
      exactly when every axis overlaps, and then the depth bounds every
      overlap from below. */
  lemma SweepIsSeparatingAxisTest(a: Shape, b: Shape, axes: seq<FlatVector>)
    ensures var r := Sweep(axes, Outcomes(a, b, axes), |axes|);
      && (!r.separated <==> forall k :: 0 <= k < |axes| ==> AxisOverlap(a, b, axes[k]).Some?)
      && 0.0 < r.depth
      && (!r.separated ==> forall k :: 0 <= k < |axes| ==> r.depth <= AxisOverlap(a, b, axes[k]).value)
  {
    SweepFindsSmallestOverlap(axes, Outcomes(a, b, axes), |axes|);
    OutcomesAreAxisOverlaps(a, b, axes);
  }

  /** The normal of every edge of a polygon, edge i running from vertex i to
      vertex i + 1 (wrapping), normalized. */
  function EdgeAxis(vertices: seq<FlatVector>, i: int): FlatVector
    requires 0 <= i < |vertices|
  {
    var edge := Subtract(vertices[(i + 1) % |vertices|], vertices[i]);
    Normalize(FlatVector(-edge.Y, edge.X))
  }

  function EdgeAxes(vertices: seq<FlatVector>): (r: seq<FlatVector>)
    ensures |r| == |vertices|
    ensures forall i :: 0 <= i < |vertices| ==> r[i] == EdgeAxis(vertices, i)
  {
    seq(|vertices|, i requires 0 <= i < |vertices| => EdgeAxis(vertices, i))
  }

  /** An edge axis is perpendicular to its edge, and of unit length when the
      edge is not degenerate. */
  lemma EdgeAxisIsNormal(vertices: seq<FlatVector>, i: int)
    requires 0 <= i < |vertices|
    ensures var edge := Subtract(vertices[(i + 1) % |vertices|], vertices[i]);
      && Dot(EdgeAxis(vertices, i), edge) == 0.0
      && (SqrtLaws() && edge != Zero ==> LengthSquared(EdgeAxis(vertices, i)) == 1.0)
  {
    var edge := Subtract(vertices[(i + 1) % |vertices|], vertices[i]);
    var perpendicular := FlatVector(-edge.Y, edge.X);
    var length := Length(perpendicular);
    if length != 0.0 {
      PerpendicularQuotient(edge.X, edge.Y, length);
    }
    if SqrtLaws() && edge != Zero {
      NormalizeIsUnit(perpendicular);
    }
  }

  lemma PerpendicularQuotient(x: real, y: real, length: real)
    requires length != 0.0
    ensures (-y / length) * x + (x / length) * y == 0.0
  {
    var qx, qy := x / length, y / length;
    assert x == qx * length;
    assert y == qy * length;
    assert -y / length == -qy;
  }

  /** The result of a collision test: whether the shapes overlap, the normal
      and the depth. */
  datatype CollisionResult = CollisionResult(hit: bool, normal: FlatVector, depth: real)

  /** The orientation step at the end of both tests: flip the normal if it
      points against the direction between the centres. */
  function Orient(normal: FlatVector, direction: FlatVector): (r: FlatVector)
    ensures Dot(direction, r) >= 0.0
    ensures r == normal || r == Negate(normal)
  {
    if Dot(direction, normal) < 0.0 then Negate(normal) else normal
  }

  /** What a test returns for a finished loop: false with the best normal and
      depth found so far, or true with the oriented normal. */
  function SatResult(s: SatState, direction: FlatVector): CollisionResult
  {
    if s.separated then CollisionResult(false, s.normal, s.depth)
    else CollisionResult(true, Orient(s.normal, direction), s.depth)
  }

  /** The axes IntersectPolygons tests: the edge normals of A, then of B. */
  function PolygonAxes(verticesA: seq<FlatVector>, verticesB: seq<FlatVector>): (r: seq<FlatVector>)
    ensures |r| == |verticesA| + |verticesB|
  {
    EdgeAxes(verticesA) + EdgeAxes(verticesB)
  }

  /** The first axes are A's edge normals, the rest B's. */
  lemma PolygonAxesAt(verticesA: seq<FlatVector>, verticesB: seq<FlatVector>)
    ensures var axes := PolygonAxes(verticesA, verticesB);
      && axes[0..|verticesA|] == EdgeAxes(verticesA)
      && axes[|verticesA|..|axes|] == EdgeAxes(verticesB)
  {
  }

  /** The outcome of IntersectPolygons. */
  function PolygonsCollision(centerA: FlatVector, verticesA: seq<FlatVector>,
                             centerB: FlatVector, verticesB: seq<FlatVector>): CollisionResult
  {
    var axes := PolygonAxes(verticesA, verticesB);
    SatResult(Sweep(axes, Outcomes(Polygon(verticesA), Polygon(verticesB), axes), |axes|), Subtract(centerB, centerA))
  }

  /** The polygons collide exactly when no tested axis separates them; the
      depth is positive and at most the overlap along every axis, and the
      normal points from A towards B. */
  lemma PolygonsCollisionIsSeparatingAxisTest(centerA: FlatVector, verticesA: seq<FlatVector>,
                                              centerB: FlatVector, verticesB: seq<FlatVector>)
    ensures var r, axes := PolygonsCollision(centerA, verticesA, centerB, verticesB), PolygonAxes(verticesA, verticesB);
      var a, b := Polygon(verticesA), Polygon(verticesB);
      && (r.hit <==> forall k :: 0 <= k < |axes| ==> AxisOverlap(a, b, axes[k]).Some?)
      && 0.0 < r.depth
      && (r.hit ==> forall k :: 0 <= k < |axes| ==> r.depth <= AxisOverlap(a, b, axes[k]).value)
      && (r.hit ==> Dot(Subtract(centerB, centerA), r.normal) >= 0.0)
  {
    var axes := PolygonAxes(verticesA, verticesB);
    SweepIsSeparatingAxisTest(Polygon(verticesA), Polygon(verticesB), axes);
  }

  /** ProjectVertices for a polygon and ProjectCircle for a circle. */
  method ProjectShapeOnto(s: Shape, axis: FlatVector) returns (r: Option<Interval>)
    ensures r == ProjectShape(s, axis)
  {
    match s
    case Polygon(vertices) =>
      r := ProjectVertices(vertices, axis);
    case Disc(center, radius) =>
      r := Some(ProjectCircle(center, radius, axis));
  }

  /** The body of every separating-axis loop for one axis: project both
      shapes, report a separation, otherwise the overlap. */
  method TestAxis(a: Shape, b: Shape, axis: FlatVector) returns (outcome: Option<real>)
    ensures outcome == AxisOverlap(a, b, axis)
  {
    var projectionA := ProjectShapeOnto(a, axis);
    var projectionB := ProjectShapeOnto(b, axis);
    if Separated(projectionA, projectionB) {
      return None;
    }
    outcome := Some(Overlap(projectionA.value, projectionB.value));
  }

  /** One edge of SweepEdges: axis offset + i is the normal of edge i, and
      the sweep takes one step on what that axis says. */
  lemma SweepEdgeStep(a: Shape, b: Shape, edges: seq<FlatVector>, axes: seq<FlatVector>,
                      outcomes: seq<Option<real>>, offset: nat, end: nat, i: nat)
    requires end == offset + |edges| <= |axes| == |outcomes|
    requires axes[offset..end] == EdgeAxes(edges)
    requires forall k :: offset <= k < end ==> outcomes[k] == AxisOverlap(a, b, axes[k])
    requires i < |edges|
    ensures Sweep(axes, outcomes, offset + i + 1)
         == SatStep(Sweep(axes, outcomes, offset + i), EdgeAxis(edges, i), AxisOverlap(a, b, EdgeAxis(edges, i)))
  {
    assert axes[offset + i] == axes[offset..end][i];
  }

  /** The edge loop of IntersectPolygons (run once over the edges of A and
      once over those of B) and of IntersectCirclePolygon: every edge normal
      of `edges` is projected on, stopping at the first that separates a from
      b and otherwise keeping the smallest overlap. The axes tested are
      axes[offset..end], continuing the sweep of the axes before them, and
      outcomes[k] is what axis k says. */
  method SweepEdges(a: Shape, b: Shape, edges: seq<FlatVector>, ghost axes: seq<FlatVector>,
                    ghost outcomes: seq<Option<real>>, ghost offset: nat, ghost end: nat,
                    normal0: FlatVector, depth0: real)
    returns (separated: bool, normal: FlatVector, depth: real)
    requires end == offset + |edges| <= |axes| == |outcomes|
    requires axes[offset..end] == EdgeAxes(edges)
    requires forall k :: offset <= k < end ==> outcomes[k] == AxisOverlap(a, b, axes[k])
    requires Sweep(axes, outcomes, offset) == SatState(false, normal0, depth0)
    ensures separated ==> Sweep(axes, outcomes, |axes|) == SatState(true, normal, depth)
    ensures !separated ==> Sweep(axes, outcomes, end) == SatState(false, normal, depth)
  {
    normal, depth := normal0, depth0;
    for i := 0 to |edges|
      invariant Sweep(axes, outcomes, offset + i) == SatState(false, normal, depth)
    {
      var va := edges[i];
      var vb := edges[(i + 1) % |edges|];
      var edge := Subtract(vb, va);
      var axis := Normalize(FlatVector(-edge.Y, edge.X));
      assert axis == EdgeAxis(edges, i);
      SweepEdgeStep(a, b, edges, axes, outcomes, offset, end, i);
      var outcome := TestAxis(a, b, axis);
      if outcome.None? {
        SweepStopped(axes, outcomes, offset + i + 1, |axes|);
        return true, normal, depth;
      }
      var axisDepth := outcome.value;
      if axisDepth < depth {
        depth := axisDepth;
        normal := axis;
      }
    }
    separated := false;
  }

  /** PolygonsCollision in terms of the finished sweep. */
  lemma PolygonsCollisionOf(centerA: FlatVector, verticesA: seq<FlatVector>,
                            centerB: FlatVector, verticesB: seq<FlatVector>, s: SatState)
    requires var axes := PolygonAxes(verticesA, verticesB);
      Sweep(axes, Outcomes(Polygon(verticesA), Polygon(verticesB), axes), |axes|) == s
    ensures PolygonsCollision(centerA, verticesA, centerB, verticesB) == SatResult(s, Subtract(centerB, centerA))
  {
  }

  /** Collisions.IntersectPolygons. */
  method IntersectPolygons(centerA: FlatVector, verticesA: seq<FlatVector>,
                           centerB: FlatVector, verticesB: seq<FlatVector>)
    returns (hit: bool, normal: FlatVector, depth: real)
    ensures CollisionResult(hit, normal, depth) == PolygonsCollision(centerA, verticesA, centerB, verticesB)
  {
    var a, b := Polygon(verticesA), Polygon(verticesB);
    ghost var axes := PolygonAxes(verticesA, verticesB);
    ghost var outcomes := Outcomes(a, b, axes);
    PolygonAxesAt(verticesA, verticesB);
    OutcomesAreAxisOverlaps(a, b, axes);
    var separated;
    separated, normal, depth := SweepEdges(a, b, verticesA, axes, outcomes, 0, |verticesA|, Zero, FloatMaxValue);
    if separated {
      PolygonsCollisionOf(centerA, verticesA, centerB, verticesB, SatState(true, normal, depth));
      return false, normal, depth;
    }
    separated, normal, depth := SweepEdges(a, b, verticesB, axes, outcomes, |verticesA|, |axes|, normal, depth);
    if separated {
      PolygonsCollisionOf(centerA, verticesA, centerB, verticesB, SatState(true, normal, depth));
      return false, normal, depth;
    }
    PolygonsCollisionOf(centerA, verticesA, centerB, verticesB, SatState(false, normal, depth));

    var direction := Subtract(centerB, centerA);
    if Dot(direction, normal) < 0.0 {
      normal := Negate(normal);
    }
    hit := true;
  }

  /** The specification of FindClosestPointOnPolygon: the first index of a
      vertex nearest to the centre, or -1 when there is none. */
  function ClosestVertex(center: FlatVector, vertices: seq<FlatVector>): (r: int)
    ensures r == -1 <==> |vertices| == 0
    ensures |vertices| > 0 ==> 0 <= r < |vertices|
    ensures |vertices| > 0 ==> forall k :: 0 <= k < |vertices| ==>
              Distance(vertices[r], center) <= Distance(vertices[k], center)
    ensures |vertices| > 0 ==> forall k :: 0 <= k < r ==>
              Distance(vertices[k], center) > Distance(vertices[r], center)
  {
    if |vertices| == 0 then -1
    else
      var prefix := vertices[..|vertices| - 1];
      assert forall i :: 0 <= i < |prefix| ==> prefix[i] == vertices[i];
      var best := ClosestVertex(center, prefix);
      var last := |vertices| - 1;
      if best == -1 || Distance(vertices[last], center) < Distance(vertices[best], center) then last else best
  }

  /** One more vertex: it becomes the closest exactly when it is strictly
      nearer than the closest of the vertices before it. */
  lemma ClosestVertexStep(center: FlatVector, vertices: seq<FlatVector>, i: nat)
    requires i < |vertices|
    ensures var best := ClosestVertex(center, vertices[..i]);
      ClosestVertex(center, vertices[..i + 1])
      == if best == -1 || Distance(vertices[i], center) < Distance(vertices[best], center) then i else best
  {
    assert vertices[..i + 1][..i] == vertices[..i];
  }

  /** Collisions.FindClosestPointOnPolygon. */
  method FindClosestPointOnPolygon(circleCenter: FlatVector, vertices: seq<FlatVector>) returns (result: int)
    ensures result == ClosestVertex(circleCenter, vertices)
  {
    result := -1;
    var minDistance: Option<real> := None;
    for i := 0 to |vertices|
      invariant result == ClosestVertex(circleCenter, vertices[..i])
      invariant minDistance.None? <==> result == -1
      invariant minDistance.Some? ==> 0 <= result < i && minDistance.value == Distance(vertices[result], circleCenter)
    {
      ClosestVertexStep(circleCenter, vertices, i);
      var distance := Distance(vertices[i], circleCenter);
      if minDistance.None? || distance < minDistance.value {
        minDistance := Some(distance);
        result := i;
      }
    }
    assert vertices[..|vertices|] == vertices;
  }

  /** The axes IntersectCirclePolygon tests: the edge normals of the polygon,
      then the axis from the circle's centre to the polygon's closest vertex. */
  function CirclePolygonAxes(circleCenter: FlatVector, vertices: seq<FlatVector>): seq<FlatVector>
    requires |vertices| > 0
  {
    var cp := vertices[ClosestVertex(circleCenter, vertices)];
    EdgeAxes(vertices) + [Normalize(Subtract(cp, circleCenter))]
  }

  /** The outcome of IntersectCirclePolygon; the polygon is shape A of the
      projections and the circle shape B. */
  function CirclePolygonCollision(circleCenter: FlatVector, circleRadius: real,
                                  polygonCenter: FlatVector, vertices: seq<FlatVector>): CollisionResult
    requires |vertices| > 0
  {
    var axes := CirclePolygonAxes(circleCenter, vertices);
    SatResult(Sweep(axes, Outcomes(Polygon(vertices), Disc(circleCenter, circleRadius), axes), |axes|),
              Subtract(polygonCenter, circleCenter))
  }

  /** The circle and polygon collide exactly when no tested axis separates
      them; the depth is positive and at most the overlap along every axis,
      and the normal points from the circle towards the polygon. */
  lemma CirclePolygonCollisionIsSeparatingAxisTest(circleCenter: FlatVector, circleRadius: real,
                                                   polygonCenter: FlatVector, vertices: seq<FlatVector>)
    requires |vertices| > 0
    ensures var r := CirclePolygonCollision(circleCenter, circleRadius, polygonCenter, vertices);
      var axes := CirclePolygonAxes(circleCenter, vertices);
      var a, b := Polygon(vertices), Disc(circleCenter, circleRadius);
      && (r.hit <==> forall k :: 0 <= k < |axes| ==> AxisOverlap(a, b, axes[k]).Some?)
      && 0.0 < r.depth
      && (r.hit ==> forall k :: 0 <= k < |axes| ==> r.depth <= AxisOverlap(a, b, axes[k]).value)
      && (r.hit ==> Dot(Subtract(polygonCenter, circleCenter), r.normal) >= 0.0)
  {
    var axes := CirclePolygonAxes(circleCenter, vertices);
    SweepIsSeparatingAxisTest(Polygon(vertices), Disc(circleCenter, circleRadius), axes);
  }

  /** Collisions.IntersectCirclePolygon. An empty vertex array makes the
      source index the array at -1 and throw, so it is excluded. */
  method IntersectCirclePolygon(circleCenter: FlatVector, circleRadius: real,
                                polygonCenter: FlatVector, vertices: seq<FlatVector>)
    returns (hit: bool, normal: FlatVector, depth: real)
    requires |vertices| > 0
    ensures CollisionResult(hit, normal, depth)
         == CirclePolygonCollision(circleCenter, circleRadius, polygonCenter, vertices)
  {
    var a, b := Polygon(vertices), Disc(circleCenter, circleRadius);
    ghost var axes := CirclePolygonAxes(circleCenter, vertices);
    ghost var outcomes := Outcomes(a, b, axes);
    assert axes[0..|vertices|] == EdgeAxes(vertices);
    OutcomesAreAxisOverlaps(a, b, axes);
    var separated;
    separated, normal, depth := SweepEdges(a, b, vertices, axes, outcomes, 0, |vertices|, Zero, FloatMaxValue);
    if separated {
      return false, normal, depth;
    }

    var cpIndex := FindClosestPointOnPolygon(circleCenter, vertices);
    var cp := vertices[cpIndex];
    var axis := Normalize(Subtract(cp, circleCenter));
    assert axis == axes[|vertices|];
    var projectionA := ProjectVertices(vertices, axis);
    var projectionB := ProjectCircle(circleCenter, circleRadius, axis);
    if Separated(projectionA, Some(projectionB)) {
      return false, normal, depth;
    }
    var axisDepth := Overlap(projectionA.value, projectionB);
    if axisDepth < depth {
      depth := axisDepth;
      normal := axis;
    }

    var direction := Subtract(polygonCenter, circleCenter);
    if Dot(direction, normal) < 0.0 {
      normal := Negate(normal);
    }
    hit := true;
  }

  // ---------------------------------------------------------------- circles

  /** Collisions.IntersectCircles. */
  function IntersectCircles(centerA: FlatVector, radiusA: real, centerB: FlatVector, radiusB: real): (r: CollisionResult)
    ensures r.hit <==> Distance(centerA, centerB) < radiusA + radiusB
    ensures r.hit ==> r.depth > 0.0 && r.depth == radiusA + radiusB - Distance(centerA, centerB)
    ensures r.hit ==> r.normal == Normalize(Subtract(centerB, centerA))
    ensures !r.hit ==> r == CollisionResult(false, Zero, 0.0)
  {
    var distance := Distance(centerA, centerB);
    var radii := radiusA + radiusB;
    if distance >= radii then CollisionResult(false, Zero, 0.0)
    else CollisionResult(true, Normalize(Subtract(centerB, centerA)), radii - distance)
  }

  /** Two circles touch exactly when the squared distance of their centres is
      below the squared sum of the radii, and then the normal points from A
      to B and has unit length when the centres differ. */
  lemma CirclesOverlapWithoutRoot(centerA: FlatVector, radiusA: real, centerB: FlatVector, radiusB: real)
    requires SqrtLaws()
    ensures var r := IntersectCircles(centerA, radiusA, centerB, radiusB);
      && (r.hit <==> radiusA + radiusB > 0.0 && DistanceSquared(centerA, centerB) < Sq(radiusA + radiusB))
      && (r.hit ==> Dot(Subtract(centerB, centerA), r.normal) >= 0.0)
      && (r.hit && centerA != centerB ==> LengthSquared(r.normal) == 1.0)
  {
    CirclesHitWithoutRoot(centerA, radiusA, centerB, radiusB);
    CirclesNormal(centerA, radiusA, centerB, radiusB);
  }

  lemma CirclesHitWithoutRoot(centerA: FlatVector, radiusA: real, centerB: FlatVector, radiusB: real)
    requires SqrtLaws()
    ensures IntersectCircles(centerA, radiusA, centerB, radiusB).hit
        <==> radiusA + radiusB > 0.0 && DistanceSquared(centerA, centerB) < Sq(radiusA + radiusB)
  {
    DistanceIsRoot(centerA, centerB);
    LengthSquaredIsSumOfSquares(Subtract(centerA, centerB));
    SqrtBelow(DistanceSquared(centerA, centerB), radiusA + radiusB);
  }

  lemma CirclesNormal(centerA: FlatVector, radiusA: real, centerB: FlatVector, radiusB: real)
    requires SqrtLaws()
    ensures var r := IntersectCircles(centerA, radiusA, centerB, radiusB);
      && (r.hit ==> Dot(Subtract(centerB, centerA), r.normal) >= 0.0)
      && (r.hit && centerA != centerB ==> LengthSquared(r.normal) == 1.0)
  {
    var v := Subtract(centerB, centerA);
    if centerA != centerB {
      DistinctPointsApart(centerA, centerB);
      NormalizeIsUnit(v);
    }
    DotWithNormalized(v);
  }

  lemma DistinctPointsApart(a: FlatVector, b: FlatVector)
    requires a != b
    ensures Subtract(b, a) != Zero
  {
    assert a.X != b.X || a.Y != b.Y;
  }

  /** The test does not depend on the order of the circles; only the normal
      turns round. */
  lemma IntersectCirclesSymmetric(centerA: FlatVector, radiusA: real, centerB: FlatVector, radiusB: real)
    ensures var r, s := IntersectCircles(centerA, radiusA, centerB, radiusB), IntersectCircles(centerB, radiusB, centerA, radiusA);
      r.hit == s.hit && r.depth == s.depth && (r.hit ==> s.normal == Negate(r.normal))
  {
    CirclesVerdictSymmetric(centerA, radiusA, centerB, radiusB);
    NormalizeSwap(centerA, centerB);
  }

  lemma CirclesVerdictSymmetric(centerA: FlatVector, radiusA: real, centerB: FlatVector, radiusB: real)
    ensures var r, s := IntersectCircles(centerA, radiusA, centerB, radiusB), IntersectCircles(centerB, radiusB, centerA, radiusA);
      r.hit == s.hit && r.depth == s.depth
  {
    DistanceSymmetric(centerA, centerB);
  }

  /** The unit vector from B to A is the reverse of the one from A to B. */
  lemma NormalizeSwap(a: FlatVector, b: FlatVector)
    ensures Normalize(Subtract(a, b)) == Negate(Normalize(Subtract(b, a)))
  {
    SubtractSwap(a, b);
    NormalizeNegate(Subtract(b, a));
  }

  lemma SubtractSwap(a: FlatVector, b: FlatVector)
    ensures Subtract(a, b) == Negate(Subtract(b, a))
  {
  }

  lemma NormalizeNegate(v: FlatVector)
    ensures Normalize(Negate(v)) == Negate(Normalize(v))
  {
    LengthNegate(v);
    var length := Length(v);
    if length == 0.0 {
      NormalizeByLength(v);
      NormalizeByLength(Negate(v));
      NegateOfZero(Normalize(v));
    } else {
      NormalizeByLength(v);
      NormalizeByLength(Negate(v));
      DivideNegate(v, length);
    }
  }

  lemma LengthNegate(v: FlatVector)
    ensures Length(Negate(v)) == Length(v)
  {
    LengthIsDistanceFromZero(v);
    DistanceSymmetric(v, Zero);
    assert Subtract(Zero, v) == Negate(v);
  }

  lemma NegateOfZero(n: FlatVector)
    requires n == Zero
    ensures Negate(n) == n
  {
  }

  lemma NormalizeByLength(v: FlatVector)
    ensures Length(v) == 0.0 ==> Normalize(v) == Zero
    ensures Length(v) != 0.0 ==> Normalize(v) == Divide(v, Length(v))
  {
  }

  lemma DivideNegate(v: FlatVector, d: real)
    requires d != 0.0
    ensures Divide(Negate(v), d) == Negate(Divide(v, d))
  {
    NegateQuotient(v.X, d);
    NegateQuotient(v.Y, d);
  }

  lemma NegateQuotient(x: real, d: real)
    requires d != 0.0
    ensures -x / d == -(x / d)
  {
    var q := x / d;
    assert x == q * d;
    assert -x == (-q) * d;
  }

  // --------------------------------------------------------------- dispatch

  /** Collisions.Collide on the bodies' states. A box is tested through its
      world vertices; for a box against a circle the circle-polygon test runs
      with the circle first and its normal is negated. Shape types other
      than the two declared ones fall through to no collision. */
  function CollideBodies(a: Body, b: Body): (r: CollisionResult)
    requires a.shapeType.Box? && b.shapeType.Circle? ==> |a.vertices| > 0
    requires a.shapeType.Circle? && b.shapeType.Box? ==> |b.vertices| > 0
    ensures a.shapeType.Other? || b.shapeType.Other? ==> r == CollisionResult(false, Zero, 0.0)
  {
    match (a.shapeType, b.shapeType)
    case (Box, Box) =>
      PolygonsCollision(a.position, WorldVertices(a), b.position, WorldVertices(b))
    case (Box, Circle) =>
      var r := CirclePolygonCollision(b.position, b.radius, a.position, WorldVertices(a));
      r.(normal := Negate(r.normal))
    case (Circle, Box) =>
      CirclePolygonCollision(a.position, a.radius, b.position, WorldVertices(b))
    case (Circle, Circle) =>
      IntersectCircles(a.position, a.radius, b.position, b.radius)
    case _ => CollisionResult(false, Zero, 0.0)
  }

  /** Every reported normal points from A towards B (for two circles this
      needs the square-root laws). */
  lemma CollisionNormalPointsFromAToB(a: Body, b: Body)
    requires SqrtLaws()
    requires a.shapeType.Box? && b.shapeType.Circle? ==> |a.vertices| > 0
    requires a.shapeType.Circle? && b.shapeType.Box? ==> |b.vertices| > 0
    ensures CollideBodies(a, b).hit ==> Dot(Subtract(b.position, a.position), CollideBodies(a, b).normal) >= 0.0
  {
    var r := CollideBodies(a, b);
    if a.shapeType.Box? && b.shapeType.Box? {
      assert r == PolygonsCollision(a.position, WorldVertices(a), b.position, WorldVertices(b));
    } else if a.shapeType.Box? && b.shapeType.Circle? {
      var c := CirclePolygonCollision(b.position, b.radius, a.position, WorldVertices(a));
      assert r == c.(normal := Negate(c.normal));
      DotReversed(a.position, b.position, c.normal);
    } else if a.shapeType.Circle? && b.shapeType.Box? {
      assert r == CirclePolygonCollision(a.position, a.radius, b.position, WorldVertices(b));
    } else if a.shapeType.Circle? && b.shapeType.Circle? {
      assert r == IntersectCircles(a.position, a.radius, b.position, b.radius);
      CirclesOverlapWithoutRoot(a.position, a.radius, b.position, b.radius);
    }
  }

  /** Reversing both the offset and the normal leaves their dot product. */
  lemma DotReversed(p: FlatVector, q: FlatVector, n: FlatVector)
    ensures Dot(Subtract(q, p), Negate(n)) == Dot(Subtract(p, q), n)
  {
  }

  /** Collisions.Collide: refreshes the vertex cache of each box it tests and
      reports the collision of the two bodies as they stand. */
  method Collide(bodyA: FlatBody, bodyB: FlatBody) returns (hit: bool, normal: FlatVector, depth: real)
    requires bodyA.Valid() && bodyB.Valid()
    requires bodyA != bodyB && bodyA.transformedVertices != null ==> bodyA.transformedVertices != bodyB.transformedVertices
    modifies bodyA, bodyA.transformedVertices, bodyB, bodyB.transformedVertices
    ensures bodyA.Valid() && bodyB.Valid()
    ensures bodyA.State() == old(bodyA.State()) && bodyB.State() == old(bodyB.State())
    ensures CollisionResult(hit, normal, depth) == CollideBodies(bodyA.State(), bodyB.State())
    ensures bodyA.aabbUpdateRequired == old(bodyA.aabbUpdateRequired) && bodyA.aabb == old(bodyA.aabb)
    ensures bodyB.aabbUpdateRequired == old(bodyB.aabbUpdateRequired) && bodyB.aabb == old(bodyB.aabb)
    ensures bodyA.transformUpdateRequired == (old(bodyA.transformUpdateRequired) && !bodyA.ShapeType.Box?)
    ensures bodyB.transformUpdateRequired == (old(bodyB.transformUpdateRequired) && !bodyB.ShapeType.Box?)
  {
    if bodyA.ShapeType.Box? {
      if bodyB.ShapeType.Box? {
        var verticesA := bodyA.GetTransformVertices();
        var verticesB := bodyB.GetTransformVertices();
        hit, normal, depth := IntersectPolygons(bodyA.position, verticesA[..], bodyB.position, verticesB[..]);
      } else {
        var vertices := bodyA.GetTransformVertices();
        hit, normal, depth := IntersectCirclePolygon(bodyB.position, bodyB.Radius, bodyA.position, vertices[..]);
        normal := Negate(normal);
      }
    } else {
      if bodyB.ShapeType.Box? {
        var vertices := bodyB.GetTransformVertices();
        hit, normal, depth := IntersectCirclePolygon(bodyA.position, bodyA.Radius, bodyB.position, vertices[..]);
      } else {
        var r := IntersectCircles(bodyA.position, bodyA.Radius, bodyB.position, bodyB.Radius);
        hit, normal, depth := r.hit, r.normal, r.depth;
      }
    }
  }

  // --------------------------------------------------------- contact points

  /** Collisions.FindCirclesContactPoint: the point of circle A on the ray
      from its centre towards B's centre. B's radius plays no part. */
  function CirclesContactPoint(centerA: FlatVector, radiusA: real, centerB: FlatVector, radiusB: real): FlatVector
  {
    Add(Scale(Normalize(Subtract(centerB, centerA)), radiusA), centerA)
  }

  /** For distinct centres the contact point lies on circle A, on the line
      through both centres, and (for a non-negative radius) on B's side. */
  lemma CirclesContactOnCircleA(centerA: FlatVector, radiusA: real, centerB: FlatVector, radiusB: real)
    requires SqrtLaws() && centerA != centerB
    ensures var c, v := CirclesContactPoint(centerA, radiusA, centerB, radiusB), Subtract(centerB, centerA);
      && DistanceSquared(c, centerA) == Sq(radiusA)
      && Cross(Subtract(c, centerA), v) == 0.0
      && (radiusA >= 0.0 ==> Dot(Subtract(c, centerA), v) >= 0.0)
  {
    var v := Subtract(centerB, centerA);
    var n := Normalize(v);
    DistinctPointsApart(centerA, centerB);
    NormalizeIsUnit(v);
    AddSubtractCancel(Scale(n, radiusA), centerA);
    ScaledLengthSquared(n, radiusA);
    LengthSign(v);
    NormalizeByLength(v);
    CrossOfDirection(v, Length(v), radiusA);
    DotWithNormalized(v);
    DotSymmetric(v, n);
    DotOfScaled(n, radiusA, v);
    if radiusA >= 0.0 {
      ProductNonNegative(radiusA, Length(v));
    }
  }

  lemma ScaledLengthSquared(v: FlatVector, s: real)
    ensures LengthSquared(Scale(v, s)) == Sq(s) * LengthSquared(v)
  {
  }

  /** A multiple of v / l is parallel to v. */
  lemma CrossOfDirection(v: FlatVector, l: real, s: real)
    requires l != 0.0
    ensures Cross(Scale(Divide(v, l), s), v) == 0.0
  {
    var qx, qy := v.X / l, v.Y / l;
    assert v.X == qx * l && v.Y == qy * l;
    assert Cross(Scale(Divide(v, l), s), v) == (qx * s) * (qy * l) - (qy * s) * (qx * l);
  }

  /** The closest point of the polygon's edge i, from vertex i to the next
      one (wrapping round), to p. */
  function EdgePoint(p: FlatVector, vertices: seq<FlatVector>, i: int): SegmentPoint
    requires 0 <= i < |vertices|
  {
    PointSegmentDistance(p, vertices[i], vertices[(i + 1) % |vertices|])
  }

  /** The tests of one vertex against every edge of a polygon, in edge order. */
  function EdgeCandidates(p: FlatVector, polygon: seq<FlatVector>): seq<SegmentPoint>
  {
    seq(|polygon|, j requires 0 <= j < |polygon| => EdgePoint(p, polygon, j))
  }

  /** The edge FindCirclePolygonContactPoint holds after the first n edge
      tests, or -1 for none: its running minimum starts at float.MaxValue and
      takes a test only when it is strictly closer. */
  function NearestEdge(edges: seq<SegmentPoint>, n: nat): (r: int)
    requires n <= |edges|
    ensures -1 <= r < n
  {
    if n == 0 then -1
    else
      var k := NearestEdge(edges, n - 1);
      if edges[n - 1].distanceSquared < BestDistance(edges, k) then n - 1 else k
  }

  /** The running minimum for a held edge k, float.MaxValue for none. */
  function BestDistance(edges: seq<SegmentPoint>, k: int): real
  {
    if 0 <= k < |edges| then edges[k].distanceSquared else FloatMaxValue
  }

  /** Test k is the first of the first n at the smallest distance. */
  predicate FirstNearestEdge(edges: seq<SegmentPoint>, n: nat, k: int)
    requires n <= |edges|
  {
    && 0 <= k < n
    && (forall j :: 0 <= j < n ==> edges[k].distanceSquared <= edges[j].distanceSquared)
    && (forall j :: 0 <= j < k ==> edges[j].distanceSquared > edges[k].distanceSquared)
  }

  /** The scan holds the first edge that attains the minimum, provided that
      minimum is below float.MaxValue, and no edge otherwise. */
  lemma {:induction false} NearestEdgeIsFirstNearest(edges: seq<SegmentPoint>, n: nat)
    requires n <= |edges|
    ensures var k := NearestEdge(edges, n);
      && (k == -1 ==> forall j :: 0 <= j < n ==> edges[j].distanceSquared >= FloatMaxValue)
      && (k != -1 ==> FirstNearestEdge(edges, n, k) && edges[k].distanceSquared < FloatMaxValue)
  {
    if n > 0 {
      NearestEdgeIsFirstNearest(edges, n - 1);
    }
  }

  /** The contact point of FindCirclePolygonContactPoint: the closest point
      of the edge held at the end, or the zero vector. */
  function CirclePolygonContact(center: FlatVector, vertices: seq<FlatVector>): FlatVector
  {
    var edges := EdgeCandidates(center, vertices);
    var k := NearestEdge(edges, |edges|);
    if k == -1 then Zero else edges[k].closestPoint
  }

  /** Every point of the polygon's boundary is at least as far from the
      circle's centre as the edge the contact point comes from. */
  lemma CirclePolygonContactIsNearest(center: FlatVector, vertices: seq<FlatVector>, i: int, t: real)
    requires 0 <= i < |vertices| && 0.0 <= t <= 1.0
    ensures var edges := EdgeCandidates(center, vertices);
      BestDistance(edges, NearestEdge(edges, |edges|))
         <= DistanceSquared(center, PointOnSegment(vertices[i], vertices[(i + 1) % |vertices|], t))
  {
    NearestEdgeBelowEach(center, vertices, i);
    ClosestPointIsNearest(center, vertices[i], vertices[(i + 1) % |vertices|], t);
  }

  lemma NearestEdgeBelowEach(p: FlatVector, vertices: seq<FlatVector>, i: int)
    requires 0 <= i < |vertices|
    ensures var edges := EdgeCandidates(p, vertices);
      BestDistance(edges, NearestEdge(edges, |edges|)) <= EdgePoint(p, vertices, i).distanceSquared
  {
    var edges := EdgeCandidates(p, vertices);
    NearestEdgeIsFirstNearest(edges, |edges|);
    assert edges[i] == EdgePoint(p, vertices, i);
  }

  /** Collisions.FindCirclePolygonContactPoint. The circle's radius and the
      polygon's centre are passed but not used. */
  method FindCirclePolygonContactPoint(circleCenter: FlatVector, circleRadius: real,
                                       polygonCenter: FlatVector, vertices: seq<FlatVector>)
    returns (contactPoint: FlatVector)
    ensures contactPoint == CirclePolygonContact(circleCenter, vertices)
  {
    ghost var edges := EdgeCandidates(circleCenter, vertices);
    ghost var k := -1;
    contactPoint := Zero;
    var minDistanceSquared := FloatMaxValue;
    for i := 0 to |vertices|
      invariant k == NearestEdge(edges, i)
      invariant minDistanceSquared == BestDistance(edges, k)
      invariant k == -1 ==> contactPoint == Zero
      invariant k != -1 ==> 0 <= k < i && contactPoint == edges[k].closestPoint
    {
      var va := vertices[i];
      var vb := vertices[(i + 1) % |vertices|];
      var r := PointSegmentDistance(circleCenter, va, vb);
      assert r == edges[i];
      if r.distanceSquared < minDistanceSquared {
        minDistanceSquared := r.distanceSquared;
        contactPoint := r.closestPoint;
        k := i;
      }
    }
  }

  /** The locals of FindPolygonsContactPoints between two tests. */
  datatype ContactScan = ContactScan(minDistanceSquared: real, contact1: FlatVector, contact2: FlatVector, count: int)

  const ContactStart: ContactScan := ContactScan(FloatMaxValue, Zero, Zero, 0)

  /** One test of a vertex against an edge: a distance within tolerance of
      the minimum adds a second contact unless its point is within tolerance
      of the first; a distance strictly smaller and outside the tolerance
      starts over with one contact. */
  function ConsiderContact(s: ContactScan, c: SegmentPoint): ContactScan
  {
    if NearlyEqual(c.distanceSquared, s.minDistanceSquared) then
      if !NearlyEqualVectors(c.closestPoint, s.contact1) then s.(contact2 := c.closestPoint, count := 2) else s
    else if c.distanceSquared < s.minDistanceSquared then
      s.(minDistanceSquared := c.distanceSquared, contact1 := c.closestPoint, count := 1)
    else s
  }

  /** ConsiderContact over a list of tests, in order. */
  function Scan(candidates: seq<SegmentPoint>): ContactScan
  {
    if |candidates| == 0 then ContactStart
    else ConsiderContact(Scan(candidates[..|candidates| - 1]), candidates[|candidates| - 1])
  }

  /** The tests of every vertex of `points` against every edge of `polygon`,
      in the order of the nested loops. */
  function Candidates(points: seq<FlatVector>, polygon: seq<FlatVector>): seq<SegmentPoint>
  {
    if |points| == 0 then []
    else Candidates(points[..|points| - 1], polygon) + EdgeCandidates(points[|points| - 1], polygon)
  }

  /** Both passes of FindPolygonsContactPoints: A's vertices against B's
      edges, then B's vertices against A's edges. */
  function PolygonsContacts(verticesA: seq<FlatVector>, verticesB: seq<FlatVector>): ContactScan
  {
    Scan(Candidates(verticesA, verticesB) + Candidates(verticesB, verticesA))
  }

  /** What the scan knows after a list of tests: at most two contacts; the
      minimum is within the tolerance of every distance seen; the first
      contact is the point of a test at that minimum unless no test has gone
      below float.MaxValue; a second contact is the point of a test within
      tolerance of the minimum and not within tolerance of the first. */
  ghost predicate ContactInvariant(s: ContactScan, candidates: seq<SegmentPoint>)
  {
    && 0 <= s.count <= 2
    && s.minDistanceSquared <= FloatMaxValue
    && (forall k :: 0 <= k < |candidates| ==> s.minDistanceSquared < candidates[k].distanceSquared + Epsilon)
    && (s.minDistanceSquared == FloatMaxValue ==> s.contact1 == Zero && s.count != 1)
    && (s.minDistanceSquared < FloatMaxValue ==>
          s.count >= 1 && exists k :: 0 <= k < |candidates| && candidates[k] == SegmentPoint(s.minDistanceSquared, s.contact1))
    && (s.count == 2 ==> SecondContact(s, candidates))
  }

  ghost predicate SecondContact(s: ContactScan, candidates: seq<SegmentPoint>)
  {
    && !NearlyEqualVectors(s.contact2, s.contact1)
    && exists k :: 0 <= k < |candidates| && candidates[k].closestPoint == s.contact2
                   && NearlyEqual(candidates[k].distanceSquared, s.minDistanceSquared)
  }

  lemma {:induction false} ScanKeepsInvariant(candidates: seq<SegmentPoint>)
    ensures ContactInvariant(Scan(candidates), candidates)
  {
    if |candidates| > 0 {
      var n := |candidates| - 1;
      var prefix := candidates[..n];
      ScanKeepsInvariant(prefix);
      var s := Scan(prefix);
      var c := candidates[n];
      assert forall k :: 0 <= k < n ==> candidates[k] == prefix[k];
      if s.minDistanceSquared < FloatMaxValue {
        var k :| 0 <= k < n && prefix[k] == SegmentPoint(s.minDistanceSquared, s.contact1);
        assert candidates[k] == prefix[k];
      }
      if s.count == 2 {
        var k :| 0 <= k < n && prefix[k].closestPoint == s.contact2 && NearlyEqual(prefix[k].distanceSquared, s.minDistanceSquared);
        assert candidates[k] == prefix[k];
      }
    }
  }

  lemma {:induction false} CandidatesEmpty(points: seq<FlatVector>, polygon: seq<FlatVector>)
    ensures |Candidates(points, polygon)| == 0 <==> |points| == 0 || |polygon| == 0
  {
    if |points| > 0 {
      CandidatesEmpty(points[..|points| - 1], polygon);
    }
  }

  /** FindPolygonsContactPoints reports at most two contacts; none at all
      when a polygon has no vertices, and otherwise none only when no test
      came within the tolerance of float.MaxValue from below. */
  lemma PolygonsContactsAreNearest(verticesA: seq<FlatVector>, verticesB: seq<FlatVector>)
    ensures var r, candidates := PolygonsContacts(verticesA, verticesB),
                                 Candidates(verticesA, verticesB) + Candidates(verticesB, verticesA);
      && ContactInvariant(r, candidates)
      && (|verticesA| == 0 || |verticesB| == 0 ==> r == ContactStart)
      && (r.count == 0 ==> forall k :: 0 <= k < |candidates| ==> candidates[k].distanceSquared > FloatMaxValue - Epsilon)
  {
    var candidates := Candidates(verticesA, verticesB) + Candidates(verticesB, verticesA);
    ScanKeepsInvariant(candidates);
    CandidatesEmpty(verticesA, verticesB);
    CandidatesEmpty(verticesB, verticesA);
  }

  /** One pass of FindPolygonsContactPoints: every vertex of `points`
      against every edge of `polygon`, continuing the scan of `done`. */
  method ScanPolygon(points: seq<FlatVector>, polygon: seq<FlatVector>, ghost done: seq<SegmentPoint>,
                     minDistanceSquared0: real, contact10: FlatVector, contact20: FlatVector, count0: int)
    returns (minDistanceSquared: real, contact1: FlatVector, contact2: FlatVector, contactCount: int)
    requires ContactScan(minDistanceSquared0, contact10, contact20, count0) == Scan(done)
    ensures ContactScan(minDistanceSquared, contact1, contact2, contactCount) == Scan(done + Candidates(points, polygon))
  {
    minDistanceSquared, contact1, contact2, contactCount := minDistanceSquared0, contact10, contact20, count0;
    assert done + Candidates(points[..0], polygon) == done;
    for i := 0 to |points|
      invariant ContactScan(minDistanceSquared, contact1, contact2, contactCount) == Scan(done + Candidates(points[..i], polygon))
    {
      ghost var before := done + Candidates(points[..i], polygon);
      minDistanceSquared, contact1, contact2, contactCount :=
        ScanVertex(points[i], polygon, before, minDistanceSquared, contact1, contact2, contactCount);
      CandidatesStep(done, points, polygon, i);
    }
    assert points[..|points|] == points;
  }

  /** One more vertex of the outer loop adds its edge tests. */
  lemma CandidatesStep(done: seq<SegmentPoint>, points: seq<FlatVector>, polygon: seq<FlatVector>, i: int)
    requires 0 <= i < |points|
    ensures done + Candidates(points[..i + 1], polygon)
         == (done + Candidates(points[..i], polygon)) + EdgeCandidates(points[i], polygon)
  {
    assert points[..i + 1][..i] == points[..i];
    assert Candidates(points[..i + 1], polygon) == Candidates(points[..i], polygon) + EdgeCandidates(points[i], polygon);
  }

  /** One more test of the inner loop, seen by Scan. */
  lemma PrefixStep(before: seq<SegmentPoint>, edges: seq<SegmentPoint>, j: int)
    requires 0 <= j < |edges|
    ensures Scan(before + edges[..j + 1]) == ConsiderContact(Scan(before + edges[..j]), edges[j])
  {
    var xs := before + edges[..j];
    assert before + edges[..j + 1] == xs + [edges[j]];
    assert (xs + [edges[j]])[..|xs|] == xs;
  }

  /** The inner loop: one vertex against every edge of `polygon`. */
  method ScanVertex(p: FlatVector, polygon: seq<FlatVector>, ghost before: seq<SegmentPoint>,
                    minDistanceSquared0: real, contact10: FlatVector, contact20: FlatVector, count0: int)
    returns (minDistanceSquared: real, contact1: FlatVector, contact2: FlatVector, contactCount: int)
    requires ContactScan(minDistanceSquared0, contact10, contact20, count0) == Scan(before)
    ensures ContactScan(minDistanceSquared, contact1, contact2, contactCount) == Scan(before + EdgeCandidates(p, polygon))
  {
    minDistanceSquared, contact1, contact2, contactCount := minDistanceSquared0, contact10, contact20, count0;
    ghost var edges := EdgeCandidates(p, polygon);
    assert before + edges[..0] == before;
    for j := 0 to |polygon|
      invariant ContactScan(minDistanceSquared, contact1, contact2, contactCount) == Scan(before + edges[..j])
    {
      var va := polygon[j];
      var vb := polygon[(j + 1) % |polygon|];
      var r := PointSegmentDistance(p, va, vb);
      assert r == edges[j];
      PrefixStep(before, edges, j);
      if NearlyEqual(r.distanceSquared, minDistanceSquared) {
        if !NearlyEqualVectors(r.closestPoint, contact1) {
          contact2 := r.closestPoint;
          contactCount := 2;
        }
      } else if r.distanceSquared < minDistanceSquared {
        minDistanceSquared := r.distanceSquared;
        contact1 := r.closestPoint;
        contactCount := 1;
      }
    }
    assert edges[..|polygon|] == edges;
  }

  /** Collisions.FindPolygonsContactPoints. */
  method FindPolygonsContactPoints(verticesA: seq<FlatVector>, verticesB: seq<FlatVector>)
    returns (contact1: FlatVector, contact2: FlatVector, contactCount: int)
    ensures var r := PolygonsContacts(verticesA, verticesB);
      contact1 == r.contact1 && contact2 == r.contact2 && contactCount == r.count
  {
    var minDistanceSquared;
    minDistanceSquared, contact1, contact2, contactCount := ScanPolygon(verticesA, verticesB, [], FloatMaxValue, Zero, Zero, 0);
    assert [] + Candidates(verticesA, verticesB) == Candidates(verticesA, verticesB);
    minDistanceSquared, contact1, contact2, contactCount :=
      ScanPolygon(verticesB, verticesA, Candidates(verticesA, verticesB), minDistanceSquared, contact1, contact2, contactCount);
  }

  /** The contacts FindContactPoints reports. */
  datatype Contacts = Contacts(contact1: FlatVector, contact2: FlatVector, contactCount: int)

  /** Collisions.FindContactPoints on the bodies' states: the polygons'
      contacts for two boxes, one contact otherwise, and none for a shape
      type outside the two declared ones. For a box against a circle the
      circle-polygon search runs with the circle first. */
  function BodiesContacts(a: Body, b: Body): (r: Contacts)
    ensures a.shapeType.Other? || b.shapeType.Other? ==> r == Contacts(Zero, Zero, 0)
    ensures !a.shapeType.Other? && !b.shapeType.Other? && !(a.shapeType.Box? && b.shapeType.Box?) ==>
              r.contactCount == 1 && r.contact2 == Zero
  {
    match (a.shapeType, b.shapeType)
    case (Box, Box) =>
      var s := PolygonsContacts(WorldVertices(a), WorldVertices(b));
      Contacts(s.contact1, s.contact2, s.count)
    case (Box, Circle) =>
      Contacts(CirclePolygonContact(b.position, WorldVertices(a)), Zero, 1)
    case (Circle, Box) =>
      Contacts(CirclePolygonContact(a.position, WorldVertices(b)), Zero, 1)
    case (Circle, Circle) =>
      Contacts(CirclesContactPoint(a.position, a.radius, b.position, b.radius), Zero, 1)
    case _ => Contacts(Zero, Zero, 0)
  }

  /** Between zero and two contacts; for two boxes with vertices, none only
      when every vertex-edge distance is within tolerance of float.MaxValue
      or above it. */
  lemma ContactCountInRange(a: Body, b: Body)
    ensures 0 <= BodiesContacts(a, b).contactCount <= 2
    ensures a.shapeType.Box? && b.shapeType.Box? && BodiesContacts(a, b).contactCount == 0 ==>
      var candidates := Candidates(WorldVertices(a), WorldVertices(b)) + Candidates(WorldVertices(b), WorldVertices(a));
      forall k :: 0 <= k < |candidates| ==> candidates[k].distanceSquared > FloatMaxValue - Epsilon
  {
    if a.shapeType.Box? && b.shapeType.Box? {
      PolygonsContactsAreNearest(WorldVertices(a), WorldVertices(b));
    }
  }

  /** Collisions.FindContactPoints: refreshes the vertex cache of each box it
      uses and reports the contacts of the two bodies as they stand. */
  method FindContactPoints(bodyA: FlatBody, bodyB: FlatBody) returns (contact1: FlatVector, contact2: FlatVector, contactCount: int)
    requires bodyA.Valid() && bodyB.Valid()
    requires bodyA != bodyB && bodyA.transformedVertices != null ==> bodyA.transformedVertices != bodyB.transformedVertices
    modifies bodyA, bodyA.transformedVertices, bodyB, bodyB.transformedVertices
    ensures bodyA.Valid() && bodyB.Valid()
    ensures bodyA.State() == old(bodyA.State()) && bodyB.State() == old(bodyB.State())
    ensures Contacts(contact1, contact2, contactCount) == BodiesContacts(bodyA.State(), bodyB.State())
    ensures bodyA.aabbUpdateRequired == old(bodyA.aabbUpdateRequired) && bodyA.aabb == old(bodyA.aabb)
    ensures bodyB.aabbUpdateRequired == old(bodyB.aabbUpdateRequired) && bodyB.aabb == old(bodyB.aabb)
    ensures bodyA.transformUpdateRequired == (old(bodyA.transformUpdateRequired) && !bodyA.ShapeType.Box?)
    ensures bodyB.transformUpdateRequired == (old(bodyB.transformUpdateRequired) && !bodyB.ShapeType.Box?)
  {
    contact1 := Zero;
    contact2 := Zero;
    contactCount := 0;
    if bodyA.ShapeType.Box? {
      if bodyB.ShapeType.Box? {
        var verticesA := bodyA.GetTransformVertices();
        var verticesB := bodyB.GetTransformVertices();
        contact1, contact2, contactCount := FindPolygonsContactPoints(verticesA[..], verticesB[..]);
      } else {
        var vertices := bodyA.GetTransformVertices();
        contact1 := FindCirclePolygonContactPoint(bodyB.position, bodyB.Radius, bodyA.position, vertices[..]);
        contactCount := 1;
      }
    } else {
      if bodyB.ShapeType.Box? {
        var vertices := bodyB.GetTransformVertices();
        contact1 := FindCirclePolygonContactPoint(bodyA.position, bodyA.Radius, bodyB.position, vertices[..]);
        contactCount := 1;
      } else {
        contact1 := CirclesContactPoint(bodyA.position, bodyA.Radius, bodyB.position, bodyB.Radius);
        contactCount := 1;
      }
    }
  }
}
