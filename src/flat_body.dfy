/** FlatBody: a rigid circle or box. Its shape and mass properties are fixed
    when a factory creates it; its position, velocity, angle and force change
    in place. The world-space vertices and the bounding box are caches that the
    mutators mark stale and the getters recompute on demand. */
module FlatBodies {
  import opened Wrappers
  import opened MathF
  import opened FlatVectors
  import opened FlatMath
  import opened FlatAABBs
  import opened FlatWorldLimits

  /** The ShapeType enum. Other stands for a value outside the two declared
      members, which a C# enum can hold after a cast but no factory produces. */
  datatype ShapeType = Circle | Box | Other

  /** The arguments the factories pass to the private constructor. */
  datatype BodyDef = BodyDef(
    density: real, mass: real, inertia: real, restitution: real, area: real,
    isStatic: bool, radius: real, width: real, height: real,
    vertices: seq<FlatVector>, shapeType: ShapeType)

  /** Everything a FlatBody holds apart from its two caches: the readonly
      fields, then the motion state. */
  datatype Body = Body(
    shapeType: ShapeType, density: real, mass: real, invMass: real,
    restitution: real, area: real, isStatic: bool, radius: real,
    width: real, height: real, inertia: real, invInertia: real,
    vertices: seq<FlatVector>,
    position: FlatVector, linearVelocity: FlatVector, angle: real,
    angularVelocity: real, force: FlatVector)

  /** What the factories guarantee of a constructor call. */
  ghost predicate ValidDef(def: BodyDef)
  {
    && (def.shapeType.Circle? ==> def.vertices == [])
    && (def.shapeType.Box? ==> |def.vertices| == 4)
    && !def.shapeType.Other?
    && MinBodySize <= def.area <= MaxBodySize
    && MinDensity <= def.density <= MaxDensity
    && 0.0 <= def.restitution <= 1.0
    && (def.isStatic ==> def.mass == 0.0 && def.inertia == 0.0)
    && (!def.isStatic ==> def.mass > 0.0)
  }

  /** What every FlatBody satisfies, since its constructor is private and
      only the factories call it. */
  ghost predicate WellFormed(b: Body)
  {
    && (b.shapeType.Circle? ==> b.vertices == [])
    && (b.shapeType.Box? ==> |b.vertices| == 4)
    && !b.shapeType.Other?
    && 0.0 <= b.restitution <= 1.0
    && (b.isStatic ==> b.mass == 0.0 && b.invMass == 0.0 && b.inertia == 0.0 && b.invInertia == 0.0)
    && (!b.isStatic ==> b.mass > 0.0 && b.invMass == 1.0 / b.mass)
  }

  /** The private constructor's computation: the body starts at rest at the
      origin, the inverse mass and inertia are 0 for a zero mass or inertia,
      and only a box keeps its local vertices. */
  function Construct(def: BodyDef): Body
  {
    Body(def.shapeType, def.density, def.mass,
         if def.mass > 0.0 then 1.0 / def.mass else 0.0,
         def.restitution, def.area, def.isStatic, def.radius, def.width, def.height,
         def.inertia, if def.inertia > 0.0 then 1.0 / def.inertia else 0.0,
         if def.shapeType.Box? then def.vertices else [],
         Zero, Zero, 0.0, 0.0, Zero)
  }

  /** The constructor turns every factory result into a well-formed body. */
  lemma ConstructIsWellFormed(def: BodyDef)
    requires ValidDef(def)
    ensures WellFormed(Construct(def))
    ensures Construct(def).mass == def.mass && Construct(def).isStatic == def.isStatic
  {
  }

  /** FlatBody.CalculateRotationalInertia: half m r^2 for a circle, one
      twelfth of m (w^2 + h^2) for a box, an ArgumentException otherwise. */
  function CalculateRotationalInertia(b: Body): (r: Result<real>)
    ensures r.Failure? <==> b.shapeType.Other?
    ensures r.Failure? ==> r.error == "Wrong ShapeType"
  {
    match b.shapeType
    case Circle => Success(CircleInertia(b.mass, b.radius))
    case Box => Success(BoxInertia(b.mass, b.width, b.height))
    case Other => Failure("Wrong ShapeType")
  }

  /** The two inertia formulas, shared by the factories and
      CalculateRotationalInertia; both vanish for a zero mass. */
  function CircleInertia(mass: real, radius: real): (r: real)
    ensures mass == 0.0 ==> r == 0.0
  {
    (1.0 / 2.0) * mass * radius * radius
  }

  function BoxInertia(mass: real, width: real, height: real): (r: real)
    ensures mass == 0.0 ==> r == 0.0
  {
    (1.0 / 12.0) * mass * (width * width + height * height)
  }

  /** FlatBody.CreateBoxVertices: four corners centred on the origin, in the
      order left-top, right-top, right-bottom, left-bottom. */
  function CreateBoxVertices(width: real, height: real): (r: seq<FlatVector>)
    ensures |r| == 4
    ensures r[0].X == r[3].X && r[1].X == r[2].X
    ensures r[0].Y == r[1].Y && r[2].Y == r[3].Y
    ensures r[1].X - r[0].X == width && r[0].Y - r[3].Y == height
    ensures Add(r[0], r[2]) == Zero && Add(r[1], r[3]) == Zero
  {
    var left := -width / 2.0;
    var right := left + width;
    var bottom := -height / 2.0;
    var top := bottom + height;
    [FlatVector(left, top), FlatVector(right, top), FlatVector(right, bottom), FlatVector(left, bottom)]
  }

  /** The area CreateCircleBody computes, r * r * PI. */
  function CircleArea(radius: real): real
  {
    radius * radius * Pi
  }

  /** The checks both factories make, size first, then density. */
  function CheckLimits(area: real, density: real): (r: Option<string>)
    ensures r.None? <==> MinBodySize <= area <= MaxBodySize && MinDensity <= density <= MaxDensity
    ensures !(MinBodySize <= area <= MaxBodySize) ==> r == Some(SizeMessage)
    ensures MinBodySize <= area <= MaxBodySize && !(MinDensity <= density <= MaxDensity) ==> r == Some(DensityMessage)
  {
    if area < MinBodySize || area > MaxBodySize then Some(SizeMessage)
    else if density < MinDensity || density > MaxDensity then Some(DensityMessage)
    else None
  }

  /** The constructor arguments of CreateCircleBody, or its error message. */
  function CircleBodyDef(radius: real, density: real, isStatic: bool, restitution: real): (r: Result<BodyDef>)
    ensures r.Failure? <==> CheckLimits(CircleArea(radius), density).Some?
    ensures r.Failure? ==> Some(r.error) == CheckLimits(CircleArea(radius), density)
    ensures r.Success? ==> ValidDef(r.value) && r.value.shapeType == Circle
    ensures r.Success? ==> r.value.radius == radius && r.value.area == CircleArea(radius)
    ensures r.Success? ==> r.value.density == density && r.value.isStatic == isStatic
    ensures r.Success? && !isStatic ==> r.value.mass == density * r.value.area
    ensures r.Success? && 0.0 <= restitution <= 1.0 ==> r.value.restitution == restitution
  {
    var area := CircleArea(radius);
    match CheckLimits(area, density)
    case Some(message) => Failure(message)
    case None =>
      var restitution := Clamp(restitution, 0.0, 1.0).value;
      var mass := if !isStatic then density * area else 0.0;
      var inertia := if !isStatic then CircleInertia(mass, radius) else 0.0;
      ProductPositive(density, area);
      Success(BodyDef(density, mass, inertia, restitution, area, isStatic, radius, 0.0, 0.0, [], Circle))
  }

  /** The constructor arguments of CreateBoxBody, or its error message. */
  function BoxBodyDef(width: real, height: real, density: real, isStatic: bool, restitution: real): (r: Result<BodyDef>)
    ensures r.Failure? <==> CheckLimits(width * height, density).Some?
    ensures r.Failure? ==> Some(r.error) == CheckLimits(width * height, density)
    ensures r.Success? ==> ValidDef(r.value) && r.value.shapeType == Box
    ensures r.Success? ==> r.value.width == width && r.value.height == height && r.value.area == width * height
    ensures r.Success? ==> r.value.vertices == CreateBoxVertices(width, height)
    ensures r.Success? ==> r.value.density == density && r.value.isStatic == isStatic
    ensures r.Success? && !isStatic ==> r.value.mass == density * r.value.area
    ensures r.Success? && 0.0 <= restitution <= 1.0 ==> r.value.restitution == restitution
  {
    var area := width * height;
    match CheckLimits(area, density)
    case Some(message) => Failure(message)
    case None =>
      var restitution := Clamp(restitution, 0.0, 1.0).value;
      var mass := if !isStatic then density * area else 0.0;
      var inertia := if !isStatic then BoxInertia(mass, width, height) else 0.0;
      ProductPositive(density, area);
      Success(BodyDef(density, mass, inertia, restitution, area, isStatic, 0.0, width, height,
                      CreateBoxVertices(width, height), Box))
  }

  /** The inertia the factories compute is CalculateRotationalInertia of
      the body they construct. */
  lemma CircleInertiaAgrees(radius: real, density: real, isStatic: bool, restitution: real)
    requires CircleBodyDef(radius, density, isStatic, restitution).Success?
    ensures var def := CircleBodyDef(radius, density, isStatic, restitution).value;
            CalculateRotationalInertia(Construct(def)) == Success(def.inertia)
  {
  }

  lemma BoxInertiaAgrees(width: real, height: real, density: real, isStatic: bool, restitution: real)
    requires BoxBodyDef(width, height, density, isStatic, restitution).Success?
    ensures var def := BoxBodyDef(width, height, density, isStatic, restitution).value;
            CalculateRotationalInertia(Construct(def)) == Success(def.inertia)
  {
  }

  /** The body's local vertices placed at its position and angle. */
  function WorldVertices(b: Body): seq<FlatVector>
  {
    var transform := MakeTransform(b.position, b.angle);
    seq(|b.vertices|, i requires 0 <= i < |b.vertices| => Transform(b.vertices[i], transform))
  }

  /** Placing the vertices keeps their pairwise distances. */
  lemma WorldVerticesAreRigid(b: Body, i: int, j: int)
    requires TrigLaws()
    requires 0 <= i < |b.vertices| && 0 <= j < |b.vertices|
    ensures DistanceSquared(WorldVertices(b)[i], WorldVertices(b)[j])
         == DistanceSquared(b.vertices[i], b.vertices[j])
  {
    var t := MakeTransform(b.position, b.angle);
    assert Sq(t.Sin) + Sq(t.Cos) == 1.0;
    TransformIsRigid(b.vertices[i], b.vertices[j], t);
  }

  /** Whether the box holds the point, edges included. */
  predicate Contains(box: FlatAABB, p: FlatVector)
  {
    box.Min.X <= p.X <= box.Max.X && box.Min.Y <= p.Y <= box.Max.Y
  }

  /** One iteration of GetAABB's loop: four independent comparisons widen the
      running box, which starts empty (the float.MaxValue / float.MinValue
      sentinels) and takes the first vertex whole. */
  function CoverPoint(box: Option<FlatAABB>, v: FlatVector): FlatAABB
  {
    match box
    case None => FlatAABB(v, v)
    case Some(b) =>
      FlatAABB(FlatVector(if v.X < b.Min.X then v.X else b.Min.X, if v.Y < b.Min.Y then v.Y else b.Min.Y),
               FlatVector(if v.X > b.Max.X then v.X else b.Max.X, if v.Y > b.Max.Y then v.Y else b.Max.Y))
  }

  /** The box GetAABB's loop computes over the given vertices: the smallest
      box holding them all, each side touching a vertex. */
  function BoundsOf(vs: seq<FlatVector>): (r: Option<FlatAABB>)
    ensures r.None? <==> |vs| == 0
    ensures r.Some? ==> forall i :: 0 <= i < |vs| ==> Contains(r.value, vs[i])
    ensures r.Some? ==> exists i :: 0 <= i < |vs| && vs[i].X == r.value.Min.X
    ensures r.Some? ==> exists i :: 0 <= i < |vs| && vs[i].X == r.value.Max.X
    ensures r.Some? ==> exists i :: 0 <= i < |vs| && vs[i].Y == r.value.Min.Y
    ensures r.Some? ==> exists i :: 0 <= i < |vs| && vs[i].Y == r.value.Max.Y
  {
    if |vs| == 0 then None
    else
      var prefix := vs[..|vs| - 1];
      assert forall i :: 0 <= i < |prefix| ==> prefix[i] == vs[i];
      Some(CoverPoint(BoundsOf(prefix), vs[|vs| - 1]))
  }

  /** The bounding box GetAABB computes: the bounds of the world vertices of
      a box, Position plus or minus Radius for a circle. */
  function BoundingBox(b: Body): FlatAABB
    requires b.shapeType.Circle? || (b.shapeType.Box? && |b.vertices| > 0)
  {
    if b.shapeType.Box? then BoundsOf(WorldVertices(b)).value
    else MakeAABB(b.position.X - b.radius, b.position.Y - b.radius,
                  b.position.X + b.radius, b.position.Y + b.radius)
  }

  /** A circle's bounding box holds every point of the disc. */
  lemma CircleBoxHoldsDisc(b: Body, p: FlatVector)
    requires b.shapeType.Circle? && b.radius >= 0.0
    requires DistanceSquared(p, b.position) <= Sq(b.radius)
    ensures Contains(BoundingBox(b), p)
  {
    var d := Subtract(p, b.position);
    LengthSquaredIsSumOfSquares(d);
    SquareNonNegative(d.X);
    SquareNonNegative(d.Y);
    SquareBound(d.X, b.radius);
    SquareBound(d.Y, b.radius);
  }

  /** FlatBody.Step with iterations sub-steps per call: a static body is left
      alone; a dynamic one takes a semi-implicit Euler step over
      time / iterations and its force is cleared. */
  function StepBody(b: Body, time: real, gravity: FlatVector, iterations: int): Body
    requires iterations != 0
  {
    if b.isStatic then b
    else
      var dt := time / iterations as real;
      var velocity := Add(b.linearVelocity, Scale(gravity, dt));
      b.(linearVelocity := velocity,
         position := Add(b.position, Scale(velocity, dt)),
         angle := b.angle + b.angularVelocity * dt,
         force := Zero)
  }

  /** Over one step the position moves by the old velocity times dt plus
      gravity times dt squared, since the new velocity is used. */
  lemma StepDisplacement(b: Body, time: real, gravity: FlatVector, iterations: int)
    requires iterations != 0 && !b.isStatic
    ensures var dt := time / iterations as real;
      StepBody(b, time, gravity, iterations).position
        == Add(b.position, Add(Scale(b.linearVelocity, dt), Scale(gravity, dt * dt)))
  {
  }

  /** Move, MoveTo, Rotate, RotateTo, AddForce and the LinearVelocity setter
      on the abstract state. */
  function MoveBody(b: Body, amount: FlatVector): Body
  {
    b.(position := Add(b.position, amount))
  }

  function MoveBodyTo(b: Body, position: FlatVector): Body
  {
    b.(position := position)
  }

  function RotateBody(b: Body, amount: real): Body
  {
    b.(angle := b.angle + amount)
  }

  function RotateBodyTo(b: Body, angle: real): Body
  {
    b.(angle := angle)
  }

  function ForceBody(b: Body, amount: FlatVector): Body
  {
    b.(force := amount)
  }

  function AccelerateBody(b: Body, velocity: FlatVector): Body
  {
    b.(linearVelocity := velocity)
  }

  /** Moves add up, and moving translates every world vertex by the amount. */
  lemma MovesCompose(b: Body, x: FlatVector, y: FlatVector)
    ensures MoveBody(MoveBody(b, x), y) == MoveBody(b, Add(x, y))
    ensures MoveBodyTo(MoveBody(b, x), y) == MoveBodyTo(b, y)
  {
  }

  lemma MoveTranslatesVertices(b: Body, amount: FlatVector)
    ensures |WorldVertices(MoveBody(b, amount))| == |WorldVertices(b)|
    ensures forall i :: 0 <= i < |b.vertices| ==>
              WorldVertices(MoveBody(b, amount))[i] == Add(WorldVertices(b)[i], amount)
  {
    forall i | 0 <= i < |b.vertices|
      ensures WorldVertices(MoveBody(b, amount))[i] == Add(WorldVertices(b)[i], amount)
    {
      TransformShifted(b.vertices[i], MakeTransform(b.position, b.angle), amount);
    }
  }

  /** Rotations add up, and forces are replaced, not accumulated. */
  lemma RotationsCompose(b: Body, x: real, y: real)
    ensures RotateBody(RotateBody(b, x), y) == RotateBody(b, x + y)
    ensures RotateBodyTo(RotateBody(b, x), y) == RotateBodyTo(b, y)
  {
  }

  lemma ForceIsReplaced(b: Body, x: FlatVector, y: FlatVector)
    ensures ForceBody(ForceBody(b, x), y) == ForceBody(b, y)
  {
  }

  /** None of the mutators changes what makes a body well formed. */
  lemma MutatorsKeepWellFormed(b: Body, v: FlatVector, a: real, time: real, gravity: FlatVector, iterations: int)
    requires WellFormed(b) && iterations != 0
    ensures WellFormed(MoveBody(b, v)) && WellFormed(MoveBodyTo(b, v))
    ensures WellFormed(RotateBody(b, a)) && WellFormed(RotateBodyTo(b, a))
    ensures WellFormed(ForceBody(b, v)) && WellFormed(AccelerateBody(b, v))
    ensures WellFormed(StepBody(b, time, gravity, iterations))
  {
  }

  class FlatBody {
    var position: FlatVector
    var linearVelocity: FlatVector
    var angle: real
    var angularVelocity: real
    var force: FlatVector

    const ShapeType: ShapeType
    const Density: real
    const Mass: real
    const InvMass: real
    const Restitution: real
    const Area: real
    const IsStatic: bool
    const Radius: real
    const Width: real
    const Height: real
    const Inertia: real
    const InvInertia: real

    /** The local vertices (null for a circle in the source, empty here). */
    const vertices: seq<FlatVector>
    /** The world-vertex cache, allocated only for a box. */
    const transformedVertices: array?<FlatVector>
    var aabb: FlatAABB

    var transformUpdateRequired: bool
    var aabbUpdateRequired: bool

    /** The body without its caches. */
    function State(): Body
      reads this
    {
      Body(ShapeType, Density, Mass, InvMass, Restitution, Area, IsStatic, Radius,
           Width, Height, Inertia, InvInertia, vertices,
           position, linearVelocity, angle, angularVelocity, force)
    }

    /** A fresh cache belongs to the current state: a cleared flag means the
        cached value is the one the getter would compute now. */
    ghost predicate Valid()
      reads this, transformedVertices
    {
      && WellFormed(State())
      && (ShapeType.Box? <==> transformedVertices != null)
      && (transformedVertices != null ==> transformedVertices.Length == |vertices|)
      && (!transformUpdateRequired ==>
            transformedVertices != null && transformedVertices[..] == WorldVertices(State()))
      && (!aabbUpdateRequired ==> aabb == BoundingBox(State()))
    }

    /** The private constructor; both caches start stale. */
    constructor (def: BodyDef)
      requires ValidDef(def)
      ensures Valid() && State() == Construct(def)
      ensures transformUpdateRequired && aabbUpdateRequired
      ensures transformedVertices != null ==> fresh(transformedVertices)
    {
      ShapeType := def.shapeType;
      Density := def.density;
      Mass := def.mass;
      InvMass := if def.mass > 0.0 then 1.0 / def.mass else 0.0;
      Inertia := def.inertia;
      InvInertia := if def.inertia > 0.0 then 1.0 / def.inertia else 0.0;
      Restitution := def.restitution;
      Area := def.area;
      IsStatic := def.isStatic;
      Radius := def.radius;
      Width := def.width;
      Height := def.height;
      position := Zero;
      linearVelocity := Zero;
      angle := 0.0;
      angularVelocity := 0.0;
      force := Zero;
      if def.shapeType.Box? {
        vertices := def.vertices;
        transformedVertices := new FlatVector[|def.vertices|](_ => Zero);
      } else {
        vertices := [];
        transformedVertices := null;
      }
      transformUpdateRequired := true;
      aabbUpdateRequired := true;
    }

    /** FlatBody.CreateCircleBody. */
    static method CreateCircleBody(radius: real, density: real, isStatic: bool, restitution: real)
      returns (ok: bool, body: FlatBody?, errorMessage: string)
      ensures ok <==> CircleBodyDef(radius, density, isStatic, restitution).Success?
      ensures ok ==> body != null && fresh(body) && body.Valid()
      ensures ok && body.transformedVertices != null ==> fresh(body.transformedVertices)
      ensures ok ==> body.State() == Construct(CircleBodyDef(radius, density, isStatic, restitution).value)
      ensures ok ==> errorMessage == ""
      ensures !ok ==> body == null && errorMessage == CircleBodyDef(radius, density, isStatic, restitution).error
    {
      match CircleBodyDef(radius, density, isStatic, restitution)
      case Failure(message) =>
        return false, null, message;
      case Success(def) =>
        body := new FlatBody(def);
        return true, body, "";
    }

    /** FlatBody.CreateBoxBody. */
    static method CreateBoxBody(width: real, height: real, density: real, isStatic: bool, restitution: real)
      returns (ok: bool, body: FlatBody?, errorMessage: string)
      ensures ok <==> BoxBodyDef(width, height, density, isStatic, restitution).Success?
      ensures ok ==> body != null && fresh(body) && body.Valid()
      ensures ok && body.transformedVertices != null ==> fresh(body.transformedVertices)
      ensures ok ==> body.State() == Construct(BoxBodyDef(width, height, density, isStatic, restitution).value)
      ensures ok ==> errorMessage == ""
      ensures !ok ==> body == null && errorMessage == BoxBodyDef(width, height, density, isStatic, restitution).error
    {
      match BoxBodyDef(width, height, density, isStatic, restitution)
      case Failure(message) =>
        return false, null, message;
      case Success(def) =>
        body := new FlatBody(def);
        return true, body, "";
    }

    /** FlatBody.GetTransformVertices on a box: refills the cache in place
        when it is stale, and returns the cache array itself. */
    method GetTransformVertices() returns (r: array<FlatVector>)
      requires Valid() && ShapeType.Box?
      modifies this, transformedVertices
      ensures Valid() && State() == old(State())
      ensures r == transformedVertices && r[..] == WorldVertices(State())
      ensures !transformUpdateRequired
      ensures aabbUpdateRequired == old(aabbUpdateRequired) && aabb == old(aabb)
      ensures !old(transformUpdateRequired) ==> unchanged(transformedVertices)
    {
      if transformUpdateRequired {
        var transform := MakeTransform(position, angle);
        var cache := transformedVertices;
        for i := 0 to cache.Length
          modifies cache
          invariant forall k :: 0 <= k < i ==> cache[k] == Transform(vertices[k], transform)
        {
          cache[i] := Transform(vertices[i], transform);
        }
        transformUpdateRequired := false;
      }
      r := transformedVertices;
    }

    /** FlatBody.GetAABB: recomputes the box when it is stale, from the world
        vertices of a box or from Position and Radius of a circle. */
    method GetAABB() returns (r: FlatAABB)
      requires Valid()
      modifies this, transformedVertices
      ensures Valid() && State() == old(State())
      ensures r == aabb && r == BoundingBox(State())
      ensures !aabbUpdateRequired
      ensures !old(aabbUpdateRequired) ==> unchanged(this)
      ensures !old(aabbUpdateRequired) && transformedVertices != null ==> unchanged(transformedVertices)
      ensures transformUpdateRequired
          == (old(transformUpdateRequired) && !(old(aabbUpdateRequired) && ShapeType.Box?))
    {
      if aabbUpdateRequired {
        if ShapeType.Box? {
          var vs := GetTransformVertices();
          var box: Option<FlatAABB> := None;
          for i := 0 to vs.Length
            invariant box == BoundsOf(vs[..i])
          {
            assert vs[..i + 1][..i] == vs[..i];
            box := Some(CoverPoint(box, vs[i]));
          }
          assert vs[..vs.Length] == vs[..];
          aabb := box.value;
        } else {
          aabb := MakeAABB(position.X - Radius, position.Y - Radius, position.X + Radius, position.Y + Radius);
        }
        aabbUpdateRequired := false;
      }
      r := aabb;
    }

    /** FlatBody.Step. */
    method Step(time: real, gravity: FlatVector, iterations: int)
      requires Valid() && iterations != 0
      modifies this
      ensures Valid() && State() == StepBody(old(State()), time, gravity, iterations)
      ensures IsStatic ==> unchanged(this)
      ensures !IsStatic ==> transformUpdateRequired && aabbUpdateRequired && aabb == old(aabb)
    {
      if IsStatic {
        return;
      }
      var dt := time / iterations as real;
      linearVelocity := Add(linearVelocity, Scale(gravity, dt));
      position := Add(position, Scale(linearVelocity, dt));
      angle := angle + angularVelocity * dt;
      force := Zero;
      transformUpdateRequired := true;
      aabbUpdateRequired := true;
    }

    /** FlatBody.Move. */
    method Move(amount: FlatVector)
      requires Valid()
      modifies this
      ensures Valid() && State() == MoveBody(old(State()), amount)
      ensures transformUpdateRequired && aabbUpdateRequired && aabb == old(aabb)
    {
      position := Add(position, amount);
      transformUpdateRequired := true;
      aabbUpdateRequired := true;
    }

    /** FlatBody.MoveTo. */
    method MoveTo(position: FlatVector)
      requires Valid()
      modifies this
      ensures Valid() && State() == MoveBodyTo(old(State()), position)
      ensures transformUpdateRequired && aabbUpdateRequired && aabb == old(aabb)
    {
      this.position := position;
      transformUpdateRequired := true;
      aabbUpdateRequired := true;
    }

    /** FlatBody.Rotate. */
    method Rotate(amount: real)
      requires Valid()
      modifies this
      ensures Valid() && State() == RotateBody(old(State()), amount)
      ensures transformUpdateRequired && aabbUpdateRequired && aabb == old(aabb)
    {
      angle := angle + amount;
      transformUpdateRequired := true;
      aabbUpdateRequired := true;
    }

    /** FlatBody.RotateTo. */
    method RotateTo(angle: real)
      requires Valid()
      modifies this
      ensures Valid() && State() == RotateBodyTo(old(State()), angle)
      ensures transformUpdateRequired && aabbUpdateRequired && aabb == old(aabb)
    {
      this.angle := angle;
      transformUpdateRequired := true;
      aabbUpdateRequired := true;
    }

    /** FlatBody.AddForce: replaces the force and leaves both caches alone. */
    method AddForce(amount: FlatVector)
      requires Valid()
      modifies this
      ensures Valid() && State() == ForceBody(old(State()), amount)
      ensures transformUpdateRequired == old(transformUpdateRequired)
      ensures aabbUpdateRequired == old(aabbUpdateRequired) && aabb == old(aabb)
    {
      force := amount;
    }

    /** The LinearVelocity setter. */
    method SetLinearVelocity(value: FlatVector)
      requires Valid()
      modifies this
      ensures Valid() && State() == AccelerateBody(old(State()), value)
      ensures transformUpdateRequired == old(transformUpdateRequired)
      ensures aabbUpdateRequired == old(aabbUpdateRequired) && aabb == old(aabb)
    {
      linearVelocity := value;
    }
  }
}
