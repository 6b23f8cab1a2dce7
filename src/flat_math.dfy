/** FlatMath: clamping and the vector measures the collision code is built
    from, together with the helpers the collision code calls but whose source
    is not part of this model (LengthSquared, DistanceSquared, NearlyEqual). */
module FlatMath {
  import opened Wrappers
  import opened MathF
  import opened FlatVectors

  /** FlatMath.Clamp. Equal bounds return the value unclamped; inverted
      bounds throw an ArgumentException, modelled as a failure carrying its
      message. */
  function Clamp(value: real, min: real, max: real): (r: Result<real>)
    ensures r.Failure? <==> min > max
    ensures r.Failure? ==> r.error == "Min value should be less than max value."
    ensures min == max ==> r == Success(value)
    ensures min < max ==> min <= r.value <= max
    ensures min < max && min <= value <= max ==> r.value == value
    ensures min < max && value < min ==> r.value == min
    ensures min < max && value > max ==> r.value == max
  {
    if min == max then Success(value)
    else if min > max then Failure("Min value should be less than max value.")
    else if value < min then Success(min)
    else if value > max then Success(max)
    else Success(value)
  }

  /** FlatMath.Dot. */
  function Dot(a: FlatVector, b: FlatVector): real
  {
    a.X * b.X + a.Y * b.Y
  }

  /** FlatMath.Cross: the z component of the three-dimensional cross product. */
  function Cross(a: FlatVector, b: FlatVector): real
  {
    a.X * b.Y - a.Y * b.X
  }

  /** LengthSquared, the dot product of a vector with itself. */
  function LengthSquared(v: FlatVector): real
  {
    Dot(v, v)
  }

  /** DistanceSquared, the squared length of the difference. */
  function DistanceSquared(a: FlatVector, b: FlatVector): real
  {
    LengthSquared(Subtract(a, b))
  }

  /** FlatMath.Length. */
  function Length(v: FlatVector): real
  {
    Sqrt(v.X * v.X + v.Y * v.Y)
  }

  /** FlatMath.Distance: the root of dx * dx + dy * dy, which is the
      arithmetic of Length applied to the difference (dx, dy). */
  function Distance(a: FlatVector, b: FlatVector): real
  {
    Length(Subtract(a, b))
  }

  /** FlatMath.Normalize. The zero vector, whose single-precision result is
      NaN, is mapped to Zero so that the function is total. */
  function Normalize(v: FlatVector): FlatVector
  {
    var length := Length(v);
    if length == 0.0 then Zero else Divide(v, length)
  }

  /** NearlyEqual with the kernel's tolerance of 0.001. */
  const Epsilon: real := 0.001

  function NearlyEqual(a: real, b: real): bool
  {
    Abs(a - b) < Epsilon
  }

  /** The vector form compares each component with the scalar form. */
  function NearlyEqualVectors(a: FlatVector, b: FlatVector): bool
  {
    NearlyEqual(a.X, b.X) && NearlyEqual(a.Y, b.Y)
  }

  /** Clamping a clamped value changes nothing. */
  lemma ClampIdempotent(value: real, min: real, max: real)
    requires min <= max
    ensures Clamp(Clamp(value, min, max).value, min, max) == Clamp(value, min, max)
  {
  }

  lemma DotSymmetric(a: FlatVector, b: FlatVector)
    ensures Dot(a, b) == Dot(b, a)
  {
  }

  /** A vector's dot product with itself is the sum of the squared components,
      so it is never negative and vanishes only for the zero vector. */
  lemma LengthSquaredIsSumOfSquares(v: FlatVector)
    ensures LengthSquared(v) == Sq(v.X) + Sq(v.Y)
    ensures LengthSquared(v) >= 0.0
    ensures LengthSquared(v) == 0.0 <==> v == Zero
  {
    SquareNonNegative(v.X);
    SquareNonNegative(v.Y);
    SumSquaresZero(v.X, v.Y);
  }

  lemma CrossAntisymmetric(a: FlatVector, b: FlatVector)
    ensures Cross(a, b) == -Cross(b, a)
    ensures Cross(a, a) == 0.0
  {
  }

  /** Length and Distance are the roots of LengthSquared and DistanceSquared. */
  lemma LengthIsRoot(v: FlatVector)
    ensures Length(v) == Sqrt(LengthSquared(v))
  {
  }

  lemma DistanceIsRoot(a: FlatVector, b: FlatVector)
    ensures Distance(a, b) == Sqrt(DistanceSquared(a, b))
  {
    LengthIsRoot(Subtract(a, b));
  }

  lemma DistanceSquaredSymmetric(a: FlatVector, b: FlatVector)
    ensures DistanceSquared(a, b) == DistanceSquared(b, a)
  {
    var d, e := Subtract(a, b), Subtract(b, a);
    assert e.X == -d.X && e.Y == -d.Y;
    assert e.X * e.X == d.X * d.X;
    assert e.Y * e.Y == d.Y * d.Y;
  }

  /** Distance is symmetric, measures a vector's length from Zero, and is
      zero from a point to itself. */
  lemma DistanceSymmetric(a: FlatVector, b: FlatVector)
    ensures Distance(a, b) == Distance(b, a)
  {
    DistanceSquaredSymmetric(a, b);
    DistanceIsRoot(a, b);
    DistanceIsRoot(b, a);
  }

  lemma LengthIsDistanceFromZero(v: FlatVector)
    ensures Length(v) == Distance(v, Zero)
  {
    assert Subtract(v, Zero) == v;
  }

  lemma DistanceToSelf(a: FlatVector)
    requires SqrtLaws()
    ensures Distance(a, a) == 0.0
  {
    assert Subtract(a, a) == Zero;
    LengthSign(Zero);
  }

  /** Under the square-root laws a length is non-negative and is zero exactly
      for the zero vector. */
  lemma LengthSign(v: FlatVector)
    requires SqrtLaws()
    ensures Length(v) >= 0.0
    ensures Length(v) == 0.0 <==> v == Zero
    ensures Sq(Length(v)) == LengthSquared(v)
  {
    LengthSquaredIsSumOfSquares(v);
    SqrtAt(LengthSquared(v));
    if v == Zero {
      SqrtOfZero();
    } else {
      SqrtOfPositive(LengthSquared(v));
    }
  }

  /** A non-zero vector normalizes to unit length. */
  lemma NormalizeIsUnit(v: FlatVector)
    requires SqrtLaws() && v != Zero
    ensures LengthSquared(Normalize(v)) == 1.0
  {
    LengthSign(v);
    var length := Length(v);
    var n := Normalize(v);
    assert n == FlatVector(v.X / length, v.Y / length);
    QuotientSquares(v.X, v.Y, length);
  }

  lemma QuotientSquares(x: real, y: real, d: real)
    requires d != 0.0 && Sq(d) == Sq(x) + Sq(y)
    ensures (x / d) * (x / d) + (y / d) * (y / d) == 1.0
  {
    var qx, qy := x / d, y / d;
    assert x == qx * d;
    assert y == qy * d;
    assert Sq(x) + Sq(y) == Sq(d) * (qx * qx + qy * qy);
    SquarePositive(d);
    Cancel(Sq(d), qx * qx + qy * qy, 1.0);
  }

  lemma Cancel(c: real, s: real, t: real)
    requires c != 0.0 && c * s == c * t
    ensures s == t
  {
    assert c * (s - t) == 0.0;
  }

  /** A vector and its normalization never point apart: their dot product is
      the vector's length. */
  lemma DotWithNormalized(v: FlatVector)
    requires SqrtLaws()
    ensures Dot(v, Normalize(v)) == Length(v)
    ensures Dot(v, Normalize(v)) >= 0.0
  {
    LengthSign(v);
    var length := Length(v);
    if length != 0.0 {
      QuotientByRoot(v.X, v.Y, length);
    }
  }

  lemma QuotientByRoot(x: real, y: real, d: real)
    requires d != 0.0 && Sq(d) == Sq(x) + Sq(y)
    ensures x * (x / d) + y * (y / d) == d
  {
    QuotientSquares(x, y, d);
    var qx, qy := x / d, y / d;
    assert x == qx * d;
    assert y == qy * d;
    assert x * qx + y * qy == d * (qx * qx + qy * qy);
  }

  /** With sin² + cos² = 1 the transform is rigid: it keeps squared
      distances. */
  lemma TransformIsRigid(v: FlatVector, w: FlatVector, t: FlatTransform)
    requires Sq(t.Sin) + Sq(t.Cos) == 1.0
    ensures DistanceSquared(Transform(v, t), Transform(w, t)) == DistanceSquared(v, w)
  {
    TransformDifference(v, w, t);
    var d := Subtract(v, w);
    RotationKeepsSquares(d.X, d.Y, t.Sin, t.Cos);
  }

  lemma RotationKeepsSquares(x: real, y: real, s: real, c: real)
    requires Sq(s) + Sq(c) == 1.0
    ensures (c * x - s * y) * (c * x - s * y) + (s * x + c * y) * (s * x + c * y) == x * x + y * y
  {
    assert (c * x - s * y) * (c * x - s * y) + (s * x + c * y) * (s * x + c * y)
        == (Sq(s) + Sq(c)) * (x * x + y * y);
  }

  /** NearlyEqual is reflexive and symmetric. */
  lemma NearlyEqualIsSymmetric(a: real, b: real)
    ensures NearlyEqual(a, a)
    ensures NearlyEqual(a, b) == NearlyEqual(b, a)
  {
  }
}
