/** FlatVector: the immutable two-component vector of the kernel, its
    operators, the rigid transform that maps a body's local vertices into the
    world, and value equality. */
module FlatVectors {
  import MathF

  /** A readonly struct with two components. */
  datatype FlatVector = FlatVector(X: real, Y: real)

  /** FlatVector.Zero. */
  const Zero: FlatVector := FlatVector(0.0, 0.0)

  /** operator + */
  function Add(a: FlatVector, b: FlatVector): FlatVector
  {
    FlatVector(a.X + b.X, a.Y + b.Y)
  }

  /** Binary operator - */
  function Subtract(a: FlatVector, b: FlatVector): FlatVector
  {
    FlatVector(a.X - b.X, a.Y - b.Y)
  }

  /** Unary operator - */
  function Negate(v: FlatVector): FlatVector
  {
    FlatVector(-v.X, -v.Y)
  }

  /** operator * (vector times scalar; the kernel has no scalar-first form). */
  function Scale(v: FlatVector, s: real): FlatVector
  {
    FlatVector(v.X * s, v.Y * s)
  }

  /** operator / (vector by scalar). A zero divisor yields infinities or NaN
      in single precision; over the reals it is excluded. */
  function Divide(v: FlatVector, s: real): FlatVector
    requires s != 0.0
  {
    FlatVector(v.X / s, v.Y / s)
  }

  /** The translation and precomputed rotation a body applies to its local
      vertices: FlatTransform(PositionX, PositionY, Sin, Cos). */
  datatype FlatTransform = FlatTransform(PositionX: real, PositionY: real, Sin: real, Cos: real)

  /** The FlatTransform(position, angle) constructor: the sine and cosine of
      the angle are computed once, when the transform is made. */
  function MakeTransform(position: FlatVector, angle: real): (t: FlatTransform)
    ensures t.Sin == MathF.Sin(angle) && t.Cos == MathF.Cos(angle)
    ensures FlatVector(t.PositionX, t.PositionY) == position
  {
    FlatTransform(position.X, position.Y, MathF.Sin(angle), MathF.Cos(angle))
  }

  /** FlatVector.Transform: rotate by (Cos, Sin), then translate. */
  function Transform(v: FlatVector, t: FlatTransform): FlatVector
  {
    FlatVector(t.Cos * v.X - t.Sin * v.Y + t.PositionX,
               t.Sin * v.X + t.Cos * v.Y + t.PositionY)
  }

  /** FlatVector.Equals(FlatVector): exact comparison of both components. */
  function Equals(a: FlatVector, other: FlatVector): (r: bool)
    ensures r <==> a == other
  {
    a.X == other.X && a.Y == other.Y
  }

  /** The argument of Equals(object): null, a boxed FlatVector, or a value of
      any other type. */
  datatype Object = Null | Boxed(vector: FlatVector) | OtherValue

  /** FlatVector.Equals(object). */
  function EqualsObject(a: FlatVector, obj: Object): (r: bool)
    ensures r <==> obj.Boxed? && obj.vector == a
  {
    match obj
    case Boxed(other) => Equals(a, other)
    case _ => false
  }

  /** Subtraction undoes addition. */
  lemma AddSubtractCancel(a: FlatVector, b: FlatVector)
    ensures Subtract(Add(a, b), b) == a
    ensures Add(Subtract(a, b), b) == a
  {
  }

  /** Unary minus is an involution and subtracting is adding the negation. */
  lemma NegateInvolution(v: FlatVector)
    ensures Negate(Negate(v)) == v
  {
  }

  lemma SubtractIsAddNegate(a: FlatVector, b: FlatVector)
    ensures Subtract(a, b) == Add(a, Negate(b))
    ensures Subtract(a, a) == Zero
  {
  }

  /** Dividing by a non-zero scalar undoes scaling by it. */
  lemma ScaleDivideCancel(v: FlatVector, s: real)
    requires s != 0.0
    ensures Divide(Scale(v, s), s) == v
  {
    assert v.X * s / s == v.X;
    assert v.Y * s / s == v.Y;
  }

  /** With Cos = 1 and Sin = 0 the transform is a pure translation. */
  lemma TransformWithoutRotation(v: FlatVector, t: FlatTransform)
    requires t.Cos == 1.0 && t.Sin == 0.0
    ensures Transform(v, t) == Add(v, FlatVector(t.PositionX, t.PositionY))
  {
  }

  /** The translation cancels in the difference of two transformed points:
      the difference is the rotated difference, whatever the position. */
  lemma TransformDifference(v: FlatVector, w: FlatVector, t: FlatTransform)
    ensures Subtract(Transform(v, t), Transform(w, t))
         == Transform(Subtract(v, w), FlatTransform(0.0, 0.0, t.Sin, t.Cos))
  {
  }

  /** Moving the transform's position moves every transformed point by the
      same amount. */
  lemma TransformShifted(v: FlatVector, t: FlatTransform, amount: FlatVector)
    ensures Transform(v, t.(PositionX := t.PositionX + amount.X, PositionY := t.PositionY + amount.Y))
         == Add(Transform(v, t), amount)
  {
    var rx, ry := t.Cos * v.X - t.Sin * v.Y, t.Sin * v.X + t.Cos * v.Y;
    assert Transform(v, t) == FlatVector(rx + t.PositionX, ry + t.PositionY);
  }

  /** Equals is reflexive and symmetric. */
  lemma EqualsIsEquivalence(a: FlatVector, b: FlatVector)
    ensures Equals(a, a)
    ensures Equals(a, b) == Equals(b, a)
  {
  }
}
