/** The members of System.MathF that the physics kernel calls.

    Square root, sine and cosine are left uninterpreted: each is a constant
    function about which the model assumes nothing. A contract that depends on
    how one of them behaves names the law it needs (SqrtLaws, TrigLaws) as a
    hypothesis, so every such dependency is visible at the use site. */
module MathF {

  /** MathF.Sqrt. */
  const Sqrt: real -> real

  /** MathF.Sin and MathF.Cos. */
  const Sin: real -> real
  const Cos: real -> real

  /** MathF.PI, the single-precision literal. */
  const Pi: real := 3.14159265

  /** The largest finite single-precision value (float.MaxValue). */
  const FloatMaxValue: real := 340282346638528859811704183484516925440.0

  /** The square of a real. Statements about squares are phrased with Sq so
      that the solver reasons about them through the lemmas below. */
  function Sq(x: real): real
  {
    x * x
  }

  /** What a square root is over the reals: the non-negative root of a
      non-negative argument. */
  ghost predicate SqrtLaws()
  {
    forall x :: x >= 0.0 ==> Sqrt(x) >= 0.0 && Sq(Sqrt(x)) == x
  }

  /** The Pythagorean identity, which makes a rotation by Cos/Sin rigid. */
  ghost predicate TrigLaws()
  {
    forall a :: Sq(Sin(a)) + Sq(Cos(a)) == 1.0
  }

  /** MathF.Min on non-NaN arguments. */
  function Min(a: real, b: real): (r: real)
    ensures r <= a && r <= b
    ensures r == a || r == b
  {
    if a < b then a else b
  }

  /** MathF.Abs. */
  function Abs(x: real): (r: real)
    ensures r >= 0.0
    ensures r == x || r == -x
  {
    if x < 0.0 then -x else x
  }

  /** The two laws at one argument. */
  lemma SqrtAt(x: real)
    requires SqrtLaws() && x >= 0.0
    ensures Sqrt(x) >= 0.0 && Sq(Sqrt(x)) == x
  {
  }

  lemma ProductPositive(a: real, b: real)
    requires a > 0.0 && b > 0.0
    ensures a * b > 0.0
  {
  }

  lemma ProductNonNegative(a: real, b: real)
    requires a >= 0.0 && b >= 0.0
    ensures a * b >= 0.0
  {
  }

  lemma DifferenceOfSquares(a: real, b: real)
    ensures a * a - b * b == (a - b) * (a + b)
  {
  }

  lemma SquareNonNegative(x: real)
    ensures Sq(x) >= 0.0
  {
  }

  /** Squaring is strictly increasing on the non-negative reals. */
  lemma SquareLess(a: real, b: real)
    requires 0.0 <= a < b
    ensures Sq(a) < Sq(b)
  {
    DifferenceOfSquares(b, a);
    ProductPositive(b - a, b + a);
  }

  lemma SquarePositive(x: real)
    requires x != 0.0
    ensures Sq(x) > 0.0
  {
    if x > 0.0 {
      SquareLess(0.0, x);
    } else {
      SquareLess(0.0, -x);
      assert Sq(-x) == Sq(x);
    }
  }

  /** A square no larger than the square of a non-negative bound puts the
      number within the bound on either side. */
  lemma SquareBound(x: real, bound: real)
    requires bound >= 0.0 && Sq(x) <= Sq(bound)
    ensures -bound <= x <= bound
  {
    if x > bound {
      SquareLess(bound, x);
    } else if -x > bound {
      SquareLess(bound, -x);
    }
  }

  /** A sum of two squares vanishes exactly at the origin. */
  lemma SumSquaresPositive(x: real, y: real)
    requires x != 0.0 || y != 0.0
    ensures Sq(x) + Sq(y) > 0.0
  {
    SquareNonNegative(x);
    SquareNonNegative(y);
    if x != 0.0 {
      SquarePositive(x);
    } else {
      SquarePositive(y);
    }
  }

  lemma SumSquaresZero(x: real, y: real)
    ensures Sq(x) + Sq(y) == 0.0 <==> x == 0.0 && y == 0.0
  {
    if x != 0.0 || y != 0.0 {
      SumSquaresPositive(x, y);
    }
  }

  /** The laws determine the root of zero ... */
  lemma SqrtOfZero()
    requires SqrtLaws()
    ensures Sqrt(0.0) == 0.0
  {
    SqrtAt(0.0);
    if Sqrt(0.0) > 0.0 {
      SquarePositive(Sqrt(0.0));
    }
  }

  /** ... the sign of every other root ... */
  lemma SqrtOfPositive(x: real)
    requires SqrtLaws() && x > 0.0
    ensures Sqrt(x) > 0.0
  {
    SqrtAt(x);
  }

  /** ... the root of a square ... */
  lemma SqrtOfSquare(x: real)
    requires SqrtLaws() && x >= 0.0
    ensures Sqrt(Sq(x)) == x
  {
    SquareNonNegative(x);
    SqrtAt(Sq(x));
    var r := Sqrt(Sq(x));
    if r < x {
      SquareLess(r, x);
    }
    if x < r {
      SquareLess(x, r);
    }
  }

  /** ... and monotonicity, so none of these is a further assumption. */
  lemma SqrtMonotone(x: real, y: real)
    requires SqrtLaws() && 0.0 <= x <= y
    ensures Sqrt(x) <= Sqrt(y)
  {
    SqrtAt(x);
    SqrtAt(y);
    if Sqrt(y) < Sqrt(x) {
      SquareLess(Sqrt(y), Sqrt(x));
    }
  }

  /** A root below a bound is the same as the argument below the bound's
      square: comparing distances needs no square root. */
  lemma SqrtBelow(x: real, bound: real)
    requires SqrtLaws() && x >= 0.0
    ensures Sqrt(x) < bound <==> bound > 0.0 && x < Sq(bound)
  {
    SqrtAt(x);
    var r := Sqrt(x);
    if r < bound {
      SquareLess(r, bound);
    } else if bound > 0.0 && bound < r {
      SquareLess(bound, r);
    }
  }
}
