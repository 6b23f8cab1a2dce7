/** FlatWorld: the ordered list of bodies and the step that moves them,
    separates every colliding pair and exchanges an impulse between them. */
module FlatWorlds {
  import opened MathF
  import opened FlatVectors
  import opened FlatMath
  import opened FlatBodies
  import opened Collisions

  /** The gravity the constructor installs. */
  const DefaultGravity: FlatVector := FlatVector(0.0, -9.81)

  // ------------------------------------------------------------ body list

  /** The index List.Remove looks for: the first occurrence, or -1. */
  function IndexOf<T(==)>(s: seq<T>, x: T): (r: int)
    ensures -1 <= r < |s|
    ensures r == -1 <==> x !in s
    ensures r != -1 ==> s[r] == x && x !in s[..r]
  {
    if |s| == 0 then -1
    else if s[0] == x then 0
    else
      var k := IndexOf(s[1..], x);
      assert k != -1 ==> s[1..][..k] == s[1..k + 1];
      if k == -1 then -1 else k + 1
  }

  /** List.Remove: the list without the first occurrence of x. */
  function RemoveFirst<T(==)>(s: seq<T>, x: T): seq<T>
  {
    var k := IndexOf(s, x);
    if k == -1 then s else s[..k] + s[k + 1..]
  }

  /** Removing takes exactly one copy of x out when there is one and keeps
      everything else, in order. */
  lemma RemoveFirstRemovesOne<T>(s: seq<T>, x: T)
    ensures x in s ==> multiset(RemoveFirst(s, x)) == multiset(s) - multiset{x}
    ensures x in s ==> |RemoveFirst(s, x)| == |s| - 1
    ensures x !in s ==> RemoveFirst(s, x) == s
  {
    var k := IndexOf(s, x);
    if k != -1 {
      assert s == s[..k] + [x] + s[k + 1..];
    }
  }

  /** Adding a body the world does not hold and removing it again restores
      the list. */
  lemma RemoveUndoesAdd<T>(s: seq<T>, x: T)
    requires x !in s
    ensures RemoveFirst(s + [x], x) == s
  {
    var k := IndexOf(s + [x], x);
    assert forall i :: 0 <= i < |s| ==> (s + [x])[i] == s[i];
    assert k == |s|;
    assert (s + [x])[..|s|] == s;
  }

  /** What FlatWorld.GetBody reports. */
  datatype GetBodyOutcome = Missing | Found(body: FlatBody) | IndexOutOfRange

  /** GetBody as written: the guard lets index == Count through to the list
      indexer, which throws ArgumentOutOfRangeException. */
  function GetBodyAsWritten(bodies: seq<FlatBody>, index: int): (r: GetBodyOutcome)
  {
    if index < 0 || index > |bodies| then Missing
    else if index < |bodies| then Found(bodies[index])
    else IndexOutOfRange
  }

  /** The guard as evidently intended, index >= Count. */
  function GetBodyCorrected(bodies: seq<FlatBody>, index: int): (r: GetBodyOutcome)
  {
    if index < 0 || index >= |bodies| then Missing else Found(bodies[index])
  }

  /** The written guard throws for exactly one index, the count. */
  lemma GetBodyThrowsAtCount(bodies: seq<FlatBody>, index: int)
    ensures GetBodyAsWritten(bodies, index) == IndexOutOfRange <==> index == |bodies|
  {
  }

  /** The corrected guard never throws, finds exactly the indices in range
      and agrees with the written one everywhere else. */
  lemma GetBodyCorrectedIsTotal(bodies: seq<FlatBody>, index: int)
    ensures GetBodyCorrected(bodies, index) != IndexOutOfRange
    ensures GetBodyCorrected(bodies, index).Found? <==> 0 <= index < |bodies|
    ensures GetBodyCorrected(bodies, index).Found? ==> GetBodyCorrected(bodies, index).body == bodies[index]
    ensures index != |bodies| ==> GetBodyCorrected(bodies, index) == GetBodyAsWritten(bodies, index)
  {
  }

  // ------------------------------------------------- positional correction

  /** The positional correction of FlatWorld.Step: a static body stays put
      and the other moves by the whole depth; two dynamic bodies move half
      of it each, apart along the normal. */
  function Separate(a: Body, b: Body, normal: FlatVector, depth: real): (Body, Body)
  {
    if a.isStatic then (a, MoveBody(b, Scale(normal, depth)))
    else if b.isStatic then (MoveBody(a, Scale(Negate(normal), depth)), b)
    else (MoveBody(a, Divide(Scale(Negate(normal), depth), 2.0)), MoveBody(b, Divide(Scale(normal, depth), 2.0)))
  }

  /** In every branch the offset from A to B grows by exactly normal * depth,
      only positions change, and a static body is never moved. */
  lemma SeparationShiftsOffset(a: Body, b: Body, normal: FlatVector, depth: real)
    requires !(a.isStatic && b.isStatic)
    ensures var r := Separate(a, b, normal, depth);
      && Subtract(r.1.position, r.0.position) == Add(Subtract(b.position, a.position), Scale(normal, depth))
      && r.0 == MoveBodyTo(a, r.0.position) && r.1 == MoveBodyTo(b, r.1.position)
      && (a.isStatic ==> r.0 == a)
      && (b.isStatic ==> r.1 == b)
  {
  }

  // -------------------------------------------------------------- impulse

  /** FlatWorld.ResolveCollision on the two bodies' states: nothing when they
      already separate along the normal, otherwise an impulse along the
      normal scaled by each body's inverse mass. */
  function ResolveVelocities(a: Body, b: Body, normal: FlatVector): (Body, Body)
    requires Dot(Subtract(b.linearVelocity, a.linearVelocity), normal) <= 0.0 ==> a.invMass + b.invMass != 0.0
  {
    if Dot(Subtract(b.linearVelocity, a.linearVelocity), normal) > 0.0 then (a, b)
    else ApplyImpulse(a, b, normal, Impulse(a, b, normal))
  }

  /** The impulse magnitude j of ResolveVelocities: the relative velocity
      along the normal, reversed and scaled by one plus the smaller
      restitution, over the sum of the inverse masses. */
  function Impulse(a: Body, b: Body, normal: FlatVector): real
    requires a.invMass + b.invMass != 0.0
  {
    -(1.0 + Min(a.restitution, b.restitution)) * Dot(Subtract(b.linearVelocity, a.linearVelocity), normal) / (a.invMass + b.invMass)
  }

  /** An impulse of magnitude j along the normal, taken from A and given to
      B, each scaled by the body's inverse mass. The source multiplies a
      scalar by a vector, which here is the vector-scalar product. */
  function ApplyImpulse(a: Body, b: Body, normal: FlatVector, j: real): (Body, Body)
  {
    var impulse := Scale(normal, j);
    (AccelerateBody(a, Subtract(a.linearVelocity, Scale(impulse, a.invMass))),
     AccelerateBody(b, Add(b.linearVelocity, Scale(impulse, b.invMass))))
  }

  /** Only velocities change, and not at all for separating bodies. */
  lemma ResolveChangesOnlyVelocities(a: Body, b: Body, normal: FlatVector)
    requires Dot(Subtract(b.linearVelocity, a.linearVelocity), normal) <= 0.0 ==> a.invMass + b.invMass != 0.0
    ensures var r := ResolveVelocities(a, b, normal);
      && r.0 == AccelerateBody(a, r.0.linearVelocity) && r.1 == AccelerateBody(b, r.1.linearVelocity)
      && (Dot(Subtract(b.linearVelocity, a.linearVelocity), normal) > 0.0 ==> r == (a, b))
  {
  }

  /** Equal and opposite impulses: two dynamic bodies keep their total
      momentum, and a static body keeps its velocity. */
  lemma MomentumConserved(a: Body, b: Body, normal: FlatVector)
    requires WellFormed(a) && WellFormed(b) && !(a.isStatic && b.isStatic)
    ensures a.invMass + b.invMass > 0.0
    ensures var r := ResolveVelocities(a, b, normal);
      && (!a.isStatic && !b.isStatic ==>
            Add(Scale(Subtract(r.0.linearVelocity, a.linearVelocity), a.mass),
                Scale(Subtract(r.1.linearVelocity, b.linearVelocity), b.mass)) == Zero)
      && (a.isStatic ==> r.0 == a)
      && (b.isStatic ==> r.1 == b)
  {
    InverseMassSum(a, b);
    if Dot(Subtract(b.linearVelocity, a.linearVelocity), normal) <= 0.0 {
      var j := Impulse(a, b, normal);
      var impulse := Scale(normal, j);
      if !a.isStatic && !b.isStatic {
        MassTimesInverse(a.mass);
        MassTimesInverse(b.mass);
        ImpulseKeepsMomentum(a, b, normal, j);
      }
      if a.isStatic {
        ScaleByZero(impulse);
      }
      if b.isStatic {
        ScaleByZero(impulse);
      }
    }
  }

  lemma ImpulseKeepsMomentum(a: Body, b: Body, normal: FlatVector, j: real)
    requires a.mass * a.invMass == 1.0 && b.mass * b.invMass == 1.0
    ensures var r := ApplyImpulse(a, b, normal, j);
      Add(Scale(Subtract(r.0.linearVelocity, a.linearVelocity), a.mass),
          Scale(Subtract(r.1.linearVelocity, b.linearVelocity), b.mass)) == Zero
  {
    var impulse := Scale(normal, j);
    BalancedChange(impulse.X, a.mass, a.invMass, b.mass, b.invMass, a.linearVelocity.X, b.linearVelocity.X);
    BalancedChange(impulse.Y, a.mass, a.invMass, b.mass, b.invMass, a.linearVelocity.Y, b.linearVelocity.Y);
  }

  /** Two well-formed bodies that are not both static have a positive sum of
      inverse masses, so the impulse is defined. */
  lemma InverseMassSum(a: Body, b: Body)
    requires WellFormed(a) && WellFormed(b) && !(a.isStatic && b.isStatic)
    ensures a.invMass >= 0.0 && b.invMass >= 0.0 && a.invMass + b.invMass > 0.0
  {
    if !a.isStatic {
      InverseOfPositive(a.mass);
    }
    if !b.isStatic {
      InverseOfPositive(b.mass);
    }
  }

  lemma InverseOfPositive(m: real)
    requires m > 0.0
    ensures 1.0 / m > 0.0
  {
  }

  lemma MassTimesInverse(m: real)
    requires m > 0.0
    ensures m * (1.0 / m) == 1.0
  {
  }

  lemma BalancedChange(x: real, ma: real, ia: real, mb: real, ib: real, va: real, vb: real)
    requires ma * ia == 1.0 && mb * ib == 1.0
    ensures ((va - x * ia) - va) * ma + ((vb + x * ib) - vb) * mb == 0.0
  {
    assert ((va - x * ia) - va) * ma == -(x * (ma * ia));
    assert ((vb + x * ib) - vb) * mb == x * (mb * ib);
  }

  lemma ScaleByZero(v: FlatVector)
    ensures Scale(v, 0.0) == Zero
  {
  }

  /** With a unit normal the relative velocity along the normal after the
      impulse is the restitution (the smaller of the two) times the one
      before, reversed. */
  lemma RestitutionLaw(a: Body, b: Body, normal: FlatVector)
    requires LengthSquared(normal) == 1.0
    requires Dot(Subtract(b.linearVelocity, a.linearVelocity), normal) <= 0.0
    requires a.invMass + b.invMass != 0.0
    ensures var r := ResolveVelocities(a, b, normal);
      Dot(Subtract(r.1.linearVelocity, r.0.linearVelocity), normal)
        == -Min(a.restitution, b.restitution) * Dot(Subtract(b.linearVelocity, a.linearVelocity), normal)
  {
    var j := Impulse(a, b, normal);
    var d := Dot(Subtract(b.linearVelocity, a.linearVelocity), normal);
    var s := a.invMass + b.invMass;
    RelativeChange(a.linearVelocity, b.linearVelocity, normal, j, a.invMass, b.invMass);
    ImpulseCancels(d, Min(a.restitution, b.restitution), s);
  }

  /** The relative velocity along n after opposite kicks of j n scaled by
      ia and ib. */
  lemma RelativeChange(va: FlatVector, vb: FlatVector, n: FlatVector, j: real, ia: real, ib: real)
    requires LengthSquared(n) == 1.0
    ensures Dot(Subtract(Add(vb, Scale(Scale(n, j), ib)), Subtract(va, Scale(Scale(n, j), ia))), n)
         == Dot(Subtract(vb, va), n) + (ia + ib) * j
  {
    assert Dot(Subtract(Add(vb, Scale(Scale(n, j), ib)), Subtract(va, Scale(Scale(n, j), ia))), n)
        == Dot(Subtract(vb, va), n) + (ia + ib) * j * LengthSquared(n);
  }

  lemma ImpulseCancels(d: real, e: real, s: real)
    requires s != 0.0
    ensures d + s * (-(1.0 + e) * d / s) == -e * d
  {
    var q := -(1.0 + e) * d / s;
    assert s * q == -(1.0 + e) * d;
  }

  // ---------------------------------------------------------------- pairs

  /** The pairs (i, j) the inner collision loop visits for row i: j from
      i + 1 up to n - 1. */
  function Row(i: nat, n: nat): seq<(int, int)>
  {
    seq(if i < n then n - i - 1 else 0, k => (i, i + 1 + k))
  }

  /** The pairs of the first `rows` rows, in loop order. */
  function Pairs(n: nat, rows: nat): seq<(int, int)>
  {
    if rows == 0 then [] else Pairs(n, rows - 1) + Row(rows - 1, n)
  }

  /** The number of rows the outer collision loop runs for n bodies: one
      for each body but the last. */
  function RowCount(n: nat): nat
  {
    if n == 0 then 0 else n - 1
  }

  /** The pairs FlatWorld.Step visits: rows 0 to Count - 2. */
  function StepPairs(n: nat): seq<(int, int)>
  {
    Pairs(n, RowCount(n))
  }

  predicate PairsBelow(pairs: seq<(int, int)>, n: int)
  {
    forall k :: 0 <= k < |pairs| ==> 0 <= pairs[k].0 < pairs[k].1 < n
  }

  /** Lexicographic order on pairs. */
  predicate Before(p: (int, int), q: (int, int))
  {
    p.0 < q.0 || (p.0 == q.0 && p.1 < q.1)
  }

  /** The first `rows` rows hold pairs i < j < n with i below `rows`. */
  lemma {:induction false} PairsBounded(n: nat, rows: nat)
    requires rows <= n
    ensures forall k :: 0 <= k < |Pairs(n, rows)| ==>
      0 <= Pairs(n, rows)[k].0 < rows && Pairs(n, rows)[k].0 < Pairs(n, rows)[k].1 < n
  {
    if rows > 0 {
      PairsBounded(n, rows - 1);
      var before, row := Pairs(n, rows - 1), Row(rows - 1, n);
      var pairs := before + row;
      assert Pairs(n, rows) == pairs;
      forall k | 0 <= k < |pairs|
        ensures 0 <= pairs[k].0 < rows && pairs[k].0 < pairs[k].1 < n
      {
        if k < |before| {
          assert pairs[k] == before[k];
        } else {
          assert pairs[k] == row[k - |before|];
        }
      }
    }
  }

  /** The first `rows` rows hold every pair i < j < n with i below `rows`. */
  lemma {:induction false} PairsCover(n: nat, rows: nat)
    requires rows <= n
    ensures forall i, j :: 0 <= i < rows && i < j < n ==> (i, j) in Pairs(n, rows)
  {
    if rows > 0 {
      PairsCover(n, rows - 1);
      var before, row := Pairs(n, rows - 1), Row(rows - 1, n);
      var pairs := before + row;
      assert Pairs(n, rows) == pairs;
      forall i, j | 0 <= i < rows && i < j < n
        ensures (i, j) in pairs
      {
        if i < rows - 1 {
          assert (i, j) in before;
        } else {
          assert row[j - i - 1] == (i, j);
        }
      }
    }
  }

  /** The first `rows` rows come in lexicographic order. */
  lemma {:induction false} PairsSorted(n: nat, rows: nat)
    requires rows <= n
    ensures forall k, l :: 0 <= k < l < |Pairs(n, rows)| ==> Before(Pairs(n, rows)[k], Pairs(n, rows)[l])
  {
    if rows > 0 {
      PairsSorted(n, rows - 1);
      PairsBounded(n, rows - 1);
      var before, row := Pairs(n, rows - 1), Row(rows - 1, n);
      var pairs := before + row;
      assert Pairs(n, rows) == pairs;
      forall k, l | 0 <= k < l < |pairs|
        ensures Before(pairs[k], pairs[l])
      {
        if l < |before| {
          assert pairs[k] == before[k] && pairs[l] == before[l];
        } else if k < |before| {
          assert pairs[k] == before[k] && pairs[l] == row[l - |before|];
        } else {
          assert pairs[k] == row[k - |before|] && pairs[l] == row[l - |before|];
        }
      }
    }
  }

  /** The collision loops visit every pair i < j exactly once, in
      lexicographic order, and nothing else. */
  lemma StepVisitsEachPairOnce(n: nat)
    ensures PairsBelow(StepPairs(n), n)
    ensures forall i, j :: 0 <= i < j < n ==> (i, j) in StepPairs(n)
    ensures forall k, l :: 0 <= k < l < |StepPairs(n)| ==> Before(StepPairs(n)[k], StepPairs(n)[l])
    ensures forall k, l :: 0 <= k < l < |StepPairs(n)| ==> StepPairs(n)[k] != StepPairs(n)[l]
  {
    var rows := RowCount(n);
    PairsBounded(n, rows);
    PairsCover(n, rows);
    PairsSorted(n, rows);
  }

  // ----------------------------------------------------------------- folds

  /** The work of a loop over pairs, in order: `step` applied to each pair
      (i, j) of `pairs` in turn. */
  function FoldPairs<S>(s: S, pairs: seq<(int, int)>, step: (S, int, int) -> S): S
  {
    if |pairs| == 0 then s
    else
      var p := pairs[|pairs| - 1];
      step(FoldPairs(s, pairs[..|pairs| - 1], step), p.0, p.1)
  }

  /** The inner collision loop: row i, from pair (i, i + 1) up to pair
      (i, j - 1). */
  function FoldRowUpTo<S>(s: S, i: int, j: int, step: (S, int, int) -> S): S
    decreases j - i
  {
    if j <= i + 1 then s else step(FoldRowUpTo(s, i, j - 1, step), i, j - 1)
  }

  /** The outer collision loop: the first `rows` rows of n bodies. */
  function FoldRows<S>(s: S, n: int, rows: int, step: (S, int, int) -> S): S
    decreases rows
  {
    if rows <= 0 then s else FoldRowUpTo(FoldRows(s, n, rows - 1, step), rows - 1, n, step)
  }

  /** Folding with two steps that agree everywhere gives the same result. */
  lemma {:induction false} FoldPairsCongruent<S>(s: S, pairs: seq<(int, int)>, f: (S, int, int) -> S, g: (S, int, int) -> S)
    requires forall t, i, j :: f(t, i, j) == g(t, i, j)
    ensures FoldPairs(s, pairs, f) == FoldPairs(s, pairs, g)
  {
    if |pairs| > 0 {
      FoldPairsCongruent(s, pairs[..|pairs| - 1], f, g);
    }
  }

  /** Folding over two runs of pairs is folding over the first, then over
      the second. */
  lemma {:induction false} FoldPairsConcat<S>(s: S, ps: seq<(int, int)>, qs: seq<(int, int)>, step: (S, int, int) -> S)
    ensures FoldPairs(s, ps + qs, step) == FoldPairs(FoldPairs(s, ps, step), qs, step)
  {
    if |qs| == 0 {
      assert ps + qs == ps;
    } else {
      var front := qs[..|qs| - 1];
      assert (ps + qs)[..|ps + qs| - 1] == ps + front;
      assert (ps + qs)[|ps + qs| - 1] == qs[|qs| - 1];
      FoldPairsConcat(s, ps, front, step);
    }
  }

  /** The inner loop visits the first j - i - 1 pairs of row i, in order. */
  lemma {:induction false} FoldRowIsFoldPairs<S>(s: S, i: nat, n: nat, j: int, step: (S, int, int) -> S)
    requires i < j <= n
    ensures FoldRowUpTo(s, i, j, step) == FoldPairs(s, Row(i, n)[..j - i - 1], step)
  {
    var row := Row(i, n)[..j - i - 1];
    if j == i + 1 {
      assert row == [];
    } else {
      FoldRowIsFoldPairs(s, i, n, j - 1, step);
      assert row[..|row| - 1] == Row(i, n)[..j - i - 2];
      assert row[|row| - 1] == (i, j - 1);
    }
  }

  /** The two collision loops visit exactly the pairs of Pairs, in order. */
  lemma {:induction false} FoldRowsIsFoldPairs<S>(s: S, n: nat, rows: nat, step: (S, int, int) -> S)
    requires rows <= n
    ensures FoldRows(s, n, rows, step) == FoldPairs(s, Pairs(n, rows), step)
  {
    if rows > 0 {
      FoldRowsIsFoldPairs(s, n, rows - 1, step);
      var before := FoldRows(s, n, rows - 1, step);
      FoldRowIsFoldPairs(before, rows - 1, n, n, step);
      assert Row(rows - 1, n)[..n - rows] == Row(rows - 1, n);
      FoldPairsConcat(s, Pairs(n, rows - 1), Row(rows - 1, n), step);
    }
  }

  // ----------------------------------------------------------------- step

  /** Body states that satisfy the factories' guarantees. */
  ghost predicate AllWellFormed(states: seq<Body>)
  {
    forall k :: 0 <= k < |states| ==> WellFormed(states[k])
  }

  /** One pair of the collision loop on the two bodies' states, given the
      outcome c of the collision test: skipped when both are static or they
      do not collide, otherwise separated and given an impulse. */
  function ResolvePair(a: Body, b: Body, c: CollisionResult): (r: (Body, Body))
    requires WellFormed(a) && WellFormed(b)
    ensures WellFormed(r.0) && WellFormed(r.1)
  {
    if a.isStatic && b.isStatic then (a, b)
    else if !c.hit then (a, b)
    else
      var moved := Separate(a, b, c.normal, c.depth);
      InverseMassSum(a, b);
      ResolveVelocities(moved.0, moved.1, c.normal)
  }

  /** A pair never changes a static body, whatever the collision test
      reports. */
  lemma ResolvePairKeepsStatic(a: Body, b: Body, c: CollisionResult)
    requires WellFormed(a) && WellFormed(b)
    ensures a.isStatic ==> ResolvePair(a, b, c).0 == a
    ensures b.isStatic ==> ResolvePair(a, b, c).1 == b
  {
    if !(a.isStatic && b.isStatic) && c.hit {
      var moved := Separate(a, b, c.normal, c.depth);
      SeparationShiftsOffset(a, b, c.normal, c.depth);
      MutatorsKeepWellFormed(a, moved.0.position, 0.0, 0.0, Zero, 1);
      MutatorsKeepWellFormed(b, moved.1.position, 0.0, 0.0, Zero, 1);
      MomentumConserved(moved.0, moved.1, c.normal);
    }
  }

  /** The pair step with FlatWorld.Collide as the collision test. */
  ghost function ResolveBodies(a: Body, b: Body): (r: (Body, Body))
    requires WellFormed(a) && WellFormed(b)
    ensures WellFormed(r.0) && WellFormed(r.1)
  {
    ResolvePair(a, b, CollideBodies(a, b))
  }

  /** The pair step as a value, so the collision loops can be stated
      without unfolding the physics of every pair. */
  type PairResolver = (Body, Body) -> (Body, Body)

  /** A resolver that agrees with ResolveBodies on well-formed bodies. The
      trigger keeps the agreement out of sight until ResolveBodies itself is
      mentioned. */
  ghost predicate IsPairResolver(resolve: PairResolver)
  {
    forall a, b {:trigger ResolveBodies(a, b)} :: WellFormed(a) && WellFormed(b) ==> resolve(a, b) == ResolveBodies(a, b)
  }

  /** The resolver every world uses. */
  ghost function PairResolution(a: Body, b: Body): (Body, Body)
  {
    if WellFormed(a) && WellFormed(b) then ResolveBodies(a, b) else (a, b)
  }

  lemma PairResolutionIsPairResolver()
    ensures IsPairResolver(PairResolution)
  {
  }

  /** The pair step on the whole list, applied when both bodies are well
      formed (as every body of a world is): only the two bodies of the pair
      change. */
  ghost function CollisionStep(states: seq<Body>, i: int, j: int, resolve: PairResolver): (r: seq<Body>)
    ensures |r| == |states|
    ensures forall k :: 0 <= k < |r| && k != i && k != j ==> r[k] == states[k]
  {
    if 0 <= i < j < |states| && WellFormed(states[i]) && WellFormed(states[j]) then
      var resolved := resolve(states[i], states[j]);
      states[i := resolved.0][j := resolved.1]
    else states
  }

  ghost function CollisionRule(resolve: PairResolver): (seq<Body>, int, int) -> seq<Body>
  {
    (states, i, j) => CollisionStep(states, i, j, resolve)
  }

  /** `rule` takes the pair step of `resolve` on every list of states. */
  ghost predicate IsCollisionRule(rule: (seq<Body>, int, int) -> seq<Body>, resolve: PairResolver)
  {
    forall states, i, j {:trigger CollisionStep(states, i, j, resolve)} ::
      rule(states, i, j) == CollisionStep(states, i, j, resolve)
  }

  /** The collision loops over a list of pairs, in order. */
  ghost function CollidePairs(states: seq<Body>, pairs: seq<(int, int)>, resolve: PairResolver): seq<Body>
  {
    FoldPairs(states, pairs, CollisionRule(resolve))
  }

  lemma CollisionStepKeepsWellFormed(states: seq<Body>, i: int, j: int, resolve: PairResolver)
    requires IsPairResolver(resolve) && AllWellFormed(states)
    ensures AllWellFormed(CollisionStep(states, i, j, resolve))
  {
    if 0 <= i < j < |states| {
      var r := ResolveBodies(states[i], states[j]);
    }
  }

  /** Colliding keeps the number of bodies and their well-formedness. */
  lemma {:induction false} CollidePairsKeepsWellFormed(states: seq<Body>, pairs: seq<(int, int)>, resolve: PairResolver)
    requires IsPairResolver(resolve) && AllWellFormed(states)
    ensures |CollidePairs(states, pairs, resolve)| == |states|
    ensures AllWellFormed(CollidePairs(states, pairs, resolve))
  {
    if |pairs| > 0 {
      var front := pairs[..|pairs| - 1];
      CollidePairsKeepsWellFormed(states, front, resolve);
      var p := pairs[|pairs| - 1];
      var before := CollidePairs(states, front, resolve);
      assert CollidePairs(states, pairs, resolve) == CollisionStep(before, p.0, p.1, resolve);
      CollisionStepKeepsWellFormed(before, p.0, p.1, resolve);
    }
  }

  /** Any two resolvers that agree with ResolveBodies give the same
      collision loops, so the parameter decides nothing. */
  lemma {:induction false} CollidePairsIsDetermined(states: seq<Body>, pairs: seq<(int, int)>, r1: PairResolver, r2: PairResolver)
    requires IsPairResolver(r1) && IsPairResolver(r2)
    ensures CollidePairs(states, pairs, r1) == CollidePairs(states, pairs, r2)
  {
    if |pairs| > 0 {
      var front := pairs[..|pairs| - 1];
      CollidePairsIsDetermined(states, front, r1, r2);
      var p := pairs[|pairs| - 1];
      var before := CollidePairs(states, front, r1);
      assert CollidePairs(states, pairs, r1) == CollisionStep(before, p.0, p.1, r1);
      assert CollidePairs(states, pairs, r2) == CollisionStep(before, p.0, p.1, r2);
      if 0 <= p.0 < p.1 < |before| && WellFormed(before[p.0]) && WellFormed(before[p.1]) {
        var r := ResolveBodies(before[p.0], before[p.1]);
      }
    }
  }

  /** The movement loop: every body takes one step of the whole time with
      one iteration. */
  function StepAll(states: seq<Body>, time: real, gravity: FlatVector): (r: seq<Body>)
    ensures |r| == |states|
  {
    seq(|states|, k requires 0 <= k < |states| => StepBody(states[k], time, gravity, 1))
  }

  lemma StepAllKeepsWellFormed(states: seq<Body>, time: real, gravity: FlatVector)
    requires AllWellFormed(states)
    ensures AllWellFormed(StepAll(states, time, gravity))
  {
    forall k | 0 <= k < |states|
      ensures WellFormed(StepAll(states, time, gravity)[k])
    {
      MutatorsKeepWellFormed(states[k], Zero, 0.0, time, gravity, 1);
    }
  }

  /** FlatWorld.Step on the bodies' states: the movement loop, then the
      collision loops over every pair, with `resolve` as the pair step
      (PairResolution in every world). */
  ghost function WorldStep(states: seq<Body>, time: real, gravity: FlatVector, resolve: PairResolver): seq<Body>
  {
    CollidePairs(StepAll(states, time, gravity), StepPairs(|states|), resolve)
  }

  /** The movement loop followed by the two collision loops is the world
      step. */
  lemma RowsMakeWorldStep(states: seq<Body>, time: real, gravity: FlatVector, resolve: PairResolver, rule: (seq<Body>, int, int) -> seq<Body>)
    requires IsCollisionRule(rule, resolve)
    ensures WorldStep(states, time, gravity, resolve)
      == FoldRows(StepAll(states, time, gravity), |states|, RowCount(|states|), rule)
  {
    var n := |states|;
    FoldRowsIsFoldPairs(StepAll(states, time, gravity), n, RowCount(n), rule);
    FoldPairsCongruent(StepAll(states, time, gravity), StepPairs(n), rule, CollisionRule(resolve));
  }

  /** A step keeps every body and its well-formedness. */
  lemma WorldStepKeepsWellFormed(states: seq<Body>, time: real, gravity: FlatVector, resolve: PairResolver)
    requires IsPairResolver(resolve) && AllWellFormed(states)
    ensures |WorldStep(states, time, gravity, resolve)| == |states|
    ensures AllWellFormed(WorldStep(states, time, gravity, resolve))
  {
    StepAllKeepsWellFormed(states, time, gravity);
    CollidePairsKeepsWellFormed(StepAll(states, time, gravity), StepPairs(|states|), resolve);
  }

  lemma {:induction false} CollidePairsKeepsStatic(states: seq<Body>, pairs: seq<(int, int)>, resolve: PairResolver, k: int)
    requires IsPairResolver(resolve)
    requires 0 <= k < |states| && states[k].isStatic
    ensures |CollidePairs(states, pairs, resolve)| == |states|
    ensures CollidePairs(states, pairs, resolve)[k] == states[k]
  {
    if |pairs| > 0 {
      var front := pairs[..|pairs| - 1];
      CollidePairsKeepsStatic(states, front, resolve, k);
      var p := pairs[|pairs| - 1];
      var before := CollidePairs(states, front, resolve);
      assert CollidePairs(states, pairs, resolve) == CollisionStep(before, p.0, p.1, resolve);
      if 0 <= p.0 < p.1 < |before| && WellFormed(before[p.0]) && WellFormed(before[p.1]) {
        var a, b := before[p.0], before[p.1];
        assert ResolveBodies(a, b) == ResolvePair(a, b, CollideBodies(a, b));
        ResolvePairKeepsStatic(a, b, CollideBodies(a, b));
      }
    }
  }

  /** A static body ends a world step exactly as it started. */
  lemma StaticBodiesStayPut(states: seq<Body>, time: real, gravity: FlatVector, resolve: PairResolver, k: int)
    requires IsPairResolver(resolve)
    requires 0 <= k < |states| && states[k].isStatic
    ensures |WorldStep(states, time, gravity, resolve)| == |states|
    ensures WorldStep(states, time, gravity, resolve)[k] == states[k]
  {
    CollidePairsKeepsStatic(StepAll(states, time, gravity), StepPairs(|states|), resolve, k);
  }

  /** The world: an ordered list of bodies and the gravity they fall under. */
  class FlatWorld {
    var bodyList: seq<FlatBody>
    const gravity: FlatVector
    /** The pair step of the collision loops, as a value. */
    ghost const resolve: PairResolver
    /** The same step on the whole list of states. */
    ghost const rule: (seq<Body>, int, int) -> seq<Body>

    constructor ()
      ensures bodyList == [] && gravity == DefaultGravity && resolve == PairResolution
      ensures Valid() && Distinct()
    {
      bodyList := [];
      gravity := DefaultGravity;
      resolve := PairResolution;
      rule := CollisionRule(PairResolution);
      PairResolutionIsPairResolver();
    }

    function BodyCount(): (r: int)
      reads this
      ensures r == |bodyList|
    {
      |bodyList|
    }

    /** The bodies and their vertex caches. */
    ghost function Repr(): set<object?>
      reads this
    {
      (set b | b in bodyList :: b as object?) + (set b | b in bodyList :: b.transformedVertices as object?)
    }

    /** Every body keeps its own invariant, and the pair step is
        ResolveBodies. */
    ghost predicate Valid()
      reads this, set b | b in bodyList, set b | b in bodyList :: b.transformedVertices
    {
      && IsPairResolver(resolve)
      && IsCollisionRule(rule, resolve)
      && forall k :: 0 <= k < |bodyList| ==> bodyList[k].Valid()
    }

    /** No body is listed twice and no two bodies share a vertex cache. */
    ghost predicate Distinct()
      reads this
    {
      forall k, l :: 0 <= k < l < |bodyList| ==>
        && bodyList[k] != bodyList[l]
        && (bodyList[k].transformedVertices != null ==>
              bodyList[k].transformedVertices != bodyList[l].transformedVertices)
    }

    /** The bodies' states, in list order. */
    function States(): (r: seq<Body>)
      reads this, set b | b in bodyList
      ensures |r| == |bodyList|
    {
      seq(|bodyList|, k reads this, set b | b in bodyList requires 0 <= k < |bodyList| => bodyList[k].State())
    }

    method AddBody(body: FlatBody)
      modifies this
      ensures bodyList == old(bodyList) + [body]
      ensures old(Valid()) && body.Valid() ==> Valid()
      ensures old(Distinct()) && body !in old(bodyList)
              && (body.transformedVertices != null ==>
                    forall b :: b in old(bodyList) ==> b.transformedVertices != body.transformedVertices)
              ==> Distinct()
    {
      bodyList := bodyList + [body];
    }

    /** List.Remove: the first occurrence goes, and the answer says whether
        there was one. */
    method RemoveBody(body: FlatBody) returns (removed: bool)
      modifies this
      ensures removed <==> body in old(bodyList)
      ensures bodyList == RemoveFirst(old(bodyList), body)
      ensures old(Valid() && Distinct()) ==> Valid() && Distinct()
    {
      var i := IndexOf(bodyList, body);
      removed := i != -1;
      if removed {
        ghost var before := bodyList;
        bodyList := bodyList[..i] + bodyList[i + 1..];
        assert forall k :: 0 <= k < |bodyList| ==> bodyList[k] == before[if k < i then k else k + 1];
      }
    }

    /** GetBody with the corrected guard: the body at an index in range. */
    method GetBody(index: int) returns (ok: bool, body: FlatBody?)
      ensures ok <==> GetBodyCorrected(bodyList, index).Found?
      ensures ok ==> body == GetBodyCorrected(bodyList, index).body
      ensures !ok ==> body == null
    {
      body := null;
      if index < 0 || index >= |bodyList| {
        return false, body;
      }
      body := bodyList[index];
      return true, body;
    }

    /** The movement loop: each body steps once over the whole time. */
    method StepBodies(time: real)
      requires Valid() && Distinct()
      modifies set b | b in bodyList
      ensures Valid()
      ensures States() == StepAll(old(States()), time, gravity)
    {
      for i := 0 to |bodyList|
        invariant Valid()
        invariant forall k :: 0 <= k < i ==> bodyList[k].State() == StepBody(old(bodyList[k].State()), time, gravity, 1)
        invariant forall k :: i <= k < |bodyList| ==> bodyList[k].State() == old(bodyList[k].State())
      {
        bodyList[i].Step(time, gravity, 1);
      }
    }

    /** The impulse exchange of one colliding pair; only the two velocities
        change. */
    method ResolveCollision(bodyA: FlatBody, bodyB: FlatBody, normal: FlatVector, depth: real)
      requires bodyA.Valid() && bodyB.Valid() && bodyA != bodyB
      requires Dot(Subtract(bodyB.linearVelocity, bodyA.linearVelocity), normal) <= 0.0 ==> bodyA.InvMass + bodyB.InvMass != 0.0
      modifies bodyA, bodyB
      ensures bodyA.Valid() && bodyB.Valid()
      ensures (bodyA.State(), bodyB.State()) == ResolveVelocities(old(bodyA.State()), old(bodyB.State()), normal)
    {
      ghost var a0, b0 := bodyA.State(), bodyB.State();
      var relativeVelocity := Subtract(bodyB.linearVelocity, bodyA.linearVelocity);
      if Dot(relativeVelocity, normal) > 0.0 {
        return;
      }
      var e := Min(bodyA.Restitution, bodyB.Restitution);
      var j := -(1.0 + e) * Dot(relativeVelocity, normal);
      j := j / (bodyA.InvMass + bodyB.InvMass);
      var impulse := Scale(normal, j);
      assert relativeVelocity == Subtract(b0.linearVelocity, a0.linearVelocity);
      assert e == Min(a0.restitution, b0.restitution);
      assert bodyA.InvMass + bodyB.InvMass == a0.invMass + b0.invMass;
      assert j == Impulse(a0, b0, normal);
      ghost var r := ApplyImpulse(a0, b0, normal, j);
      bodyA.SetLinearVelocity(Subtract(bodyA.linearVelocity, Scale(impulse, bodyA.InvMass)));
      assert bodyA.State() == r.0;
      bodyB.SetLinearVelocity(Add(bodyB.linearVelocity, Scale(impulse, bodyB.InvMass)));
      assert bodyB.State() == r.1;
    }

    /** The separation step of a colliding pair: a static body stays put,
        otherwise the bodies share the push apart. */
    method SeparateBodies(bodyA: FlatBody, bodyB: FlatBody, normal: FlatVector, depth: real)
      requires bodyA.Valid() && bodyB.Valid() && bodyA != bodyB
      modifies bodyA, bodyB
      ensures bodyA.Valid() && bodyB.Valid()
      ensures (bodyA.State(), bodyB.State()) == Separate(old(bodyA.State()), old(bodyB.State()), normal, depth)
    {
      if bodyA.IsStatic {
        bodyB.Move(Scale(normal, depth));
      } else if bodyB.IsStatic {
        bodyA.Move(Scale(Negate(normal), depth));
      } else {
        bodyA.Move(Divide(Scale(Negate(normal), depth), 2.0));
        bodyB.Move(Divide(Scale(normal, depth), 2.0));
      }
    }

    /** One pair of the collision loop, on the two bodies. */
    method SolveBodies(bodyA: FlatBody, bodyB: FlatBody)
      requires bodyA.Valid() && bodyB.Valid() && bodyA != bodyB
      requires bodyA.transformedVertices != null ==> bodyA.transformedVertices != bodyB.transformedVertices
      requires IsPairResolver(resolve)
      modifies bodyA, bodyA.transformedVertices, bodyB, bodyB.transformedVertices
      ensures bodyA.Valid() && bodyB.Valid()
      ensures (bodyA.State(), bodyB.State()) == resolve(old(bodyA.State()), old(bodyB.State()))
    {
      ghost var a0, b0 := bodyA.State(), bodyB.State();
      if !(bodyA.IsStatic && bodyB.IsStatic) {
        var hit, normal, depth := Collide(bodyA, bodyB);
        if hit {
          SeparateBodies(bodyA, bodyB, normal, depth);
          InverseMassSum(bodyA.State(), bodyB.State());
          ResolveCollision(bodyA, bodyB, normal, depth);
        }
      }
      assert (bodyA.State(), bodyB.State()) == ResolveBodies(a0, b0);
    }

    /** One pair of the collision loop, on the list. */
    method SolvePair(i: int, j: int)
      requires 0 <= i < j < |bodyList| && Valid() && Distinct()
      modifies Repr()
      ensures Valid()
      ensures States() == rule(old(States()), i, j)
    {
      ghost var before := States();
      var bodyA, bodyB := bodyList[i], bodyList[j];
      assert bodyA in bodyList && bodyB in bodyList;
      assert {bodyA, bodyB} <= Repr() && {bodyA.transformedVertices, bodyB.transformedVertices} <= Repr();
      SolveBodies(bodyA, bodyB);
      forall k | 0 <= k < |bodyList| && k != i && k != j
        ensures bodyList[k].Valid() && bodyList[k].State() == before[k]
      {
        assert bodyList[k] != bodyA && bodyList[k] != bodyB;
        assert bodyList[k].transformedVertices != null ==>
          bodyList[k].transformedVertices != bodyA.transformedVertices && bodyList[k].transformedVertices != bodyB.transformedVertices;
      }
      assert States() == CollisionStep(before, i, j, resolve);
    }

    /** The inner collision loop: body i against every later body. */
    method CollideRow(i: int)
      requires 0 <= i < |bodyList| && Valid() && Distinct()
      modifies Repr()
      ensures Valid()
      ensures States() == FoldRowUpTo(old(States()), i, |bodyList|, rule)
    {
      ghost var start := States();
      for j := i + 1 to |bodyList|
        invariant Valid()
        invariant States() == FoldRowUpTo(start, i, j, rule)
      {
        SolvePair(i, j);
      }
    }

    /** The outer collision loop: every row of pairs, in list order. */
    method CollideAll()
      requires Valid() && Distinct()
      modifies Repr()
      ensures Valid()
      ensures States() == FoldRows(old(States()), |bodyList|, RowCount(|bodyList|), rule)
    {
      ghost var start := States();
      for i := 0 to RowCount(|bodyList|)
        invariant Valid()
        invariant States() == FoldRows(start, |bodyList|, i, rule)
      {
        CollideRow(i);
      }
    }

    /** FlatWorld.Step: every body moves, then every pair of bodies, in list
        order, is separated and given an impulse when it collides. */
    method Step(time: real)
      requires Valid() && Distinct()
      modifies Repr()
      ensures Valid()
      ensures States() == WorldStep(old(States()), time, gravity, resolve)
    {
      StepBodies(time);
      CollideAll();
      RowsMakeWorldStep(old(States()), time, gravity, resolve, rule);
    }
  }
}
