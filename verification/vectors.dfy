/** Order facts about products of reals, named so that proofs can call for them. */
module RealMath {
  /** Multiplication under a name, so that a proof that needs only linear facts can hide it. */
  function Times(x: real, y: real): real {
    x * y
  }

  lemma MulPositive(x: real, y: real)
    requires x > 0.0 && y > 0.0
    ensures x * y > 0.0
  {}

  lemma MulNonNegative(x: real, y: real)
    requires x >= 0.0 && y >= 0.0
    ensures x * y >= 0.0
  {}

  lemma SquareNonNegative(x: real)
    ensures x * x >= 0.0
  {}

  lemma MulMonotone(x: real, y: real, k: real)
    requires x <= y && k >= 0.0
    ensures x * k <= y * k
  {
    MulNonNegative(y - x, k);
    assert (y - x) * k == y * k - x * k;
  }

  lemma MulStrict(x: real, y: real, k: real)
    requires x < y && k > 0.0
    ensures x * k < y * k
  {
    MulPositive(y - x, k);
    assert (y - x) * k == y * k - x * k;
  }

  lemma MulStrictBoth(x: real, y: real)
    requires 0.0 <= y < x
    ensures y * y < x * x
  {
    MulPositive(x - y, x + y);
    assert (x - y) * (x + y) == x * x - y * y;
  }

  lemma CancelRight(x: real, y: real, k: real)
    requires k > 0.0 && x * k <= y * k
    ensures x <= y
  {
    if y < x {
      MulStrict(y, x, k);
      assert false;
    }
  }

  lemma DivMul(x: real, y: real)
    requires y != 0.0
    ensures (x / y) * y == x
  {}

  lemma SquareMonotone(x: real, y: real)
    requires 0.0 <= x <= y
    ensures x * x <= y * y
  {
    MulMonotone(x, y, x);
    MulMonotone(x, y, y);
  }

  lemma SquareOrder(x: real, y: real)
    requires x >= 0.0 && y >= 0.0
    ensures x > y <==> x * x > y * y
  {
    if x > y {
      MulStrictBoth(x, y);
    } else {
      SquareMonotone(x, y);
    }
  }
}

/** Real vectors: the arithmetic shared by the approximate-nearest-neighbour modules.
    The source computes in `f32`; every number here is a mathematical real. */
module Vectors {
  import opened RealMath

  type Vector = seq<real>

  function Dot(u: Vector, v: Vector): real
    requires |u| == |v|
  {
    if |u| == 0 then 0.0 else Times(u[0], v[0]) + Dot(u[1..], v[1..])
  }

  lemma DotStep(u: Vector, v: Vector)
    requires |u| == |v| > 0
    ensures Dot(u, v) == Times(u[0], v[0]) + Dot(u[1..], v[1..])
  {}

  function Sum(u: Vector): real {
    if |u| == 0 then 0.0 else u[0] + Sum(u[1..])
  }

  function Zero(dimension: nat): (r: Vector)
    ensures |r| == dimension
  {
    seq(dimension, i => 0.0)
  }

  function Add(u: Vector, v: Vector): (r: Vector)
    requires |u| == |v|
    ensures |r| == |u|
  {
    seq(|u|, i requires 0 <= i < |u| => u[i] + v[i])
  }

  function Sub(u: Vector, v: Vector): (r: Vector)
    requires |u| == |v|
    ensures |r| == |u|
  {
    seq(|u|, i requires 0 <= i < |u| => u[i] - v[i])
  }

  function Scale(c: real, u: Vector): (r: Vector)
    ensures |r| == |u|
  {
    seq(|u|, i requires 0 <= i < |u| => c * u[i])
  }

  function NormSquared(u: Vector): real {
    Dot(u, u)
  }

  /** Squared Euclidean distance, `squared_l2` in the source. */
  function SquaredL2(u: Vector, v: Vector): real
    requires |u| == |v|
  {
    NormSquared(Sub(u, v))
  }

  lemma {:induction false} NormNonNegative(u: Vector)
    ensures NormSquared(u) >= 0.0
  {
    if |u| != 0 {
      NormNonNegative(u[1..]);
    }
  }

  lemma {:induction false} DotCommutes(u: Vector, v: Vector)
    requires |u| == |v|
    ensures Dot(u, v) == Dot(v, u)
  {
    if |u| != 0 {
      DotCommutes(u[1..], v[1..]);
    }
  }

  lemma {:induction false} DotSub(u: Vector, v: Vector, w: Vector)
    requires |u| == |v| == |w|
    ensures Dot(u, Sub(v, w)) == Dot(u, v) - Dot(u, w)
  {
    if |u| != 0 {
      assert Sub(v, w)[1..] == Sub(v[1..], w[1..]);
      DotSub(u[1..], v[1..], w[1..]);
    }
  }

  lemma ScaleTail(c: real, u: Vector)
    requires |u| > 0
    ensures Scale(c, u)[1..] == Scale(c, u[1..])
  {
    forall i | 0 <= i < |u| - 1
      ensures Scale(c, u)[1..][i] == Scale(c, u[1..])[i]
    {
      assert u[1..][i] == u[i + 1];
    }
  }

  lemma {:induction false} DotScale(c: real, u: Vector, v: Vector)
    requires |u| == |v|
    ensures Dot(u, Scale(c, v)) == c * Dot(u, v)
  {
    if |u| != 0 {
      ScaleTail(c, v);
      DotScale(c, u[1..], v[1..]);
    }
  }

  /** |u - v|^2 = |u|^2 - 2<u,v> + |v|^2 */
  lemma {:induction false} SquaredL2Expand(u: Vector, v: Vector)
    requires |u| == |v|
    ensures SquaredL2(u, v) == NormSquared(u) - 2.0 * Dot(u, v) + NormSquared(v)
  {
    if |u| != 0 {
      assert Sub(u, v)[1..] == Sub(u[1..], v[1..]);
      SquaredL2Expand(u[1..], v[1..]);
    }
  }

  lemma {:induction false} SumSub(u: Vector, v: Vector)
    requires |u| == |v|
    ensures Sum(Sub(u, v)) == Sum(u) - Sum(v)
  {
    if |u| != 0 {
      assert Sub(u, v)[1..] == Sub(u[1..], v[1..]);
      SumSub(u[1..], v[1..]);
    }
  }

  lemma {:induction false} SumScale(c: real, u: Vector)
    ensures Sum(Scale(c, u)) == c * Sum(u)
  {
    if |u| != 0 {
      ScaleTail(c, u);
      SumScale(c, u[1..]);
    }
  }

  /** Changing one coordinate changes the dot product by that coordinate's share. */
  lemma {:induction false} DotUpdate(u: Vector, v: Vector, i: nat, x: real)
    requires |u| == |v| && i < |u|
    ensures Dot(u[i := x], v) == Dot(u, v) + (x - u[i]) * v[i]
  {
    if i == 0 {
      assert u[i := x][1..] == u[1..];
    } else {
      assert u[i := x][1..] == u[1..][i - 1 := x];
      DotUpdate(u[1..], v[1..], i - 1, x);
    }
  }

  lemma {:induction false} NormUpdate(u: Vector, i: nat, x: real)
    requires i < |u|
    ensures NormSquared(u[i := x]) == NormSquared(u) + x * x - u[i] * u[i]
  {
    if i == 0 {
      assert u[i := x][1..] == u[1..];
    } else {
      assert u[i := x][1..] == u[1..][i - 1 := x];
      NormUpdate(u[1..], i - 1, x);
    }
  }
}
