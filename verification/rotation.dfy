/** The rotation (src/ann/rotation.rs). Its matrix is arbitrary here: nothing below needs
    orthogonality, only that `apply_inverse` is linear. */
module Rotations {
  import opened Vectors

  /** Rows of a D x D matrix. */
  datatype Rotation = Rotation(rows: seq<Vector>) {
    ghost predicate Valid() {
      forall i :: 0 <= i < |rows| ==> |rows[i]| == |rows|
    }

    /** P^T x: row i is added x[i] times. */
    function ApplyInverse(x: Vector): (r: Vector)
      requires Valid() && |x| == |rows|
      ensures |r| == |rows|
    {
      Combine(rows, x, |rows|)
    }

    /** The loop of the source: every row, scaled by its component, is added to `out`. */
    method ApplyInverseInPlace(x: Vector) returns (out: Vector)
      requires Valid() && |x| == |rows|
      ensures out == ApplyInverse(x)
    {
      out := Zero(|rows|);
      var i := 0;
      while i < |rows|
        invariant 0 <= i <= |rows| && |out| == |rows|
        invariant Add(out, Combine(rows[i..], x[i..], |rows|)) == ApplyInverse(x)
      {
        ghost var rest := Combine(rows[i + 1..], x[i + 1..], |rows|);
        assert rows[i..][0] == rows[i] && rows[i..][1..] == rows[i + 1..];
        assert x[i..][0] == x[i] && x[i..][1..] == x[i + 1..];
        ghost var before := out;
        hide Combine;
        var j := 0;
        while j < |rows|
          invariant 0 <= i < |rows| && 0 <= j <= |rows| && |out| == |rows|
          invariant forall k :: 0 <= k < j ==> out[k] == before[k] + x[i] * rows[i][k]
          invariant forall k :: j <= k < |rows| ==> out[k] == before[k]
        {
          out := out[j := out[j] + x[i] * rows[i][j]];
          j := j + 1;
        }
        RowAdded(before, x[i], rows[i], out);
        AddAssociates(before, Scale(x[i], rows[i]), rest);
        i := i + 1;
      }
      assert Add(out, Zero(|rows|)) == out;
    }
  }

  function Combine(rows: seq<Vector>, x: Vector, dimension: nat): (r: Vector)
    requires |x| == |rows| && forall i :: 0 <= i < |rows| ==> |rows[i]| == dimension
    ensures |r| == dimension
  {
    if |rows| == 0 then Zero(dimension)
    else Add(Scale(x[0], rows[0]), Combine(rows[1..], x[1..], dimension))
  }

  lemma RowAdded(before: Vector, x: real, row: Vector, out: Vector)
    requires |before| == |row| == |out| && forall k :: 0 <= k < |row| ==> out[k] == before[k] + x * row[k]
    ensures out == Add(before, Scale(x, row))
  {
    forall k | 0 <= k < |row| ensures out[k] == Add(before, Scale(x, row))[k] { assert Scale(x, row)[k] == x * row[k]; }
  }

  lemma AddAssociates(a: Vector, b: Vector, c: Vector)
    requires |a| == |b| == |c|
    ensures Add(Add(a, b), c) == Add(a, Add(b, c))
  {
    assert Add(Add(a, b), c) == Add(a, Add(b, c));
  }

  lemma Distribute(x: real, y: real, a: real, b: real, d: real)
    ensures (x - y) * a + (b - d) == (x * a + b) - (y * a + d)
  {}

  lemma Factor(c: real, x: real, a: real, b: real)
    ensures (c * x) * a + c * b == c * (x * a + b)
  {}

  lemma SubRow(x: real, y: real, row: Vector, a: Vector, b: Vector)
    requires |row| == |a| == |b|
    ensures Add(Scale(x - y, row), Sub(a, b)) == Sub(Add(Scale(x, row), a), Add(Scale(y, row), b))
  {
    var l, r := Add(Scale(x - y, row), Sub(a, b)), Sub(Add(Scale(x, row), a), Add(Scale(y, row), b));
    forall k | 0 <= k < |row| ensures l[k] == r[k] { Distribute(x, y, row[k], a[k], b[k]); }
  }

  lemma ScaleRow(c: real, x: real, cx: real, row: Vector, rest: Vector)
    requires |row| == |rest| && cx == c * x
    ensures Add(Scale(cx, row), Scale(c, rest)) == Scale(c, Add(Scale(x, row), rest))
  {
    var l, r := Add(Scale(cx, row), Scale(c, rest)), Scale(c, Add(Scale(x, row), rest));
    forall k | 0 <= k < |row| ensures l[k] == r[k] { Factor(c, x, row[k], rest[k]); }
  }

  lemma HeadAndTail(c: real, x: Vector, y: Vector)
    requires |x| == |y| > 0
    ensures Scale(c, x)[0] == c * x[0] && Scale(c, x)[1..] == Scale(c, x[1..])
    ensures Sub(x, y)[0] == x[0] - y[0] && Sub(x, y)[1..] == Sub(x[1..], y[1..])
  {
    ScaleTail(c, x);
    assert Sub(x, y)[1..] == Sub(x[1..], y[1..]);
  }

  lemma NothingCombined(c: real, dimension: nat)
    ensures Scale(c, Zero(dimension)) == Zero(dimension) == Sub(Zero(dimension), Zero(dimension))
  {}

  lemma {:induction false} CombineSub(rows: seq<Vector>, x: Vector, y: Vector, dimension: nat)
    requires |x| == |y| == |rows| && forall i :: 0 <= i < |rows| ==> |rows[i]| == dimension
    ensures Combine(rows, Sub(x, y), dimension) == Sub(Combine(rows, x, dimension), Combine(rows, y, dimension))
  {
    hide Add, Scale, Sub, Zero;
    if |rows| == 0 {
      NothingCombined(0.0, dimension);
    } else {
      HeadAndTail(0.0, x, y);
      CombineSub(rows[1..], x[1..], y[1..], dimension);
      SubRow(x[0], y[0], rows[0], Combine(rows[1..], x[1..], dimension), Combine(rows[1..], y[1..], dimension));
    }
  }

  lemma {:induction false} CombineScale(rows: seq<Vector>, c: real, x: Vector, dimension: nat)
    requires |x| == |rows| && forall i :: 0 <= i < |rows| ==> |rows[i]| == dimension
    ensures Combine(rows, Scale(c, x), dimension) == Scale(c, Combine(rows, x, dimension))
  {
    hide Add, Scale, Zero;
    if |rows| == 0 {
      NothingCombined(c, dimension);
    } else {
      HeadAndTail(c, x, x);
      CombineScale(rows[1..], c, x[1..], dimension);
      ScaleRow(c, x[0], Scale(c, x)[0], rows[0], Combine(rows[1..], x[1..], dimension));
    }
  }

  /** `apply_inverse` is linear, which is all the decomposition of SymphonyQG rests on. */
  lemma ApplyInverseIsLinear(p: Rotation, c: real, x: Vector, y: Vector)
    requires p.Valid() && |x| == |y| == |p.rows|
    ensures p.ApplyInverse(Scale(c, Sub(x, y))) == Scale(c, Sub(p.ApplyInverse(x), p.ApplyInverse(y)))
  {
    CombineScale(p.rows, c, Sub(x, y), |p.rows|);
    CombineSub(p.rows, x, y, |p.rows|);
  }
}
