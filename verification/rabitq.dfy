/** Extended RaBitQ (src/ann/rabitq.rs): the critical-value sweep and the code it produces.

    `f32` is modelled by `real`. The source compares objectives `inner / norm.sqrt()`; with
    both inner products non-negative that comparison is the root-free `Beats` below
    (lemma `ObjectiveOrder`). */
module RaBitQ {
  import opened RealMath
  import opened Vectors

  // ---------------------------------------------------------------------
  // The grid of magnitudes
  // ---------------------------------------------------------------------

  /** Coordinate magnitudes are k + 1/2 for k below `count`, the source's 2^(B-1). */
  function Magnitude(level: nat): real {
    level as real + 0.5
  }

  function Magnitudes(levels: seq<nat>): (m: Vector)
    ensures |m| == |levels|
  {
    seq(|levels|, i requires 0 <= i < |levels| => Magnitude(levels[i]))
  }

  ghost predicate OnGrid(levels: seq<nat>, dimension: nat, count: nat) {
    |levels| == dimension && forall i :: 0 <= i < |levels| ==> levels[i] < count
  }

  function Abs(x: real): real {
    if x < 0.0 then -x else x
  }

  function Absolute(v: Vector): (a: Vector)
    ensures |a| == |v|
    ensures NonNegative(a)
  {
    seq(|v|, i requires 0 <= i < |v| => Abs(v[i]))
  }

  ghost predicate NonNegative(a: Vector) {
    forall i :: 0 <= i < |a| ==> a[i] >= 0.0
  }

  // ---------------------------------------------------------------------
  // Comparing objectives without a square root
  // ---------------------------------------------------------------------

  /** inner1 / sqrt(norm1) > inner2 / sqrt(norm2), for non-negative inner products. */
  predicate Beats(inner1: real, norm1: real, inner2: real, norm2: real) {
    inner1 * inner1 * norm2 > inner2 * inner2 * norm1
  }

  /** The comparison the source makes on `inner / norm_squared.sqrt()`. */
  lemma ObjectiveOrder(inner1: real, root1: real, norm1: real, inner2: real, root2: real, norm2: real)
    requires inner1 >= 0.0 && inner2 >= 0.0 && root1 > 0.0 && root2 > 0.0
    requires Times(root1, root1) == norm1 && Times(root2, root2) == norm2
    ensures inner1 / root1 > inner2 / root2 <==> Beats(inner1, norm1, inner2, norm2)
  {
    var p, q := inner1 / root1, inner2 / root2;
    var x, y := inner1 * root2, inner2 * root1;
    var k := root1 * root2;
    MulPositive(root1, root2);
    DivMul(inner1, root1);
    DivMul(inner2, root2);
    assert x == p * k && y == q * k;
    if p > q { MulStrict(q, p, k); } else { MulMonotone(p, q, k); }
    MulNonNegative(inner1, root2);
    MulNonNegative(inner2, root1);
    SquareOrder(x, y);
    assert x * x == inner1 * inner1 * (root2 * root2);
    assert y * y == inner2 * inner2 * (root1 * root1);
  }

  lemma NotBeatsTransitive(i1: real, n1: real, i2: real, n2: real, i3: real, n3: real)
    requires n1 > 0.0 && n2 > 0.0 && n3 > 0.0
    requires !Beats(i2, n2, i1, n1) && !Beats(i3, n3, i2, n2)
    ensures !Beats(i3, n3, i1, n1)
  {
    var a, b, c := i1 * i1, i2 * i2, i3 * i3;
    MulMonotone(c * n2, b * n3, n1);
    MulMonotone(b * n1, a * n2, n3);
    assert (c * n2) * n1 == (c * n1) * n2;
    assert (b * n3) * n1 == (b * n1) * n3;
    assert (a * n2) * n3 == (a * n3) * n2;
    CancelRight(c * n1, a * n3, n2);
  }

  // ---------------------------------------------------------------------
  // Rounding at a scale t
  // ---------------------------------------------------------------------

  /** `levels` is a nearest grid point to t * a, coordinate by coordinate. */
  ghost predicate Rounds(levels: seq<nat>, a: Vector, count: nat, t: real)
    requires |levels| == |a|
  {
    forall i :: 0 <= i < |levels| ==> RoundsAt(levels[i], a[i], count, t)
  }

  predicate RoundsAt(level: nat, component: real, count: nat, t: real) {
    && (level == 0 || level as real <= t * component)
    && (level + 1 >= count || t * component <= level as real + 1.0)
  }

  function Gap(x: real, y: real): real {
    (x - y) * (x - y)
  }

  lemma RoundingIsNearest(level: nat, x: real, count: nat, other: nat)
    requires (level == 0 || level as real <= x) && (level + 1 >= count || x <= level as real + 1.0)
    requires other < count
    ensures Gap(Magnitude(level), x) <= Gap(Magnitude(other), x)
  {
    var d := other as real - level as real;
    var e := other as real + level as real + 1.0 - 2.0 * x;
    assert Gap(Magnitude(other), x) - Gap(Magnitude(level), x) == d * e;
    if other > level {
      MulNonNegative(d, e);
    } else if other < level {
      MulNonNegative(-d, -e);
    }
  }

  lemma {:induction false} CoordinatewiseNearer(u: Vector, v: Vector, x: Vector)
    requires |u| == |v| == |x|
    requires forall i :: 0 <= i < |u| ==> Gap(u[i], x[i]) <= Gap(v[i], x[i])
    ensures SquaredL2(u, x) <= SquaredL2(v, x)
  {
    if |u| != 0 {
      assert Sub(u, x)[1..] == Sub(u[1..], x[1..]);
      assert Sub(v, x)[1..] == Sub(v[1..], x[1..]);
      CoordinatewiseNearer(u[1..], v[1..], x[1..]);
    }
  }

  lemma RoundingIsNearestEverywhere(levels: seq<nat>, a: Vector, count: nat, t: real, other: seq<nat>)
    requires |levels| == |a| && OnGrid(other, |a|, count) && Rounds(levels, a, count, t)
    ensures SquaredL2(Magnitudes(levels), Scale(t, a)) <= SquaredL2(Magnitudes(other), Scale(t, a))
  {
    var u, v, x := Magnitudes(levels), Magnitudes(other), Scale(t, a);
    forall i | 0 <= i < |u|
      ensures Gap(u[i], x[i]) <= Gap(v[i], x[i])
    {
      assert RoundsAt(levels[i], a[i], count, t);
      RoundingIsNearest(levels[i], x[i], count, other[i]);
    }
    CoordinatewiseNearer(u, v, x);
  }

  /** |y - t*a|^2 is |y|^2 - 2t<y,a> up to a constant. */
  lemma DistanceToScaled(y: Vector, a: Vector, t: real)
    requires |y| == |a|
    ensures SquaredL2(y, Scale(t, a)) == NormSquared(y) - 2.0 * (t * Dot(y, a)) + NormSquared(Scale(t, a))
  {
    SquaredL2Expand(y, Scale(t, a));
    DotScale(t, y, a);
  }

  lemma RoundingMinimises(levels: seq<nat>, a: Vector, count: nat, t: real, other: seq<nat>)
    requires |levels| == |a| && OnGrid(other, |a|, count) && Rounds(levels, a, count, t)
    ensures NormSquared(Magnitudes(levels)) - 2.0 * (t * Dot(Magnitudes(levels), a))
         <= NormSquared(Magnitudes(other)) - 2.0 * (t * Dot(Magnitudes(other), a))
  {
    hide Dot;
    RoundingIsNearestEverywhere(levels, a, count, t, other);
    DistanceToScaled(Magnitudes(levels), a, t);
    DistanceToScaled(Magnitudes(other), a, t);
  }

  /** (n+N)^2 >= 4nN turns the minimum at t = N/I into the objective's inequality. */
  lemma ArithmeticGeometric(i: real, n: real, best: real, norm: real)
    requires best > 0.0 && n > 0.0 && norm > 0.0 && i >= 0.0
    requires (n + norm) * best <= 2.0 * (norm * i)
    ensures !Beats(best, norm, i, n)
  {
    var l, r, b, s := (n + norm) * best, 2.0 * (norm * i), best * best, (n + norm) * (n + norm);
    MulPositive(n + norm, best);
    SquareMonotone(l, r);
    SquareNonNegative(best);
    SquareNonNegative(n - norm);
    SquareOfSum(n, norm);
    MulMonotone(4.0 * (n * norm), s, b);
    SquareOfProduct(n + norm, best);
    SquareOfDouble(norm, i);
    Regroup(n, norm, b);
    CancelRight(n * b, norm * (i * i), 4.0 * norm);
  }

  lemma SquareOfSum(x: real, y: real)
    ensures (x + y) * (x + y) - 4.0 * (x * y) == (x - y) * (x - y)
  {}

  lemma SquareOfProduct(x: real, y: real)
    ensures (x * y) * (x * y) == (x * x) * (y * y)
  {}

  lemma SquareOfDouble(x: real, y: real)
    ensures (2.0 * (x * y)) * (2.0 * (x * y)) == (x * (y * y)) * (4.0 * x)
  {}

  lemma Regroup(x: real, y: real, z: real)
    ensures 4.0 * (x * y) * z == (x * z) * (4.0 * y)
  {}

  lemma {:induction false} PositiveNorm(levels: seq<nat>)
    requires |levels| > 0
    ensures NormSquared(Magnitudes(levels)) > 0.0
  {
    var m := Magnitudes(levels);
    NormNonNegative(m[1..]);
    assert m[0] * m[0] > 0.0;
  }

  lemma {:induction false} NonNegativeInner(levels: seq<nat>, a: Vector)
    requires |levels| == |a| && NonNegative(a)
    ensures Dot(Magnitudes(levels), a) >= 0.0
  {
    if |levels| != 0 {
      assert Magnitudes(levels)[1..] == Magnitudes(levels[1..]);
      NonNegativeInner(levels[1..], a[1..]);
      assert Magnitudes(levels)[0] * a[0] >= 0.0;
    }
  }

  /** The heart of the sweep: the rounding at t = |y|^2 / <y,a> is at least as good as y. */
  lemma RoundingAtCriticalScaleWins(levels: seq<nat>, a: Vector, count: nat, other: seq<nat>)
    requires |a| > 0 && |levels| == |a| && NonNegative(a) && OnGrid(other, |a|, count)
    requires Dot(Magnitudes(other), a) > 0.0
    requires Rounds(levels, a, count, NormSquared(Magnitudes(other)) / Dot(Magnitudes(other), a))
    ensures !Beats(Dot(Magnitudes(other), a), NormSquared(Magnitudes(other)),
                   Dot(Magnitudes(levels), a), NormSquared(Magnitudes(levels)))
  {
    hide Dot, Rounds;
    var i, n := Dot(Magnitudes(levels), a), NormSquared(Magnitudes(levels));
    var best, norm := Dot(Magnitudes(other), a), NormSquared(Magnitudes(other));
    var t := norm / best;
    RoundingMinimises(levels, a, count, t, other);
    PositiveNorm(levels);
    PositiveNorm(other);
    NonNegativeInner(levels, a);
    DivMul(norm, best);
    MulMonotone(n + norm, 2.0 * (t * i), best);
    assert (2.0 * (t * i)) * best == 2.0 * ((t * best) * i);
    ArithmeticGeometric(i, n, best, norm);
  }

  // ---------------------------------------------------------------------
  // Algorithm 1
  // ---------------------------------------------------------------------

  /** A pending critical value: t * a[dimension] reaches the integer `step`. */
  datatype Critical = Critical(t: real, dimension: nat, step: nat)

  /** The queue holds the next critical value of every coordinate that has one left. */
  ghost predicate PendingExact(pending: set<Critical>, levels: seq<nat>, a: Vector, count: nat)
    requires |levels| == |a|
  {
    && (forall c :: c in pending ==> CriticalFor(c, levels, a, count))
    && (forall i :: 0 <= i < |a| && a[i] > 0.0 && levels[i] + 1 < count ==>
          Critical((levels[i] + 1) as real / a[i], i, levels[i] + 1) in pending)
  }

  lemma {:induction false} LeastExists(pending: set<Critical>) returns (least: Critical)
    requires pending != {}
    ensures least in pending && forall d :: d in pending ==> least.t <= d.t
  {
    var x :| x in pending;
    least := x;
    if pending != {x} {
      var rest := LeastExists(pending - {x});
      if rest.t <= x.t { least := rest; }
      forall d | d in pending ensures least.t <= d.t {
        if d != x { assert d in pending - {x}; }
      }
    }
  }

  /** Between the last popped critical value and the next one, the point is the rounding. */
  lemma RoundsUntilNext(levels: seq<nat>, a: Vector, count: nat, last: real, t: real, pending: set<Critical>)
    requires |levels| == |a| && NonNegative(a) && PendingExact(pending, levels, a, count)
    requires forall i :: 0 <= i < |a| ==> levels[i] == 0 || levels[i] as real <= last * a[i]
    requires 0.0 <= last <= t && forall c :: c in pending ==> t <= c.t
    ensures Rounds(levels, a, count, t)
  {
    forall i | 0 <= i < |a| ensures RoundsAt(levels[i], a[i], count, t) {
      if levels[i] + 1 < count && a[i] > 0.0 {
        assert Critical((levels[i] + 1) as real / a[i], i, levels[i] + 1) in pending;
      }
      RoundsCoordinate(levels[i], a[i], count, last, t);
    }
  }

  lemma RoundsCoordinate(level: nat, component: real, count: nat, last: real, t: real)
    requires component >= 0.0 && 0.0 <= last <= t && (level == 0 || level as real <= last * component)
    requires level + 1 < count && component > 0.0 ==> t <= (level + 1) as real / component
    ensures RoundsAt(level, component, count, t)
  {
    MulMonotone(last, t, component);
    if level + 1 < count {
      if component > 0.0 { UnderQuotient(t, (level + 1) as real, component); } else { TimesNothing(t, component); }
    }
  }

  lemma UnderQuotient(t: real, step: real, component: real)
    requires component > 0.0 && t <= step / component
    ensures t * component <= step
  {
    MulMonotone(t, step / component, component);
    DivMul(step, component);
  }

  lemma TimesNothing(t: real, component: real)
    requires component == 0.0
    ensures t * component == 0.0
  {}

  /** Every scale up to `reached` has a rounding that does not beat the best point kept. */
  ghost predicate Covered(bestInner: real, bestNorm: real, a: Vector, count: nat, t: real) {
    exists levels: seq<nat> ::
      && |levels| == |a| && Rounds(levels, a, count, t)
      && !Beats(Dot(Magnitudes(levels), a), NormSquared(Magnitudes(levels)), bestInner, bestNorm)
  }

  lemma CoveredByBetter(i1: real, n1: real, i2: real, n2: real, a: Vector, count: nat, t: real)
    requires |a| > 0 && n1 > 0.0 && n2 > 0.0 && !Beats(i1, n1, i2, n2)
    requires Covered(i1, n1, a, count, t)
    ensures Covered(i2, n2, a, count, t)
  {
    var levels: seq<nat> :| |levels| == |a| && Rounds(levels, a, count, t)
      && !Beats(Dot(Magnitudes(levels), a), NormSquared(Magnitudes(levels)), i1, n1);
    PositiveNorm(levels);
    NotBeatsTransitive(i2, n2, i1, n1, Dot(Magnitudes(levels), a), NormSquared(Magnitudes(levels)));
  }

  lemma CoverageIsOptimality(bestInner: real, bestNorm: real, a: Vector, count: nat, other: seq<nat>)
    requires |a| > 0 && NonNegative(a) && bestInner >= 0.0 && bestNorm > 0.0
    requires forall t :: t >= 0.0 ==> Covered(bestInner, bestNorm, a, count, t)
    requires OnGrid(other, |a|, count)
    ensures !Beats(Dot(Magnitudes(other), a), NormSquared(Magnitudes(other)), bestInner, bestNorm)
  {
    hide Dot, Rounds;
    var inner, norm := Dot(Magnitudes(other), a), NormSquared(Magnitudes(other));
    NonNegativeInner(other, a);
    PositiveNorm(other);
    if inner > 0.0 {
      var t := norm / inner;
      assert t >= 0.0;
      assert Covered(bestInner, bestNorm, a, count, t);
      var levels: seq<nat> :| |levels| == |a| && Rounds(levels, a, count, t)
        && !Beats(Dot(Magnitudes(levels), a), NormSquared(Magnitudes(levels)), bestInner, bestNorm);
      RoundingAtCriticalScaleWins(levels, a, count, other);
      PositiveNorm(levels);
      NotBeatsTransitive(bestInner, bestNorm, Dot(Magnitudes(levels), a), NormSquared(Magnitudes(levels)), inner, norm);
    } else {
      assert bestInner * bestInner >= 0.0;
      assert bestInner * bestInner * norm >= 0.0;
    }
  }

  /** The running point, inner product and squared norm belong together. */
  ghost predicate Tracks(point: Vector, levels: seq<nat>, inner: real, normSquared: real, a: Vector, count: nat) {
    && OnGrid(levels, |a|, count) && point == Magnitudes(levels)
    && inner == Dot(point, a) >= 0.0 && normSquared == NormSquared(point) > 0.0
  }

  /** `levels` rounds t*a from the last popped critical value up to the next one. */
  ghost predicate AtFrontier(pending: set<Critical>, levels: seq<nat>, a: Vector, count: nat, last: real)
    requires |levels| == |a|
  {
    && PendingExact(pending, levels, a, count)
    && 0.0 <= last && (forall c :: c in pending ==> last <= c.t)
    && forall i :: 0 <= i < |a| ==> levels[i] == 0 || levels[i] as real <= last * a[i]
  }

  ghost predicate CoveredUpTo(bestInner: real, bestNorm: real, a: Vector, count: nat, last: real) {
    forall t :: 0.0 <= t <= last ==> Covered(bestInner, bestNorm, a, count, t)
  }

  lemma StartOfSweep(a: Vector, count: nat, levels: seq<nat>, point: Vector, pending: set<Critical>)
    requires |a| > 0 && count > 0 && NonNegative(a)
    requires levels == seq(|a|, i => 0) && point == seq(|a|, i => 0.5)
    requires pending == set i: nat | i < |a| && a[i] > 0.0 && count > 1 :: Critical(1.0 / a[i], i, 1)
    ensures Tracks(point, levels, Dot(point, a), NormSquared(point), a, count)
    ensures AtFrontier(pending, levels, a, count, 0.0)
    ensures CoveredUpTo(Dot(point, a), NormSquared(point), a, count, 0.0)
  {
    hide Dot, NormSquared, AtFrontier, Beats, Rounds;
    assert point == Magnitudes(levels);
    PositiveNorm(levels);
    NonNegativeInner(levels, a);
    StartFrontier(a, count, levels, pending);
    RoundsAtZero(levels, a, count);
    BeatsIsAsymmetric(Dot(point, a), NormSquared(point), Dot(point, a), NormSquared(point));
    assert Covered(Dot(point, a), NormSquared(point), a, count, 0.0);
  }

  lemma RoundsAtZero(levels: seq<nat>, a: Vector, count: nat)
    requires levels == seq(|a|, i => 0)
    ensures Rounds(levels, a, count, 0.0)
  {}

  lemma StartFrontier(a: Vector, count: nat, levels: seq<nat>, pending: set<Critical>)
    requires |a| > 0 && count > 0 && NonNegative(a) && levels == seq(|a|, i => 0)
    requires pending == set i: nat | i < |a| && a[i] > 0.0 && count > 1 :: Critical(1.0 / a[i], i, 1)
    ensures AtFrontier(pending, levels, a, count, 0.0)
  {
    forall c | c in pending ensures CriticalFor(c, levels, a, count) && c.t >= 0.0 {
      DivMul(1.0, a[c.dimension]);
    }
  }

  /** The constant-time updates of `inner` and `norm_squared` track the moved point. */
  lemma MoveTracks(point: Vector, levels: seq<nat>, inner: real, normSquared: real, a: Vector, count: nat, k: nat)
    requires Tracks(point, levels, inner, normSquared, a, count) && NonNegative(a)
    requires k < |a| && levels[k] + 1 < count
    ensures Tracks(point[k := point[k] + 1.0], levels[k := levels[k] + 1],
                   inner + a[k], normSquared + (2.0 * point[k] + 1.0), a, count)
  {
    hide Dot;
    var moved := levels[k := levels[k] + 1];
    NormUpdate(point, k, point[k] + 1.0);
    DotUpdate(point, a, k, point[k] + 1.0);
    assert point[k := point[k] + 1.0] == Magnitudes(moved);
    PositiveNorm(moved);
    NonNegativeInner(moved, a);
  }

  /** Scales between two consecutive critical values are covered by the point held there. */
  lemma CoverageAdvances(point: Vector, levels: seq<nat>, inner: real, normSquared: real, a: Vector, count: nat,
                         pending: set<Critical>, last: real, next: real, bestInner: real, bestNorm: real)
    requires Tracks(point, levels, inner, normSquared, a, count) && NonNegative(a)
    requires AtFrontier(pending, levels, a, count, last) && forall c :: c in pending ==> next <= c.t
    requires CoveredUpTo(bestInner, bestNorm, a, count, last) && !Beats(inner, normSquared, bestInner, bestNorm)
    ensures CoveredUpTo(bestInner, bestNorm, a, count, next)
  {
    hide Dot, Rounds;
    forall t | 0.0 <= t <= next
      ensures Covered(bestInner, bestNorm, a, count, t)
    {
      if t > last { RoundsUntilNext(levels, a, count, last, t, pending); }
    }
  }

  lemma CoverageImproves(i1: real, n1: real, i2: real, n2: real, a: Vector, count: nat, last: real)
    requires |a| > 0 && n1 > 0.0 && n2 > 0.0 && !Beats(i1, n1, i2, n2)
    requires CoveredUpTo(i1, n1, a, count, last)
    ensures CoveredUpTo(i2, n2, a, count, last)
  {
    hide Dot, Rounds, Beats;
    forall t | 0.0 <= t <= last ensures Covered(i2, n2, a, count, t) {
      CoveredByBetter(i1, n1, i2, n2, a, count, t);
    }
  }

  /** Once no critical value is left, the last point covers every larger scale. */
  lemma SweepIsOptimal(point: Vector, levels: seq<nat>, inner: real, normSquared: real, a: Vector, count: nat,
                       last: real, bestInner: real, bestNorm: real)
    requires |a| > 0 && NonNegative(a) && Tracks(point, levels, inner, normSquared, a, count)
    requires AtFrontier({}, levels, a, count, last)
    requires CoveredUpTo(bestInner, bestNorm, a, count, last) && !Beats(inner, normSquared, bestInner, bestNorm)
    requires bestInner >= 0.0 && bestNorm > 0.0
    ensures forall other :: OnGrid(other, |a|, count) ==>
              !Beats(Dot(Magnitudes(other), a), NormSquared(Magnitudes(other)), bestInner, bestNorm)
  {
    hide Dot, Rounds, Beats;
    forall t | t >= 0.0
      ensures Covered(bestInner, bestNorm, a, count, t)
    {
      CoverageAdvances(point, levels, inner, normSquared, a, count, {}, last, t, bestInner, bestNorm);
    }
    forall other | OnGrid(other, |a|, count)
      ensures !Beats(Dot(Magnitudes(other), a), NormSquared(Magnitudes(other)), bestInner, bestNorm)
    {
      CoverageIsOptimality(bestInner, bestNorm, a, count, other);
    }
  }

  /** Algorithm 1. The heap is a set from which a least critical value is taken; which of
      several equal ones comes first is left open, so the result holds for every tie order. */
  method BestGridPoint(rotated: Vector, count: nat)
    returns (magnitudes: Vector, inner: real, normSquared: real, ghost levels: seq<nat>)
    requires |rotated| > 0 && count > 0
    ensures Tracks(magnitudes, levels, inner, normSquared, Absolute(rotated), count)
    ensures forall other :: OnGrid(other, |rotated|, count) ==>
              !Beats(Dot(Magnitudes(other), Absolute(rotated)), NormSquared(Magnitudes(other)), inner, normSquared)
  {
    hide Dot, Beats, AtFrontier, CoveredUpTo, NormSquared;
    var absolute := Absolute(rotated);
    ghost var current: seq<nat> := seq(|rotated|, i => 0);
    var point: Vector := seq(|rotated|, i => 0.5);
    inner := Dot(point, absolute);
    normSquared := NormSquared(point);
    var bestInner, bestNorm := inner, normSquared;
    magnitudes, levels := point, current;
    var pending := set i: nat | i < |absolute| && absolute[i] > 0.0 && count > 1
                            :: Critical(1.0 / absolute[i], i, 1);
    StartOfSweep(absolute, count, current, point, pending);
    ghost var last := 0.0;
    BeatsIsAsymmetric(inner, normSquared, inner, normSquared);

    while pending != {}
      invariant |current| == |absolute| && Tracks(point, current, inner, normSquared, absolute, count)
      invariant Tracks(magnitudes, levels, bestInner, bestNorm, absolute, count)
      invariant AtFrontier(pending, current, absolute, count, last)
      invariant !Beats(inner, normSquared, bestInner, bestNorm)
      invariant CoveredUpTo(bestInner, bestNorm, absolute, count, last)
      decreases |absolute| * count - LevelSum(current)
    {
      ghost var least := LeastExists(pending);
      var critical :| critical in pending && forall d :: d in pending ==> critical.t <= d.t;
      ghost var queue, before, oldInner, oldNorm := pending, current, bestInner, bestNorm;
      CoverageAdvances(point, current, inner, normSquared, absolute, count, pending, last, critical.t, bestInner,
                       bestNorm);
      assert CriticalFor(critical, current, absolute, count) by {
        FrontierCritical(pending, current, absolute, count, last, critical);
      }
      var dimension, step := critical.dimension, critical.step;

      MoveTracks(point, current, inner, normSquared, absolute, count, dimension);
      LevelSumUpdate(current, dimension, step);
      var magnitude := point[dimension];
      normSquared := normSquared + (2.0 * magnitude + 1.0);
      inner := inner + absolute[dimension];
      point := point[dimension := magnitude + 1.0];
      current := current[dimension := step];
      LevelSumBound(current, count);

      pending := pending - {critical};
      if step + 1 < count {
        pending := pending + {Critical((step + 1) as real / absolute[dimension], dimension, step + 1)};
      }
      FrontierAdvances(before, current, absolute, count, critical, queue, pending, last);
      last := critical.t;

      BeatsIsAsymmetric(inner, normSquared, bestInner, bestNorm);
      if Beats(inner, normSquared, bestInner, bestNorm) {
        bestInner, bestNorm := inner, normSquared;
        magnitudes, levels := point, current;
      }
      CoverageImproves(oldInner, oldNorm, bestInner, bestNorm, absolute, count, last);
    }
    SweepIsOptimal(point, current, inner, normSquared, absolute, count, last, bestInner, bestNorm);
    inner := Dot(magnitudes, absolute);
    normSquared := NormSquared(magnitudes);
  }

  lemma BeatsIsAsymmetric(i1: real, n1: real, i2: real, n2: real)
    ensures !Beats(i1, n1, i1, n1) && !Beats(i2, n2, i2, n2)
    ensures Beats(i1, n1, i2, n2) ==> !Beats(i2, n2, i1, n1)
  {}

  ghost predicate CriticalFor(critical: Critical, levels: seq<nat>, a: Vector, count: nat)
    requires |levels| == |a|
  {
    && critical.dimension < |a| && a[critical.dimension] > 0.0
    && critical.step == levels[critical.dimension] + 1 < count
    && critical.t == critical.step as real / a[critical.dimension]
  }

  lemma FrontierCritical(pending: set<Critical>, levels: seq<nat>, a: Vector, count: nat, last: real,
                         critical: Critical)
    requires |levels| == |a| && AtFrontier(pending, levels, a, count, last) && critical in pending
    ensures CriticalFor(critical, levels, a, count)
  {}

  lemma StepsAscend(step: nat, component: real)
    requires component > 0.0
    ensures step as real / component <= (step + 1) as real / component
  {
    DivMul(step as real, component);
    DivMul((step + 1) as real, component);
    CancelRight(step as real / component, (step + 1) as real / component, component);
  }

  function Following(critical: Critical, component: real): Critical
    requires component != 0.0
  {
    Critical((critical.step + 1) as real / component, critical.dimension, critical.step + 1)
  }

  /** The queue once a critical value has been popped and its coordinate's next one, if any, is in. */
  function Requeued(queue: set<Critical>, critical: Critical, component: real, count: nat): set<Critical>
    requires component != 0.0
  {
    var left := queue - {critical};
    if critical.step + 1 < count then left + {Following(critical, component)} else left
  }

  /** One pop moves one coordinate up a level and queues its next critical value. */
  lemma FrontierAdvances(before: seq<nat>, after: seq<nat>, a: Vector, count: nat, critical: Critical,
                         queue: set<Critical>, pending: set<Critical>, last: real)
    requires |before| == |a| && NonNegative(a) && AtFrontier(queue, before, a, count, last)
    requires critical in queue && forall d :: d in queue ==> critical.t <= d.t
    requires CriticalFor(critical, before, a, count)
    requires after == before[critical.dimension := critical.step]
    requires pending == Requeued(queue, critical, a[critical.dimension], count)
    ensures AtFrontier(pending, after, a, count, critical.t)
  {
    hide PendingExact, Requeued;
    PendingAdvances(before, after, a, count, critical, queue, pending);
    LaterCriticals(critical, a[critical.dimension], count, queue, pending);
    forall i | 0 <= i < |a| ensures after[i] == 0 || after[i] as real <= critical.t * a[i] {
      if i == critical.dimension { Popped(critical, a[i]); } else { StaysUnder(before[i], last, critical.t, a[i]); }
    }
  }

  lemma Popped(critical: Critical, component: real)
    requires component > 0.0 && critical.t == critical.step as real / component
    ensures critical.step as real <= critical.t * component
  {
    DivMul(critical.step as real, component);
  }

  lemma LaterCriticals(critical: Critical, component: real, count: nat, queue: set<Critical>, pending: set<Critical>)
    requires component > 0.0 && critical.t == critical.step as real / component
    requires forall d :: d in queue ==> critical.t <= d.t
    requires pending == Requeued(queue, critical, component, count)
    ensures forall c :: c in pending ==> critical.t <= c.t
  {
    StepsAscend(critical.step, component);
  }

  lemma StaysUnder(level: nat, last: real, t: real, component: real)
    requires 0.0 <= last <= t && component >= 0.0 && (level == 0 || level as real <= last * component)
    ensures level == 0 || level as real <= t * component
  {
    MulMonotone(last, t, component);
  }

  lemma PendingAdvances(before: seq<nat>, after: seq<nat>, a: Vector, count: nat, critical: Critical,
                        queue: set<Critical>, pending: set<Critical>)
    requires |before| == |a| && PendingExact(queue, before, a, count) && critical in queue
             && CriticalFor(critical, before, a, count)
    requires after == before[critical.dimension := critical.step]
    requires pending == Requeued(queue, critical, a[critical.dimension], count)
    ensures PendingExact(pending, after, a, count)
  {
    hide Following;
    NextIsCritical(critical, before, after, a, count);
    var k := critical.dimension;
    forall c | c in pending ensures CriticalFor(c, after, a, count) {
      if c in queue {
        assert CriticalFor(c, before, a, count);
        assert c.dimension != k;
      }
    }
    forall i | 0 <= i < |a| && a[i] > 0.0 && after[i] + 1 < count
      ensures Critical((after[i] + 1) as real / a[i], i, after[i] + 1) in pending
    {
      if i != k { assert Critical((before[i] + 1) as real / a[i], i, before[i] + 1) in queue; }
    }
  }

  lemma NextIsCritical(critical: Critical, before: seq<nat>, after: seq<nat>, a: Vector, count: nat)
    requires |before| == |a| && CriticalFor(critical, before, a, count)
             && after == before[critical.dimension := critical.step]
    ensures var k := critical.dimension;
            Following(critical, a[k]) == Critical((after[k] + 1) as real / a[k], k, after[k] + 1)
    ensures critical.step + 1 < count ==> CriticalFor(Following(critical, a[critical.dimension]), after, a, count)
  {}

  function LevelSum(levels: seq<nat>): nat {
    if |levels| == 0 then 0 else levels[0] + LevelSum(levels[1..])
  }

  lemma {:induction false} LevelSumUpdate(levels: seq<nat>, i: nat, x: nat)
    requires i < |levels|
    ensures LevelSum(levels[i := x]) == LevelSum(levels) + x - levels[i]
  {
    if i == 0 {
      assert levels[i := x][1..] == levels[1..];
    } else {
      assert levels[i := x][1..] == levels[1..][i - 1 := x];
      LevelSumUpdate(levels[1..], i - 1, x);
    }
  }

  lemma {:induction false} LevelSumBound(levels: seq<nat>, count: nat)
    requires forall i :: 0 <= i < |levels| ==> levels[i] < count
    ensures LevelSum(levels) <= |levels| * count
  {
    if |levels| != 0 {
      LevelSumBound(levels[1..], count);
      assert |levels| * count == count + |levels[1..]| * count;
    }
  }
}
