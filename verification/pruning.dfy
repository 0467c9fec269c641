/** Which alphas prune an edge (src/ann/deg/pruning.rs). */
module Pruning {
  import opened RealMath
  import opened AlphaSets

  datatype HybridDistance = HybridDistance(e: real, s: real) {
    /** Equation 1, as the affine function s + alpha * (e - s). */
    function At(alpha: real): real {
      s + alpha * (e - s)
    }
  }

  /** The alphas in [0,1] with alpha * a < b, closed at the crossing. */
  function Solve(a: real, b: real): AlphaSet {
    if b > 0.0 then
      if a > 0.0 then Single(0.0, Min(b / a, 1.0)) else Full()
    else if b < 0.0 then
      if a < 0.0 then
        var crossing := b / a;
        if crossing >= 1.0 then Empty() else Single(crossing, 1.0)
      else Empty()
    else if a < 0.0 then Full()
    else Empty()
  }

  function PrunedBy(xy: HybridDistance, xz: HybridDistance, yz: HybridDistance): AlphaSet {
    Intersect(Solve(xz.e - xy.e + xy.s - xz.s, xy.s - xz.s),
              Solve(yz.e - xy.e + xy.s - yz.s, xy.s - yz.s))
  }

  /** Equations 2 and 3 as written. */
  predicate PrunesAt(alpha: real, xy: HybridDistance, xz: HybridDistance, yz: HybridDistance) {
    xz.At(alpha) < xy.At(alpha) && yz.At(alpha) < xy.At(alpha)
  }

  /** The same with ties allowed. */
  predicate PrunesWeakly(alpha: real, xy: HybridDistance, xz: HybridDistance, yz: HybridDistance) {
    xz.At(alpha) <= xy.At(alpha) && yz.At(alpha) <= xy.At(alpha)
  }

  lemma FullMembers()
    ensures Canonical(Full())
    ensures forall alpha :: Contains(Full(), alpha) <==> 0.0 <= alpha <= 1.0
  {
    forall alpha ensures Contains(Full(), alpha) <==> 0.0 <= alpha <= 1.0 {
      assert Within(Full().intervals[0], alpha) <==> 0.0 <= alpha <= 1.0;
    }
  }

  lemma Crossing(a: real, b: real, alpha: real)
    requires a != 0.0
    ensures a > 0.0 ==> (alpha * a < b <==> alpha < b / a) && (alpha * a <= b <==> alpha <= b / a)
    ensures a < 0.0 ==> (alpha * a < b <==> alpha > b / a) && (alpha * a <= b <==> alpha >= b / a)
  {
    var c := b / a;
    DivMul(b, a);
    assert (alpha - c) * a == alpha * a - b;
    if alpha > c {
      if a > 0.0 { MulPositive(alpha - c, a); } else { MulPositive(alpha - c, -a); }
    } else if alpha < c {
      if a > 0.0 { MulPositive(c - alpha, a); } else { MulPositive(c - alpha, -a); }
    }
  }

  /** `solve` lies between the strict inequality and its closure. */
  lemma SolveIsExact(a: real, b: real, alpha: real)
    ensures Canonical(Solve(a, b))
    ensures 0.0 <= alpha <= 1.0 && alpha * a < b ==> Contains(Solve(a, b), alpha)
    ensures Contains(Solve(a, b), alpha) ==> 0.0 <= alpha <= 1.0 && alpha * a <= b
  {
    FullMembers();
    if a != 0.0 { Crossing(a, b, alpha); }
    if 0.0 <= alpha {
      if a > 0.0 { MulNonNegative(alpha, a); } else { MulNonNegative(alpha, -a); }
    }
    if b < 0.0 && a < 0.0 { Crossing(a, b, 0.0); }
  }

  /** Collecting the alpha terms of one inequality, equations 4 and 5. */
  lemma Rearranged(p: HybridDistance, q: HybridDistance, alpha: real, a: real, b: real)
    requires a == p.e - q.e + q.s - p.s && b == q.s - p.s
    ensures p.At(alpha) < q.At(alpha) <==> alpha * a < b
    ensures p.At(alpha) <= q.At(alpha) <==> alpha * a <= b
  {
    assert p.At(alpha) - q.At(alpha) == alpha * (p.e - q.e + q.s - p.s) - (q.s - p.s);
  }

  /** The closed form contains every alpha at which z prunes the edge, and prunes weakly wherever it holds. */
  lemma PrunedByIsExact(xy: HybridDistance, xz: HybridDistance, yz: HybridDistance, alpha: real)
    ensures Canonical(PrunedBy(xy, xz, yz))
    ensures 0.0 <= alpha <= 1.0 && PrunesAt(alpha, xy, xz, yz) ==> Contains(PrunedBy(xy, xz, yz), alpha)
    ensures Contains(PrunedBy(xy, xz, yz), alpha) ==> 0.0 <= alpha <= 1.0 && PrunesWeakly(alpha, xy, xz, yz)
  {
    hide HybridDistance.At, Solve, Intersect, Canonical, Contains;
    var a1, b1 := xz.e - xy.e + xy.s - xz.s, xy.s - xz.s;
    var a2, b2 := yz.e - xy.e + xy.s - yz.s, xy.s - yz.s;
    Rearranged(xz, xy, alpha, a1, b1);
    Rearranged(yz, xy, alpha, a2, b2);
    SolveIsExact(a1, b1, alpha);
    SolveIsExact(a2, b2, alpha);
    IntersectIsAnd(Solve(a1, b1), Solve(a2, b2));
  }

  // ---------------------------------------------------------------------
  // Openness of the strict pruning condition
  // ---------------------------------------------------------------------

  /** The point a fraction t of the way from alpha to mid. */
  function Towards(alpha: real, mid: real, t: real): real {
    alpha + Times(t, mid - alpha)
  }

  lemma Blend(p: HybridDistance, q: HybridDistance, alpha: real, mid: real, t: real)
    ensures p.At(Towards(alpha, mid, t)) - q.At(Towards(alpha, mid, t))
         == Mix(p.At(alpha) - q.At(alpha), p.At(mid) - q.At(mid), t)
  {}

  function Mix(now: real, later: real, t: real): real {
    (1.0 - t) * now + t * later
  }

  /** A strict inequality between two affine functions survives a small enough move. */
  lemma SmallMove(p: HybridDistance, q: HybridDistance, alpha: real, mid: real) returns (limit: real)
    requires p.At(alpha) < q.At(alpha)
    ensures 0.0 < limit <= 1.0
    ensures forall t :: 0.0 < t < limit ==> p.At(Towards(alpha, mid, t)) < q.At(Towards(alpha, mid, t))
  {
    hide HybridDistance.At, Towards, Mix;
    var now, later := p.At(alpha) - q.At(alpha), p.At(mid) - q.At(mid);
    limit := if later <= 0.0 then 1.0 else -now / (later - now);
    if later > 0.0 {
      DivMul(-now, later - now);
      CancelRight(limit, 1.0, later - now);
      if limit <= 0.0 { MulNonNegative(-limit, later - now); assert false; }
    }
    forall t | 0.0 < t < limit
      ensures p.At(Towards(alpha, mid, t)) < q.At(Towards(alpha, mid, t))
    {
      Blend(p, q, alpha, mid, t);
      BlendNegative(now, later, t, limit);
    }
  }

  lemma BlendNegative(now: real, later: real, t: real, limit: real)
    requires now < 0.0 && 0.0 < t < limit <= 1.0
    requires later <= 0.0 || limit * (later - now) == -now
    ensures Mix(now, later, t) < 0.0
  {
    assert (1.0 - t) * now + t * later == now + t * (later - now);
    if later <= 0.0 {
      MulPositive(1.0 - t, -now);
      MulNonNegative(t, -later);
    } else {
      MulStrict(t, limit, later - now);
    }
  }

  /** If z strictly prunes at a point on the closure of an interval, it does so inside the interval. */
  lemma PrunesInside(alpha: real, u: real, v: real, xy: HybridDistance, xz: HybridDistance, yz: HybridDistance)
    returns (beta: real)
    requires u < v && u <= alpha <= v && PrunesAt(alpha, xy, xz, yz)
    ensures u < beta < v && PrunesAt(beta, xy, xz, yz)
  {
    hide HybridDistance.At, Towards;
    var mid := (u + v) / 2.0;
    var l1 := SmallMove(xz, xy, alpha, mid);
    var l2 := SmallMove(yz, xy, alpha, mid);
    var t := Min(l1, l2) / 2.0;
    beta := Towards(alpha, mid, t);
    TowardsTheMiddle(alpha, u, v, t);
  }

  lemma TowardsTheMiddle(alpha: real, u: real, v: real, t: real)
    requires u < v && u <= alpha <= v && 0.0 < t < 1.0
    ensures u < Towards(alpha, (u + v) / 2.0, t) < v
  {
    hide Times;
    Fraction(t, (u + v) / 2.0 - alpha);
  }

  lemma Fraction(t: real, d: real)
    requires 0.0 < t < 1.0
    ensures d > 0.0 ==> 0.0 < Times(t, d) < d
    ensures d < 0.0 ==> d < Times(t, d) < 0.0
    ensures d == 0.0 ==> Times(t, d) == 0.0
  {
    if d > 0.0 {
      MulStrict(t, 1.0, d);
      MulPositive(t, d);
    } else if d < 0.0 {
      MulStrict(t, 1.0, -d);
      MulPositive(t, -d);
      assert t * -d == -(t * d);
    }
  }
}
