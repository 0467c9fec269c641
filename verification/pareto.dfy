/** Pareto frontiers over two modalities and their layers (src/ann/deg/pareto.rs). */
module Pareto {
  import opened RealMath
  import opened Sorting
  import opened Pruning

  datatype ParetoPoint = ParetoPoint(id: nat, distance: HybridDistance)

  predicate Dominates(a: HybridDistance, b: HybridDistance) {
    a.e <= b.e && a.s <= b.s && (a.e < b.e || a.s < b.s)
  }

  predicate DominatedBy(pool: seq<ParetoPoint>, d: HybridDistance) {
    exists i :: 0 <= i < |pool| && Dominates(pool[i].distance, d)
  }

  /** The points nothing in the pool dominates, in order, twins included. */
  function Undominated(pool: seq<ParetoPoint>, points: seq<ParetoPoint>): seq<ParetoPoint> {
    if |points| == 0 then []
    else (if DominatedBy(pool, points[0].distance) then [] else [points[0]]) + Undominated(pool, points[1..])
  }

  function Dominated(pool: seq<ParetoPoint>, points: seq<ParetoPoint>): seq<ParetoPoint> {
    if |points| == 0 then []
    else (if DominatedBy(pool, points[0].distance) then [points[0]] else []) + Dominated(pool, points[1..])
  }

  // ---------------------------------------------------------------------
  // The sweep
  // ---------------------------------------------------------------------

  datatype Slot = Slot(index: nat, distance: HybridDistance)

  predicate SweepOrder(a: Slot, b: Slot) {
    a.distance.e < b.distance.e || (a.distance.e == b.distance.e && a.distance.s <= b.distance.s)
  }

  function Slots(points: seq<ParetoPoint>): (r: seq<Slot>)
    ensures |r| == |points|
  {
    seq(|points|, i requires 0 <= i < |points| => Slot(i, points[i].distance))
  }

  /** The order lists every point once. */
  ghost predicate Lists(order: seq<Slot>, points: seq<ParetoPoint>) {
    && |order| == |points| && Sorted(order, SweepOrder)
    && (forall k :: 0 <= k < |order| ==>
         order[k].index < |points| && order[k].distance == points[order[k].index].distance)
    && (forall i :: 0 <= i < |points| ==> Slot(i, points[i].distance) in order)
  }

  lemma SortedSlotsList(points: seq<ParetoPoint>)
    ensures Lists(SortBy(Slots(points), SweepOrder), points)
  {
    var slots := Slots(points);
    SortOrders(slots, SweepOrder);
    SortKeepsElements(slots, SweepOrder);
    var order := SortBy(slots, SweepOrder);
    SameElements(order, slots);
    forall k | 0 <= k < |order| ensures order[k] in slots { assert order[k] in order; }
    forall i | 0 <= i < |points| ensures Slot(i, points[i].distance) in order { assert slots[i] in slots; }
  }

  datatype Least = Infinity | Known(s: real)

  predicate Below(s: real, least: Least) {
    least.Infinity? || s < least.s
  }

  /** `least` is the smallest second coordinate among the first `cursor` slots. */
  ghost predicate IsLeast(order: seq<Slot>, cursor: nat, least: Least)
    requires cursor <= |order|
  {
    && (least.Infinity? <==> cursor == 0)
    && (least.Known? ==> exists k :: 0 <= k < cursor && order[k].distance.s == least.s)
    && forall k :: 0 <= k < cursor ==> least.Known? && least.s <= order[k].distance.s
  }

  /** At the start of a run of equal pairs: the pair is undominated exactly if it beats the least. */
  lemma SweepDecides(points: seq<ParetoPoint>, order: seq<Slot>, cursor: nat, least: Least)
    requires Lists(order, points) && cursor < |order| && IsLeast(order, cursor, least)
    requires forall i :: 0 <= i < cursor ==> order[i].distance != order[cursor].distance
    ensures Below(order[cursor].distance.s, least) <==> !DominatedBy(points, order[cursor].distance)
  {
    var here := order[cursor].distance;
    if !Below(here.s, least) {
      var k :| 0 <= k < cursor && order[k].distance.s == least.s;
      EarlierDominates(points, order, k, cursor);
    }
    if DominatedBy(points, here) {
      var i :| 0 <= i < |points| && Dominates(points[i].distance, here);
      var k := DominatorIsEarlier(points, order, cursor, i);
      assert least.s <= order[k].distance.s;
    }
  }

  lemma EarlierDominates(points: seq<ParetoPoint>, order: seq<Slot>, k: nat, cursor: nat)
    requires Lists(order, points) && k < cursor < |order|
    requires order[k].distance.s <= order[cursor].distance.s && order[k].distance != order[cursor].distance
    ensures DominatedBy(points, order[cursor].distance)
  {
    assert SweepOrder(order[k], order[cursor]);
    assert Dominates(points[order[k].index].distance, order[cursor].distance);
  }

  lemma InOrder(order: seq<Slot>, cursor: nat, k: nat)
    requires Sorted(order, SweepOrder) && cursor < |order| && k < |order|
    ensures k > cursor ==> SweepOrder(order[cursor], order[k])
  {}

  lemma DominatorIsEarlier(points: seq<ParetoPoint>, order: seq<Slot>, cursor: nat, i: nat) returns (k: nat)
    requires Lists(order, points) && cursor < |order| && i < |points|
             && Dominates(points[i].distance, order[cursor].distance)
    ensures k < cursor && order[k].distance == points[i].distance && order[k].distance.s <= order[cursor].distance.s
  {
    k :| 0 <= k < |order| && order[k] == Slot(i, points[i].distance);
    InOrder(order, cursor, k);
  }

  /** The walk over runs of equal pairs, deciding each pair once. */
  method MarkFrontier(points: seq<ParetoPoint>) returns (onFrontier: seq<bool>)
    ensures |onFrontier| == |points|
    ensures forall i :: 0 <= i < |points| ==> (onFrontier[i] <==> !DominatedBy(points, points[i].distance))
  {
    hide DominatedBy, SweepOrder, IsLeast, Marked, Lists;
    var order := SortBy(Slots(points), SweepOrder);
    SortedSlotsList(points);
    var least := Infinity;
    onFrontier := seq(|points|, i => false);
    var cursor := 0;
    StartOfSweep(points, order, onFrontier);
    while cursor < |order|
      invariant 0 <= cursor <= |order| && Lists(order, points)
      invariant IsLeast(order, cursor, least)
      invariant forall i, j :: 0 <= i < cursor <= j < |order| ==> order[i].distance != order[j].distance
      invariant Marked(points, order, cursor, onFrontier)
    {
      var here := order[cursor].distance;
      var end := cursor + 1;
      while end < |order| && order[end].distance == here
        invariant cursor < end <= |order|
        invariant forall k :: cursor <= k < end ==> order[k].distance == here
      {
        end := end + 1;
      }
      SweepDecides(points, order, cursor, least);
      LeastAfterGroup(points, order, cursor, end, least);
      if Below(here.s, least) {
        var k := cursor;
        while k < end
          invariant cursor <= k <= end && Marked(points, order, k, onFrontier)
        {
          MarkOne(points, order, k, onFrontier);
          onFrontier := onFrontier[order[k].index := true];
          k := k + 1;
        }
        least := Known(here.s);
      } else {
        SkipGroup(points, order, cursor, end, onFrontier);
      }
      cursor := end;
    }
    MarksAreExact(points, order, onFrontier);
  }

  /** Marks are right, and the first `cursor` slots have theirs. */
  ghost predicate Marked(points: seq<ParetoPoint>, order: seq<Slot>, cursor: nat, onFrontier: seq<bool>)
    requires cursor <= |order|
  {
    && |onFrontier| == |points|
    && (forall i :: 0 <= i < |points| && onFrontier[i] ==> !DominatedBy(points, points[i].distance))
    && forall k :: 0 <= k < cursor && order[k].index < |points| && !DominatedBy(points, order[k].distance) ==>
         onFrontier[order[k].index]
  }

  lemma StartOfSweep(points: seq<ParetoPoint>, order: seq<Slot>, onFrontier: seq<bool>)
    requires Lists(order, points) && onFrontier == seq(|points|, i => false)
    ensures IsLeast(order, 0, Infinity) && Marked(points, order, 0, onFrontier)
    ensures |order| == |points|
  {}

  lemma MarkOne(points: seq<ParetoPoint>, order: seq<Slot>, k: nat, onFrontier: seq<bool>)
    requires Lists(order, points) && k < |order| && Marked(points, order, k, onFrontier)
    requires !DominatedBy(points, order[k].distance)
    ensures order[k].index < |onFrontier|
    ensures Marked(points, order, k + 1, onFrontier[order[k].index := true])
  {
    hide DominatedBy, SweepOrder;
  }

  lemma SkipGroup(points: seq<ParetoPoint>, order: seq<Slot>, cursor: nat, end: nat, onFrontier: seq<bool>)
    requires cursor < end <= |order| && Marked(points, order, cursor, onFrontier)
    requires DominatedBy(points, order[cursor].distance)
    requires forall k :: cursor <= k < end ==> order[k].distance == order[cursor].distance
    ensures Marked(points, order, end, onFrontier)
  {
    hide DominatedBy;
  }

  lemma MarksAreExact(points: seq<ParetoPoint>, order: seq<Slot>, onFrontier: seq<bool>)
    requires Lists(order, points) && Marked(points, order, |order|, onFrontier)
    ensures |onFrontier| == |points|
    ensures forall i :: 0 <= i < |points| ==> (onFrontier[i] <==> !DominatedBy(points, points[i].distance))
  {
    hide DominatedBy, SweepOrder;
    forall i | 0 <= i < |points|
      ensures onFrontier[i] <==> !DominatedBy(points, points[i].distance)
    {
      assert Slot(i, points[i].distance) in order;
    }
  }

  method SplitFrontier(points: seq<ParetoPoint>) returns (frontier: seq<ParetoPoint>, rest: seq<ParetoPoint>)
    ensures frontier == Undominated(points, points) && rest == Dominated(points, points)
  {
    hide DominatedBy, Undominated, Dominated;
    NothingSplit(points);
    if |points| == 0 { return [], []; }
    var onFrontier := MarkFrontier(points);
    frontier, rest := [], [];
    assert points[0..] == points;
    for index := 0 to |points|
      invariant frontier + Undominated(points, points[index..]) == Undominated(points, points)
      invariant rest + Dominated(points, points[index..]) == Dominated(points, points)
    {
      SplitOne(points, index);
      if onFrontier[index] {
        assert frontier + ([points[index]] + Undominated(points, points[index + 1..]))
            == (frontier + [points[index]]) + Undominated(points, points[index + 1..]);
        frontier := frontier + [points[index]];
      } else {
        assert rest + ([points[index]] + Dominated(points, points[index + 1..]))
            == (rest + [points[index]]) + Dominated(points, points[index + 1..]);
        rest := rest + [points[index]];
      }
    }
    assert points[|points|..] == [] && frontier + [] == frontier && rest + [] == rest;
  }

  lemma NothingSplit(points: seq<ParetoPoint>)
    ensures Undominated(points, []) == [] && Dominated(points, []) == []
  {}

  lemma SplitOne(points: seq<ParetoPoint>, i: nat)
    requires i < |points|
    ensures var u, d := Undominated(points, points[i + 1..]), Dominated(points, points[i + 1..]);
            if DominatedBy(points, points[i].distance)
            then Undominated(points, points[i..]) == u && Dominated(points, points[i..]) == [points[i]] + d
            else Undominated(points, points[i..]) == [points[i]] + u && Dominated(points, points[i..]) == d
  {
    hide DominatedBy;
    assert points[i..][0] == points[i] && points[i..][1..] == points[i + 1..];
    assert [] + Undominated(points, points[i + 1..]) == Undominated(points, points[i + 1..]);
    assert [] + Dominated(points, points[i + 1..]) == Dominated(points, points[i + 1..]);
  }

  /** Past a run of equal pairs the least is kept up, and no later slot has that pair. */
  lemma LeastAfterGroup(points: seq<ParetoPoint>, order: seq<Slot>, cursor: nat, end: nat, least: Least)
    requires Lists(order, points) && cursor < end <= |order| && IsLeast(order, cursor, least)
    requires forall k :: cursor <= k < end ==> order[k].distance == order[cursor].distance
    requires end < |order| ==> order[end].distance != order[cursor].distance
    requires forall i, j :: 0 <= i < cursor <= j < |order| ==> order[i].distance != order[j].distance
    ensures IsLeast(order, end,
                    if Below(order[cursor].distance.s, least) then Known(order[cursor].distance.s) else least)
    ensures forall i, j :: 0 <= i < end <= j < |order| ==> order[i].distance != order[j].distance
  {
    var here := order[cursor].distance;
    if Below(here.s, least) {
      assert order[cursor].distance.s == here.s;
    } else {
      var k :| 0 <= k < cursor && order[k].distance.s == least.s;
      assert order[k].distance.s == least.s;
    }
    forall i, j | 0 <= i < end <= j < |order| ensures order[i].distance != order[j].distance {
      assert SweepOrder(order[i], order[end]) && (j > end ==> SweepOrder(order[end], order[j]));
      if i >= cursor { assert SweepOrder(order[cursor], order[end]); }
    }
  }

  // ---------------------------------------------------------------------
  // What the frontier means
  // ---------------------------------------------------------------------

  lemma {:induction false} SplitMembers(pool: seq<ParetoPoint>, points: seq<ParetoPoint>)
    ensures forall p :: p in Undominated(pool, points) <==> p in points && !DominatedBy(pool, p.distance)
    ensures forall p :: p in Dominated(pool, points) <==> p in points && DominatedBy(pool, p.distance)
    ensures multiset(Undominated(pool, points)) + multiset(Dominated(pool, points)) == multiset(points)
    ensures |Undominated(pool, points)| + |Dominated(pool, points)| == |points|
  {
    if |points| != 0 {
      SplitMembers(pool, points[1..]);
      assert points == [points[0]] + points[1..];
    }
  }

  /** A dominating point is no farther at any alpha in [0,1]. */
  lemma DominatingIsNoFarther(a: HybridDistance, b: HybridDistance, alpha: real)
    requires Dominates(a, b) && 0.0 <= alpha <= 1.0
    ensures a.At(alpha) <= b.At(alpha)
  {
    MulNonNegative(alpha, b.e - a.e);
    MulNonNegative(1.0 - alpha, b.s - a.s);
    DifferenceAt(a, b, alpha);
  }

  lemma DifferenceAt(a: HybridDistance, b: HybridDistance, alpha: real)
    ensures b.At(alpha) - a.At(alpha) == alpha * (b.e - a.e) + (1.0 - alpha) * (b.s - a.s)
  {}

  ghost function Dominators(points: seq<ParetoPoint>, d: HybridDistance): set<int> {
    set i | 0 <= i < |points| && Dominates(points[i].distance, d)
  }

  lemma FewerDominators(points: seq<ParetoPoint>, i: nat, d: HybridDistance)
    requires i < |points| && Dominates(points[i].distance, d)
    ensures |Dominators(points, points[i].distance)| < |Dominators(points, d)|
  {
    var inner, outer := Dominators(points, points[i].distance), Dominators(points, d);
    assert inner <= outer && i in outer && i !in inner;
    assert inner <= outer - {i};
    Cardinality(inner, outer - {i});
  }

  lemma {:induction false} Cardinality<T>(a: set<T>, b: set<T>)
    requires a <= b
    ensures |a| <= |b|
  {
    if a != {} {
      var x :| x in a;
      Cardinality(a - {x}, b - {x});
    }
  }

  /** Every point is matched by some frontier point. */
  lemma FrontierMatches(points: seq<ParetoPoint>, p: ParetoPoint, alpha: real) returns (f: ParetoPoint)
    requires p in points && 0.0 <= alpha <= 1.0
    ensures f in Undominated(points, points) && f.distance.At(alpha) <= p.distance.At(alpha)
    decreases |Dominators(points, p.distance)|
  {
    hide HybridDistance.At;
    SplitMembers(points, points);
    if DominatedBy(points, p.distance) {
      var i :| 0 <= i < |points| && Dominates(points[i].distance, p.distance);
      FewerDominators(points, i, p.distance);
      DominatingIsNoFarther(points[i].distance, p.distance, alpha);
      f := FrontierMatches(points, points[i], alpha);
    } else {
      f := p;
    }
  }

  lemma {:induction false} ClosestAt(points: seq<ParetoPoint>, alpha: real) returns (p: ParetoPoint)
    requires |points| > 0
    ensures p in points && forall o :: o in points ==> p.distance.At(alpha) <= o.distance.At(alpha)
  {
    hide HybridDistance.At;
    p := points[0];
    if |points| > 1 {
      var rest := ClosestAt(points[1..], alpha);
      if rest.distance.At(alpha) < p.distance.At(alpha) { p := rest; }
      assert points == [points[0]] + points[1..];
    }
  }

  /** Theorem 4.1: whatever alpha the query brings, one frontier point is no farther than every point. */
  lemma FrontierAttainsMinimum(points: seq<ParetoPoint>, alpha: real) returns (f: ParetoPoint)
    requires |points| > 0 && 0.0 <= alpha <= 1.0
    ensures f in Undominated(points, points) && forall p :: p in points ==> f.distance.At(alpha) <= p.distance.At(alpha)
  {
    hide HybridDistance.At;
    var closest := ClosestAt(points, alpha);
    f := FrontierMatches(points, closest, alpha);
  }

  /** A dominated point is dominated by a frontier point. */
  lemma DominatedByFrontier(points: seq<ParetoPoint>, p: ParetoPoint) returns (f: ParetoPoint)
    requires DominatedBy(points, p.distance)
    ensures f in Undominated(points, points) && Dominates(f.distance, p.distance)
    decreases |Dominators(points, p.distance)|
  {
    SplitMembers(points, points);
    var i :| 0 <= i < |points| && Dominates(points[i].distance, p.distance);
    FewerDominators(points, i, p.distance);
    f := points[i];
    if DominatedBy(points, f.distance) {
      f := DominatedByFrontier(points, f);
    }
  }

  lemma FrontierNotEmpty(points: seq<ParetoPoint>)
    requires |points| > 0
    ensures |Undominated(points, points)| > 0
  {
    SplitMembers(points, points);
    if DominatedBy(points, points[0].distance) {
      var f := DominatedByFrontier(points, points[0]);
    } else {
      assert points[0] in Undominated(points, points);
    }
  }

  // ---------------------------------------------------------------------
  // Layers
  // ---------------------------------------------------------------------

  lemma RestIsShorter(points: seq<ParetoPoint>)
    ensures |Undominated(points, points)| + |Dominated(points, points)| == |points|
  {
    SplitMembers(points, points);
  }

  function Deduct(limit: nat, taken: nat): nat {
    if taken <= limit then limit - taken else 0
  }

  /** Successive frontiers until at least `limit` points are collected. */
  function Layers(points: seq<ParetoPoint>, limit: nat): seq<seq<ParetoPoint>>
    decreases |points|
  {
    RestIsShorter(points);
    var layer, rest := Undominated(points, points), Dominated(points, points);
    if |points| == 0 || limit == 0 || |layer| == 0 then []
    else [layer] + Layers(rest, Deduct(limit, |layer|))
  }

  method FrontierLayers(points: seq<ParetoPoint>, limit: nat) returns (layers: seq<seq<ParetoPoint>>)
    ensures layers == Layers(points, limit)
  {
    hide Undominated, Dominated;
    var remaining := points;
    layers := [];
    var collected: nat := 0;
    while |remaining| > 0 && collected < limit
      invariant layers + Layers(remaining, Deduct(limit, collected)) == Layers(points, limit)
      decreases |remaining|
    {
      RestIsShorter(remaining);
      var layer, rest := SplitFrontier(remaining);
      if |layer| == 0 { break; }
      collected := collected + |layer|;
      layers := layers + [layer];
      remaining := rest;
    }
  }

  function Flatten(layers: seq<seq<ParetoPoint>>): seq<ParetoPoint> {
    if |layers| == 0 then [] else layers[0] + Flatten(layers[1..])
  }

  /** Each layer is an antichain, each of its points is dominated from the layer before, the layers
      together are points of the input taken once, and either everything is taken or the limit is
      reached by the last layer and not before. */
  ghost predicate ProperLayers(layers: seq<seq<ParetoPoint>>, points: seq<ParetoPoint>, limit: nat) {
    Counted(layers, points, limit) && (forall d :: 0 <= d < |layers| ==> |layers[d]| > 0) && Layered(layers)
  }

  ghost predicate Counted(layers: seq<seq<ParetoPoint>>, points: seq<ParetoPoint>, limit: nat) {
    && multiset(Flatten(layers)) <= multiset(points)
    && (|Flatten(layers)| < limit ==> multiset(Flatten(layers)) == multiset(points))
    && (|layers| > 0 ==> |Flatten(layers[..|layers| - 1])| < limit)
  }

  ghost predicate Layered(layers: seq<seq<ParetoPoint>>) {
    && (forall d, p, q :: 0 <= d < |layers| && p in layers[d] && q in layers[d] ==> !Dominates(p.distance, q.distance))
    && forall d, p :: 0 < d < |layers| && p in layers[d] ==> DominatedBy(layers[d - 1], p.distance)
  }

  lemma {:induction false} LayersAreProper(points: seq<ParetoPoint>, limit: nat)
    ensures ProperLayers(Layers(points, limit), points, limit)
    ensures |Layers(points, limit)| > 0 ==> Layers(points, limit)[0] == Undominated(points, points)
    decreases |points|
  {
    hide DominatedBy, Dominates, Undominated, Dominated, ProperLayers;
    if |points| > 0 { FrontierNotEmpty(points); }
    if |points| == 0 || limit == 0 {
      NoLayersAreProper(points, limit);
    } else {
      RestIsShorter(points);
      var layer, rest := Undominated(points, points), Dominated(points, points);
      LayersAreProper(rest, Deduct(limit, |layer|));
      ConsIsProper(points, Layers(rest, Deduct(limit, |layer|)), limit);
    }
  }

  lemma NoLayersAreProper(points: seq<ParetoPoint>, limit: nat)
    requires |points| == 0 || limit == 0
    ensures ProperLayers([], points, limit)
  {}

  /** Putting the frontier in front of the layers of the rest. */
  lemma ConsIsProper(points: seq<ParetoPoint>, tail: seq<seq<ParetoPoint>>, limit: nat)
    requires |points| > 0 && limit > 0 && |Undominated(points, points)| > 0
    requires ProperLayers(tail, Dominated(points, points), Deduct(limit, |Undominated(points, points)|))
    requires |tail| > 0 ==> tail[0] == Undominated(Dominated(points, points), Dominated(points, points))
    ensures ProperLayers([Undominated(points, points)] + tail, points, limit)
  {
    hide DominatedBy, Dominates, Undominated, Dominated, Flatten, Counted, Layered;
    ConsCounts(points, tail, limit);
    ConsIsLayered(points, tail, limit);
  }

  lemma ConsCounts(points: seq<ParetoPoint>, tail: seq<seq<ParetoPoint>>, limit: nat)
    requires |points| > 0 && limit > 0 && |Undominated(points, points)| > 0
    requires ProperLayers(tail, Dominated(points, points), Deduct(limit, |Undominated(points, points)|))
    ensures Counted([Undominated(points, points)] + tail, points, limit)
  {
    hide DominatedBy, Dominates, Undominated, Dominated;
    var layer, rest := Undominated(points, points), Dominated(points, points);
    var layers := [layer] + tail;
    SplitMembers(points, points);
    assert layers[1..] == tail;
    if |tail| > 0 {
      assert layers[..|layers| - 1] == [layer] + tail[..|tail| - 1];
      assert ([layer] + tail[..|tail| - 1])[1..] == tail[..|tail| - 1];
    } else {
      assert layers[..|layers| - 1] == [];
    }
  }

  lemma ConsIsLayered(points: seq<ParetoPoint>, tail: seq<seq<ParetoPoint>>, limit: nat)
    requires |points| > 0 && limit > 0 && |Undominated(points, points)| > 0
    requires ProperLayers(tail, Dominated(points, points), Deduct(limit, |Undominated(points, points)|))
    requires |tail| > 0 ==> tail[0] == Undominated(Dominated(points, points), Dominated(points, points))
    ensures Layered([Undominated(points, points)] + tail)
  {
    hide DominatedBy, Dominates, Undominated, Dominated, Flatten;
    var rest := Dominated(points, points);
    var layers := [Undominated(points, points)] + tail;
    SplitMembers(points, points);
    SplitMembers(rest, rest);
    FirstLayerIsAntichain(points);
    forall d, p: ParetoPoint | 0 < d < |layers| && p in layers[d] ensures DominatedBy(layers[d - 1], p.distance) {
      if d == 1 {
        assert p in tail[0] && p in rest;
        InFirstLayer(points, p);
      } else {
        assert p in tail[d - 1] && layers[d - 1] == tail[d - 2];
      }
    }
    forall d, p: ParetoPoint, q: ParetoPoint | 0 <= d < |layers| && p in layers[d] && q in layers[d]
      ensures !Dominates(p.distance, q.distance)
    {
      if d > 0 { assert p in tail[d - 1] && q in tail[d - 1]; }
    }
  }

  lemma InFirstLayer(points: seq<ParetoPoint>, p: ParetoPoint)
    requires DominatedBy(points, p.distance)
    ensures DominatedBy(Undominated(points, points), p.distance)
  {
    var f := DominatedByFrontier(points, p);
    var layer := Undominated(points, points);
    var i :| 0 <= i < |layer| && layer[i] == f;
  }

  lemma FirstLayerIsAntichain(points: seq<ParetoPoint>)
    ensures forall p, q ::
              p in Undominated(points, points) && q in Undominated(points, points)
              ==> !Dominates(p.distance, q.distance)
  {
    SplitMembers(points, points);
    forall p, q | p in Undominated(points, points) && q in Undominated(points, points)
      ensures !Dominates(p.distance, q.distance)
    {
      assert p in points;
      var i :| 0 <= i < |points| && points[i] == p;
      assert Dominates(points[i].distance, q.distance) ==> DominatedBy(points, q.distance);
    }
  }
}
