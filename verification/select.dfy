/** Algorithm 2 (src/ann/deg/select.rs): candidates become edges with active ranges. */
module Selection {
  import opened AlphaSets
  import opened Pruning
  import opened Pareto

  datatype DegEdge = DegEdge(target: nat, active: AlphaSet)

  datatype Kept = Kept(candidate: ParetoPoint, edge: DegEdge)

  type PairDistance = (nat, nat) -> HybridDistance

  function RangePrunedBy(candidate: ParetoPoint, neighbour: ParetoPoint, pair: PairDistance): AlphaSet {
    PrunedBy(candidate.distance, neighbour.distance, pair(candidate.id, neighbour.id))
  }

  /** The union of the ranges over which the kept neighbours prune the candidate. */
  function PrunedRange(candidate: ParetoPoint, kept: seq<Kept>, pair: PairDistance): AlphaSet {
    if |kept| == 0 then Empty()
    else Union(PrunedRange(candidate, kept[..|kept| - 1], pair),
               RangePrunedBy(candidate, kept[|kept| - 1].candidate, pair))
  }

  predicate WorthKeeping(active: AlphaSet, minWidth: real) {
    Measure(active.intervals) >= minWidth && |active.intervals| != 0
  }

  function Consider(candidate: ParetoPoint, kept: seq<Kept>, minWidth: real, pair: PairDistance): seq<Kept> {
    var active := Complement(PrunedRange(candidate, kept, pair));
    if WorthKeeping(active, minWidth) then kept + [Kept(candidate, DegEdge(candidate.id, active))] else kept
  }

  function ConsiderLayer(layer: seq<ParetoPoint>, kept: seq<Kept>, minWidth: real, pair: PairDistance): seq<Kept>
    decreases |layer|
  {
    if |layer| == 0 then kept else ConsiderLayer(layer[1..], Consider(layer[0], kept, minWidth, pair), minWidth, pair)
  }

  /** The cap is tested after a whole layer. */
  function ConsiderLayers(layers: seq<seq<ParetoPoint>>, kept: seq<Kept>, maxEdges: nat, minWidth: real,
                          pair: PairDistance): seq<Kept>
    decreases |layers|
  {
    if |layers| == 0 then kept
    else
      var after := ConsiderLayer(layers[0], kept, minWidth, pair);
      if |after| >= maxEdges then after else ConsiderLayers(layers[1..], after, maxEdges, minWidth, pair)
  }

  // ---------------------------------------------------------------------
  // The loops, with their early exit on a full range
  // ---------------------------------------------------------------------

  lemma {:induction false} PrunedRangeIsUnion(candidate: ParetoPoint, kept: seq<Kept>, pair: PairDistance)
    ensures Canonical(PrunedRange(candidate, kept, pair))
    ensures forall alpha :: Contains(PrunedRange(candidate, kept, pair), alpha) <==>
              exists i :: 0 <= i < |kept| && Contains(RangePrunedBy(candidate, kept[i].candidate, pair), alpha)
  {
    hide PrunedBy, Union, Contains, Canonical;
    if |kept| == 0 {
      EmptyMembers();
    } else {
      var n := |kept| - 1;
      var init := kept[..n];
      PrunedRangeIsUnion(candidate, init, pair);
      var xy, xz, yz := candidate.distance, kept[n].candidate.distance, pair(candidate.id, kept[n].candidate.id);
      PrunedByIsExact(xy, xz, yz, 0.0);
      UnionIsOr(PrunedRange(candidate, init, pair), RangePrunedBy(candidate, kept[n].candidate, pair));
      forall alpha
        ensures Contains(PrunedRange(candidate, kept, pair), alpha) <==>
                exists i :: 0 <= i < |kept| && Contains(RangePrunedBy(candidate, kept[i].candidate, pair), alpha)
      {
        if i :| 0 <= i < |kept| && Contains(RangePrunedBy(candidate, kept[i].candidate, pair), alpha) {
          if i < n { assert init[i] == kept[i]; }
        }
        if Contains(PrunedRange(candidate, init, pair), alpha) {
          var i :| 0 <= i < |init| && Contains(RangePrunedBy(candidate, init[i].candidate, pair), alpha);
          assert Contains(RangePrunedBy(candidate, kept[i].candidate, pair), alpha);
        }
      }
    }
  }

  lemma EmptyMembers()
    ensures Canonical(Empty()) && forall alpha :: !Contains(Empty(), alpha)
  {}

  /** Once the range is all of [0,1], later neighbours cannot change it. */
  lemma {:induction false} FullStaysFull(candidate: ParetoPoint, kept: seq<Kept>, pair: PairDistance, i: nat)
    requires i <= |kept| && IsFull(PrunedRange(candidate, kept[..i], pair))
    ensures PrunedRange(candidate, kept, pair) == Full()
    decreases |kept| - i
  {
    hide PrunedRange, RangePrunedBy, Union, IsFull, Canonical;
    PrunedRangeIsUnion(candidate, kept[..i], pair);
    FullIsFull(PrunedRange(candidate, kept[..i], pair));
    if i == |kept| {
      assert kept[..i] == kept;
    } else {
      FullAbsorbs(candidate, kept, pair, i);
      FullStaysFull(candidate, kept, pair, i + 1);
    }
  }

  lemma FullAbsorbs(candidate: ParetoPoint, kept: seq<Kept>, pair: PairDistance, i: nat)
    requires i < |kept| && PrunedRange(candidate, kept[..i], pair) == Full()
    ensures IsFull(PrunedRange(candidate, kept[..i + 1], pair))
  {
    hide Union, Canonical, Contains, PrunedBy;
    var neighbour := kept[i].candidate;
    assert kept[..i + 1][..i] == kept[..i] && kept[..i + 1][i] == kept[i];
    var next := Union(Full(), RangePrunedBy(candidate, neighbour, pair));
    FullMembers();
    PrunedByIsExact(candidate.distance, neighbour.distance, pair(candidate.id, neighbour.id), 0.0);
    UnionIsOr(Full(), RangePrunedBy(candidate, neighbour, pair));
    forall alpha ensures Contains(next, alpha) <==> Contains(Full(), alpha) {
      if Contains(next, alpha) { MembersAreUnit(next, alpha); }
    }
    CanonicalIsUnique(next, Full());
  }

  lemma MembersAreUnit(s: AlphaSet, alpha: real)
    requires Canonical(s) && Contains(s, alpha)
    ensures 0.0 <= alpha <= 1.0
  {}

  method SelectNeighbours(layers: seq<seq<ParetoPoint>>, maxEdges: nat, minWidth: real, pair: PairDistance)
    returns (kept: seq<Kept>)
    ensures kept == ConsiderLayers(layers, [], maxEdges, minWidth, pair)
  {
    hide PrunedRange, Complement, WorthKeeping, Consider;
    kept := [];
    var l := 0;
    while l < |layers|
      invariant 0 <= l <= |layers|
      invariant ConsiderLayers(layers[l..], kept, maxEdges, minWidth, pair)
                == ConsiderLayers(layers, [], maxEdges, minWidth, pair)
    {
      assert layers[l..][0] == layers[l] && layers[l..][1..] == layers[l + 1..];
      var layer := layers[l];
      ghost var before := kept;
      for c := 0 to |layer|
        invariant ConsiderLayer(layer[c..], kept, minWidth, pair) == ConsiderLayer(layer, before, minWidth, pair)
      {
        assert layer[c..][0] == layer[c] && layer[c..][1..] == layer[c + 1..];
        kept := ConsiderCandidate(layer[c], kept, minWidth, pair);
      }
      if |kept| >= maxEdges { return; }
      l := l + 1;
    }
  }

  /** The inner loop: union the pruning ranges until full, then test what is left over. */
  method ConsiderCandidate(candidate: ParetoPoint, kept: seq<Kept>, minWidth: real, pair: PairDistance)
    returns (kept': seq<Kept>)
    ensures kept' == Consider(candidate, kept, minWidth, pair)
  {
    hide Complement, Measure, PrunedBy, Union;
    var pruned := Empty();
    var i := 0;
    while i < |kept|
      invariant 0 <= i <= |kept| && pruned == PrunedRange(candidate, kept[..i], pair)
    {
      assert kept[..i + 1][..i] == kept[..i];
      pruned := Union(pruned, PrunedBy(candidate.distance, kept[i].candidate.distance,
                                       pair(candidate.id, kept[i].candidate.id)));
      i := i + 1;
      if IsFull(pruned) { break; }
    }
    if IsFull(pruned) {
      FullStaysFull(candidate, kept, pair, i);
      PrunedRangeIsUnion(candidate, kept[..i], pair);
      FullIsFull(pruned);
    } else {
      assert kept[..i] == kept;
    }
    var active := Complement(pruned);
    kept' := if WorthKeeping(active, minWidth) then kept + [Kept(candidate, DegEdge(candidate.id, active))] else kept;
  }

  lemma FullIsFull(s: AlphaSet)
    requires Canonical(s) && IsFull(s)
    ensures s == Full()
  {}

  // ---------------------------------------------------------------------
  // What an active range means
  // ---------------------------------------------------------------------

  ghost predicate StrictlyPrunes(alpha: real, candidate: ParetoPoint, neighbour: ParetoPoint, pair: PairDistance) {
    PrunesAt(alpha, candidate.distance, neighbour.distance, pair(candidate.id, neighbour.id))
  }

  ghost predicate WeaklyPrunes(alpha: real, candidate: ParetoPoint, neighbour: ParetoPoint, pair: PairDistance) {
    PrunesWeakly(alpha, candidate.distance, neighbour.distance, pair(candidate.id, neighbour.id))
  }

  /** No boundary exceptions: inside the range no kept neighbour prunes, outside it some kept
      neighbour does, at worst in a tie. */
  ghost predicate ExactRange(active: AlphaSet, candidate: ParetoPoint, kept: seq<Kept>, pair: PairDistance) {
    && Canonical(active)
    && (forall alpha, i :: Contains(active, alpha) && 0 <= i < |kept| ==>
          !StrictlyPrunes(alpha, candidate, kept[i].candidate, pair))
    && forall alpha :: 0.0 <= alpha <= 1.0 && !Contains(active, alpha) ==>
         exists i :: 0 <= i < |kept| && WeaklyPrunes(alpha, candidate, kept[i].candidate, pair)
  }

  lemma ActiveRangeIsExact(candidate: ParetoPoint, kept: seq<Kept>, pair: PairDistance)
    ensures ExactRange(Complement(PrunedRange(candidate, kept, pair)), candidate, kept, pair)
  {
    hide PrunedRange, PrunedBy, PrunesAt, PrunesWeakly, Canonical, Complement, Measure;
    var pruned := PrunedRange(candidate, kept, pair);
    var active := Complement(pruned);
    PrunedRangeIsUnion(candidate, kept, pair);
    ComplementIsClosureOfGaps(pruned);
    forall alpha, i | Contains(active, alpha) && 0 <= i < |kept|
      ensures !StrictlyPrunes(alpha, candidate, kept[i].candidate, pair)
    {
      if StrictlyPrunes(alpha, candidate, kept[i].candidate, pair) {
        var u, v :| IsGap(pruned.intervals, u, v) && u <= alpha <= v;
        var xy, xz, yz := candidate.distance, kept[i].candidate.distance, pair(candidate.id, kept[i].candidate.id);
        var beta := PrunesInside(alpha, u, v, xy, xz, yz);
        PrunedByIsExact(xy, xz, yz, beta);
        GapMisses(pruned, u, v, beta);
        assert false;
      }
    }
    forall alpha | 0.0 <= alpha <= 1.0 && !Contains(active, alpha)
      ensures exists i :: 0 <= i < |kept| && WeaklyPrunes(alpha, candidate, kept[i].candidate, pair)
    {
      OutsideComplementIsInside(pruned, alpha);
      var i :| 0 <= i < |kept| && Contains(RangePrunedBy(candidate, kept[i].candidate, pair), alpha);
      PrunedByIsExact(candidate.distance, kept[i].candidate.distance, pair(candidate.id, kept[i].candidate.id), alpha);
      assert WeaklyPrunes(alpha, candidate, kept[i].candidate, pair);
    }
  }

  lemma GapMisses(s: AlphaSet, u: real, v: real, beta: real)
    requires IsGap(s.intervals, u, v) && u < beta < v
    ensures !Contains(s, beta) && 0.0 <= beta <= 1.0
  {}

  lemma OutsideComplementIsInside(s: AlphaSet, alpha: real)
    requires Canonical(s) && 0.0 <= alpha <= 1.0 && !Contains(Complement(s), alpha)
    ensures Contains(s, alpha)
  {
    if !Contains(s, alpha) {
      Surroundings(s.intervals, alpha);
      AdjacentIsContained(s, alpha);
      assert false;
    }
  }

  /** Every edge's range is exact for the neighbours kept before it, and wide enough. */
  ghost predicate ExactEdges(kept: seq<Kept>, minWidth: real, pair: PairDistance) {
    forall k :: 0 <= k < |kept| ==>
      && kept[k].edge.target == kept[k].candidate.id
      && WorthKeeping(kept[k].edge.active, minWidth)
      && ExactRange(kept[k].edge.active, kept[k].candidate, kept[..k], pair)
  }

  /** The candidate became edge k, or what the first k edges left it was too narrow. */
  ghost predicate Settled(candidate: ParetoPoint, kept: seq<Kept>, k: nat, minWidth: real, pair: PairDistance) {
    && k <= |kept|
    && ((k < |kept| && kept[k].candidate == candidate)
        || !WorthKeeping(Complement(PrunedRange(candidate, kept[..k], pair)), minWidth))
  }

  ghost predicate AllSettled(layer: seq<ParetoPoint>, kept: seq<Kept>, minWidth: real, pair: PairDistance) {
    forall c :: 0 <= c < |layer| ==> SettledSomewhere(layer[c], kept, minWidth, pair)
  }

  ghost predicate SettledSomewhere(candidate: ParetoPoint, kept: seq<Kept>, minWidth: real, pair: PairDistance) {
    exists k: nat :: Settled(candidate, kept, k, minWidth, pair)
  }

  lemma SettledStays(candidate: ParetoPoint, kept: seq<Kept>, later: seq<Kept>, k: nat, minWidth: real,
                     pair: PairDistance)
    requires Settled(candidate, kept, k, minWidth, pair) && kept <= later
    ensures Settled(candidate, later, k, minWidth, pair)
  {
    hide Complement, PrunedRange, WorthKeeping;
    assert later[..k] == kept[..k];
  }

  lemma ConsiderIsExact(candidate: ParetoPoint, kept: seq<Kept>, minWidth: real, pair: PairDistance)
    requires ExactEdges(kept, minWidth, pair)
    ensures ExactEdges(Consider(candidate, kept, minWidth, pair), minWidth, pair)
    ensures kept <= Consider(candidate, kept, minWidth, pair)
    ensures Settled(candidate, Consider(candidate, kept, minWidth, pair), |kept|, minWidth, pair)
  {
    hide PrunedRange, Complement, WorthKeeping, ExactRange;
    ActiveRangeIsExact(candidate, kept, pair);
    var after := Consider(candidate, kept, minWidth, pair);
    assert after[..|kept|] == kept;
    forall k | 0 <= k < |after|
      ensures after[k].edge.target == after[k].candidate.id
      ensures WorthKeeping(after[k].edge.active, minWidth)
      ensures ExactRange(after[k].edge.active, after[k].candidate, after[..k], pair)
    {
      if k < |kept| { assert after[..k] == kept[..k]; }
    }
  }

  lemma {:induction false} LayerIsExact(layer: seq<ParetoPoint>, kept: seq<Kept>, minWidth: real, pair: PairDistance)
    requires ExactEdges(kept, minWidth, pair)
    ensures ExactEdges(ConsiderLayer(layer, kept, minWidth, pair), minWidth, pair)
    ensures kept <= ConsiderLayer(layer, kept, minWidth, pair)
    ensures AllSettled(layer, ConsiderLayer(layer, kept, minWidth, pair), minWidth, pair)
    decreases |layer|
  {
    hide ExactEdges, Consider, Complement, PrunedRange, WorthKeeping;
    if |layer| != 0 {
      var next := Consider(layer[0], kept, minWidth, pair);
      ConsiderIsExact(layer[0], kept, minWidth, pair);
      LayerIsExact(layer[1..], next, minWidth, pair);
      var after := ConsiderLayer(layer, kept, minWidth, pair);
      SettledStays(layer[0], next, after, |kept|, minWidth, pair);
      forall c | 0 <= c < |layer| ensures SettledSomewhere(layer[c], after, minWidth, pair) {
        if c > 0 { assert layer[c] == layer[1..][c - 1]; }
      }
    }
  }

  /** Algorithm 2: every kept edge's range is exact, and every candidate of the visited layers was
      either kept or left too little by the edges kept before it; all layers are visited unless the
      cap is reached. */
  lemma {:induction false} SelectionIsExact(layers: seq<seq<ParetoPoint>>, kept: seq<Kept>, maxEdges: nat,
                                            minWidth: real, pair: PairDistance)
    returns (visited: nat)
    requires ExactEdges(kept, minWidth, pair)
    ensures var after := ConsiderLayers(layers, kept, maxEdges, minWidth, pair);
            && ExactEdges(after, minWidth, pair) && kept <= after
            && visited <= |layers| && (visited < |layers| ==> |after| >= maxEdges)
            && forall l :: 0 <= l < visited ==> AllSettled(layers[l], after, minWidth, pair)
    decreases |layers|
  {
    hide ExactEdges, ConsiderLayer, AllSettled;
    if |layers| == 0 { return 0; }
    var next := ConsiderLayer(layers[0], kept, minWidth, pair);
    LayerIsExact(layers[0], kept, minWidth, pair);
    visited := 1;
    if |next| < maxEdges {
      var more := SelectionIsExact(layers[1..], next, maxEdges, minWidth, pair);
      visited := more + 1;
      var after := ConsiderLayers(layers, kept, maxEdges, minWidth, pair);
      AllSettledStays(layers[0], next, after, minWidth, pair);
      forall l | 0 <= l < visited ensures AllSettled(layers[l], after, minWidth, pair) {
        if l > 0 { assert layers[l] == layers[1..][l - 1]; }
      }
    }
  }

  lemma AllSettledStays(layer: seq<ParetoPoint>, kept: seq<Kept>, later: seq<Kept>, minWidth: real, pair: PairDistance)
    requires AllSettled(layer, kept, minWidth, pair) && kept <= later
    ensures AllSettled(layer, later, minWidth, pair)
  {
    hide Complement, PrunedRange, WorthKeeping;
    forall c | 0 <= c < |layer| ensures SettledSomewhere(layer[c], later, minWidth, pair) {
      assert SettledSomewhere(layer[c], kept, minWidth, pair);
      var k: nat :| Settled(layer[c], kept, k, minWidth, pair);
      SettledStays(layer[c], kept, later, k, minWidth, pair);
    }
  }
}
