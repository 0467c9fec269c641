/** Sets of alpha values as unions of closed intervals in [0,1] (src/ann/deg/interval.rs). */
module AlphaSets {
  import opened Sorting

  datatype Interval = Interval(low: real, high: real)

  datatype AlphaSet = AlphaSet(intervals: seq<Interval>)

  predicate Within(p: Interval, alpha: real) {
    p.low <= alpha <= p.high
  }

  predicate Covers(pieces: seq<Interval>, alpha: real) {
    exists i :: 0 <= i < |pieces| && Within(pieces[i], alpha)
  }

  predicate Contains(s: AlphaSet, alpha: real) {
    Covers(s.intervals, alpha)
  }

  /** Every piece is a non-reversed interval inside [0,1]. */
  predicate UnitPieces(pieces: seq<Interval>) {
    forall i :: 0 <= i < |pieces| ==> 0.0 <= pieces[i].low <= pieces[i].high <= 1.0
  }

  predicate Separated(pieces: seq<Interval>) {
    forall i, j :: 0 <= i < j < |pieces| ==> pieces[i].high < pieces[j].low
  }

  predicate Canonical(s: AlphaSet) {
    UnitPieces(s.intervals) && Separated(s.intervals)
  }

  function Empty(): AlphaSet { AlphaSet([]) }

  function Full(): AlphaSet { AlphaSet([Interval(0.0, 1.0)]) }

  predicate IsFull(s: AlphaSet) {
    |s.intervals| == 1 && s.intervals[0].low <= 0.0 && s.intervals[0].high >= 1.0
  }

  function Max(x: real, y: real): real { if x < y then y else x }

  function Min(x: real, y: real): real { if x < y then x else y }

  /** A single interval clamped to [0,1]; empty when reversed or outside. */
  function Single(low: real, high: real): (s: AlphaSet)
    ensures Canonical(s)
    ensures forall alpha :: Contains(s, alpha) <==> 0.0 <= alpha <= 1.0 && low <= alpha <= high
  {
    var l, h := Max(low, 0.0), Min(high, 1.0);
    if l > h then Empty()
    else
      assert forall alpha :: Covers([Interval(l, h)], alpha) <==> Within([Interval(l, h)][0], alpha);
      AlphaSet([Interval(l, h)])
  }

  function Measure(pieces: seq<Interval>): real {
    if |pieces| == 0 then 0.0 else pieces[0].high - pieces[0].low + Measure(pieces[1..])
  }

  // ---------------------------------------------------------------------
  // Normalising
  // ---------------------------------------------------------------------

  predicate Before(a: Interval, b: Interval) {
    a.low < b.low || (a.low == b.low && a.high <= b.high)
  }

  function Retain(pieces: seq<Interval>): seq<Interval> {
    if |pieces| == 0 then []
    else if pieces[0].low <= pieces[0].high then [pieces[0]] + Retain(pieces[1..])
    else Retain(pieces[1..])
  }

  /** One turn of the merging loop. */
  function Absorb(merged: seq<Interval>, p: Interval): seq<Interval> {
    if |merged| > 0 && p.low <= merged[|merged| - 1].high then
      var last := merged[|merged| - 1];
      merged[|merged| - 1 := Interval(last.low, Max(last.high, p.high))]
    else merged + [p]
  }

  function MergeAll(merged: seq<Interval>, pieces: seq<Interval>): seq<Interval>
    decreases |pieces|
  {
    if |pieces| == 0 then merged else MergeAll(Absorb(merged, pieces[0]), pieces[1..])
  }

  function Normalise(pieces: seq<Interval>): AlphaSet {
    AlphaSet(MergeAll([], SortBy(Retain(pieces), Before)))
  }

  method NormaliseLoop(pieces: seq<Interval>) returns (s: AlphaSet)
    ensures s == Normalise(pieces)
  {
    var sorted := SortBy(Retain(pieces), Before);
    var merged := [];
    for i := 0 to |sorted|
      invariant MergeAll(merged, sorted[i..]) == MergeAll([], sorted)
    {
      assert sorted[i..][0] == sorted[i] && sorted[i..][1..] == sorted[i + 1..];
      var p := sorted[i];
      if |merged| > 0 && p.low <= merged[|merged| - 1].high {
        var last := merged[|merged| - 1];
        merged := merged[|merged| - 1 := Interval(last.low, Max(last.high, p.high))];
      } else {
        merged := merged + [p];
      }
    }
    s := AlphaSet(merged);
  }

  lemma {:induction false} RetainSameMembers(pieces: seq<Interval>)
    ensures forall p :: p in Retain(pieces) ==> p in pieces && p.low <= p.high
    ensures forall alpha :: Covers(Retain(pieces), alpha) <==> Covers(pieces, alpha)
  {
    if |pieces| != 0 {
      RetainSameMembers(pieces[1..]);
      CoversAppend(pieces[..1], pieces[1..]);
      CoversAppend([pieces[0]], Retain(pieces[1..]));
      assert pieces == pieces[..1] + pieces[1..] && pieces[..1] == [pieces[0]];
    }
  }

  lemma CoversAppend(a: seq<Interval>, b: seq<Interval>)
    ensures forall alpha :: Covers(a + b, alpha) <==> Covers(a, alpha) || Covers(b, alpha)
  {
    forall alpha ensures Covers(a + b, alpha) <==> Covers(a, alpha) || Covers(b, alpha) {
      if Covers(a, alpha) {
        var i :| 0 <= i < |a| && Within(a[i], alpha);
        assert Within((a + b)[i], alpha);
      }
      if Covers(b, alpha) {
        var i :| 0 <= i < |b| && Within(b[i], alpha);
        assert Within((a + b)[|a| + i], alpha);
      }
      if Covers(a + b, alpha) {
        var i :| 0 <= i < |a + b| && Within((a + b)[i], alpha);
        if i < |a| { assert Within(a[i], alpha); } else { assert Within(b[i - |a|], alpha); }
      }
    }
  }

  lemma CoversPermuted(a: seq<Interval>, b: seq<Interval>)
    requires multiset(a) == multiset(b)
    ensures forall alpha :: Covers(a, alpha) <==> Covers(b, alpha)
  {
    SameElements(a, b);
    forall alpha ensures Covers(a, alpha) <==> Covers(b, alpha) {
      if Covers(a, alpha) {
        var i :| 0 <= i < |a| && Within(a[i], alpha);
        assert a[i] in b;
      }
      if Covers(b, alpha) {
        var i :| 0 <= i < |b| && Within(b[i], alpha);
        assert b[i] in a;
      }
    }
  }

  lemma AbsorbKeeps(merged: seq<Interval>, p: Interval)
    requires UnitPieces(merged) && Separated(merged) && 0.0 <= p.low <= p.high <= 1.0
    requires |merged| > 0 ==> merged[|merged| - 1].low <= p.low
    ensures UnitPieces(Absorb(merged, p)) && Separated(Absorb(merged, p))
    ensures |Absorb(merged, p)| > 0 && Absorb(merged, p)[|Absorb(merged, p)| - 1].low <= p.low
    ensures forall alpha :: Covers(Absorb(merged, p), alpha) <==> Covers(merged, alpha) || Within(p, alpha)
  {
    var r := Absorb(merged, p);
    if |r| == |merged| {
      var n := |merged| - 1;
      forall alpha ensures Covers(r, alpha) <==> Covers(merged, alpha) || Within(p, alpha) {
        if Covers(merged, alpha) {
          var i :| 0 <= i < |merged| && Within(merged[i], alpha);
          assert Within(r[i], alpha);
        }
        if Within(p, alpha) { assert Within(r[n], alpha); }
        if Covers(r, alpha) {
          var i :| 0 <= i < |r| && Within(r[i], alpha);
          if i < n { assert Within(merged[i], alpha); }
          else if !Within(p, alpha) { assert Within(merged[n], alpha); }
        }
      }
    } else {
      CoversAppend(merged, [p]);
      assert forall alpha :: Covers([p], alpha) <==> Within([p][0], alpha);
    }
  }

  lemma {:induction false} MergeAllKeeps(merged: seq<Interval>, pieces: seq<Interval>)
    requires UnitPieces(merged) && Separated(merged) && UnitPieces(pieces) && Sorted(pieces, Before)
    requires |merged| > 0 && |pieces| > 0 ==> merged[|merged| - 1].low <= pieces[0].low
    ensures UnitPieces(MergeAll(merged, pieces)) && Separated(MergeAll(merged, pieces))
    ensures forall alpha :: Covers(MergeAll(merged, pieces), alpha) <==> Covers(merged, alpha) || Covers(pieces, alpha)
    decreases |pieces|
  {
    if |pieces| != 0 {
      AbsorbKeeps(merged, pieces[0]);
      if |pieces| > 1 { assert Before(pieces[0], pieces[1]); }
      MergeAllKeeps(Absorb(merged, pieces[0]), pieces[1..]);
      CoversAppend([pieces[0]], pieces[1..]);
      assert pieces == [pieces[0]] + pieces[1..];
      assert forall alpha :: Covers([pieces[0]], alpha) <==> Within([pieces[0]][0], alpha);
    }
  }

  /** Pieces inside [0,1], reversed ones allowed. */
  predicate Bounded(pieces: seq<Interval>) {
    forall i :: 0 <= i < |pieces| ==> 0.0 <= pieces[i].low && pieces[i].high <= 1.0
  }

  /** Normalising makes the canonical set with the members of the pieces. */
  lemma NormaliseIsCanonical(pieces: seq<Interval>)
    requires Bounded(pieces)
    ensures Canonical(Normalise(pieces))
    ensures forall alpha :: Contains(Normalise(pieces), alpha) <==> Covers(pieces, alpha)
  {
    var kept := Retain(pieces);
    var sorted := SortBy(kept, Before);
    RetainSameMembers(pieces);
    SortOrders(kept, Before);
    SortKeepsElements(kept, Before);
    SameElements(sorted, kept);
    CoversPermuted(sorted, kept);
    forall i | 0 <= i < |sorted| ensures 0.0 <= sorted[i].low <= sorted[i].high <= 1.0 {
      assert sorted[i] in kept && sorted[i] in pieces;
    }
    MergeAllKeeps([], sorted);
  }

  // ---------------------------------------------------------------------
  // Canonical sets are determined by their members
  // ---------------------------------------------------------------------

  lemma Member(pieces: seq<Interval>, i: nat, alpha: real)
    requires i < |pieces| && Within(pieces[i], alpha)
    ensures Covers(pieces, alpha)
  {}

  lemma {:induction false} SameMembersSamePieces(a: seq<Interval>, b: seq<Interval>)
    requires UnitPieces(a) && Separated(a) && UnitPieces(b) && Separated(b)
    requires forall alpha :: Covers(a, alpha) <==> Covers(b, alpha)
    ensures a == b
  {
    if |a| == 0 {
      if |b| > 0 { Member(b, 0, b[0].low); assert false; }
    } else {
      assert Within(a[0], a[0].low) && Covers(b, a[0].low);
      FirstPieceStarts(a, b);
      FirstPieceStarts(b, a);
      FirstPieceEnds(a, b);
      FirstPieceEnds(b, a);
      forall alpha ensures Covers(a[1..], alpha) <==> Covers(b[1..], alpha) {
        TailMembers(a, alpha);
        TailMembers(b, alpha);
      }
      SameMembersSamePieces(a[1..], b[1..]);
      assert a == [a[0]] + a[1..] && b == [b[0]] + b[1..];
    }
  }

  lemma FirstPieceStarts(a: seq<Interval>, b: seq<Interval>)
    requires UnitPieces(a) && Separated(a) && UnitPieces(b) && Separated(b) && |a| > 0
    requires forall alpha :: Covers(a, alpha) ==> Covers(b, alpha)
    ensures |b| > 0 && b[0].low <= a[0].low
  {
    assert Within(a[0], a[0].low);
    assert Covers(b, a[0].low);
    var i :| 0 <= i < |b| && Within(b[i], a[0].low);
  }

  lemma FirstPieceEnds(a: seq<Interval>, b: seq<Interval>)
    requires UnitPieces(a) && Separated(a) && UnitPieces(b) && Separated(b) && |a| > 0 && |b| > 0
    requires a[0].low == b[0].low
    requires forall alpha :: Covers(a, alpha) ==> Covers(b, alpha)
    ensures a[0].high <= b[0].high
  {
    if a[0].high > b[0].high {
      // A point just past b's first piece belongs to a and not to b.
      var end := if |b| > 1 then Min(a[0].high, b[1].low) else a[0].high;
      var alpha := (b[0].high + end) / 2.0;
      assert Within(a[0], alpha);
      BetweenPieces(b, 0, alpha);
      assert false;
    }
  }

  lemma TailMembers(a: seq<Interval>, alpha: real)
    requires UnitPieces(a) && Separated(a) && |a| > 0
    ensures Covers(a[1..], alpha) <==> Covers(a, alpha) && a[0].high < alpha
  {
    if Covers(a[1..], alpha) {
      var i :| 0 <= i < |a[1..]| && Within(a[1..][i], alpha);
      assert Within(a[i + 1], alpha) && a[0].high < a[i + 1].low;
    }
    if Covers(a, alpha) && a[0].high < alpha {
      var i :| 0 <= i < |a| && Within(a[i], alpha);
      assert Within(a[1..][i - 1], alpha);
    }
  }

  /** Two canonical sets with the same members are the same list of pieces. */
  lemma CanonicalIsUnique(s: AlphaSet, t: AlphaSet)
    requires Canonical(s) && Canonical(t)
    requires forall alpha :: Contains(s, alpha) <==> Contains(t, alpha)
    ensures s == t
  {
    forall alpha ensures Covers(s.intervals, alpha) <==> Covers(t.intervals, alpha) {
      assert Contains(s, alpha) <==> Contains(t, alpha);
    }
    SameMembersSamePieces(s.intervals, t.intervals);
  }

  // ---------------------------------------------------------------------
  // Union and intersection
  // ---------------------------------------------------------------------

  function Union(s: AlphaSet, t: AlphaSet): AlphaSet {
    Normalise(s.intervals + t.intervals)
  }

  lemma UnionIsOr(s: AlphaSet, t: AlphaSet)
    requires Canonical(s) && Canonical(t)
    ensures Canonical(Union(s, t))
    ensures forall alpha :: Contains(Union(s, t), alpha) <==> Contains(s, alpha) || Contains(t, alpha)
  {
    NormaliseIsCanonical(s.intervals + t.intervals);
    CoversAppend(s.intervals, t.intervals);
  }

  function Overlap(a: Interval, b: Interval): Interval {
    Interval(Max(a.low, b.low), Min(a.high, b.high))
  }

  function OverlapsWith(a: Interval, others: seq<Interval>): seq<Interval> {
    if |others| == 0 then []
    else
      var p := Overlap(a, others[0]);
      (if p.low <= p.high then [p] else []) + OverlapsWith(a, others[1..])
  }

  function Overlaps(pieces: seq<Interval>, others: seq<Interval>): seq<Interval> {
    if |pieces| == 0 then [] else OverlapsWith(pieces[0], others) + Overlaps(pieces[1..], others)
  }

  function Intersect(s: AlphaSet, t: AlphaSet): AlphaSet {
    Normalise(Overlaps(s.intervals, t.intervals))
  }

  lemma NothingOverlaps(others: seq<Interval>)
    ensures Overlaps([], others) == [] && forall a :: OverlapsWith(a, []) == []
  {}

  lemma OverlapsStep(pieces: seq<Interval>, others: seq<Interval>, i: nat)
    requires i < |pieces|
    ensures Overlaps(pieces[i..], others) == OverlapsWith(pieces[i], others) + Overlaps(pieces[i + 1..], others)
  {
    assert pieces[i..][0] == pieces[i] && pieces[i..][1..] == pieces[i + 1..];
  }

  lemma OverlapsWithStep(a: Interval, others: seq<Interval>, j: nat)
    requires j < |others|
    ensures var p := Overlap(a, others[j]);
            OverlapsWith(a, others[j..]) == if p.low <= p.high then [p] + OverlapsWith(a, others[j + 1..])
                                            else OverlapsWith(a, others[j + 1..])
  {
    assert others[j..][0] == others[j] && others[j..][1..] == others[j + 1..];
    assert [] + OverlapsWith(a, others[j + 1..]) == OverlapsWith(a, others[j + 1..]);
  }

  method IntersectLoop(s: AlphaSet, t: AlphaSet) returns (r: AlphaSet)
    ensures r == Intersect(s, t)
  {
    hide OverlapsWith, Overlaps;
    var a, b := s.intervals, t.intervals;
    var pieces := [];
    NothingOverlaps(b);
    assert a[0..] == a && b[0..] == b;
    for i := 0 to |a|
      invariant pieces + Overlaps(a[i..], b) == Overlaps(a, b)
    {
      ghost var before := pieces;
      OverlapsStep(a, b, i);
      for j := 0 to |b|
        invariant pieces + OverlapsWith(a[i], b[j..]) == before + OverlapsWith(a[i], b)
      {
        OverlapsWithStep(a[i], b, j);
        var p := Overlap(a[i], b[j]);
        if p.low <= p.high {
          assert pieces + ([p] + OverlapsWith(a[i], b[j + 1..])) == (pieces + [p]) + OverlapsWith(a[i], b[j + 1..]);
          pieces := pieces + [p];
        }
      }
      assert b[|b|..] == [] && pieces + [] == pieces;
      assert before + (OverlapsWith(a[i], b) + Overlaps(a[i + 1..], b)) == pieces + Overlaps(a[i + 1..], b);
    }
    assert a[|a|..] == [] && pieces + [] == pieces;
    r := NormaliseLoop(pieces);
  }

  lemma {:induction false} OverlapsWithMembers(a: Interval, others: seq<Interval>)
    requires 0.0 <= a.low && a.high <= 1.0 && UnitPieces(others)
    ensures Bounded(OverlapsWith(a, others))
    ensures forall alpha :: Covers(OverlapsWith(a, others), alpha) <==> Within(a, alpha) && Covers(others, alpha)
  {
    if |others| != 0 {
      OverlapsWithMembers(a, others[1..]);
      var p := Overlap(a, others[0]);
      var head := if p.low <= p.high then [p] else [];
      CoversAppend(head, OverlapsWith(a, others[1..]));
      CoversAppend([others[0]], others[1..]);
      assert others == [others[0]] + others[1..];
      forall alpha ensures Covers(head, alpha) <==> Within(a, alpha) && Covers([others[0]], alpha) {
        assert Covers([others[0]], alpha) <==> Within([others[0]][0], alpha);
        if Within(p, alpha) { assert Within(head[0], alpha); }
      }
    }
  }

  lemma {:induction false} OverlapsMembers(pieces: seq<Interval>, others: seq<Interval>)
    requires UnitPieces(pieces) && UnitPieces(others)
    ensures Bounded(Overlaps(pieces, others))
    ensures forall alpha :: Covers(Overlaps(pieces, others), alpha) <==> Covers(pieces, alpha) && Covers(others, alpha)
  {
    if |pieces| != 0 {
      OverlapsWithMembers(pieces[0], others);
      OverlapsMembers(pieces[1..], others);
      CoversAppend(OverlapsWith(pieces[0], others), Overlaps(pieces[1..], others));
      CoversAppend([pieces[0]], pieces[1..]);
      assert pieces == [pieces[0]] + pieces[1..];
      assert forall alpha :: Covers([pieces[0]], alpha) <==> Within([pieces[0]][0], alpha);
    }
  }

  lemma IntersectIsAnd(s: AlphaSet, t: AlphaSet)
    requires Canonical(s) && Canonical(t)
    ensures Canonical(Intersect(s, t))
    ensures forall alpha :: Contains(Intersect(s, t), alpha) <==> Contains(s, alpha) && Contains(t, alpha)
  {
    OverlapsMembers(s.intervals, t.intervals);
    NormaliseIsCanonical(Overlaps(s.intervals, t.intervals));
  }

  // ---------------------------------------------------------------------
  // Complement
  // ---------------------------------------------------------------------

  /** The gaps left above `cursor`. */
  function Gaps(pieces: seq<Interval>, cursor: real): seq<Interval> {
    if |pieces| == 0 then (if cursor < 1.0 then [Interval(cursor, 1.0)] else [])
    else
      (if pieces[0].low > cursor then [Interval(cursor, pieces[0].low)] else [])
      + Gaps(pieces[1..], Max(cursor, pieces[0].high))
  }

  function Complement(s: AlphaSet): AlphaSet {
    if |s.intervals| == 0 then Full() else Normalise(Gaps(s.intervals, 0.0))
  }

  method ComplementLoop(s: AlphaSet) returns (r: AlphaSet)
    ensures r == Complement(s)
  {
    if |s.intervals| == 0 { return Full(); }
    var pieces := [];
    var cursor := 0.0;
    for i := 0 to |s.intervals|
      invariant pieces + Gaps(s.intervals[i..], cursor) == Gaps(s.intervals, 0.0)
    {
      var p := s.intervals[i];
      assert s.intervals[i..][0] == p && s.intervals[i..][1..] == s.intervals[i + 1..];
      if p.low > cursor {
        assert pieces + Gaps(s.intervals[i..], cursor)
            == pieces + [Interval(cursor, p.low)] + Gaps(s.intervals[i + 1..], Max(cursor, p.high));
        pieces := pieces + [Interval(cursor, p.low)];
      } else {
        assert Gaps(s.intervals[i..], cursor) == Gaps(s.intervals[i + 1..], Max(cursor, p.high));
      }
      cursor := Max(cursor, p.high);
    }
    if cursor < 1.0 { pieces := pieces + [Interval(cursor, 1.0)]; }
    assert pieces == Gaps(s.intervals, 0.0);
    r := NormaliseLoop(pieces);
  }

  /** An open interval of [0,1] without a member of the set. */
  ghost predicate IsGap(pieces: seq<Interval>, u: real, v: real) {
    0.0 <= u < v <= 1.0 && forall beta :: u < beta < v ==> !Covers(pieces, beta)
  }

  /** alpha lies on the closure of a gap. */
  ghost predicate Adjacent(pieces: seq<Interval>, alpha: real) {
    exists u, v :: IsGap(pieces, u, v) && u <= alpha <= v
  }

  /** The pieces ascend and at most touch. */
  predicate Ascending(pieces: seq<Interval>) {
    forall i, j :: 0 <= i < j < |pieces| ==> pieces[i].high <= pieces[j].low
  }

  lemma {:induction false} GapsAreGaps(pieces: seq<Interval>, cursor: real)
    requires UnitPieces(pieces) && Separated(pieces) && 0.0 <= cursor <= 1.0
    requires |pieces| > 0 ==> cursor <= pieces[0].low
    ensures forall i :: 0 <= i < |Gaps(pieces, cursor)| ==>
              cursor <= Gaps(pieces, cursor)[i].low
                && IsGap(pieces, Gaps(pieces, cursor)[i].low, Gaps(pieces, cursor)[i].high)
    ensures Ascending(Gaps(pieces, cursor))
  {
    if |pieces| != 0 {
      var high := pieces[0].high;
      GapsAreGaps(pieces[1..], high);
      var rest := Gaps(pieces[1..], high);
      var gaps := Gaps(pieces, cursor);
      forall i | 0 <= i < |gaps|
        ensures cursor <= gaps[i].low && IsGap(pieces, gaps[i].low, gaps[i].high)
      {
        var k := i - (|gaps| - |rest|);
        if k >= 0 {
          assert gaps[i] == rest[k];
          forall beta | rest[k].low < beta < rest[k].high ensures !Covers(pieces, beta) {
            TailMembers(pieces, beta);
          }
        } else {
          forall beta | cursor < beta < pieces[0].low ensures !Covers(pieces, beta) {
            BetweenPieces(pieces, -1, beta);
          }
        }
      }
    }
  }

  lemma {:induction false} GapsReachEveryGap(pieces: seq<Interval>, cursor: real, u: real, v: real, alpha: real)
    requires UnitPieces(pieces) && Separated(pieces) && 0.0 <= cursor <= u
    requires |pieces| > 0 ==> cursor <= pieces[0].low
    requires IsGap(pieces, u, v) && u <= alpha <= v
    ensures Covers(Gaps(pieces, cursor), alpha)
  {
    var gaps := Gaps(pieces, cursor);
    if |pieces| == 0 {
      assert Within(gaps[0], alpha);
    } else {
      var p := pieces[0];
      Member(pieces, 0, p.low);
      Member(pieces, 0, p.high);
      if v <= p.low {
        assert Within(gaps[0], alpha);
      } else {
        if p.high > u {
          Member(pieces, 0, (u + v) / 2.0);
          assert false;
        }
        forall beta | u < beta < v ensures !Covers(pieces[1..], beta) {
          TailMembers(pieces, beta);
        }
        GapsReachEveryGap(pieces[1..], p.high, u, v, alpha);
        var rest := Gaps(pieces[1..], p.high);
        CoversAppend(gaps[..|gaps| - |rest|], rest);
        assert gaps == gaps[..|gaps| - |rest|] + rest;
      }
    }
  }

  /** The complement is the closure of [0,1] minus the set: what lies on a gap's closure, and nothing else. */
  lemma ComplementIsClosureOfGaps(s: AlphaSet)
    requires Canonical(s)
    ensures Canonical(Complement(s))
    ensures forall alpha :: Contains(Complement(s), alpha) <==> Adjacent(s.intervals, alpha)
  {
    var pieces := s.intervals;
    GapsAreGaps(pieces, 0.0);
    NormaliseIsCanonical(Gaps(pieces, 0.0));
    assert |pieces| == 0 ==> Gaps(pieces, 0.0) == Full().intervals;
    forall alpha ensures Covers(Gaps(pieces, 0.0), alpha) <==> Adjacent(pieces, alpha) {
      if Covers(Gaps(pieces, 0.0), alpha) {
        var i :| 0 <= i < |Gaps(pieces, 0.0)| && Within(Gaps(pieces, 0.0)[i], alpha);
        assert IsGap(pieces, Gaps(pieces, 0.0)[i].low, Gaps(pieces, 0.0)[i].high);
      }
      if Adjacent(pieces, alpha) {
        var u, v :| IsGap(pieces, u, v) && u <= alpha <= v;
        GapsReachEveryGap(pieces, 0.0, u, v, alpha);
      }
    }
  }

  lemma {:induction false} Surroundings(pieces: seq<Interval>, alpha: real)
    requires UnitPieces(pieces) && Separated(pieces) && 0.0 <= alpha <= 1.0 && !Covers(pieces, alpha)
    ensures Adjacent(pieces, alpha)
  {
    var u, v := Below(pieces, alpha), Above(pieces, alpha);
    BoundsEnclose(pieces, alpha);
    assert IsGap(pieces, u, v);
  }

  /** Largest piece end below alpha, or 0. */
  ghost function Below(pieces: seq<Interval>, alpha: real): real {
    if |pieces| == 0 || pieces[0].high >= alpha then 0.0 else Max(pieces[0].high, Below(pieces[1..], alpha))
  }

  /** Smallest piece start above alpha, or 1. */
  ghost function Above(pieces: seq<Interval>, alpha: real): real {
    if |pieces| == 0 then 1.0 else if pieces[0].low > alpha then pieces[0].low else Above(pieces[1..], alpha)
  }

  lemma {:induction false} BoundsEnclose(pieces: seq<Interval>, alpha: real)
    requires UnitPieces(pieces) && Separated(pieces) && 0.0 <= alpha <= 1.0 && !Covers(pieces, alpha)
    ensures 0.0 <= Below(pieces, alpha) <= alpha <= Above(pieces, alpha) <= 1.0
    ensures Below(pieces, alpha) < Above(pieces, alpha)
    ensures forall beta :: Below(pieces, alpha) < beta < Above(pieces, alpha) ==> !Covers(pieces, beta)
  {
    if |pieces| != 0 {
      assert !Within(pieces[0], alpha);
      if pieces[0].low > alpha {
        forall beta | Below(pieces, alpha) < beta < Above(pieces, alpha) ensures !Covers(pieces, beta) {
          BetweenPieces(pieces, -1, beta);
        }
      } else {
        TailMembers(pieces, alpha);
        BoundsEnclose(pieces[1..], alpha);
        forall beta | Below(pieces, alpha) < beta < Above(pieces, alpha) ensures !Covers(pieces, beta) {
          TailMembers(pieces, beta);
        }
      }
    }
  }

  // ---------------------------------------------------------------------
  // Measure
  // ---------------------------------------------------------------------

  lemma {:induction false} MeasureAppend(a: seq<Interval>, b: seq<Interval>)
    ensures Measure(a + b) == Measure(a) + Measure(b)
  {
    if |a| == 0 {
      assert a + b == b;
    } else {
      MeasureAppend(a[1..], b);
      assert (a + b)[1..] == a[1..] + b;
    }
  }

  lemma {:induction false} GapsMeasure(pieces: seq<Interval>, cursor: real)
    requires UnitPieces(pieces) && Separated(pieces) && 0.0 <= cursor <= 1.0
    requires |pieces| > 0 ==> cursor <= pieces[0].low
    ensures Measure(Gaps(pieces, cursor)) == 1.0 - cursor - Measure(pieces)
  {
    if |pieces| != 0 {
      GapsMeasure(pieces[1..], pieces[0].high);
      var head := if pieces[0].low > cursor then [Interval(cursor, pieces[0].low)] else [];
      MeasureAppend(head, Gaps(pieces[1..], pieces[0].high));
    }
  }

  lemma {:induction false} MergeTouchingMeasure(merged: seq<Interval>, pieces: seq<Interval>)
    requires UnitPieces(merged) && UnitPieces(pieces) && Ascending(pieces)
    requires |merged| > 0 && |pieces| > 0 ==> merged[|merged| - 1].high <= pieces[0].low
    ensures Measure(MergeAll(merged, pieces)) == Measure(merged) + Measure(pieces)
    decreases |pieces|
  {
    if |pieces| != 0 {
      var p := pieces[0];
      var next := Absorb(merged, p);
      if |next| == |merged| {
        var n := |merged| - 1;
        MeasureAppend(merged[..n], [merged[n]]);
        MeasureAppend(merged[..n], [next[n]]);
        assert merged == merged[..n] + [merged[n]] && next == merged[..n] + [next[n]];
      } else {
        MeasureAppend(merged, [p]);
      }
      MergeTouchingMeasure(next, pieces[1..]);
    }
  }

  lemma {:induction false} AlreadySorted(pieces: seq<Interval>)
    requires UnitPieces(pieces) && Ascending(pieces)
    ensures SortBy(Retain(pieces), Before) == pieces
  {
    if |pieces| != 0 {
      AlreadySorted(pieces[1..]);
      RetainAll(pieces);
      RetainAll(pieces[1..]);
    }
  }

  lemma {:induction false} RetainAll(pieces: seq<Interval>)
    requires UnitPieces(pieces)
    ensures Retain(pieces) == pieces
  {
    if |pieces| != 0 { RetainAll(pieces[1..]); }
  }

  /** A set and its complement split [0,1]: their measures add up to one. */
  lemma MeasuresAddUp(s: AlphaSet)
    requires Canonical(s)
    ensures Measure(s.intervals) + Measure(Complement(s).intervals) == 1.0
  {
    var gaps := Gaps(s.intervals, 0.0);
    GapsAreGaps(s.intervals, 0.0);
    GapsMeasure(s.intervals, 0.0);
    if |s.intervals| != 0 {
      AlreadySorted(gaps);
      MergeTouchingMeasure([], gaps);
    }
  }

  // ---------------------------------------------------------------------
  // Double complement
  // ---------------------------------------------------------------------

  /** The pieces of positive width. */
  function Wide(pieces: seq<Interval>): seq<Interval> {
    if |pieces| == 0 then []
    else (if pieces[0].low < pieces[0].high then [pieces[0]] else []) + Wide(pieces[1..])
  }

  lemma {:induction false} WideIsCanonical(pieces: seq<Interval>)
    requires UnitPieces(pieces) && Separated(pieces)
    ensures UnitPieces(Wide(pieces)) && Separated(Wide(pieces))
    ensures forall p :: p in Wide(pieces) <==> p in pieces && p.low < p.high
  {
    if |pieces| != 0 {
      WideIsCanonical(pieces[1..]);
      var rest := Wide(pieces[1..]);
      forall i | 0 <= i < |rest| ensures pieces[0].high < rest[i].low {
        assert rest[i] in pieces[1..];
      }
      assert forall p :: p in pieces <==> p == pieces[0] || p in pieces[1..];
    }
  }

  /** No member lies after piece i and before the next one. */
  lemma BetweenPieces(pieces: seq<Interval>, i: int, beta: real)
    requires UnitPieces(pieces) && Separated(pieces) && -1 <= i < |pieces|
    requires 0 <= i ==> pieces[i].high < beta
    requires i + 1 < |pieces| ==> beta < pieces[i + 1].low
    ensures !Covers(pieces, beta)
  {
    forall j | 0 <= j < |pieces| ensures !Within(pieces[j], beta) {
      if j < i { assert pieces[j].high < pieces[i].low; }
      if j > i + 1 { assert pieces[i + 1].high < pieces[j].low; }
    }
  }

  /** An interval inside a canonical set lies inside one of its pieces. */
  lemma IntervalInOnePiece(pieces: seq<Interval>, u: real, v: real) returns (i: nat)
    requires UnitPieces(pieces) && Separated(pieces) && u < v
    requires forall beta :: u < beta < v ==> Covers(pieces, beta)
    ensures i < |pieces| && pieces[i].low <= u && v <= pieces[i].high
  {
    var mid := (u + v) / 2.0;
    assert Covers(pieces, mid);
    i :| 0 <= i < |pieces| && Within(pieces[i], mid);
    if v > pieces[i].high {
      var end := if i + 1 < |pieces| then Min(v, pieces[i + 1].low) else v;
      var beta := (pieces[i].high + end) / 2.0;
      BetweenPieces(pieces, i, beta);
      assert false;
    }
    if pieces[i].low > u {
      var start := if i > 0 then Max(u, pieces[i - 1].high) else u;
      var beta := (start + pieces[i].low) / 2.0;
      BetweenPieces(pieces, i - 1, beta);
      assert false;
    }
  }

  /** Complementing twice drops exactly the zero-width pieces. */
  lemma DoubleComplement(s: AlphaSet)
    requires Canonical(s)
    ensures Complement(Complement(s)) == AlphaSet(Wide(s.intervals))
  {
    var pieces, c := s.intervals, Complement(s);
    ComplementIsClosureOfGaps(s);
    ComplementIsClosureOfGaps(c);
    WideIsCanonical(pieces);
    forall alpha ensures Contains(Complement(c), alpha) <==> Covers(Wide(pieces), alpha) {
      if Adjacent(c.intervals, alpha) {
        var u, v :| IsGap(c.intervals, u, v) && u <= alpha <= v;
        forall beta | u < beta < v ensures Covers(pieces, beta) {
          if !Covers(pieces, beta) {
            Surroundings(pieces, beta);
            AdjacentIsContained(s, beta);
            assert false;
          }
        }
        var i := IntervalInOnePiece(pieces, u, v);
        assert pieces[i] in Wide(pieces);
        var k :| 0 <= k < |Wide(pieces)| && Wide(pieces)[k] == pieces[i];
        assert Within(Wide(pieces)[k], alpha);
      }
      if Covers(Wide(pieces), alpha) {
        var k :| 0 <= k < |Wide(pieces)| && Within(Wide(pieces)[k], alpha);
        var p := Wide(pieces)[k];
        assert p in Wide(pieces) && p in pieces;
        InsideIsNotAdjacent(pieces, p);
        forall beta | p.low < beta < p.high ensures !Covers(c.intervals, beta) {
          assert Contains(c, beta) <==> Adjacent(pieces, beta);
        }
        assert IsGap(c.intervals, p.low, p.high);
      }
    }
    CanonicalIsUnique(Complement(c), AlphaSet(Wide(pieces)));
  }

  lemma AdjacentIsContained(s: AlphaSet, alpha: real)
    requires Canonical(s) && Adjacent(s.intervals, alpha)
    ensures Covers(Complement(s).intervals, alpha)
  {
    ComplementIsClosureOfGaps(s);
    assert Contains(Complement(s), alpha);
  }

  lemma InsideIsNotAdjacent(pieces: seq<Interval>, p: Interval)
    requires p in pieces
    ensures forall beta :: p.low < beta < p.high ==> !Adjacent(pieces, beta)
  {
    forall beta | p.low < beta < p.high ensures !Adjacent(pieces, beta) {
      if Adjacent(pieces, beta) {
        var u, v :| IsGap(pieces, u, v) && u <= beta <= v;
        var x := (Max(u, p.low) + Min(v, p.high)) / 2.0;
        var i :| 0 <= i < |pieces| && pieces[i] == p;
        Member(pieces, i, x);
        assert false;
      }
    }
  }
}
