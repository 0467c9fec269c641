/** Lloyd's k-means with empty-cluster revival (src/ann/kmeans.rs). The flat buffers of the source
    are sequences of vectors, and the randomly seeded initial centroids are a parameter. */
module KMeans {
  import opened RealMath
  import opened Vectors

  ghost predicate Points(data: seq<Vector>, dimension: nat) {
    forall i :: 0 <= i < |data| ==> |data[i]| == dimension
  }

  /** Every point is assigned to an existing cluster. */
  ghost predicate Assigned(assignments: seq<int>, count: nat, clusters: nat) {
    |assignments| == count && forall i :: 0 <= i < count ==> 0 <= assignments[i] < clusters
  }

  /** Sum of squared distances of the points to their assigned centroids. */
  ghost function Cost(data: seq<Vector>, centroids: seq<Vector>, assignments: seq<int>, dimension: nat): real
    requires Points(data, dimension) && Points(centroids, dimension)
    requires Assigned(assignments, |data|, |centroids|)
  {
    if |data| == 0 then 0.0
    else SquaredL2(data[0], centroids[assignments[0]]) + Cost(data[1..], centroids, assignments[1..], dimension)
  }

  // ---------------------------------------------------------------------
  // Assignment
  // ---------------------------------------------------------------------

  /** The first centroid at the smallest distance. */
  ghost predicate IsNearest(v: Vector, centroids: seq<Vector>, k: int, dimension: nat)
    requires |v| == dimension && Points(centroids, dimension)
  {
    && 0 <= k < |centroids|
    && (forall j :: 0 <= j < |centroids| ==> SquaredL2(v, centroids[k]) <= SquaredL2(v, centroids[j]))
    && forall j :: 0 <= j < k ==> SquaredL2(v, centroids[k]) < SquaredL2(v, centroids[j])
  }

  method Assign(v: Vector, centroids: seq<Vector>, dimension: nat) returns (k: int, distance: real)
    requires |v| == dimension && Points(centroids, dimension) && |centroids| > 0
    ensures IsNearest(v, centroids, k, dimension) && distance == SquaredL2(v, centroids[k])
  {
    hide SquaredL2;
    k, distance := 0, SquaredL2(v, centroids[0]);
    for j := 1 to |centroids|
      invariant 0 <= k < j && distance == SquaredL2(v, centroids[k])
      invariant forall i :: 0 <= i < j ==> distance <= SquaredL2(v, centroids[i])
      invariant forall i :: 0 <= i < k ==> distance < SquaredL2(v, centroids[i])
    {
      var d := SquaredL2(v, centroids[j]);
      if d < distance { k, distance := j, d; }
    }
  }

  ghost predicate AllNearest(data: seq<Vector>, centroids: seq<Vector>, assignments: seq<int>, dimension: nat)
    requires Points(data, dimension) && Points(centroids, dimension) && |assignments| == |data|
  {
    forall i :: 0 <= i < |data| ==> IsNearest(data[i], centroids, assignments[i], dimension)
  }

  lemma {:induction false} CostAppend(data: seq<Vector>, centroids: seq<Vector>, assignments: seq<int>, n: nat,
                                      dimension: nat)
    requires Points(data, dimension) && Points(centroids, dimension)
    requires |assignments| == |data| && n < |data| && Assigned(assignments[..n + 1], n + 1, |centroids|)
    ensures Assigned(assignments[..n], n, |centroids|)
    ensures Cost(data[..n + 1], centroids, assignments[..n + 1], dimension)
         == Cost(data[..n], centroids, assignments[..n], dimension) + SquaredL2(data[n], centroids[assignments[n]])
    decreases n
  {
    hide SquaredL2;
    forall i | 0 <= i < n ensures 0 <= assignments[..n][i] < |centroids| {
      assert assignments[..n][i] == assignments[..n + 1][i];
    }
    if n > 0 {
      assert data[..n + 1][1..] == data[1..][..n] && data[..n][1..] == data[1..][..n - 1];
      assert assignments[..n + 1][1..] == assignments[1..][..n] && assignments[..n][1..] == assignments[1..][..n - 1];
      CostAppend(data[1..], centroids, assignments[1..], n - 1, dimension);
    }
  }

  /** The assignment step: everything goes to its nearest centroid, and the inertia is that cost. */
  method AssignAll(data: seq<Vector>, centroids: seq<Vector>, assignments: seq<int>, dimension: nat)
    returns (assignments': seq<int>, inertia: real, changed: bool)
    requires Points(data, dimension) && Points(centroids, dimension) && |centroids| > 0 && |assignments| == |data|
    ensures Assigned(assignments', |data|, |centroids|) && AllNearest(data, centroids, assignments', dimension)
    ensures inertia == Cost(data, centroids, assignments', dimension)
    ensures changed <==> assignments' != assignments
  {
    hide SquaredL2, Cost;
    assignments', inertia, changed := assignments, 0.0, false;
    CostOfNothing(centroids, dimension);
    for i := 0 to |data|
      invariant |assignments'| == |data| && assignments'[i..] == assignments[i..]
      invariant Assigned(assignments'[..i], i, |centroids|)
      invariant forall j :: 0 <= j < i ==> IsNearest(data[j], centroids, assignments'[j], dimension)
      invariant inertia == Cost(data[..i], centroids, assignments'[..i], dimension)
      invariant changed <==> assignments' != assignments
    {
      var k, distance := Assign(data[i], centroids, dimension);
      ghost var before := assignments';
      if assignments'[i] != k {
        assignments' := assignments'[i := k];
        changed := true;
        assert assignments'[i] != assignments[i];
      }
      assert assignments'[..i] == before[..i];
      assert assignments'[..i + 1] == before[..i] + [k];
      CostAppend(data, centroids, assignments', i, dimension);
      inertia := inertia + distance;
    }
    assert data[..|data|] == data && assignments'[..|data|] == assignments';
  }

  lemma CostOfNothing(centroids: seq<Vector>, dimension: nat)
    requires Points(centroids, dimension)
    ensures Cost([], centroids, [], dimension) == 0.0
  {}

  /** Going to the nearest centroid costs no more than any other assignment. */
  lemma {:induction false} NearestCostsLeast(data: seq<Vector>, centroids: seq<Vector>, nearest: seq<int>,
                                             other: seq<int>, dimension: nat)
    requires Points(data, dimension) && Points(centroids, dimension)
    requires Assigned(nearest, |data|, |centroids|) && Assigned(other, |data|, |centroids|)
    requires AllNearest(data, centroids, nearest, dimension)
    ensures Cost(data, centroids, nearest, dimension) <= Cost(data, centroids, other, dimension)
  {
    hide SquaredL2;
    if |data| != 0 {
      assert IsNearest(data[0], centroids, nearest[0], dimension);
      forall i | 0 <= i < |data[1..]| ensures IsNearest(data[1..][i], centroids, nearest[1..][i], dimension) {
        assert data[1..][i] == data[i + 1] && nearest[1..][i] == nearest[i + 1];
      }
      NearestCostsLeast(data[1..], centroids, nearest[1..], other[1..], dimension);
    }
  }

  // ---------------------------------------------------------------------
  // The mean minimises the sum of squares
  // ---------------------------------------------------------------------

  function Members(assignments: seq<int>, k: int): nat {
    if |assignments| == 0 then 0 else (if assignments[0] == k then 1 else 0) + Members(assignments[1..], k)
  }

  /** Coordinate sums of the members of cluster k. */
  ghost function MemberSum(data: seq<Vector>, assignments: seq<int>, k: int, dimension: nat): (r: Vector)
    requires Points(data, dimension) && |assignments| == |data|
    ensures |r| == dimension
  {
    if |data| == 0 then Zero(dimension)
    else
      var rest := MemberSum(data[1..], assignments[1..], k, dimension);
      if assignments[0] == k then Add(data[0], rest) else rest
  }

  /** Cost of cluster k's members around c. */
  ghost function MemberCost(data: seq<Vector>, assignments: seq<int>, k: int, c: Vector, dimension: nat): real
    requires Points(data, dimension) && |assignments| == |data| && |c| == dimension
  {
    if |data| == 0 then 0.0
    else
      (if assignments[0] == k then SquaredL2(data[0], c) else 0.0)
      + MemberCost(data[1..], assignments[1..], k, c, dimension)
  }

  ghost function MemberNorms(data: seq<Vector>, assignments: seq<int>, k: int, dimension: nat): real
    requires Points(data, dimension) && |assignments| == |data|
  {
    if |data| == 0 then 0.0
    else
      (if assignments[0] == k then NormSquared(data[0]) else 0.0)
      + MemberNorms(data[1..], assignments[1..], k, dimension)
  }

  lemma {:induction false} DotAdd(u: Vector, v: Vector, w: Vector)
    requires |u| == |v| == |w|
    ensures Dot(Add(u, v), w) == Dot(u, w) + Dot(v, w)
  {
    if |u| != 0 {
      assert Add(u, v)[1..] == Add(u[1..], v[1..]);
      DotAdd(u[1..], v[1..], w[1..]);
      assert (u[0] + v[0]) * w[0] == u[0] * w[0] + v[0] * w[0];
    }
  }

  lemma {:induction false} DotZero(w: Vector)
    ensures Dot(Zero(|w|), w) == 0.0
  {
    if |w| != 0 {
      assert Zero(|w|)[1..] == Zero(|w[1..]|);
      DotZero(w[1..]);
    }
  }

  /** Sum of |x - c|^2 = sum of |x|^2 - 2<sum, c> + n|c|^2. */
  lemma {:induction false} MemberCostExpands(data: seq<Vector>, assignments: seq<int>, k: int, c: Vector,
                                             dimension: nat)
    requires Points(data, dimension) && |assignments| == |data| && |c| == dimension
    ensures MemberCost(data, assignments, k, c, dimension)
         == MemberNorms(data, assignments, k, dimension) - 2.0 * Dot(MemberSum(data, assignments, k, dimension), c)
            + Times(Members(assignments, k) as real, NormSquared(c))
  {
    hide Dot, SquaredL2, NormSquared;
    if |data| == 0 {
      DotZero(c);
    } else {
      MemberCostExpands(data[1..], assignments[1..], k, c, dimension);
      if assignments[0] == k {
        DotAdd(data[0], MemberSum(data[1..], assignments[1..], k, dimension), c);
        SquaredL2Expand(data[0], c);
        OneMore(Members(assignments[1..], k) as real, NormSquared(c));
        hide Times;
      }
    }
  }

  lemma OneMore(n: real, x: real)
    ensures Times(n + 1.0, x) == Times(n, x) + x
  {}

  lemma MeanMinimises(data: seq<Vector>, assignments: seq<int>, k: int, c: Vector, dimension: nat)
    requires Points(data, dimension) && |assignments| == |data| && |c| == dimension && Members(assignments, k) > 0
    ensures MemberCost(data, assignments, k,
              Scale(1.0 / Members(assignments, k) as real, MemberSum(data, assignments, k, dimension)), dimension)
         <= MemberCost(data, assignments, k, c, dimension)
  {
    hide Dot, NormSquared, MemberCost, MemberSum, MemberNorms, Members, SquaredL2, Times;
    var n, sum := Members(assignments, k) as real, MemberSum(data, assignments, k, dimension);
    var mean := Scale(1.0 / n, sum);
    MemberCostExpands(data, assignments, k, c, dimension);
    MemberCostExpands(data, assignments, k, mean, dimension);
    SquaredL2Expand(mean, c);
    NonNegativeDistance(mean, c);
    DotScale(1.0 / n, c, sum);
    DotScale(1.0 / n, mean, sum);
    DotCommutes(c, sum);
    DotCommutes(mean, sum);
    DotCommutes(c, mean);
    NormIsDot(mean);
    CompleteTheSquare(n, Dot(sum, c), Dot(sum, mean), NormSquared(c), NormSquared(mean), Dot(mean, c));
  }

  lemma NormIsDot(u: Vector)
    ensures NormSquared(u) == Dot(u, u)
  {
    hide Dot;
  }

  lemma NonNegativeDistance(u: Vector, v: Vector)
    requires |u| == |v|
    ensures SquaredL2(u, v) >= 0.0
  {
    NormNonNegative(Sub(u, v));
  }

  /** n|c|^2 - 2<sum,c> exceeds n|m|^2 - 2<sum,m> by n|c - m|^2. */
  lemma CompleteTheSquare(n: real, sumC: real, sumM: real, cc: real, mm: real, mc: real)
    requires n > 0.0
    requires mc == 1.0 / n * sumC && mm == 1.0 / n * sumM
    requires mm - 2.0 * mc + cc >= 0.0
    ensures -2.0 * sumM + Times(n, mm) <= -2.0 * sumC + Times(n, cc)
  {
    DivMul(1.0, n);
    assert n * (1.0 / n * sumC) == sumC;
    assert n * (1.0 / n * sumM) == sumM;
    MulNonNegative(n, mm - 2.0 * mc + cc);
    assert n * (mm - 2.0 * mc + cc) == n * mm - 2.0 * (n * mc) + n * cc;
  }

  /** Moving one centroid changes the cost by its own members' share. */
  lemma {:induction false} CostSplits(data: seq<Vector>, centroids: seq<Vector>, assignments: seq<int>, k: nat,
                                      c: Vector, dimension: nat)
    requires Points(data, dimension) && Points(centroids, dimension) && k < |centroids| && |c| == dimension
    requires Assigned(assignments, |data|, |centroids|)
    ensures Points(centroids[k := c], dimension)
    ensures Cost(data, centroids[k := c], assignments, dimension) - MemberCost(data, assignments, k, c, dimension)
         == Cost(data, centroids, assignments, dimension) - MemberCost(data, assignments, k, centroids[k], dimension)
  {
    hide SquaredL2;
    if |data| != 0 {
      CostSplits(data[1..], centroids, assignments[1..], k, c, dimension);
    }
  }

  // ---------------------------------------------------------------------
  // The update step
  // ---------------------------------------------------------------------

  method Tally(data: seq<Vector>, assignments: seq<int>, clusters: nat, dimension: nat)
    returns (sums: seq<Vector>, counts: seq<nat>)
    requires Points(data, dimension) && Assigned(assignments, |data|, clusters)
    ensures |sums| == |counts| == clusters
    ensures forall k :: 0 <= k < clusters ==> counts[k] == Members(assignments, k)
    ensures forall k :: 0 <= k < clusters ==> sums[k] == MemberSum(data, assignments, k, dimension)
  {
    sums, counts := seq(clusters, i => Zero(dimension)), seq(clusters, i => 0);
    var i := |data|;
    while i > 0
      invariant 0 <= i <= |data| && |sums| == |counts| == clusters
      invariant forall k :: 0 <= k < clusters ==> counts[k] == Members(assignments[i..], k)
      invariant forall k :: 0 <= k < clusters ==> sums[k] == MemberSum(data[i..], assignments[i..], k, dimension)
    {
      i := i - 1;
      var cluster := assignments[i];
      assert data[i..][0] == data[i] && data[i..][1..] == data[i + 1..];
      assert assignments[i..][0] == cluster && assignments[i..][1..] == assignments[i + 1..];
      counts := counts[cluster := counts[cluster] + 1];
      sums := sums[cluster := Add(data[i], sums[cluster])];
    }
    assert data[0..] == data && assignments[0..] == assignments;
  }

  /** A point farthest from its assigned centroid; the first of equals. */
  ghost predicate IsFarthest(data: seq<Vector>, centroids: seq<Vector>, assignments: seq<int>, worst: nat,
                             dimension: nat)
    requires Points(data, dimension) && Points(centroids, dimension) && Assigned(assignments, |data|, |centroids|)
  {
    && worst < |data|
    && (forall i :: 0 <= i < |data| ==>
          SquaredL2(data[i], centroids[assignments[i]]) <= SquaredL2(data[worst], centroids[assignments[worst]]))
    && forall i :: 0 <= i < worst ==>
         SquaredL2(data[i], centroids[assignments[i]]) < SquaredL2(data[worst], centroids[assignments[worst]])
  }

  method FarthestPoint(data: seq<Vector>, centroids: seq<Vector>, assignments: seq<int>, dimension: nat)
    returns (worst: nat)
    requires Points(data, dimension) && Points(centroids, dimension) && Assigned(assignments, |data|, |centroids|)
             && |data| > 0
    ensures IsFarthest(data, centroids, assignments, worst, dimension)
  {
    hide SquaredL2;
    worst := 0;
    for i := 1 to |data|
      invariant worst < i
      invariant forall j :: 0 <= j < i ==>
                  SquaredL2(data[j], centroids[assignments[j]]) <= SquaredL2(data[worst], centroids[assignments[worst]])
      invariant forall j :: 0 <= j < worst ==>
                  SquaredL2(data[j], centroids[assignments[j]]) < SquaredL2(data[worst], centroids[assignments[worst]])
    {
      if SquaredL2(data[i], centroids[assignments[i]]) > SquaredL2(data[worst], centroids[assignments[worst]]) {
        worst := i;
      }
    }
  }

  /** Points moved by revivals sit exactly on a revived centroid of an earlier, empty cluster. */
  ghost predicate Pinned(data: seq<Vector>, centroids: seq<Vector>, before: seq<int>, after: seq<int>, cluster: nat)
    requires |before| == |after| == |data|
  {
    forall i :: 0 <= i < |data| ==>
      after[i] == before[i]
      || (0 <= after[i] < cluster && after[i] < |centroids| && Members(before, after[i]) == 0
          && centroids[after[i]] == data[i])
  }

  lemma {:induction false} PinnedCostsNoMore(data: seq<Vector>, centroids: seq<Vector>, before: seq<int>,
                                             after: seq<int>, dimension: nat)
    requires Points(data, dimension) && Points(centroids, dimension)
    requires Assigned(before, |data|, |centroids|) && Assigned(after, |data|, |centroids|)
    requires forall i :: 0 <= i < |data| ==> after[i] == before[i] || centroids[after[i]] == data[i]
    ensures Cost(data, centroids, after, dimension) <= Cost(data, centroids, before, dimension)
  {
    hide SquaredL2;
    if |data| != 0 {
      PinnedCostsNoMore(data[1..], centroids, before[1..], after[1..], dimension);
      if after[0] != before[0] {
        DistanceToItself(data[0]);
        NonNegativeDistance(data[0], centroids[before[0]]);
      }
    }
  }

  lemma {:induction false} DistanceToItself(v: Vector)
    ensures SquaredL2(v, v) == 0.0
  {
    SquaredL2Expand(v, v);
    NormIsDot(v);
  }

  lemma {:induction false} NoMembersNoCost(data: seq<Vector>, assignments: seq<int>, k: int, c: Vector, dimension: nat)
    requires Points(data, dimension) && |assignments| == |data| && |c| == dimension && Members(assignments, k) == 0
    ensures MemberCost(data, assignments, k, c, dimension) == 0.0
  {
    if |data| != 0 { NoMembersNoCost(data[1..], assignments[1..], k, c, dimension); }
  }

  /** The update step never raises the cost, revivals included. */
  method Update(data: seq<Vector>, centroids: seq<Vector>, assignments: seq<int>, dimension: nat)
    returns (centroids': seq<Vector>, assignments': seq<int>)
    requires Points(data, dimension) && Points(centroids, dimension) && |data| > 0
    requires Assigned(assignments, |data|, |centroids|)
    ensures Points(centroids', dimension) && |centroids'| == |centroids| && Assigned(assignments', |data|, |centroids|)
    ensures forall k :: 0 <= k < |centroids| && Members(assignments, k) > 0 ==>
              centroids'[k] == Scale(1.0 / Members(assignments, k) as real, MemberSum(data, assignments, k, dimension))
    ensures forall k :: 0 <= k < |centroids| && Members(assignments, k) == 0 ==> centroids'[k] in data
    ensures Cost(data, centroids', assignments', dimension) <= Cost(data, centroids, assignments, dimension)
  {
    hide SquaredL2, Cost, MemberCost, MemberSum, Members;
    var sums, counts := Tally(data, assignments, |centroids|, dimension);
    centroids', assignments' := centroids, assignments;
    for cluster := 0 to |centroids|
      invariant Points(centroids', dimension) && |centroids'| == |centroids|
                && Assigned(assignments', |data|, |centroids|)
      invariant forall k :: 0 <= k < cluster && Members(assignments, k) > 0 ==>
                  centroids'[k] == Scale(1.0 / Members(assignments, k) as real,
                                         MemberSum(data, assignments, k, dimension))
      invariant forall k :: 0 <= k < cluster && Members(assignments, k) == 0 ==> centroids'[k] in data
      invariant Pinned(data, centroids', assignments, assignments', cluster)
      invariant Cost(data, centroids', assignments, dimension) <= Cost(data, centroids, assignments, dimension)
    {
      if counts[cluster] == 0 {
        var worst := FarthestPoint(data, centroids', assignments', dimension);
        CostSplits(data, centroids', assignments, cluster, data[worst], dimension);
        NoMembersNoCost(data, assignments, cluster, data[worst], dimension);
        NoMembersNoCost(data, assignments, cluster, centroids'[cluster], dimension);
        centroids' := centroids'[cluster := data[worst]];
        assignments' := assignments'[worst := cluster];
      } else {
        var mean := Scale(1.0 / counts[cluster] as real, sums[cluster]);
        CostSplits(data, centroids', assignments, cluster, mean, dimension);
        MeanMinimises(data, assignments, cluster, centroids'[cluster], dimension);
        centroids' := centroids'[cluster := mean];
      }
    }
    PinnedCostsNoMore(data, centroids', assignments, assignments', dimension);
  }

  // ---------------------------------------------------------------------
  // Training
  // ---------------------------------------------------------------------

  /** Lloyd's loop. The inertias of successive iterations never increase, and the one returned is at
      least the cost of the returned centroids under any nearest assignment. */
  method Train(data: seq<Vector>, dimension: nat, initial: seq<Vector>, maxIterations: nat)
    returns (centroids: seq<Vector>, inertia: real, iterations: nat, ghost inertias: seq<real>)
    requires Points(data, dimension) && Points(initial, dimension) && |data| > 0 && |initial| > 0
    ensures Points(centroids, dimension) && |centroids| == |initial|
    ensures 1 <= iterations == |inertias| && inertia == inertias[iterations - 1]
    ensures iterations <= maxIterations || iterations == 1
    ensures forall i, j :: 0 <= i < j < |inertias| ==> inertias[j] <= inertias[i]
    ensures forall nearest ::
              Assigned(nearest, |data|, |centroids|) && AllNearest(data, centroids, nearest, dimension) ==>
                Cost(data, centroids, nearest, dimension) <= inertia
  {
    hide SquaredL2, Cost, AllNearest, Members;
    centroids := initial;
    var assignments := seq(|data|, i => -1);
    inertias, inertia := [], 0.0;
    var limit := if maxIterations == 0 then 1 else maxIterations;
    iterations := 0;
    var settled := false;
    while iterations < limit && !settled
      invariant Points(centroids, dimension) && |centroids| == |initial| && |assignments| == |data|
      invariant iterations == |inertias| <= limit
      invariant settled ==> iterations > 0
      invariant iterations > 0 ==> inertia == inertias[iterations - 1] && Assigned(assignments, |data|, |centroids|)
                                   && Cost(data, centroids, assignments, dimension) <= inertia
      invariant forall i, j :: 0 <= i < j < |inertias| ==> inertias[j] <= inertias[i]
      decreases limit - iterations, !settled
    {
      var next, newInertia, changed := AssignAll(data, centroids, assignments, dimension);
      if iterations > 0 { NearestCostsLeast(data, centroids, next, assignments, dimension); }
      iterations, inertia, inertias, assignments := iterations + 1, newInertia, inertias + [newInertia], next;
      if !changed {
        settled := true;
      } else {
        centroids, assignments := Update(data, centroids, assignments, dimension);
      }
    }
    forall nearest | Assigned(nearest, |data|, |centroids|) && AllNearest(data, centroids, nearest, dimension)
      ensures Cost(data, centroids, nearest, dimension) <= inertia
    {
      NearestCostsLeast(data, centroids, nearest, assignments, dimension);
    }
  }
}
