/** Beam search over the edges active at one alpha, with and without the early exit
    (src/ann/deg/graph.rs). */
module BeamSearch {
  import opened RealMath
  import opened AlphaSets
  import opened Pruning
  import opened Selection
  import opened Neighbours
  import opened Sorting

  type Positive = n: nat | n > 0 witness 1

  /** The search's mutable variables; both heaps are multisets. */
  datatype State = State(visited: set<nat>, frontier: multiset<Neighbor>, results: multiset<Neighbor>)

  /** The graph as one query at one alpha sees it. */
  datatype Problem = Problem(adjacency: seq<seq<DegEdge>>, entries: seq<nat>, distanceTo: nat -> HybridDistance,
                             alpha: real, beam: Positive) {
    /** Edges lead to existing vertices, and neither modality's distance is negative. */
    ghost predicate Valid() {
      && 0.0 <= alpha <= 1.0
      && (forall v, i :: 0 <= v < |adjacency| && 0 <= i < |adjacency[v]| ==> adjacency[v][i].target < |adjacency|)
      && forall v :: distanceTo(v).e >= 0.0 && distanceTo(v).s >= 0.0
    }

    function PointAt(v: nat): Neighbor {
      Neighbor(v, distanceTo(v).At(alpha))
    }

    ghost predicate InBounds(st: State) {
      && (forall v :: v in st.visited ==> v < |adjacency|)
      && (forall n :: n in st.frontier ==> n.id in st.visited && n == PointAt(n.id))
      && forall n :: n in st.results ==> n.id in st.visited && n == PointAt(n.id)
    }

    // -------------------------------------------------------------------
    // The search without the early exit, as a function of the state
    // -------------------------------------------------------------------

    ghost function TrimOne(results: multiset<Neighbor>): multiset<Neighbor> {
      if |results| > beam then results - multiset{Worst(results)} else results
    }

    /** Come across one vertex: a new one that the full beam does not reject is kept and queued. */
    ghost function Meet(st: State, target: nat): (r: State)
      requires InBounds(st) && target < |adjacency|
      ensures InBounds(r) && st.visited <= r.visited <= st.visited + {target} && (r.visited == st.visited ==> r == st)
    {
      if target in st.visited then st
      else
        var visited, candidate := st.visited + {target}, PointAt(target);
        if |st.results| >= beam && candidate.distance >= Worst(st.results).distance then
          st.(visited := visited)
        else
          State(visited, st.frontier + multiset{candidate}, TrimOne(st.results + multiset{candidate}))
    }

    ghost function Follow(st: State, edges: seq<DegEdge>): (r: State)
      requires InBounds(st) && forall i :: 0 <= i < |edges| ==> edges[i].target < |adjacency|
      ensures InBounds(r) && st.visited <= r.visited && (r.visited == st.visited ==> r == st)
    {
      if |edges| == 0 then st
      else
        var before, edge := Follow(st, edges[..|edges| - 1]), edges[|edges| - 1];
        if Contains(edge.active, alpha) then Meet(before, edge.target) else before
    }

    /** The nearest queued vertex is already beyond a full beam. */
    ghost predicate Stops(st: State)
      requires |st.frontier| > 0
    {
      |st.results| >= beam && Best(st.frontier).distance > Worst(st.results).distance
    }

    ghost function Expand(st: State): (r: State)
      requires Valid() && InBounds(st) && |st.frontier| > 0
      ensures InBounds(r) && st.visited <= r.visited
      ensures r.visited == st.visited ==> |r.frontier| < |st.frontier|
    {
      var current := Best(st.frontier);
      Follow(st.(frontier := st.frontier - multiset{current}), adjacency[current.id])
    }

    ghost function Run(st: State): (r: State)
      requires Valid() && InBounds(st)
      ensures InBounds(r)
      decreases Unvisited(st.visited), |st.frontier|
    {
      if |st.frontier| == 0 then st
      else if Stops(st) then st.(frontier := st.frontier - multiset{Best(st.frontier)})
      else
        VisitedShrinks(st.visited, Expand(st).visited);
        Run(Expand(st))
    }

    ghost function Unvisited(visited: set<nat>): nat {
      |(set v: nat | v < |adjacency| && v !in visited)|
    }

    lemma VisitedShrinks(before: set<nat>, after: set<nat>)
      requires before <= after && forall v :: v in after ==> v < |adjacency|
      ensures Unvisited(after) <= Unvisited(before)
      ensures before != after ==> Unvisited(after) < Unvisited(before)
    {
      var a, b := set v: nat | v < |adjacency| && v !in after, set v: nat | v < |adjacency| && v !in before;
      assert a <= b;
      Subset(a, b);
      if before != after {
        var v :| v in after && v !in before;
        assert v in b && v !in a;
      }
    }

    /** Enter at one vertex: skip it when it does not exist or was already entered. */
    ghost function Enter(st: State, seed: nat): (r: State)
      requires InBounds(st)
      ensures InBounds(r)
    {
      if seed >= |adjacency| || seed in st.visited then st
      else State(st.visited + {seed}, st.frontier + multiset{PointAt(seed)}, st.results + multiset{PointAt(seed)})
    }

    ghost function EnterAll(seeds: seq<nat>): (r: State)
      ensures InBounds(r)
    {
      if |seeds| == 0 then State({}, multiset{}, multiset{})
      else Enter(EnterAll(seeds[..|seeds| - 1]), seeds[|seeds| - 1])
    }

    ghost function Trim(results: multiset<Neighbor>): (r: multiset<Neighbor>)
      ensures r <= results
      decreases |results|
    {
      if |results| <= beam then results else Trim(results - multiset{Worst(results)})
    }

    ghost function Start(): (r: State)
      ensures InBounds(r)
    {
      var entered := EnterAll(entries);
      entered.(results := Trim(entered.results))
    }

    // -------------------------------------------------------------------
    // What every step keeps
    // -------------------------------------------------------------------

    /** The visited vertices as results. */
    ghost function Seen(visited: set<nat>): multiset<Neighbor> {
      multiset(set v | v in visited :: PointAt(v))
    }

    lemma SeenOneMore(visited: set<nat>, v: nat)
      requires v !in visited
      ensures Seen(visited + {v}) == Seen(visited) + multiset{PointAt(v)} && PointAt(v) !in Seen(visited)
    {
      var before := set u | u in visited :: PointAt(u);
      var after := set u | u in visited + {v} :: PointAt(u);
      assert PointAt(v) !in before;
      assert after == before + {PointAt(v)};
    }

    /** Nothing left out is strictly nearer than anything kept. */
    ghost predicate NearestOf(kept: multiset<Neighbor>, all: multiset<Neighbor>) {
      && kept <= all && |kept| == Smaller(beam, |all|)
      && forall x, y :: x in kept && y in all - kept ==> x.distance <= y.distance
    }

    /** The beam holds nearest visited vertices. */
    ghost predicate HoldsNearest(st: State) {
      NearestOf(st.results, Seen(st.visited))
    }

    /** Dropping the worst of the kept entries keeps the nearest ones. */
    lemma DropWorst(results: multiset<Neighbor>, all: multiset<Neighbor>)
      requires results <= all && |results| > 0
      requires forall x, y :: x in results && y in all - results ==> x.distance <= y.distance
      ensures var rest := results - multiset{Worst(results)};
              && rest <= all && |rest| == |results| - 1
              && forall x, y :: x in rest && y in all - rest ==> x.distance <= y.distance
    {
      var worst := Worst(results);
      var rest := results - multiset{worst};
      assert all - rest == (all - results) + multiset{worst};
      forall x, y | x in rest && y in all - rest ensures x.distance <= y.distance {
        assert x in results;
        if y !in all - results { assert y == worst; }
      }
    }

    lemma NothingLeftOut(kept: multiset<Neighbor>, all: multiset<Neighbor>)
      requires NearestOf(kept, all) && |all| <= beam
      ensures kept == all
    {
      assert all == kept + (all - kept);
      assert |all - kept| == 0;
    }

    lemma RejectKeepsNearest(kept: multiset<Neighbor>, all: multiset<Neighbor>, candidate: Neighbor)
      requires NearestOf(kept, all) && |kept| >= beam && candidate.distance >= Worst(kept).distance
      ensures NearestOf(kept, all + multiset{candidate})
    {
      assert all + multiset{candidate} - kept == (all - kept) + multiset{candidate};
    }

    lemma PushKeepsNearest(kept: multiset<Neighbor>, all: multiset<Neighbor>, candidate: Neighbor)
      requires NearestOf(kept, all) && (|kept| < beam || candidate.distance < Worst(kept).distance)
      ensures NearestOf(TrimOne(kept + multiset{candidate}), all + multiset{candidate})
    {
      var more, results := all + multiset{candidate}, kept + multiset{candidate};
      assert more - results == all - kept;
      if |kept| < beam {
        NothingLeftOut(kept, all);
      } else {
        assert forall y :: y in all - kept ==> Worst(kept).distance <= y.distance;
      }
      if |results| > beam { DropWorst(results, more); }
    }

    lemma MeetKeepsNearest(st: State, target: nat)
      requires InBounds(st) && HoldsNearest(st) && target < |adjacency|
      ensures HoldsNearest(Meet(st, target))
    {
      hide NearestOf, Seen, PointAt, TrimOne;
      if target !in st.visited {
        SeenOneMore(st.visited, target);
        if |st.results| >= beam && PointAt(target).distance >= Worst(st.results).distance {
          RejectKeepsNearest(st.results, Seen(st.visited), PointAt(target));
        } else {
          PushKeepsNearest(st.results, Seen(st.visited), PointAt(target));
        }
      }
    }

    lemma {:induction false} FollowKeepsNearest(st: State, edges: seq<DegEdge>)
      requires Valid() && InBounds(st) && HoldsNearest(st)
      requires forall i :: 0 <= i < |edges| ==> edges[i].target < |adjacency|
      ensures HoldsNearest(Follow(st, edges))
      decreases |edges|
    {
      hide HoldsNearest, Meet, Valid, InBounds;
      if |edges| != 0 {
        var shorter := edges[..|edges| - 1];
        FollowKeepsNearest(st, shorter);
        if Contains(edges[|edges| - 1].active, alpha) {
          MeetKeepsNearest(Follow(st, shorter), edges[|edges| - 1].target);
        }
      }
    }

    lemma PopKeepsNearest(st: State)
      requires Valid() && InBounds(st) && HoldsNearest(st) && |st.frontier| > 0
      ensures HoldsNearest(Expand(st))
      ensures HoldsNearest(st.(frontier := st.frontier - multiset{Best(st.frontier)}))
    {
      var popped := st.(frontier := st.frontier - multiset{Best(st.frontier)});
      FollowKeepsNearest(popped, adjacency[Best(st.frontier).id]);
    }

    lemma {:induction false} RunKeepsNearest(st: State)
      requires Valid() && InBounds(st) && HoldsNearest(st)
      ensures HoldsNearest(Run(st))
      decreases Unvisited(st.visited), |st.frontier|
    {
      hide HoldsNearest, Valid, InBounds, Stops, Expand;
      if |st.frontier| > 0 {
        PopKeepsNearest(st);
        if !Stops(st) {
          VisitedInBounds(Expand(st));
          VisitedShrinks(st.visited, Expand(st).visited);
          RunKeepsNearest(Expand(st));
        }
      }
    }

    lemma VisitedInBounds(st: State)
      requires InBounds(st)
      ensures forall v :: v in st.visited ==> v < |adjacency|
    {}

    lemma {:induction false} EnterAllKeepsAll(seeds: seq<nat>)
      ensures EnterAll(seeds).results == EnterAll(seeds).frontier == Seen(EnterAll(seeds).visited)
      ensures forall v :: v in EnterAll(seeds).visited <==> v in seeds && v < |adjacency|
    {
      if |seeds| != 0 {
        var shorter, seed := seeds[..|seeds| - 1], seeds[|seeds| - 1];
        assert seeds == shorter + [seed];
        EnterAllKeepsAll(shorter);
        var st := EnterAll(shorter);
        if seed !in st.visited { SeenOneMore(st.visited, seed); }
      } else {
        assert (set v | v in EnterAll(seeds).visited :: PointAt(v)) == {};
      }
    }

    lemma {:induction false} TrimKeepsNearest(results: multiset<Neighbor>, all: multiset<Neighbor>)
      requires results <= all && |results| >= Smaller(beam, |all|)
      requires forall x, y :: x in results && y in all - results ==> x.distance <= y.distance
      ensures Trim(results) <= all && |Trim(results)| == Smaller(beam, |all|)
      ensures forall x, y :: x in Trim(results) && y in all - Trim(results) ==> x.distance <= y.distance
      decreases |results|
    {
      if |results| > beam {
        DropWorst(results, all);
        SubCardinality(results - multiset{Worst(results)}, all);
        TrimKeepsNearest(results - multiset{Worst(results)}, all);
      } else {
        SubCardinality(results, all);
      }
    }

    lemma StartHoldsNearest()
      ensures HoldsNearest(Start())
    {
      EnterAllKeepsAll(entries);
      var entered := EnterAll(entries);
      TrimKeepsNearest(entered.results, Seen(entered.visited));
    }

    // -------------------------------------------------------------------
    // Reachability
    // -------------------------------------------------------------------

    /** An edge active at this alpha. */
    ghost predicate Linked(v: nat, w: nat) {
      v < |adjacency| && exists i ::
        0 <= i < |adjacency[v]| && adjacency[v][i].target == w && Contains(adjacency[v][i].active, alpha)
    }

    /** A walk along active edges from an entry point that exists. */
    ghost predicate IsWalk(walk: seq<nat>) {
      && |walk| > 0 && walk[0] in entries && walk[0] < |adjacency|
      && forall i :: 0 < i < |walk| ==> Linked(walk[i - 1], walk[i])
    }

    ghost predicate Reachable(v: nat) {
      exists walk :: IsWalk(walk) && walk[|walk| - 1] == v
    }

    lemma EntryIsReachable(v: nat)
      requires v in entries && v < |adjacency|
      ensures Reachable(v)
    {
      assert IsWalk([v]);
    }

    lemma LinkedIsReachable(v: nat, w: nat)
      requires Reachable(v) && Linked(v, w)
      ensures Reachable(w)
    {
      var walk :| IsWalk(walk) && walk[|walk| - 1] == v;
      assert IsWalk(walk + [w]);
    }

    ghost predicate OnlyReachable(st: State) {
      forall v :: v in st.visited ==> Reachable(v)
    }

    lemma {:induction false} FollowOnlyReachable(st: State, v: nat, n: nat)
      requires InBounds(st) && OnlyReachable(st) && v < |adjacency| && Reachable(v) && n <= |adjacency[v]|
      requires forall i :: 0 <= i < n ==> adjacency[v][i].target < |adjacency|
      ensures OnlyReachable(Follow(st, adjacency[v][..n]))
      decreases n
    {
      hide Reachable, Contains, Meet, InBounds;
      if n != 0 {
        var edges := adjacency[v][..n];
        assert edges[..n - 1] == adjacency[v][..n - 1] && edges[n - 1] == adjacency[v][n - 1];
        FollowOnlyReachable(st, v, n - 1);
        if Contains(edges[n - 1].active, alpha) {
          assert Linked(v, edges[n - 1].target);
          hide Linked;
          LinkedIsReachable(v, edges[n - 1].target);
        }
      }
    }

    lemma ExpandOnlyReachable(st: State)
      requires Valid() && InBounds(st) && OnlyReachable(st) && |st.frontier| > 0
      ensures OnlyReachable(Expand(st))
    {
      hide Reachable;
      var current := Best(st.frontier);
      var edges := adjacency[current.id];
      assert edges[..|edges|] == edges;
      FollowOnlyReachable(st.(frontier := st.frontier - multiset{current}), current.id, |edges|);
    }

    /** While nothing has been turned away, a vertex no longer queued has had its edges followed. */
    ghost predicate Settled(st: State, except: int) {
      |st.visited| <= beam ==>
        forall v, w :: v in st.visited && v != except && Linked(v, w) ==> w in st.visited || PointAt(v) in st.frontier
    }

    lemma {:induction false} SeenSize(visited: set<nat>)
      ensures |Seen(visited)| == |visited|
      decreases visited
    {
      if visited == {} {
        assert (set v | v in visited :: PointAt(v)) == {};
      } else {
        var v :| v in visited;
        SeenSize(visited - {v});
        SeenOneMore(visited - {v}, v);
        assert visited - {v} + {v} == visited;
      }
    }

    lemma MeetKeepsSettled(st: State, target: nat, except: int)
      requires InBounds(st) && HoldsNearest(st) && Settled(st, except) && target < |adjacency|
      ensures Settled(Meet(st, target), except) && target in Meet(st, target).visited
    {
      hide Linked, Seen, TrimOne, Valid, PointAt;
      SeenSize(st.visited);
    }

    lemma {:induction false} FollowKeepsSettled(st: State, v: nat, n: nat)
      requires Valid() && InBounds(st) && HoldsNearest(st) && Settled(st, v) && v < |adjacency| && n <= |adjacency[v]|
      ensures HoldsNearest(Follow(st, adjacency[v][..n])) && Settled(Follow(st, adjacency[v][..n]), v)
      ensures forall i :: 0 <= i < n && Contains(adjacency[v][i].active, alpha) ==>
                adjacency[v][i].target in Follow(st, adjacency[v][..n]).visited
      decreases n
    {
      hide HoldsNearest, Settled, Meet, InBounds, Contains;
      FollowKeepsNearest(st, adjacency[v][..n]);
      if n != 0 {
        var edges := adjacency[v][..n];
        assert edges[..n - 1] == adjacency[v][..n - 1] && edges[n - 1] == adjacency[v][n - 1];
        FollowKeepsSettled(st, v, n - 1);
        if Contains(edges[n - 1].active, alpha) {
          MeetKeepsSettled(Follow(st, edges[..n - 1]), edges[n - 1].target, v);
        }
      }
    }

    lemma ExpandKeepsSettled(st: State)
      requires Valid() && InBounds(st) && HoldsNearest(st) && Settled(st, -1) && |st.frontier| > 0
      ensures HoldsNearest(Expand(st)) && Settled(Expand(st), -1)
    {
      hide Follow;
      var current := Best(st.frontier);
      var v := current.id;
      var popped := st.(frontier := st.frontier - multiset{current});
      forall u, w | u in st.visited && u != v && Linked(u, w) && |st.visited| <= beam
        ensures w in popped.visited || PointAt(u) in popped.frontier
      {
        if w !in st.visited { assert PointAt(u) in st.frontier && PointAt(u) != current; }
      }
      assert adjacency[v][..|adjacency[v]|] == adjacency[v];
      FollowKeepsSettled(popped, v, |adjacency[v]|);
    }

    lemma {:induction false} RunSettles(st: State)
      requires Valid() && InBounds(st) && HoldsNearest(st) && OnlyReachable(st) && Settled(st, -1)
      ensures HoldsNearest(Run(st)) && OnlyReachable(Run(st)) && st.visited <= Run(st).visited
      ensures Settled(Run(st).(frontier := multiset{}), -1)
      decreases Unvisited(st.visited), |st.frontier|
    {
      hide OnlyReachable, Expand, Valid, Linked, InBounds, HoldsNearest, Settled, Stops;
      if |st.frontier| == 0 {
        assert st.frontier == multiset{};
      } else if Stops(st) {
        if |st.visited| <= beam { KeepingAllNeverStops(st); }
        StoppedIsSettled(st);
      } else {
        ExpandKeepsSettled(st);
        ExpandOnlyReachable(st);
        VisitedInBounds(Expand(st));
        VisitedShrinks(st.visited, Expand(st).visited);
        RunSettles(Expand(st));
      }
    }

    lemma StoppedIsSettled(st: State)
      requires Valid() && InBounds(st) && HoldsNearest(st) && OnlyReachable(st) && |st.frontier| > 0
      requires |st.visited| > beam
      ensures var popped := st.(frontier := st.frontier - multiset{Best(st.frontier)});
              HoldsNearest(popped) && OnlyReachable(popped) && Settled(popped.(frontier := multiset{}), -1)
    {
      hide NearestOf, Reachable;
    }

    /** The loop breaks only after some vertex has been left out. */
    lemma KeepingAllNeverStops(st: State)
      requires InBounds(st) && HoldsNearest(st) && |st.frontier| > 0 && |st.visited| <= beam
      ensures !Stops(st)
    {
      hide PointAt;
      SeenSize(st.visited);
      NothingLeftOut(st.results, Seen(st.visited));
      var current := Best(st.frontier);
      assert current in Seen(st.visited);
      assert Le(current, Worst(st.results));
    }

    lemma StartSettles()
      ensures OnlyReachable(Start()) && Settled(Start(), -1)
      ensures forall v :: v in entries && v < |adjacency| ==> v in Start().visited
    {
      hide Reachable, Linked;
      EnterAllKeepsAll(entries);
      forall v | v in Start().visited ensures Reachable(v) {
        EntryIsReachable(v);
      }
    }

    // -------------------------------------------------------------------
    // What the search answers
    // -------------------------------------------------------------------

    ghost function Answer(k: nat): seq<Neighbor>
      requires Valid()
    {
      var results := Listing(Run(Start()).results);
      results[..Smaller(k, |results|)]
    }

    /** What the final state promises of the first k results. */
    ghost predicate NearestVisited(r: seq<Neighbor>, k: nat, visited: set<nat>) {
      && |r| == Smaller(k, |visited|) && Sorted(r, Le)
      && (forall n :: n in r ==> n.id in visited && n == PointAt(n.id))
      && forall n, v :: n in r && v in visited && PointAt(v) !in r ==> n.distance <= PointAt(v).distance
    }

    /** Every answer is a reachable vertex at its true distance, none nearer was visited and left out,
        and a beam that never filled up has found everything reachable. */
    lemma AnswerIsNearestVisited(k: nat)
      requires Valid() && k <= beam
      ensures NearestVisited(Answer(k), k, Run(Start()).visited)
      ensures forall v :: v in Run(Start()).visited ==> Reachable(v)
      ensures |Run(Start()).visited| <= beam ==> forall v :: v in Run(Start()).visited <==> Reachable(v)
    {
      hide Reachable, Valid, PointAt, Linked, HoldsNearest, InBounds, NearestVisited;
      var st := Run(Start());
      StartHoldsNearest();
      StartSettles();
      RunSettles(Start());
      if |st.visited| <= beam { ClosedIsReachable(st.visited); }
      FirstResults(st, k);
    }

    lemma FirstResults(st: State, k: nat)
      requires InBounds(st) && HoldsNearest(st) && k <= beam
      ensures NearestVisited(Listing(st.results)[..Smaller(k, |Listing(st.results)|)], k, st.visited)
    {
      hide PointAt, Le;
      SeenSize(st.visited);
      ListingIsSorted(st.results);
      var all := Listing(st.results);
      var r := all[..Smaller(k, |all|)];
      forall n | n in r ensures n.id in st.visited && n == PointAt(n.id) {
        assert n in multiset(all);
      }
      forall n, v | n in r && v in st.visited && PointAt(v) !in r ensures n.distance <= PointAt(v).distance {
        BeyondTheAnswer(st, k, n, PointAt(v));
      }
    }

    lemma BeyondTheAnswer(st: State, k: nat, x: Neighbor, y: Neighbor)
      requires HoldsNearest(st) && y in Seen(st.visited)
      requires x in Listing(st.results)[..Smaller(k, |Listing(st.results)|)]
      requires y !in Listing(st.results)[..Smaller(k, |Listing(st.results)|)]
      ensures x.distance <= y.distance
    {
      ListingIsSorted(st.results);
      var all := Listing(st.results);
      var cut := Smaller(k, |all|);
      hide Listing, Problem.Seen, Worst, Le;
      FromPrefix(all, cut, x);
      if y in all {
        SortedCut(all, cut, x, y);
      } else {
        assert y !in multiset(all) && x in multiset(all);
        assert y in Seen(st.visited) - st.results;
      }
    }

    lemma ClosedIsReachable(visited: set<nat>)
      requires forall v :: v in entries && v < |adjacency| ==> v in visited
      requires forall v, w :: v in visited && Linked(v, w) ==> w in visited
      ensures forall v :: Reachable(v) ==> v in visited
    {
      forall v | Reachable(v) ensures v in visited {
        var walk :| IsWalk(walk) && walk[|walk| - 1] == v;
        WalkStaysInside(walk, visited);
      }
    }

    lemma {:induction false} WalkStaysInside(walk: seq<nat>, visited: set<nat>)
      requires IsWalk(walk)
      requires forall v :: v in entries && v < |adjacency| ==> v in visited
      requires forall v, w :: v in visited && Linked(v, w) ==> w in visited
      ensures walk[|walk| - 1] in visited
    {
      if |walk| > 1 {
        WalkStaysInside(walk[..|walk| - 1], visited);
        assert Linked(walk[|walk| - 2], walk[|walk| - 1]);
      }
    }

    /** With room for every reachable vertex, the answer is the exact top k of the reachable set. */
    lemma WideBeamIsExact(k: nat, reachable: seq<nat>)
      requires Valid() && |reachable| <= beam
      requires forall v :: v in reachable <==> Reachable(v)
      requires forall i, j :: 0 <= i < j < |reachable| ==> reachable[i] != reachable[j]
      ensures Answer(k) == TopK(Points(reachable), k)
    {
      hide Reachable, Valid, PointAt, HoldsNearest, Seen, Settled, InBounds, Points;
      StartHoldsNearest();
      StartSettles();
      RunSettles(Start());
      RoomForAllKeepsAll(Run(Start()), reachable);
      PointsAreSeen(reachable);
      ListingIsSorted(Run(Start()).results);
      SortOrders(Points(reachable), Le);
      SortKeepsElements(Points(reachable), Le);
      SortedIsUnique(Listing(Run(Start()).results), SortBy(Points(reachable), Le), Le);
    }

    lemma RoomForAllKeepsAll(st: State, reachable: seq<nat>)
      requires InBounds(st) && HoldsNearest(st) && OnlyReachable(st) && Settled(st.(frontier := multiset{}), -1)
      requires forall v :: v in entries && v < |adjacency| ==> v in st.visited
      requires |reachable| <= beam && forall v :: v in reachable <==> Reachable(v)
      ensures st.results == Seen(SetOf(reachable))
    {
      hide Reachable, NearestOf, Seen, PointAt, Linked;
      SeenSize(st.visited);
      var all := SetOf(reachable);
      SetOfSequence(reachable);
      Subset(st.visited, all);
      ClosedIsReachable(st.visited);
      assert st.visited == all;
      NothingLeftOut(st.results, Seen(st.visited));
    }

    function Points(ids: seq<nat>): (r: seq<Neighbor>)
      ensures |r| == |ids|
    {
      seq(|ids|, i requires 0 <= i < |ids| => PointAt(ids[i]))
    }

    lemma {:induction false} PointsAreSeen(ids: seq<nat>)
      requires forall i, j :: 0 <= i < j < |ids| ==> ids[i] != ids[j]
      ensures multiset(Points(ids)) == Seen(SetOf(ids))
      decreases |ids|
    {
      if |ids| == 0 {
        assert (set v | v in SetOf(ids) :: PointAt(v)) == {};
      } else {
        var shorter, last := ids[..|ids| - 1], ids[|ids| - 1];
        PointsAreSeen(shorter);
        assert ids == shorter + [last];
        assert Points(ids) == Points(shorter) + [PointAt(last)];
        assert SetOf(ids) == SetOf(shorter) + {last};
        SeenOneMore(SetOf(shorter), last);
      }
    }

    // -------------------------------------------------------------------
    // The search as the source runs it
    // -------------------------------------------------------------------

    /** The first modality alone bounds the hybrid distance from below. */
    lemma BoundIsSound(v: nat)
      requires Valid()
      ensures Times(alpha, distanceTo(v).e) <= PointAt(v).distance
    {
      MulNonNegative(1.0 - alpha, distanceTo(v).s);
    }

    method MeetOne(st: State, target: nat, earlyExit: bool) returns (st': State)
      requires Valid() && InBounds(st) && target < |adjacency|
      ensures st' == Meet(st, target)
    {
      BoundIsSound(target);
      hide Valid, PointAt;
      st' := st;
      if target in st.visited { return; }
      st' := st'.(visited := st.visited + {target});
      var full := |st.results| >= beam;
      var worst := 0.0;
      if full {
        var peeked := Peek(st.results);
        worst := peeked.distance;
        if earlyExit {
          var bound := Times(alpha, distanceTo(target).e);
          if bound > worst { return; }
        }
      }
      var candidate := PointAt(target);
      if !full || candidate.distance < worst {
        var results := st.results + multiset{candidate};
        if |results| > beam {
          var least := Peek(results);
          results := results - multiset{least};
        }
        st' := State(st'.visited, st.frontier + multiset{candidate}, results);
      }
    }

    method FollowAll(st: State, edges: seq<DegEdge>, earlyExit: bool) returns (st': State)
      requires Valid() && InBounds(st) && forall i :: 0 <= i < |edges| ==> edges[i].target < |adjacency|
      ensures st' == Follow(st, edges)
    {
      hide Valid, Meet;
      st' := st;
      for i := 0 to |edges|
        invariant st' == Follow(st, edges[..i])
      {
        assert edges[..i + 1][..i] == edges[..i] && edges[..i + 1][i] == edges[i];
        if Contains(edges[i].active, alpha) {
          st' := MeetOne(st', edges[i].target, earlyExit);
        }
      }
      assert edges[..|edges|] == edges;
    }

    method Begin() returns (st: State)
      ensures st == Start()
    {
      hide InBounds, PointAt, Worst;
      st := State({}, multiset{}, multiset{});
      for i := 0 to |entries|
        invariant st == EnterAll(entries[..i])
      {
        assert entries[..i + 1][..i] == entries[..i] && entries[..i + 1][i] == entries[i];
        var seed := entries[i];
        if seed >= |adjacency| || seed in st.visited { continue; }
        var entry := PointAt(seed);
        st := State(st.visited + {seed}, st.frontier + multiset{entry}, st.results + multiset{entry});
      }
      assert entries[..|entries|] == entries;
      var results := TrimAll(st.results);
      st := st.(results := results);
    }

    method TrimAll(entered: multiset<Neighbor>) returns (results: multiset<Neighbor>)
      ensures results == Trim(entered)
    {
      results := entered;
      while |results| > beam
        invariant Trim(results) == Trim(entered)
        decreases |results|
      {
        var worst := Peek(results);
        results := results - multiset{worst};
      }
    }

    /** The early exit changes how much is computed and nothing else: with it or without it the loop
        goes through the same states. */
    method SearchInner(k: nat, earlyExit: bool) returns (r: seq<Neighbor>)
      requires Valid()
      ensures r == Answer(k)
    {
      hide Valid, Follow, InBounds, Le, Start, Unvisited;
      var st := Begin();
      while |st.frontier| > 0
        invariant InBounds(st) && Run(st) == Run(Start())
        decreases Unvisited(st.visited), |st.frontier|
      {
        var current := PeekLeast(st.frontier);
        ghost var before := st;
        BestIsVisited(st);
        if |st.results| >= beam {
          var worst := Peek(st.results);
          if current.distance > worst.distance {
            st := st.(frontier := st.frontier - multiset{current});
            break;
          }
        }
        EdgesExist(current.id);
        st := FollowAll(st.(frontier := st.frontier - multiset{current}), adjacency[current.id], earlyExit);
        assert st == Expand(before);
        VisitedInBounds(st);
        VisitedShrinks(before.visited, st.visited);
      }
      r := IntoSorted(st.results);
      ListingIsUnique(r);
      r := r[..Smaller(k, |r|)];
    }

    lemma BestIsVisited(st: State)
      requires InBounds(st) && |st.frontier| > 0
      ensures Best(st.frontier).id < |adjacency|
      ensures InBounds(st.(frontier := st.frontier - multiset{Best(st.frontier)}))
    {}

    lemma EdgesExist(v: nat)
      requires Valid() && v < |adjacency|
      ensures forall i :: 0 <= i < |adjacency[v]| ==> adjacency[v][i].target < |adjacency|
    {}
  }

  /** The caller's alpha is clamped and its beam is widened to k. */
  method Search(adjacency: seq<seq<DegEdge>>, entries: seq<nat>, distanceTo: nat -> HybridDistance,
                alpha: real, k: nat, beam: nat, earlyExit: bool)
    returns (r: seq<Neighbor>)
    requires forall v, i :: 0 <= v < |adjacency| && 0 <= i < |adjacency[v]| ==> adjacency[v][i].target < |adjacency|
    requires forall v :: distanceTo(v).e >= 0.0 && distanceTo(v).s >= 0.0
    ensures ProblemOf(adjacency, entries, distanceTo, alpha, k, beam).Valid()
    ensures r == ProblemOf(adjacency, entries, distanceTo, alpha, k, beam).Answer(k)
  {
    var problem := ProblemOf(adjacency, entries, distanceTo, alpha, k, beam);
    if |adjacency| == 0 || k == 0 {
      NothingToFind(problem, k);
      return [];
    }
    r := problem.SearchInner(k, earlyExit);
  }

  function ProblemOf(adjacency: seq<seq<DegEdge>>, entries: seq<nat>, distanceTo: nat -> HybridDistance,
                     alpha: real, k: nat, beam: nat): Problem {
    var wide := if beam < k then k else beam;
    Problem(adjacency, entries, distanceTo, if alpha < 0.0 then 0.0 else if alpha > 1.0 then 1.0 else alpha,
            if wide == 0 then 1 else wide)
  }

  lemma NothingToFind(p: Problem, k: nat)
    requires p.Valid() && (|p.adjacency| == 0 || k == 0)
    ensures p.Answer(k) == []
  {
    if |p.adjacency| == 0 {
      p.EnterAllKeepsAll(p.entries);
      var entered := p.EnterAll(p.entries);
      assert entered.visited == {};
      assert (set v | v in entered.visited :: p.PointAt(v)) == {};
      assert |p.Start().frontier| == 0 && |p.Start().results| == 0;
      assert |multiset(Listing(p.Start().results))| == 0;
    }
  }

  lemma FromPrefix(all: seq<Neighbor>, cut: nat, x: Neighbor)
    requires cut <= |all| && x in all[..cut]
    ensures x in all
  {}

  /** Nothing before a cut of a sorted listing is farther than anything after it. */
  lemma SortedCut(all: seq<Neighbor>, cut: nat, x: Neighbor, y: Neighbor)
    requires Sorted(all, Le) && cut <= |all| && x in all[..cut] && y in all && y !in all[..cut]
    ensures x.distance <= y.distance
  {
    var i :| 0 <= i < cut && all[..cut][i] == x;
    assert all == all[..cut] + all[cut..];
    var j :| 0 <= j < |all[cut..]| && all[cut..][j] == y;
    assert Le(all[i], all[cut + j]);
  }

  ghost function Listing(heap: multiset<Neighbor>): (r: seq<Neighbor>)
    ensures Sorted(r, Le) && multiset(r) == heap && |r| == |heap|
  {
    ListingExists(heap);
    var r :| Sorted(r, Le) && multiset(r) == heap;
    assert |multiset(r)| == |r|;
    r
  }

  lemma ListingExists(heap: multiset<Neighbor>)
    ensures exists r :: Sorted(r, Le) && multiset(r) == heap
  {
    var r := ListingOf(heap);
  }

  lemma ListingIsSorted(heap: multiset<Neighbor>)
    ensures Sorted(Listing(heap), Le) && multiset(Listing(heap)) == heap && |Listing(heap)| == |heap|
  {}

  lemma ListingIsUnique(r: seq<Neighbor>)
    requires Sorted(r, Le)
    ensures r == Listing(multiset(r))
  {
    SortedIsUnique(r, Listing(multiset(r)), Le);
  }

  function SetOf(ids: seq<nat>): set<nat> {
    set v | v in ids
  }

  lemma {:induction false} SetOfSequence(ids: seq<nat>)
    ensures |SetOf(ids)| <= |ids|
  {
    if |ids| != 0 {
      SetOfSequence(ids[1..]);
      assert ids == [ids[0]] + ids[1..];
      assert SetOf(ids) == SetOf(ids[1..]) + {ids[0]};
    }
  }

  lemma {:induction false} SubCardinality(a: multiset<Neighbor>, b: multiset<Neighbor>)
    requires a <= b
    ensures |a| <= |b|
  {
    assert b == a + (b - a);
  }

  lemma {:induction false} Subset(a: set<nat>, b: set<nat>)
    requires a <= b
    ensures |a| <= |b| && (a != b ==> |a| < |b|)
  {
    assert b == a + (b - a);
    assert |b| == |a| + |b - a|;
    if a != b {
      var x :| x in b && x !in a;
      assert x in b - a;
    }
  }
}
