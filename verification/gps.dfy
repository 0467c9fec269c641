/** Greedy Pareto frontier search (src/ann/deg/gps.rs). */
module Gps {
  import opened Pruning
  import opened Pareto
  import opened Sorting

  /** What the search is given: entry points, the number of vertices that exist, distances from the
      query node and the adjacency of the graph so far. */
  datatype Problem = Problem(seeds: seq<nat>, limit: nat, distanceTo: nat -> HybridDistance,
                             neighbours: nat -> seq<nat>) {
    function PointOf(v: nat): ParetoPoint { ParetoPoint(v, distanceTo(v)) }
  }

  /** A walk along edges from a seed through vertices below the limit. */
  ghost predicate IsPath(problem: Problem, path: seq<nat>) {
    && |path| > 0 && path[0] in problem.seeds
    && (forall i :: 0 <= i < |path| ==> path[i] < problem.limit)
    && forall i :: 0 < i < |path| ==> path[i] in problem.neighbours(path[i - 1])
  }

  ghost predicate Reachable(problem: Problem, v: nat) {
    exists path :: IsPath(problem, path) && path[|path| - 1] == v
  }

  lemma SeedsAreReachable(problem: Problem, v: nat)
    requires v in problem.seeds && v < problem.limit
    ensures Reachable(problem, v)
  {
    assert IsPath(problem, [v]);
  }

  lemma NeighboursAreReachable(problem: Problem, v: nat, next: nat)
    requires Reachable(problem, v) && next in problem.neighbours(v) && next < problem.limit
    ensures Reachable(problem, next)
  {
    var path :| IsPath(problem, path) && path[|path| - 1] == v;
    assert IsPath(problem, path + [next]);
  }

  /** The list holds each visited vertex once, with its distance. */
  ghost predicate Lists(problem: Problem, points: seq<ParetoPoint>, visited: set<nat>) {
    && |points| == |visited|
    && (forall p :: p in points ==> p == problem.PointOf(p.id) && p.id in visited)
    && forall v :: v in visited ==> problem.PointOf(v) in points
  }

  ghost predicate Closed(problem: Problem, done: set<nat>, visited: set<nat>) {
    forall v, next :: v in done && next in problem.neighbours(v) && next < problem.limit ==> next in visited
  }

  ghost predicate Explored(problem: Problem, visited: set<nat>, expanded: set<nat>) {
    && expanded <= visited
    && (forall v :: v in visited ==> v < problem.limit && Reachable(problem, v))
    && (forall v :: v in problem.seeds && v < problem.limit ==> v in visited)
    && Closed(problem, expanded, visited)
  }

  lemma ListsPermuted(problem: Problem, points: seq<ParetoPoint>, others: seq<ParetoPoint>, visited: set<nat>)
    requires Lists(problem, points, visited) && multiset(points) == multiset(others)
    ensures Lists(problem, others, visited)
  {
    SameElements(points, others);
  }

  /** The unexpanded vertices of the nearest layer that has any. */
  function ToExpand(layers: seq<seq<ParetoPoint>>, expanded: set<nat>): seq<nat> {
    if |layers| == 0 then []
    else if |Unexpanded(layers[0], expanded)| > 0 then Unexpanded(layers[0], expanded)
    else ToExpand(layers[1..], expanded)
  }

  function Unexpanded(layer: seq<ParetoPoint>, expanded: set<nat>): seq<nat> {
    if |layer| == 0 then []
    else (if layer[0].id in expanded then [] else [layer[0].id]) + Unexpanded(layer[1..], expanded)
  }

  lemma {:induction false} UnexpandedMembers(layer: seq<ParetoPoint>, expanded: set<nat>)
    ensures forall v :: v in Unexpanded(layer, expanded) ==> v !in expanded && exists p :: p in layer && p.id == v
    ensures |Unexpanded(layer, expanded)| == 0 ==> forall p :: p in layer ==> p.id in expanded
  {
    if |layer| != 0 {
      UnexpandedMembers(layer[1..], expanded);
      assert layer[0] in layer;
    }
  }

  lemma {:induction false} ToExpandMembers(layers: seq<seq<ParetoPoint>>, expanded: set<nat>)
    ensures forall v :: v in ToExpand(layers, expanded) ==> v !in expanded && exists p ::
              p in Flatten(layers) && p.id == v
    ensures |ToExpand(layers, expanded)| == 0 ==> forall p :: p in Flatten(layers) ==> p.id in expanded
  {
    if |layers| != 0 {
      UnexpandedMembers(layers[0], expanded);
      ToExpandMembers(layers[1..], expanded);
      assert Flatten(layers) == layers[0] + Flatten(layers[1..]);
      assert forall p :: p in layers[0] ==> p in Flatten(layers);
      assert forall p :: p in Flatten(layers[1..]) ==> p in Flatten(layers);
    }
  }

  /** Pull in one vertex unless it is beyond the limit or already visited. */
  method Visit(problem: Problem, next: nat, visited: set<nat>, discovered: seq<ParetoPoint>)
    returns (visited': set<nat>, discovered': seq<ParetoPoint>)
    requires Lists(problem, discovered, visited)
    ensures Lists(problem, discovered', visited')
    ensures visited' == visited + (if next < problem.limit then {next} else {})
  {
    visited', discovered' := visited, discovered;
    if next < problem.limit && next !in visited {
      visited', discovered' := visited + {next}, discovered + [problem.PointOf(next)];
    }
  }

  method Expand(problem: Problem, toExpand: seq<nat>, visited: set<nat>, expanded: set<nat>,
                discovered: seq<ParetoPoint>)
    returns (visited': set<nat>, expanded': set<nat>, discovered': seq<ParetoPoint>)
    requires Lists(problem, discovered, visited) && Explored(problem, visited, expanded)
    requires forall v :: v in toExpand ==> v in visited
    ensures Lists(problem, discovered', visited') && Explored(problem, visited', expanded')
    ensures expanded' == expanded + set v | v in toExpand
  {
    hide Reachable, Lists, Explored;
    visited', expanded', discovered' := visited, expanded, discovered;
    for i := 0 to |toExpand|
      invariant visited <= visited' && Lists(problem, discovered', visited') && Explored(problem, visited', expanded')
      invariant expanded' == expanded + set v | v in toExpand[..i]
    {
      var vertex := toExpand[i];
      assert vertex in toExpand;
      var buffer := problem.neighbours(vertex);
      ghost var before := visited';
      ExploredReaches(problem, before, expanded', vertex);
      for j := 0 to |buffer|
        invariant before <= visited' && Lists(problem, discovered', visited')
        invariant forall v :: v in visited' ==> v < problem.limit && Reachable(problem, v)
        invariant forall k :: 0 <= k < j && buffer[k] < problem.limit ==> buffer[k] in visited'
      {
        if buffer[j] < problem.limit { NeighboursAreReachable(problem, vertex, buffer[j]); }
        visited', discovered' := Visit(problem, buffer[j], visited', discovered');
      }
      ExploredGrows(problem, before, visited', expanded', vertex);
      expanded' := expanded' + {vertex};
      assert toExpand[..i + 1] == toExpand[..i] + [vertex];
    }
    assert toExpand[..|toExpand|] == toExpand;
  }

  lemma ExploredReaches(problem: Problem, visited: set<nat>, expanded: set<nat>, vertex: nat)
    requires Explored(problem, visited, expanded) && vertex in visited
    ensures forall v :: v in visited ==> v < problem.limit && Reachable(problem, v)
  {
    hide Reachable;
  }

  lemma ExploredGrows(problem: Problem, visited: set<nat>, grown: set<nat>, expanded: set<nat>, vertex: nat)
    requires Explored(problem, visited, expanded) && visited <= grown && vertex in grown
    requires forall v :: v in grown ==> v < problem.limit && Reachable(problem, v)
    requires forall k :: 0 <= k < |problem.neighbours(vertex)| && problem.neighbours(vertex)[k] < problem.limit ==>
               problem.neighbours(vertex)[k] in grown
    ensures Explored(problem, grown, expanded + {vertex})
  {
    hide Reachable;
  }

  lemma NothingListed(problem: Problem)
    ensures Lists(problem, [], {})
  {}

  /** The seeds below the limit, each once. */
  method Start(problem: Problem) returns (visited: set<nat>, discovered: seq<ParetoPoint>)
    ensures Lists(problem, discovered, visited) && Explored(problem, visited, {})
  {
    NothingListed(problem);
    hide Reachable, Lists;
    visited, discovered := {}, [];
    for i := 0 to |problem.seeds|
      invariant Lists(problem, discovered, visited)
      invariant forall v :: v in visited ==> v < problem.limit && Reachable(problem, v)
      invariant forall k :: 0 <= k < i && problem.seeds[k] < problem.limit ==> problem.seeds[k] in visited
    {
      if problem.seeds[i] < problem.limit { SeedsAreReachable(problem, problem.seeds[i]); }
      visited, discovered := Visit(problem, problem.seeds[i], visited, discovered);
    }
  }

  ghost function Vertices(limit: nat): (all: set<nat>)
    ensures forall v: nat :: v in all <==> v < limit
  {
    if limit == 0 then {} else Vertices(limit - 1) + {limit - 1}
  }

  /** Below the pool size, layering keeps everything discovered. */
  lemma NothingLost(problem: Problem, found: seq<ParetoPoint>, visited: set<nat>, expanded: set<nat>, pool: nat)
    requires Lists(problem, found, visited) && Explored(problem, visited, expanded)
    requires |Flatten(Layers(found, pool))| < pool
    ensures var layers := Layers(found, pool);
            && Lists(problem, Flatten(layers), visited)
            && (|ToExpand(layers, expanded)| == 0 ==> expanded == visited)
            && forall v :: v in ToExpand(layers, expanded) ==> v in visited && v !in expanded && v < problem.limit
  {
    hide Layers, Flatten, ToExpand, Reachable;
    LayersAreProper(found, pool);
    ListsPermuted(problem, found, Flatten(Layers(found, pool)), visited);
    ToExpandMembers(Layers(found, pool), expanded);
    if |ToExpand(Layers(found, pool), expanded)| == 0 {
      forall v | v in visited ensures v in expanded {
        assert problem.PointOf(v) in Flatten(Layers(found, pool));
      }
    }
  }

  method Search(problem: Problem, efConstruction: nat)
    returns (layers: seq<seq<ParetoPoint>>, ghost discovered: seq<ParetoPoint>, ghost visited: set<nat>,
             ghost expanded: set<nat>)
    ensures var pool := if efConstruction == 0 then 1 else efConstruction;
            && layers == Layers(discovered, pool)
            && Lists(problem, discovered, visited) && Explored(problem, visited, expanded)
            && (|Flatten(layers)| < pool ==> expanded == visited)
    ensures forall i, j :: 0 <= i < j < |Flatten(layers)| ==> Flatten(layers)[i].id != Flatten(layers)[j].id
    ensures |Flatten(layers)| < (if efConstruction == 0 then 1 else efConstruction) ==>
              forall v :: Reachable(problem, v) <==> problem.PointOf(v) in Flatten(layers)
  {
    hide Reachable, Layers, Flatten, ToExpand, Lists, Explored;
    var pool := if efConstruction == 0 then 1 else efConstruction;
    var seen, found := Start(problem);
    var done: set<nat> := {};
    if |found| == 0 {
      NoLayers(problem, seen, pool);
      SearchFinds(problem, pool, found, seen, done);
      return [], found, seen, done;
    }
    layers := FrontierLayers(found, pool);
    ExpandedExist(problem, seen, done);
    while |Flatten(layers)| < pool
      invariant layers == Layers(found, pool)
      invariant Lists(problem, found, seen) && Explored(problem, seen, done) && done <= Vertices(problem.limit)
      decreases Vertices(problem.limit) - done
    {
      var toExpand := ToExpand(layers, done);
      NothingLost(problem, found, seen, done, pool);
      if |toExpand| == 0 { break; }
      assert toExpand[0] in toExpand;
      found := Flatten(layers);
      seen, done, found := Expand(problem, toExpand, seen, done, found);
      layers := FrontierLayers(found, pool);
      ExpandedExist(problem, seen, done);
    }
    SearchFinds(problem, pool, found, seen, done);
    discovered, visited, expanded := found, seen, done;
  }

  /** What the search returns: distinct ids, and if the pool never filled, exactly the reachable vertices. */
  lemma SearchFinds(problem: Problem, pool: nat, discovered: seq<ParetoPoint>, visited: set<nat>, expanded: set<nat>)
    requires Lists(problem, discovered, visited) && Explored(problem, visited, expanded)
    requires |Flatten(Layers(discovered, pool))| < pool ==> expanded == visited
    ensures var found := Flatten(Layers(discovered, pool));
            && (forall i, j :: 0 <= i < j < |found| ==> found[i].id != found[j].id)
            && (|found| < pool ==> forall v :: Reachable(problem, v) <==> problem.PointOf(v) in found)
  {
    hide Layers, Flatten, Explored, Reachable;
    var found := Flatten(Layers(discovered, pool));
    forall i, j | 0 <= i < j < |found| ensures found[i].id != found[j].id {
      ResultIdsAreDistinct(problem, pool, discovered, visited, i, j);
    }
    if |found| < pool { UnfilledPoolFindsReachable(problem, pool, discovered, visited); }
  }

  lemma ExpandedExist(problem: Problem, visited: set<nat>, expanded: set<nat>)
    requires Explored(problem, visited, expanded)
    ensures expanded <= Vertices(problem.limit)
  {}

  lemma NoLayers(problem: Problem, visited: set<nat>, pool: nat)
    requires Lists(problem, [], visited)
    ensures Layers([], pool) == [] && visited == {}
  {}

  /** When the pool never fills, the result names exactly the vertices below the limit that the seeds
      reach, each once. */
  lemma UnfilledPoolFindsReachable(problem: Problem, pool: nat, discovered: seq<ParetoPoint>, visited: set<nat>)
    requires Lists(problem, discovered, visited) && Explored(problem, visited, visited)
    requires |Flatten(Layers(discovered, pool))| < pool
    ensures forall v :: v in visited <==> Reachable(problem, v)
    ensures Lists(problem, Flatten(Layers(discovered, pool)), visited)
  {
    hide Layers, Flatten, Lists, Explored;
    NothingLost(problem, discovered, visited, visited, pool);
    VisitedAreReachable(problem, visited);
    forall v | Reachable(problem, v) ensures v in visited {
      var path :| IsPath(problem, path) && path[|path| - 1] == v;
      PathStaysVisited(problem, visited, path);
    }
  }

  lemma VisitedAreReachable(problem: Problem, visited: set<nat>)
    requires Explored(problem, visited, visited)
    ensures forall v :: v in visited ==> Reachable(problem, v)
  {
    hide Reachable;
  }

  lemma {:induction false} PathStaysVisited(problem: Problem, visited: set<nat>, path: seq<nat>)
    requires Explored(problem, visited, visited) && IsPath(problem, path)
    ensures path[|path| - 1] in visited
  {
    if |path| > 1 {
      PathStaysVisited(problem, visited, path[..|path| - 1]);
      assert path[|path| - 1] in problem.neighbours(path[|path| - 2]);
    }
  }

  /** A filled pool still loses nothing before the last layering: the layers are those of everything
      visited, each visited vertex counted once, so ids in the result are distinct. */
  lemma ResultIdsAreDistinct(problem: Problem, pool: nat, discovered: seq<ParetoPoint>, visited: set<nat>, i: nat,
                             j: nat)
    requires Lists(problem, discovered, visited)
    requires i < j < |Flatten(Layers(discovered, pool))|
    ensures Flatten(Layers(discovered, pool))[i].id != Flatten(Layers(discovered, pool))[j].id
  {
    hide Layers, Flatten, Lists;
    LayersAreProper(discovered, pool);
    var found := Flatten(Layers(discovered, pool));
    if found[i].id == found[j].id {
      assert found[i] in multiset(discovered) && found[j] in multiset(discovered);
      SameIdSamePoint(problem, discovered, visited, found[i], found[j]);
      RepeatCounts(found, i, j);
      ListedOnce(problem, discovered, visited, found[i]);
      assert false;
    }
  }

  lemma SameIdSamePoint(problem: Problem, points: seq<ParetoPoint>, visited: set<nat>, p: ParetoPoint, q: ParetoPoint)
    requires Lists(problem, points, visited) && p in points && q in points && p.id == q.id
    ensures p == q
  {}

  lemma ListedOnce(problem: Problem, points: seq<ParetoPoint>, visited: set<nat>, p: ParetoPoint)
    requires Lists(problem, points, visited) && p in points
    ensures multiset(points)[p] == 1
  {
    var ids := set q | q in points :: q.id;
    assert ids == visited by {
      forall v | v in visited ensures v in ids { assert problem.PointOf(v) in points; }
    }
    if multiset(points)[p] > 1 {
      var i :| 0 <= i < |points| && points[i] == p;
      var rest := points[..i] + points[i + 1..];
      assert points == points[..i] + [p] + points[i + 1..];
      assert multiset(points) == multiset(rest) + multiset{p};
      forall q | q in points ensures q in rest { assert q in multiset(points) && q in multiset(rest); }
      assert (set q | q in rest :: q.id) == visited;
      ImageIsSmaller(rest);
      assert false;
    }
  }

  lemma {:induction false} ImageIsSmaller(points: seq<ParetoPoint>)
    ensures |set q | q in points :: q.id| <= |points|
  {
    if |points| != 0 {
      ImageIsSmaller(points[1..]);
      var tail := set q | q in points[1..] :: q.id;
      assert points == [points[0]] + points[1..];
      assert (set q | q in points :: q.id) == tail + {points[0].id};
    }
  }
}
