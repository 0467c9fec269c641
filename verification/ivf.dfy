/** The inverted file index over quantized residuals (src/ann/ivf.rs). Initial centroids are a parameter. */
module Ivf {
  import opened Neighbours
  import opened RaBitQCodes
  import opened Sorting
  import opened Vectors
  import Bytes
  import KMeans

  /** One inverted list; `ids` and `codes` run in parallel. */
  datatype PostingList = PostingList(ids: seq<nat>, codes: seq<Code>) {
    ghost predicate Valid(dimension: nat) {
      && |ids| == |codes|
      && forall i :: 0 <= i < |codes| ==> |codes[i].codes| == dimension && codes[i].gridNorm != 0.0
    }
  }

  /** What a query reads of the index. */
  datatype Snapshot = Snapshot(q: Quantizer, centroids: seq<Vector>, lists: seq<PostingList>, root: real -> real) {
    ghost predicate Valid() {
      && q.Valid() && IsSquareRoot(root)
      && |lists| == |centroids| > 0 && KMeans.Points(centroids, q.Dimension())
      && forall c :: 0 <= c < |lists| ==> lists[c].Valid(q.Dimension())
    }

    /** Every entry of one cluster with its estimated distance. */
    ghost function ListEstimates(c: nat, query: Vector): (r: seq<Neighbor>)
      requires Valid() && |query| == q.Dimension() && c < |lists|
      ensures |r| == |lists[c].ids|
    {
      var list := lists[c];
      seq(|list.ids|, i requires 0 <= i < |list.ids| =>
        Neighbor(list.ids[i], EstimateSquaredDistance(q, list.codes[i], PrepareQuery(q, query, centroids[c], root))))
    }

    /** The estimates of the probed clusters, in probe order. A probe's id is its cluster. */
    ghost function Scanned(query: Vector, probes: seq<Neighbor>): seq<Neighbor>
      requires Valid() && |query| == q.Dimension() && forall i :: 0 <= i < |probes| ==> probes[i].id < |lists|
      decreases |probes|
    {
      if |probes| == 0 then []
      else ListEstimates(probes[0].id, query) + Scanned(query, probes[1..])
    }

    /** Every centroid with its distance to the query. */
    ghost function Scored(query: Vector): (r: seq<Neighbor>)
      requires Valid() && |query| == q.Dimension()
      ensures |r| == |lists| && forall i :: 0 <= i < |r| ==> r[i].id == i
    {
      seq(|centroids|, i requires 0 <= i < |centroids| => Neighbor(i, SquaredL2(query, centroids[i])))
    }

    /** The clusters a query visits: the `count` nearest, nearest first. */
    ghost function Probes(query: Vector, count: nat): (r: seq<Neighbor>)
      requires Valid() && |query| == q.Dimension()
      ensures forall i :: 0 <= i < |r| ==> r[i].id < |lists|
    {
      ProbesExist(query, count);
      TopK(Scored(query), count)
    }

    lemma ProbesExist(query: Vector, count: nat)
      requires Valid() && |query| == q.Dimension()
      ensures forall i :: 0 <= i < |TopK(Scored(query), count)| ==> TopK(Scored(query), count)[i].id < |lists|
    {
      hide Valid, SquaredL2;
      var scored := Scored(query);
      SortKeepsElements(scored, Le);
      SameElements(SortBy(scored, Le), scored);
      forall i | 0 <= i < |TopK(scored, count)| ensures TopK(scored, count)[i].id < |lists| {
        assert TopK(scored, count)[i] == SortBy(scored, Le)[i];
        assert TopK(scored, count)[i] in scored;
      }
    }

    lemma {:induction false} ScannedConcat(query: Vector, xs: seq<Neighbor>, ys: seq<Neighbor>)
      requires Valid() && |query| == q.Dimension()
      requires forall i :: 0 <= i < |xs| ==> xs[i].id < |lists|
      requires forall i :: 0 <= i < |ys| ==> ys[i].id < |lists|
      ensures Scanned(query, xs + ys) == Scanned(query, xs) + Scanned(query, ys)
      decreases |xs|
    {
      hide Valid, ListEstimates;
      if |xs| == 0 {
        assert xs + ys == ys;
      } else {
        assert (xs + ys)[0] == xs[0] && (xs + ys)[1..] == xs[1..] + ys;
        ScannedConcat(query, xs[1..], ys);
      }
    }

    lemma ScannedAppend(query: Vector, xs: seq<Neighbor>, probe: Neighbor)
      requires Valid() && |query| == q.Dimension() && probe.id < |lists|
      requires forall i :: 0 <= i < |xs| ==> xs[i].id < |lists|
      ensures Scanned(query, xs + [probe]) == Scanned(query, xs) + ListEstimates(probe.id, query)
    {
      hide Valid, ListEstimates;
      ScannedConcat(query, xs, [probe]);
      assert Scanned(query, [probe]) == ListEstimates(probe.id, query) + Scanned(query, []);
    }

    /** Probing the same clusters in another order scans the same entries. */
    lemma {:induction false} ScannedIgnoresOrder(query: Vector, xs: seq<Neighbor>, ys: seq<Neighbor>)
      requires Valid() && |query| == q.Dimension() && multiset(xs) == multiset(ys)
      requires forall i :: 0 <= i < |xs| ==> xs[i].id < |lists|
      requires forall i :: 0 <= i < |ys| ==> ys[i].id < |lists|
      ensures multiset(Scanned(query, xs)) == multiset(Scanned(query, ys))
      decreases |xs|
    {
      hide Valid, ListEstimates;
      if |xs| == 0 {
        assert |multiset(ys)| == 0;
        assert ys == [];
      } else {
        var j := TakeOut(xs, ys);
        var others := ys[..j] + ys[j + 1..];
        ScannedIgnoresOrder(query, xs[1..], others);
        ScannedConcat(query, ys[..j], ys[j + 1..]);
        ScannedConcat(query, ys[..j], [ys[j]] + ys[j + 1..]);
        ScannedConcat(query, [ys[j]], ys[j + 1..]);
        assert xs == [xs[0]] + xs[1..];
        ScannedConcat(query, [xs[0]], xs[1..]);
      }
    }

    /** Probing as many clusters as there are visits each exactly once. */
    lemma AllProbedScansEverything(query: Vector, k: nat)
      requires Valid() && |query| == q.Dimension()
      ensures TopK(Scanned(query, Probes(query, |lists|)), k) == TopK(Scanned(query, Scored(query)), k)
    {
      hide Valid, Scanned, SquaredL2;
      var scored := Scored(query);
      var probes := Probes(query, |lists|);
      SortKeepsElements(scored, Le);
      assert probes == SortBy(scored, Le);
      ScannedIgnoresOrder(query, probes, scored);
      TopKIgnoresOrder(Scanned(query, probes), Scanned(query, scored), k);
    }
  }

  // ---------------------------------------------------------------------
  // What the lists hold
  // ---------------------------------------------------------------------

  /** A vector indexed under an id. */
  datatype Entry = Entry(id: nat, vector: Vector)

  function Zip(ids: seq<nat>, raws: seq<Vector>): (r: seq<Entry>)
    requires |ids| == |raws|
    ensures |r| == |ids|
  {
    seq(|ids|, i requires 0 <= i < |ids| => Entry(ids[i], raws[i]))
  }

  ghost predicate Parallel(lists: seq<PostingList>, raws: seq<seq<Vector>>) {
    |raws| == |lists| && forall c :: 0 <= c < |lists| ==> |raws[c]| == |lists[c].ids|
  }

  /** Everything in the lists: raws[c][i] is the vector behind entry i of list c. */
  ghost function Contents(lists: seq<PostingList>, raws: seq<seq<Vector>>): multiset<Entry>
    requires Parallel(lists, raws)
  {
    if |lists| == 0 then multiset{} else multiset(Zip(lists[0].ids, raws[0])) + Contents(lists[1..], raws[1..])
  }

  function Append(list: PostingList, id: nat, code: Code): PostingList {
    PostingList(list.ids + [id], list.codes + [code])
  }

  lemma AppendedIds(list: PostingList, id: nat, code: Code, raw: seq<Vector>, vector: Vector)
    requires |list.ids| == |raw|
    ensures |Append(list, id, code).ids| == |raw + [vector]|
    ensures multiset(Zip(Append(list, id, code).ids, raw + [vector]))
            == multiset(Zip(list.ids, raw)) + multiset{Entry(id, vector)}
  {
    assert Zip(Append(list, id, code).ids, raw + [vector]) == Zip(list.ids, raw) + [Entry(id, vector)];
  }

  lemma {:induction false} AppendAddsOne(lists: seq<PostingList>, raws: seq<seq<Vector>>, c: nat, id: nat, code: Code,
                                         vector: Vector)
    requires Parallel(lists, raws) && c < |lists|
    ensures Parallel(lists[c := Append(lists[c], id, code)], raws[c := raws[c] + [vector]])
    ensures Contents(lists[c := Append(lists[c], id, code)], raws[c := raws[c] + [vector]])
         == Contents(lists, raws) + multiset{Entry(id, vector)}
  {
    hide Zip, Append;
    AppendedIds(lists[c], id, code, raws[c], vector);
    var lists', raws' := lists[c := Append(lists[c], id, code)], raws[c := raws[c] + [vector]];
    if c == 0 {
      assert lists'[1..] == lists[1..] && raws'[1..] == raws[1..];
    } else {
      AppendAddsOne(lists[1..], raws[1..], c - 1, id, code, vector);
      assert lists'[1..] == lists[1..][c - 1 := Append(lists[1..][c - 1], id, code)];
      assert raws'[1..] == raws[1..][c - 1 := raws[1..][c - 1] + [vector]];
    }
  }

  lemma {:induction false} NoContents(lists: seq<PostingList>, raws: seq<seq<Vector>>)
    requires Parallel(lists, raws) && forall c :: 0 <= c < |lists| ==> lists[c].ids == []
    ensures Contents(lists, raws) == multiset{}
  {
    if |lists| != 0 { NoContents(lists[1..], raws[1..]); }
  }

  /** Every entry sits with the centroid nearest to its vector, encoded against that centroid. */
  ghost predicate Filed(s: Snapshot, raws: seq<seq<Vector>>)
    requires s.Valid()
  {
    && Parallel(s.lists, raws)
    && forall c, i :: 0 <= c < |raws| && 0 <= i < |raws[c]| ==> FiledEntry(s, c, i, raws[c][i])
  }

  ghost predicate FiledEntry(s: Snapshot, c: nat, i: nat, vector: Vector)
    requires s.Valid() && c < |s.lists| && i < |s.lists[c].ids|
  {
    && |vector| == s.q.Dimension()
    && KMeans.IsNearest(vector, s.centroids, c, s.q.Dimension())
    && IsEncoding(s.lists[c].codes[i], s.q, vector, s.centroids[c], s.root)
  }

  lemma EncodingIsUsable(code: Code, q: Quantizer, raw: Vector, centroid: Vector, root: real -> real)
    requires q.Valid() && |raw| == |centroid| == q.Dimension() && IsEncoding(code, q, raw, centroid, root)
    ensures |code.codes| == q.Dimension() && code.gridNorm != 0.0
  {
    hide SquaredL2;
  }

  lemma AppendKeepsValid(s: Snapshot, c: nat, id: nat, code: Code)
    requires s.Valid() && c < |s.lists| && |code.codes| == s.q.Dimension() && code.gridNorm != 0.0
    ensures s.(lists := s.lists[c := Append(s.lists[c], id, code)]).Valid()
  {
    hide IsSquareRoot, Quantizer.Valid;
  }

  lemma AppendKeepsFiled(s: Snapshot, raws: seq<seq<Vector>>, c: nat, id: nat, code: Code, vector: Vector)
    requires s.Valid() && Filed(s, raws) && c < |s.lists| && |vector| == s.q.Dimension()
    requires KMeans.IsNearest(vector, s.centroids, c, s.q.Dimension())
    requires IsEncoding(code, s.q, vector, s.centroids[c], s.root)
    ensures s.(lists := s.lists[c := Append(s.lists[c], id, code)]).Valid()
    ensures Filed(s.(lists := s.lists[c := Append(s.lists[c], id, code)]), raws[c := raws[c] + [vector]])
  {
    EncodingIsUsable(code, s.q, vector, s.centroids[c], s.root);
    AppendKeepsValid(s, c, id, code);
    assert |s.lists| == |s.centroids|;
    hide IsEncoding, KMeans.IsNearest, Snapshot.Valid;
    var s', raws' := s.(lists := s.lists[c := Append(s.lists[c], id, code)]), raws[c := raws[c] + [vector]];
    forall d, i | 0 <= d < |raws'| && 0 <= i < |raws'[d]| ensures FiledEntry(s', d, i, raws'[d][i]) {
      if d != c || i < |raws[c]| {
        assert FiledEntry(s, d, i, raws[d][i]);
      }
    }
  }

  /** As many centroids as asked for, each once, by distance and then position, with none nearer left out. */
  ghost predicate AreNearest(probes: seq<Neighbor>, query: Vector, centroids: seq<Vector>, count: nat, dimension: nat)
    requires |query| == dimension && KMeans.Points(centroids, dimension)
  {
    && |probes| == Smaller(count, |centroids|) && Sorted(probes, Le)
    && (forall i :: 0 <= i < |probes| ==>
          probes[i].id < |centroids| && probes[i].distance == SquaredL2(query, centroids[probes[i].id]))
    && (forall i, j :: 0 <= i < j < |probes| ==> probes[i].id != probes[j].id)
    && forall c: nat, i ::
         c < |centroids| && 0 <= i < |probes| && (forall j :: 0 <= j < |probes| ==> probes[j].id != c) ==>
           Le(probes[i], Neighbor(c, SquaredL2(query, centroids[c])))
  }

  ghost predicate DistinctIds(scored: seq<Neighbor>) {
    forall i, j :: 0 <= i < j < |scored| ==> scored[i].id != scored[j].id
  }

  lemma {:induction false} ScoredOnce(scored: seq<Neighbor>, x: Neighbor)
    requires DistinctIds(scored)
    ensures multiset(scored)[x] <= 1
  {
    if |scored| != 0 {
      ScoredOnce(scored[1..], x);
      assert scored == [scored[0]] + scored[1..];
      if x == scored[0] {
        assert x !in scored[1..];
        assert x !in multiset(scored[1..]);
      }
    }
  }

  lemma SortedByLe(scored: seq<Neighbor>)
    ensures Sorted(SortBy(scored, Le), Le)
  {
    SortOrders(scored, Le);
  }

  ghost predicate ScoredAt(scored: seq<Neighbor>, x: Neighbor) {
    x.id < |scored| && x == scored[x.id]
  }

  /** Sorting a list scored by position: nothing is lost and nothing comes twice. */
  lemma SortedPositions(scored: seq<Neighbor>)
    requires forall i :: 0 <= i < |scored| ==> scored[i].id == i
    ensures Sorted(SortBy(scored, Le), Le)
    ensures forall i :: 0 <= i < |scored| ==> ScoredAt(scored, SortBy(scored, Le)[i])
    ensures DistinctIds(SortBy(scored, Le))
    ensures forall c :: 0 <= c < |scored| ==> scored[c] in SortBy(scored, Le)
  {
    SortedByLe(scored);
    hide SortBy, Le;
    var sorted := SortBy(scored, Le);
    SortKeepsElements(scored, Le);
    forall i | 0 <= i < |sorted| ensures ScoredAt(scored, sorted[i]) {
      assert sorted[i] in multiset(scored);
    }
    forall i, j | 0 <= i < j < |sorted| ensures sorted[i].id != sorted[j].id {
      assert ScoredAt(scored, sorted[i]) && ScoredAt(scored, sorted[j]);
      if sorted[i].id == sorted[j].id {
        RepeatCounts(sorted, i, j);
        ScoredOnce(scored, sorted[i]);
      }
    }
    forall c | 0 <= c < |scored| ensures scored[c] in sorted {
      assert scored[c] in multiset(sorted);
    }
  }

  lemma FirstAreNearest(scored: seq<Neighbor>, query: Vector, centroids: seq<Vector>, count: nat, dimension: nat)
    requires |query| == dimension && KMeans.Points(centroids, dimension) && |scored| == |centroids|
    requires forall i :: 0 <= i < |scored| ==> scored[i] == Neighbor(i, SquaredL2(query, centroids[i]))
    ensures AreNearest(TopK(scored, count), query, centroids, count, dimension)
  {
    hide SquaredL2, SortBy, Le;
    var sorted, probes := SortBy(scored, Le), TopK(scored, count);
    SortedPositions(scored);
    forall i | 0 <= i < |probes|
      ensures probes[i].id < |centroids| && probes[i].distance == SquaredL2(query, centroids[probes[i].id])
    {
      assert ScoredAt(scored, sorted[i]);
    }
    forall c: nat, i | c < |centroids| && 0 <= i < |probes| && (forall j :: 0 <= j < |probes| ==> probes[j].id != c)
      ensures Le(probes[i], Neighbor(c, SquaredL2(query, centroids[c])))
    {
      assert scored[c] in sorted;
      forall j | 0 <= j < |probes| ensures sorted[j] != scored[c] { assert probes[j].id != c; }
      var p :| 0 <= p < |sorted| && sorted[p] == scored[c];
    }
  }

  class IvfIndex {
    const q: Quantizer
    const centroids: seq<Vector>
    const root: real -> real
    var lists: seq<PostingList>
    var count: nat
    /** raws[c][i] is the vector that entry i of list c was made from. */
    ghost var raws: seq<seq<Vector>>

    ghost function View(): Snapshot
      reads this
    {
      Snapshot(q, centroids, lists, root)
    }

    ghost predicate Valid()
      reads this
    {
      View().Valid() && Filed(View(), raws) && count == |Contents(lists, raws)|
    }

    /** Everything indexed, with how often each entry occurs over all lists. */
    ghost function Indexed(): multiset<Entry>
      requires Valid()
      reads this
    {
      Contents(lists, raws)
    }

    /** An index with trained centroids and empty lists. */
    constructor TrainOnly(q: Quantizer, centroids: seq<Vector>, root: real -> real)
      requires q.Valid() && IsSquareRoot(root) && |centroids| > 0 && KMeans.Points(centroids, q.Dimension())
      ensures Valid() && this.q == q && this.centroids == centroids && Indexed() == multiset{}
    {
      this.q, this.centroids, this.root := q, centroids, root;
      lists, raws := seq(|centroids|, i => PostingList([], [])), seq(|centroids|, i => []);
      count := 0;
      new;
      NoContents(lists, raws);
    }

    /** The vector joins the list of its nearest centroid, encoded against that centroid. */
    method Insert(id: nat, vector: Vector)
      requires Valid() && |vector| == q.Dimension()
      modifies this
      ensures Valid() && Indexed() == old(Indexed()) + multiset{Entry(id, vector)}
    {
      var cluster, _ := KMeans.Assign(vector, centroids, q.Dimension());
      var code := Encode(q, vector, centroids[cluster], root);
      AppendKeepsFiled(View(), raws, cluster, id, code, vector);
      hide IsEncoding, KMeans.IsNearest, IsSquareRoot, FiledEntry, Quantizer.Valid;
      AppendAddsOne(lists, raws, cluster, id, code, vector);
      hide Snapshot.Valid, Contents;
      lists := lists[cluster := Append(lists[cluster], id, code)];
      raws := raws[cluster := raws[cluster] + [vector]];
      count := count + 1;
    }

    /** The lists of the `nprobe` nearest centroids are scanned and the first k estimates are kept. */
    method Search(query: Vector, k: nat, nprobe: nat) returns (r: seq<Neighbor>)
      requires Valid() && |query| == q.Dimension()
      ensures r == TopK(View().Scanned(query, View().Probes(query, nprobe)), k)
    {
      ghost var s := View();
      hide Snapshot.Valid, Filed, TopK, Snapshot.Scored, Contents, Snapshot.Probes;
      if k == 0 || nprobe == 0 {
        NothingKept(s, query, k, nprobe);
        return [];
      }
      var probes := NearestCentroids(query, nprobe);
      var best := ScanAll(query, probes, k);
      r := IntoSorted(best);
      BestSortedIsTopK(r, s.Scanned(query, probes), k);
    }

    method ScanAll(query: Vector, probes: seq<Neighbor>, k: nat) returns (best: multiset<Neighbor>)
      requires Valid() && |query| == q.Dimension() && k > 0
      requires forall i :: 0 <= i < |probes| ==> probes[i].id < |lists|
      ensures KBest(best, multiset(View().Scanned(query, probes)), k)
    {
      hide KBest, Snapshot.Valid, Filed, Contents, Snapshot.ListEstimates;
      ghost var s := View();
      best := multiset{};
      EmptyKeepsBest(k);
      for i := 0 to |probes|
        invariant KBest(best, multiset(s.Scanned(query, probes[..i])), k)
      {
        best := ScanList(query, probes[i].id, k, best, s.Scanned(query, probes[..i]));
        assert probes[..i + 1] == probes[..i] + [probes[i]];
        s.ScannedAppend(query, probes[..i], probes[i]);
      }
      assert probes[..|probes|] == probes;
    }

    /** Score every centroid, sort, and keep the first: no centroid left out comes before one kept. */
    method NearestCentroids(query: Vector, count: nat) returns (probes: seq<Neighbor>)
      requires Valid() && |query| == q.Dimension()
      ensures AreNearest(probes, query, centroids, count, q.Dimension()) && probes == View().Probes(query, count)
    {
      hide SquaredL2, IsSquareRoot, Filed, TopK;
      var scored := seq(|centroids|, i requires 0 <= i < |centroids| => Neighbor(i, SquaredL2(query, centroids[i])));
      assert scored == View().Scored(query);
      probes := TopK(scored, count);
      FirstAreNearest(scored, query, centroids, count, q.Dimension());
    }

    method ScanList(query: Vector, c: nat, k: nat, best: multiset<Neighbor>, ghost seen: seq<Neighbor>)
      returns (best': multiset<Neighbor>)
      requires Valid() && |query| == q.Dimension() && c < |lists| && k > 0 && KBest(best, multiset(seen), k)
      ensures KBest(best', multiset(seen + View().ListEstimates(c, query)), k)
    {
      hide KBest, Filed, IsSquareRoot, SquaredL2, Quantizer.Valid, EstimateSquaredDistance;
      var prepared := PrepareQuery(q, query, centroids[c], root);
      ghost var all := View().ListEstimates(c, query);
      var list := lists[c];
      best' := best;
      assert seen + all[..0] == seen;
      for i := 0 to |list.ids|
        invariant KBest(best', multiset(seen + all[..i]), k)
      {
        var candidate := Neighbor(list.ids[i], EstimateSquaredDistance(q, list.codes[i], prepared));
        assert seen + all[..i + 1] == seen + all[..i] + [candidate];
        best' := Offer(best', k, candidate, multiset(seen + all[..i]));
      }
      assert all[..|list.ids|] == all;
    }

    /** With every cluster probed, the answer is the first k of the estimates of all entries. */
    method SearchExhaustive(query: Vector, k: nat) returns (r: seq<Neighbor>)
      requires Valid() && |query| == q.Dimension()
      ensures r == TopK(View().Scanned(query, View().Scored(query)), k)
    {
      View().AllProbedScansEverything(query, k);
      r := Search(query, k, |lists|);
    }
  }

  lemma NothingKept(s: Snapshot, query: Vector, k: nat, nprobe: nat)
    requires s.Valid() && |query| == s.q.Dimension() && (k == 0 || nprobe == 0)
    ensures TopK(s.Scanned(query, s.Probes(query, nprobe)), k) == []
  {
    hide Snapshot.Valid;
  }

  /** Every position of the input, with its vector. */
  function Positions(data: seq<Vector>): (r: seq<Entry>)
    ensures |r| == |data|
  {
    seq(|data|, i requires 0 <= i < |data| => Entry(i, data[i]))
  }

  lemma PositionsAppend(data: seq<Vector>, i: nat)
    requires i < |data|
    ensures multiset(Positions(data[..i + 1])) == multiset(Positions(data[..i])) + multiset{Entry(i, data[i])}
  {
    assert Positions(data[..i + 1]) == Positions(data[..i]) + [Entry(i, data[i])];
  }

  /** The i-th vector of the sample is the one at the i-th position. */
  ghost predicate Sampled(data: seq<Vector>, training: seq<Vector>, sample: nat, offset: nat)
    requires sample > 0
  {
    forall i :: 0 <= i < |training| ==>
      Position(|data|, sample, offset, i) < |data| && training[i] == data[Position(|data|, sample, offset, i)]
  }

  /** Vectors to train on: all of them, or every stride-th from an offset that the seed draws below the stride. */
  method TrainingSet(data: seq<Vector>, sample: Bytes.Option<nat>, offset: nat) returns (training: seq<Vector>)
    requires sample.Some? ==> 0 < sample.value && (sample.value < |data| ==> offset < |data| / sample.value)
    ensures sample.None? || sample.value >= |data| ==> training == data
    ensures sample.Some? && sample.value < |data|
            ==> |training| == sample.value && Sampled(data, training, sample.value, offset)
  {
    if sample.None? || sample.value >= |data| { return data; }
    StrideIsPositive(|data|, sample.value);
    var stride := |data| / sample.value;
    training := [];
    var index := offset;
    while index < |data| && |training| < sample.value
      invariant |training| <= sample.value && index == Position(|data|, sample.value, offset, |training|)
      invariant Sampled(data, training, sample.value, offset)
      decreases |data| - index
    {
      NextPosition(|data|, sample.value, offset, |training|);
      training := training + [data[index]];
      index := index + stride;
    }
    if |training| < sample.value { PositionInRange(|data|, sample.value, offset, |training|); }
  }

  /** Where the i-th vector of a sample comes from. */
  function Position(count: nat, sample: nat, offset: nat, i: nat): nat
    requires sample > 0
  {
    offset + i * (count / sample)
  }

  lemma StrideIsPositive(count: nat, sample: nat)
    requires 0 < sample < count
    ensures count / sample > 0
  {}

  lemma NextPosition(count: nat, sample: nat, offset: nat, i: nat)
    requires sample > 0
    ensures Position(count, sample, offset, i + 1) == Position(count, sample, offset, i) + count / sample
  {}

  lemma LessTimes(a: nat, b: nat, c: nat)
    requires a <= b
    ensures a * c <= b * c
  {}

  lemma OneMoreTime(a: nat, c: nat)
    ensures (a + 1) * c == a * c + c
  {}

  lemma QuotientTimes(count: nat, sample: nat)
    requires sample > 0
    ensures sample * (count / sample) <= count
  {}

  lemma PositionInRange(count: nat, sample: nat, offset: nat, i: nat)
    requires 0 < sample < count && offset < count / sample && i < sample
    ensures Position(count, sample, offset, i) < count
  {
    var stride := count / sample;
    LessTimes(i, sample - 1, stride);
    OneMoreTime(sample - 1, stride);
    QuotientTimes(count, sample);
  }

  /** Training on a sample, then indexing the whole set under its positions: every position is in exactly one
      list, and no nearest assignment of the sample costs more than the last inertia of training. */
  method Build(data: seq<Vector>, q: Quantizer, sample: Bytes.Option<nat>, offset: nat, initial: seq<Vector>,
               maxIterations: nat, root: real -> real) returns (index: IvfIndex, training: seq<Vector>, inertia: real)
    requires q.Valid() && IsSquareRoot(root) && |data| > 0 && KMeans.Points(data, q.Dimension())
    requires sample.Some? ==> 0 < sample.value && (sample.value < |data| ==> offset < |data| / sample.value)
    requires |initial| > 0 && KMeans.Points(initial, q.Dimension())
    ensures index.Valid() && index.q == q && |index.centroids| == |initial|
    ensures index.Indexed() == multiset(Positions(data))
    ensures |training| == (if sample.Some? && sample.value < |data| then sample.value else |data|)
    ensures KMeans.Points(training, q.Dimension()) && KMeans.Points(index.centroids, q.Dimension())
    ensures forall nearest :: KMeans.Assigned(nearest, |training|, |index.centroids|)
                              && KMeans.AllNearest(training, index.centroids, nearest, q.Dimension()) ==>
              KMeans.Cost(training, index.centroids, nearest, q.Dimension()) <= inertia
  {
    hide Contents, Quantizer.Valid, IsSquareRoot, IvfIndex.Valid, IvfIndex.Indexed, Positions, KMeans.AllNearest,
         KMeans.Cost, Position;
    training := TrainingSet(data, sample, offset);
    SampleOfPoints(data, training, sample, offset, q.Dimension());
    var centroids, iterations; ghost var inertias;
    centroids, inertia, iterations, inertias := KMeans.Train(training, q.Dimension(), initial, maxIterations);
    index := new IvfIndex.TrainOnly(q, centroids, root);
    NoPositions();
    assert data[..0] == [];
    for i := 0 to |data|
      invariant fresh(index) && index.Valid() && index.q == q && index.centroids == centroids
      invariant index.Indexed() == multiset(Positions(data[..i]))
    {
      PositionsAppend(data, i);
      index.Insert(i, data[i]);
    }
    assert data[..|data|] == data;
  }

  lemma SampleOfPoints(data: seq<Vector>, training: seq<Vector>, sample: Bytes.Option<nat>, offset: nat, dimension: nat)
    requires KMeans.Points(data, dimension) && (sample.Some? ==> sample.value > 0)
    requires training == data || (sample.Some? && Sampled(data, training, sample.value, offset))
    ensures KMeans.Points(training, dimension)
  {
    hide Position;
  }

  lemma NoPositions()
    ensures Positions([]) == []
  {}
}
