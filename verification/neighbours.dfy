/** Search results and the standard library's binary heap over them (src/ann/brute_force.rs).
    A heap is the multiset of its entries; peek and pop give an entry no other one exceeds. */
module Neighbours {
  import opened Sorting

  datatype Neighbor = Neighbor(id: nat, distance: real)

  /** By distance, then by id. */
  predicate Le(a: Neighbor, b: Neighbor) {
    a.distance < b.distance || (a.distance == b.distance && a.id <= b.id)
  }

  lemma {:induction false} GreatestExists(heap: multiset<Neighbor>) returns (worst: Neighbor)
    requires |heap| > 0
    ensures worst in heap && forall n :: n in heap ==> Le(n, worst)
    decreases |heap|
  {
    var x :| x in heap;
    worst := x;
    var rest := heap - multiset{x};
    if |rest| > 0 {
      var other := GreatestExists(rest);
      if Le(x, other) { worst := other; }
      forall n | n in heap ensures Le(n, worst) {
        if n != x { assert n in rest; }
      }
    } else {
      assert heap == multiset{x};
    }
  }

  lemma {:induction false} LeastExists(heap: multiset<Neighbor>) returns (best: Neighbor)
    requires |heap| > 0
    ensures best in heap && forall n :: n in heap ==> Le(best, n)
    decreases |heap|
  {
    var x :| x in heap;
    best := x;
    var rest := heap - multiset{x};
    if |rest| > 0 {
      var other := LeastExists(rest);
      if Le(other, x) { best := other; }
      forall n | n in heap ensures Le(best, n) {
        if n != x { assert n in rest; }
      }
    } else {
      assert heap == multiset{x};
    }
  }

  lemma SomeGreatest(heap: multiset<Neighbor>)
    requires |heap| > 0
    ensures exists worst :: worst in heap && forall n :: n in heap ==> Le(n, worst)
  {
    var worst := GreatestExists(heap);
  }

  lemma SomeLeast(heap: multiset<Neighbor>)
    requires |heap| > 0
    ensures exists best :: best in heap && forall n :: n in heap ==> Le(best, n)
  {
    var best := LeastExists(heap);
  }

  /** The top of a max-heap. */
  ghost function Worst(heap: multiset<Neighbor>): (worst: Neighbor)
    requires |heap| > 0
    ensures worst in heap && forall n :: n in heap ==> Le(n, worst)
  {
    SomeGreatest(heap);
    var worst :| worst in heap && forall n :: n in heap ==> Le(n, worst);
    worst
  }

  /** The top of a min-heap. */
  ghost function Best(heap: multiset<Neighbor>): (best: Neighbor)
    requires |heap| > 0
    ensures best in heap && forall n :: n in heap ==> Le(best, n)
  {
    SomeLeast(heap);
    var best :| best in heap && forall n :: n in heap ==> Le(best, n);
    best
  }

  method Peek(heap: multiset<Neighbor>) returns (worst: Neighbor)
    requires |heap| > 0
    ensures worst == Worst(heap)
  {
    SomeGreatest(heap);
    worst :| worst in heap && forall n :: n in heap ==> Le(n, worst);
  }

  method PeekLeast(heap: multiset<Neighbor>) returns (best: Neighbor)
    requires |heap| > 0
    ensures best == Best(heap)
  {
    SomeLeast(heap);
    best :| best in heap && forall n :: n in heap ==> Le(best, n);
  }

  // ---------------------------------------------------------------------
  // Sorting and truncating: what a bounded heap has to reproduce
  // ---------------------------------------------------------------------

  function Smaller(k: nat, n: nat): nat { if k < n then k else n }

  /** The first k of all entries, sorted by (distance, id). */
  function TopK(all: seq<Neighbor>, k: nat): seq<Neighbor> {
    SortBy(all, Le)[..Smaller(k, |all|)]
  }

  /** A best choice of k among `all`: nothing chosen exceeds anything left out. */
  ghost predicate KBest(chosen: multiset<Neighbor>, all: multiset<Neighbor>, k: nat) {
    && chosen <= all && |chosen| == Smaller(k, |all|)
    && forall x, y :: x in chosen && y in all - chosen ==> Le(x, y)
  }

  /** `into_vec` and `sort_unstable`: the sorted listing of a heap. */
  method IntoSorted(heap: multiset<Neighbor>) returns (r: seq<Neighbor>)
    ensures Sorted(r, Le) && multiset(r) == heap
  {
    r := [];
    var rest := heap;
    while |rest| > 0
      invariant Sorted(r, Le) && multiset(r) + rest == heap
      invariant forall x, y :: x in r && y in rest ==> Le(x, y)
      decreases |rest|
    {
      var best := PeekLeast(rest);
      assert rest == rest - multiset{best} + multiset{best};
      rest := rest - multiset{best};
      forall i, j | 0 <= i < j < |r + [best]| ensures Le((r + [best])[i], (r + [best])[j]) {
        if j == |r| { assert r[i] in r; }
      }
      r := r + [best];
    }
    assert rest == multiset{};
  }

  lemma RejectKeepsBest(heap: multiset<Neighbor>, all: multiset<Neighbor>, k: nat, candidate: Neighbor)
    requires k > 0 && KBest(heap, all, k) && |heap| == k && Le(Worst(heap), candidate)
    ensures KBest(heap, all + multiset{candidate}, k)
  {
    assert all + multiset{candidate} - heap == all - heap + multiset{candidate};
    forall x, y | x in heap && y in all + multiset{candidate} - heap ensures Le(x, y) {
      assert Le(x, Worst(heap));
    }
  }

  lemma FillKeepsBest(heap: multiset<Neighbor>, all: multiset<Neighbor>, k: nat, candidate: Neighbor)
    requires KBest(heap, all, k) && |heap| < k
    ensures KBest(heap + multiset{candidate}, all + multiset{candidate}, k)
  {
    assert all == heap + (all - heap);
    assert |all - heap| == 0;
    assert all == heap;
  }

  lemma ReplaceKeepsBest(heap: multiset<Neighbor>, all: multiset<Neighbor>, k: nat, candidate: Neighbor)
    requires k > 0 && KBest(heap, all, k) && |heap| == k && !Le(Worst(heap), candidate)
    ensures KBest(heap - multiset{Worst(heap)} + multiset{candidate}, all + multiset{candidate}, k)
  {
    var worst := Worst(heap);
    var rest := heap - multiset{worst};
    var next, more := rest + multiset{candidate}, all + multiset{candidate};
    assert heap == rest + multiset{worst};
    assert more - next == all - heap + multiset{worst};
    forall x, y | x in next && y in more - next ensures Le(x, y) {
      assert x != candidate ==> x in heap;
      assert y != worst ==> y in all - heap && Le(worst, y);
    }
  }

  /** The scan's bounded max-heap: make room only for a candidate that beats the worst one kept. */
  method Offer(heap: multiset<Neighbor>, k: nat, candidate: Neighbor, ghost all: multiset<Neighbor>)
    returns (heap': multiset<Neighbor>)
    requires k > 0 && KBest(heap, all, k)
    ensures KBest(heap', all + multiset{candidate}, k)
  {
    hide KBest;
    HeapSize(heap, all, k);
    heap' := heap;
    if |heap| == k {
      var worst := Peek(heap);
      if Le(worst, candidate) {
        RejectKeepsBest(heap, all, k, candidate);
        return;
      }
      ReplaceKeepsBest(heap, all, k, candidate);
      heap' := heap' - multiset{worst};
    } else {
      FillKeepsBest(heap, all, k, candidate);
    }
    heap' := heap' + multiset{candidate};
  }

  lemma EmptyKeepsBest(k: nat)
    ensures KBest(multiset{}, multiset{}, k)
  {}

  lemma HeapSize(heap: multiset<Neighbor>, all: multiset<Neighbor>, k: nat)
    requires KBest(heap, all, k)
    ensures |heap| <= k
  {}

  /** The answer is a function of what was scanned, not of the order it was scanned in. */
  lemma TopKIgnoresOrder(xs: seq<Neighbor>, ys: seq<Neighbor>, k: nat)
    requires multiset(xs) == multiset(ys)
    ensures TopK(xs, k) == TopK(ys, k)
  {
    SortOrders(xs, Le);
    SortOrders(ys, Le);
    SortKeepsElements(xs, Le);
    SortKeepsElements(ys, Le);
    SortedIsUnique(SortBy(xs, Le), SortBy(ys, Le), Le);
    SameElements(xs, ys);
  }

  /** Listing a best choice of k in order gives exactly the first k of everything sorted. */
  lemma BestSortedIsTopK(r: seq<Neighbor>, all: seq<Neighbor>, k: nat)
    requires Sorted(r, Le) && KBest(multiset(r), multiset(all), k)
    ensures r == TopK(all, k)
  {
    var left := multiset(all) - multiset(r);
    var tail := ListingOf(left);
    forall i, j | 0 <= i < j < |r + tail| ensures Le((r + tail)[i], (r + tail)[j]) {
      if i < |r| <= j { assert r[i] in multiset(r) && tail[j - |r|] in multiset(tail); }
    }
    assert multiset(r + tail) == multiset(all);
    SortOrders(all, Le);
    SortKeepsElements(all, Le);
    SortedIsUnique(r + tail, SortBy(all, Le), Le);
    SameElements(r + tail, all);
    assert |multiset(r)| == |r|;
    assert (r + tail)[..|r|] == r;
  }

  lemma {:induction false} ListingOf(m: multiset<Neighbor>) returns (r: seq<Neighbor>)
    ensures Sorted(r, Le) && multiset(r) == m
    decreases |m|
  {
    if |m| == 0 { return []; }
    var best := LeastExists(m);
    var tail := ListingOf(m - multiset{best});
    r := [best] + tail;
    forall j | 0 <= j < |tail| ensures Le(best, tail[j]) { assert tail[j] in multiset(tail); }
    assert m == multiset{best} + (m - multiset{best});
  }
}
