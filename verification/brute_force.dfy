/** Exhaustive search with a bounded heap (src/ann/brute_force.rs). */
module BruteForce {
  import opened Neighbours
  import opened Vectors

  /** Vector i of a flat buffer occupies positions i*d up to (i+1)*d. */
  ghost predicate Holds(data: seq<real>, d: nat, vectors: seq<Vector>) {
    && |data| == |vectors| * d
    && forall i :: 0 <= i < |vectors| ==> i * d + d <= |data| && vectors[i] == data[i * d..i * d + d]
  }

  lemma HoldsOneMore(data: seq<real>, d: nat, vectors: seq<Vector>, v: Vector)
    requires Holds(data, d, vectors) && |v| == d
    ensures Holds(data + v, d, vectors + [v])
  {
    assert (|vectors| + 1) * d == |vectors| * d + d;
    forall i | 0 <= i <= |vectors|
      ensures i * d + d <= |data + v| && (vectors + [v])[i] == (data + v)[i * d..i * d + d]
    {
      if i < |vectors| {
        assert (data + v)[i * d..i * d + d] == data[i * d..i * d + d];
      } else {
        assert i * d == |data|;
        assert (data + v)[i * d..i * d + d] == v;
      }
    }
  }

  /** Every stored vector as a result for this query. */
  ghost function Results(ids: seq<nat>, vectors: seq<Vector>, query: Vector): (r: seq<Neighbor>)
    requires |ids| == |vectors| && forall i :: 0 <= i < |vectors| ==> |vectors[i]| == |query|
    ensures |r| == |ids|
  {
    seq(|ids|, i requires 0 <= i < |ids| => Neighbor(ids[i], SquaredL2(query, vectors[i])))
  }

  class BruteForceIndex {
    const dimension: nat
    var data: seq<real>
    var ids: seq<nat>
    ghost var vectors: seq<Vector>

    ghost predicate Valid()
      reads this
    {
      dimension > 0 && |vectors| == |ids| && Holds(data, dimension, vectors)
      && forall i :: 0 <= i < |vectors| ==> |vectors[i]| == dimension
    }

    constructor (dimension: nat)
      requires dimension > 0
      ensures Valid() && this.dimension == dimension && vectors == [] && ids == []
    {
      this.dimension := dimension;
      data, ids, vectors := [], [], [];
    }

    method Add(id: nat, vector: Vector)
      requires Valid() && |vector| == dimension
      modifies this
      ensures Valid() && vectors == old(vectors) + [vector] && ids == old(ids) + [id]
    {
      HoldsOneMore(data, dimension, vectors, vector);
      data := data + vector;
      ids := ids + [id];
      vectors := vectors + [vector];
    }

    /** The bounded scan answers exactly what sorting everything and truncating would. */
    method Search(query: Vector, k: nat) returns (r: seq<Neighbor>)
      requires Valid() && |query| == dimension
      ensures r == TopK(Results(ids, vectors, query), k)
    {
      ghost var all := Results(ids, vectors, query);
      if k == 0 || |ids| == 0 { return []; }
      hide SquaredL2;
      var best := multiset{};
      for i := 0 to |ids|
        invariant KBest(best, multiset(all[..i]), k)
      {
        hide KBest;
        var start := i * dimension;
        var candidate := Neighbor(ids[i], SquaredL2(query, data[start..start + dimension]));
        assert all[..i + 1] == all[..i] + [candidate];
        best := Offer(best, k, candidate, multiset(all[..i]));
      }
      assert all[..|ids|] == all;
      r := IntoSorted(best);
      BestSortedIsTopK(r, all, k);
    }
  }
}
