/** The standard library's sort, as the function it computes: a stable insertion sort. */
module Sorting {

  ghost predicate TotalPreorder<T(!new)>(le: (T, T) -> bool) {
    && (forall x, y :: le(x, y) || le(y, x))
    && (forall x, y, z :: le(x, y) && le(y, z) ==> le(x, z))
  }

  ghost predicate Antisymmetric<T(!new)>(le: (T, T) -> bool) {
    forall x, y :: le(x, y) && le(y, x) ==> x == y
  }

  ghost predicate Sorted<T>(xs: seq<T>, le: (T, T) -> bool) {
    forall i, j :: 0 <= i < j < |xs| ==> le(xs[i], xs[j])
  }

  /** x goes before the first element it does not exceed. */
  function InsertInto<T>(x: T, xs: seq<T>, le: (T, T) -> bool): (r: seq<T>)
    ensures |r| == |xs| + 1
  {
    if |xs| == 0 || le(x, xs[0]) then [x] + xs
    else [xs[0]] + InsertInto(x, xs[1..], le)
  }

  function SortBy<T>(xs: seq<T>, le: (T, T) -> bool): (r: seq<T>)
    ensures |r| == |xs|
  {
    if |xs| == 0 then [] else InsertInto(xs[0], SortBy(xs[1..], le), le)
  }

  lemma {:induction false} InsertKeepsElements<T>(x: T, xs: seq<T>, le: (T, T) -> bool)
    ensures multiset(InsertInto(x, xs, le)) == multiset(xs) + multiset{x}
  {
    if |xs| == 0 || le(x, xs[0]) {
    } else {
      InsertKeepsElements(x, xs[1..], le);
      assert xs == [xs[0]] + xs[1..];
    }
  }

  lemma {:induction false} SortKeepsElements<T>(xs: seq<T>, le: (T, T) -> bool)
    ensures multiset(SortBy(xs, le)) == multiset(xs)
  {
    if |xs| != 0 {
      SortKeepsElements(xs[1..], le);
      InsertKeepsElements(xs[0], SortBy(xs[1..], le), le);
      assert xs == [xs[0]] + xs[1..];
    }
  }

  lemma {:induction false} InsertKeepsOrder<T(!new)>(x: T, xs: seq<T>, le: (T, T) -> bool)
    requires TotalPreorder(le) && Sorted(xs, le)
    ensures Sorted(InsertInto(x, xs, le), le)
  {
    var r := InsertInto(x, xs, le);
    if |xs| == 0 {
    } else if le(x, xs[0]) {
      forall i, j | 0 <= i < j < |r| ensures le(r[i], r[j]) {
        if i == 0 && j >= 2 { assert le(xs[0], xs[j - 1]); }
      }
    } else {
      InsertKeepsOrder(x, xs[1..], le);
      InsertKeepsElements(x, xs[1..], le);
      var tail := InsertInto(x, xs[1..], le);
      forall j | 0 <= j < |tail| ensures le(xs[0], tail[j]) {
        assert tail[j] in multiset(tail);
        if tail[j] != x {
          assert tail[j] in multiset(xs[1..]);
          assert tail[j] in xs[1..];
        }
      }
    }
  }

  lemma {:induction false} SortOrders<T(!new)>(xs: seq<T>, le: (T, T) -> bool)
    requires TotalPreorder(le)
    ensures Sorted(SortBy(xs, le), le)
  {
    if |xs| != 0 {
      SortOrders(xs[1..], le);
      InsertKeepsOrder(xs[0], SortBy(xs[1..], le), le);
    }
  }

  lemma SameElements<T>(xs: seq<T>, ys: seq<T>)
    requires multiset(xs) == multiset(ys)
    ensures |xs| == |ys| && forall x :: x in xs <==> x in ys
  {
    assert |multiset(xs)| == |multiset(ys)|;
    forall x ensures x in xs <==> x in ys {
      assert x in multiset(xs) <==> x in multiset(ys);
    }
  }

  /** Taking the first element out of one listing and its copy out of another leaves the same multiset. */
  lemma TakeOut<T>(xs: seq<T>, ys: seq<T>) returns (j: nat)
    requires multiset(xs) == multiset(ys) && |xs| > 0
    ensures j < |ys| && ys[j] == xs[0] && ys == ys[..j] + ([ys[j]] + ys[j + 1..])
    ensures multiset(xs[1..]) == multiset(ys[..j] + ys[j + 1..])
  {
    SameElements(xs, ys);
    assert xs[0] in ys;
    j :| 0 <= j < |ys| && ys[j] == xs[0];
    SplitOff(xs, 0);
    SplitOff(ys, j);
    assert multiset(xs[1..]) == multiset(xs) - multiset{xs[0]};
    assert xs[..0] + xs[1..] == xs[1..];
  }

  lemma SplitOff<T>(ys: seq<T>, j: nat)
    requires j < |ys|
    ensures ys == ys[..j] + ([ys[j]] + ys[j + 1..])
    ensures multiset(ys[..j] + ys[j + 1..]) == multiset(ys) - multiset{ys[j]}
  {
    assert ys == ys[..j] + [ys[j]] + ys[j + 1..];
    assert multiset(ys) == multiset(ys[..j]) + multiset{ys[j]} + multiset(ys[j + 1..]);
  }

  /** Under a total order, a multiset has one sorted listing. */
  lemma {:induction false} SortedIsUnique<T(!new)>(xs: seq<T>, ys: seq<T>, le: (T, T) -> bool)
    requires TotalPreorder(le) && Antisymmetric(le)
    requires Sorted(xs, le) && Sorted(ys, le) && multiset(xs) == multiset(ys)
    ensures xs == ys
  {
    SameElements(xs, ys);
    if |xs| != 0 {
      HeadIsLeast(xs, ys[0], le);
      HeadIsLeast(ys, xs[0], le);
      TailIsSorted(xs, le);
      TailIsSorted(ys, le);
      WithoutHead(xs);
      WithoutHead(ys);
      SortedIsUnique(xs[1..], ys[1..], le);
      assert xs == [xs[0]] + xs[1..] && ys == [ys[0]] + ys[1..];
    }
  }

  lemma HeadIsLeast<T(!new)>(xs: seq<T>, x: T, le: (T, T) -> bool)
    requires TotalPreorder(le) && Sorted(xs, le) && x in xs
    ensures le(xs[0], x)
  {
    var i :| 0 <= i < |xs| && xs[i] == x;
    assert i == 0 ==> le(x, x) || le(x, x);
  }

  lemma TailIsSorted<T>(xs: seq<T>, le: (T, T) -> bool)
    requires Sorted(xs, le) && |xs| > 0
    ensures Sorted(xs[1..], le)
  {}

  lemma RepeatCounts<T>(xs: seq<T>, i: nat, j: nat)
    requires i < j < |xs| && xs[i] == xs[j]
    ensures multiset(xs)[xs[i]] >= 2
  {
    assert xs == xs[..j] + xs[j..];
    assert xs[i] == xs[..j][i] && xs[j] == xs[j..][0];
    assert xs[i] in multiset(xs[..j]) && xs[i] in multiset(xs[j..]);
  }

  lemma WithoutHead<T>(xs: seq<T>)
    requires |xs| > 0
    ensures multiset(xs[1..]) == multiset(xs) - multiset{xs[0]}
  {
    SplitOff(xs, 0);
    assert xs[..0] + xs[1..] == xs[1..];
  }

  // ---------------------------------------------------------------------
  // Properties of pairs do not depend on the order of a listing
  // ---------------------------------------------------------------------

  ghost predicate Symmetric<T(!new)>(rel: (T, T) -> bool) {
    forall x, y :: rel(x, y) ==> rel(y, x)
  }

  ghost predicate Pairwise<T>(xs: seq<T>, rel: (T, T) -> bool) {
    |xs| == 0 || ((forall y :: y in xs[1..] ==> rel(xs[0], y)) && Pairwise(xs[1..], rel))
  }

  lemma {:induction false} InsertKeepsPairwise<T(!new)>(x: T, xs: seq<T>, le: (T, T) -> bool, rel: (T, T) -> bool)
    requires Symmetric(rel)
    ensures Pairwise(InsertInto(x, xs, le), rel) <==> Pairwise(xs, rel) && forall y :: y in xs ==> rel(x, y)
  {
    if |xs| == 0 || le(x, xs[0]) {
      assert ([x] + xs)[1..] == xs;
    } else {
      InsertKeepsPairwise(x, xs[1..], le, rel);
      var r, rest := InsertInto(x, xs, le), InsertInto(x, xs[1..], le);
      assert r[0] == xs[0] && r[1..] == rest;
      PairwiseStep(xs, rel);
      PairwiseStep(r, rel);
      hide Pairwise, InsertInto, Related;
      RelatedToInserted(xs[0], x, xs[1..], le, rel);
      RelatedToHead(x, xs, rel);
    }
  }

  ghost predicate Related<T(!new)>(x: T, ys: seq<T>, rel: (T, T) -> bool) {
    forall y :: y in ys ==> rel(x, y)
  }

  lemma PairwiseStep<T(!new)>(xs: seq<T>, rel: (T, T) -> bool)
    requires |xs| > 0
    ensures Pairwise(xs, rel) <==> Related(xs[0], xs[1..], rel) && Pairwise(xs[1..], rel)
  {}

  lemma RelatedToInserted<T(!new)>(z: T, x: T, xs: seq<T>, le: (T, T) -> bool, rel: (T, T) -> bool)
    ensures Related(z, InsertInto(x, xs, le), rel) <==> rel(z, x) && Related(z, xs, rel)
  {
    InsertMembers(x, xs, le);
    assert x in InsertInto(x, xs, le);
    hide InsertInto;
  }

  lemma RelatedToHead<T(!new)>(x: T, xs: seq<T>, rel: (T, T) -> bool)
    requires |xs| > 0 && Symmetric(rel)
    ensures Related(x, xs, rel) <==> rel(xs[0], x) && Related(x, xs[1..], rel)
    ensures Related(x, xs, rel) <==> forall y :: y in xs ==> rel(x, y)
    ensures Related(x, xs[1..], rel) <==> forall y :: y in xs[1..] ==> rel(x, y)
  {
    assert xs == [xs[0]] + xs[1..];
    assert xs[0] in xs;
  }

  lemma InsertMembers<T>(x: T, xs: seq<T>, le: (T, T) -> bool)
    ensures forall y :: y in InsertInto(x, xs, le) <==> y == x || y in xs
  {
    InsertKeepsElements(x, xs, le);
    forall y ensures y in InsertInto(x, xs, le) <==> y == x || y in xs {
      assert y in InsertInto(x, xs, le) <==> y in multiset(InsertInto(x, xs, le));
      assert y in xs <==> y in multiset(xs);
    }
  }

  lemma {:induction false} SortKeepsPairwise<T(!new)>(xs: seq<T>, le: (T, T) -> bool, rel: (T, T) -> bool)
    requires Symmetric(rel)
    ensures Pairwise(SortBy(xs, le), rel) <==> Pairwise(xs, rel)
  {
    if |xs| != 0 {
      SortKeepsPairwise(xs[1..], le, rel);
      InsertKeepsPairwise(xs[0], SortBy(xs[1..], le), le, rel);
      SortKeepsElements(xs[1..], le);
      SameElements(SortBy(xs[1..], le), xs[1..]);
    }
  }

  lemma {:induction false} PairwiseConcat<T>(xs: seq<T>, ys: seq<T>, rel: (T, T) -> bool)
    requires Pairwise(xs, rel) && Pairwise(ys, rel) && forall x, y :: x in xs && y in ys ==> rel(x, y)
    ensures Pairwise(xs + ys, rel)
  {
    if |xs| == 0 {
      assert xs + ys == ys;
    } else {
      PairwiseConcat(xs[1..], ys, rel);
      assert (xs + ys)[1..] == xs[1..] + ys;
    }
  }
}
