/** K-way merge of sorted runs, the newest entry winning (src/storage/merge.rs). */
module Merges {
  import opened Octets
  import opened Bytes
  import opened SortedEntries

  // ---------------------------------------------------------------------
  // What a merge means
  // ---------------------------------------------------------------------

  ghost predicate AllAscending(sources: seq<seq<Entry>>) {
    forall i :: 0 <= i < |sources| ==> Ascending(sources[i])
  }

  /** The entry of the newest source that has the key; sources are ordered newest first. */
  function Newest(sources: seq<seq<Entry>>, key: Key): Option<Value> {
    if |sources| == 0 then None
    else if Lookup(sources[0], key).Some? then Lookup(sources[0], key)
    else Newest(sources[1..], key)
  }

  /** What of it the merge keeps. */
  function Kept(v: Option<Value>, dropping: bool): Option<Value> {
    if dropping && v == Some(Tombstone) then None else v
  }

  ghost predicate IsMerge(out: seq<Entry>, sources: seq<seq<Entry>>, dropping: bool) {
    Ascending(out) && forall key :: Lookup(out, key) == Kept(Newest(sources, key), dropping)
  }

  function TotalLength(sources: seq<seq<Entry>>): nat {
    if |sources| == 0 then 0 else |sources[0]| + TotalLength(sources[1..])
  }

  /** The first source that starts with a smallest key. */
  function First(sources: seq<seq<Entry>>): (r: Option<nat>)
    ensures r.Some? ==> r.value < |sources| && |sources[r.value]| > 0
  {
    if |sources| == 0 then None
    else
      match First(sources[1..])
      case None => if |sources[0]| == 0 then None else Some(0)
      case Some(i) =>
        if |sources[0]| > 0 && !Less(sources[1..][i][0].key, sources[0][0].key) then Some(0) else Some(i + 1)
  }

  /** Take the key off the front of every source that starts with it. */
  function Advance(sources: seq<seq<Entry>>, key: Key): (r: seq<seq<Entry>>)
    ensures |r| == |sources|
  {
    seq(|sources|, i requires 0 <= i < |sources| => AdvanceOne(sources[i], key))
  }

  function AdvanceOne(source: seq<Entry>, key: Key): seq<Entry> {
    if |source| > 0 && source[0].key == key then source[1..] else source
  }

  lemma {:induction false} AdvanceShrinks(sources: seq<seq<Entry>>, key: Key)
    ensures TotalLength(Advance(sources, key)) <= TotalLength(sources)
    ensures (exists i :: 0 <= i < |sources| && |sources[i]| > 0 && sources[i][0].key == key) ==>
              TotalLength(Advance(sources, key)) < TotalLength(sources)
  {
    if |sources| != 0 {
      AdvanceShrinks(sources[1..], key);
      assert Advance(sources, key)[1..] == Advance(sources[1..], key);
      if exists i :: 0 <= i < |sources| && |sources[i]| > 0 && sources[i][0].key == key {
        var i :| 0 <= i < |sources| && |sources[i]| > 0 && sources[i][0].key == key;
        if i > 0 { assert sources[1..][i - 1] == sources[i]; }
      }
    }
  }

  function MergeOf(sources: seq<seq<Entry>>, dropping: bool): seq<Entry>
    decreases TotalLength(sources)
  {
    match First(sources)
    case None => []
    case Some(i) =>
      var winner := sources[i][0];
      AdvanceShrinks(sources, winner.key);
      (if dropping && winner.value == Tombstone then [] else [winner]) + MergeOf(Advance(sources, winner.key), dropping)
  }

  /** First is a least head, and the newest among the equal ones. */
  lemma {:induction false} FirstIsLeast(sources: seq<seq<Entry>>)
    ensures First(sources).None? <==> forall i :: 0 <= i < |sources| ==> sources[i] == []
    ensures First(sources).Some? ==>
              forall i :: 0 <= i < |sources| && |sources[i]| > 0 ==>
                !Less(sources[i][0].key, sources[First(sources).value][0].key)
    ensures First(sources).Some? ==>
              forall i :: 0 <= i < First(sources).value && |sources[i]| > 0 ==>
                sources[i][0].key != sources[First(sources).value][0].key
  {
    if |sources| != 0 {
      var rest := sources[1..];
      FirstIsLeast(rest);
      match First(rest)
      case None =>
        if |sources[0]| > 0 { LessIrreflexive(sources[0][0].key); }
        forall i | 0 < i < |sources| ensures sources[i] == [] { assert rest[i - 1] == sources[i]; }
      case Some(j) =>
        var first := First(sources).value;
        assert rest[j] == sources[j + 1];
        if |sources[0]| > 0 {
          LessTotal(sources[0][0].key, rest[j][0].key);
          LessIrreflexive(sources[0][0].key);
        }
        forall i | 0 <= i < |sources| && |sources[i]| > 0 ensures !Less(sources[i][0].key, sources[first][0].key) {
          if i > 0 {
            assert rest[i - 1] == sources[i];
            assert !Less(sources[i][0].key, rest[j][0].key);
            if first == 0 { NotLessThrough(sources[0][0].key, rest[j][0].key, sources[i][0].key); }
          } else if first != 0 {
            if Less(sources[0][0].key, rest[j][0].key) { LessAsymmetric(sources[0][0].key, rest[j][0].key); }
          }
        }
        forall i | 0 <= i < first && |sources[i]| > 0 ensures sources[i][0].key != sources[first][0].key {
          if i > 0 { assert rest[i - 1] == sources[i]; } else { LessIrreflexive(sources[0][0].key); }
        }
    }
  }

  lemma NotLessThrough(a: Key, b: Key, c: Key)
    requires !Less(b, a) && !Less(c, b)
    ensures !Less(c, a)
  {
    LessTotal(a, b);
    LessTotal(b, c);
    if Less(c, a) {
      if a != b { LessTransitive(c, a, b); }
    }
  }

  /** Every key of every source is above the given one. */
  ghost predicate AllAbove(sources: seq<seq<Entry>>, key: Key) {
    forall i, j :: 0 <= i < |sources| && 0 <= j < |sources[i]| ==> Less(key, sources[i][j].key)
  }

  lemma {:induction false} NewestNone(sources: seq<seq<Entry>>, key: Key)
    requires forall i :: 0 <= i < |sources| ==> Lookup(sources[i], key) == None
    ensures Newest(sources, key) == None
  {
    if |sources| != 0 {
      forall i | 0 <= i < |sources[1..]|
        ensures Lookup(sources[1..][i], key) == None
      {
        assert sources[i + 1] == sources[1..][i];
      }
      NewestNone(sources[1..], key);
    }
  }

  lemma {:induction false} NewestIsFirst(sources: seq<seq<Entry>>, key: Key, i: nat)
    requires i < |sources| && Lookup(sources[i], key).Some?
    requires forall j :: 0 <= j < i ==> Lookup(sources[j], key) == None
    ensures Newest(sources, key) == Lookup(sources[i], key)
  {
    if i != 0 {
      forall j | 0 <= j < i - 1
        ensures Lookup(sources[1..][j], key) == None
      {
        assert sources[j + 1] == sources[1..][j];
      }
      NewestIsFirst(sources[1..], key, i - 1);
    }
  }

  lemma {:induction false} SameNewest(a: seq<seq<Entry>>, b: seq<seq<Entry>>, key: Key)
    requires |a| == |b| && forall i :: 0 <= i < |a| ==> Lookup(a[i], key) == Lookup(b[i], key)
    ensures Newest(a, key) == Newest(b, key)
  {
    if |a| != 0 {
      forall i | 0 <= i < |a[1..]| ensures Lookup(a[1..][i], key) == Lookup(b[1..][i], key) {
        assert a[i + 1] == a[1..][i] && b[i + 1] == b[1..][i];
      }
      SameNewest(a[1..], b[1..], key);
    }
  }

  /** A source whose head is above a key does not hold it. */
  lemma HeadAbove(source: seq<Entry>, key: Key)
    requires Ascending(source) && (|source| > 0 ==> Less(key, source[0].key))
    ensures forall j :: 0 <= j < |source| ==> Less(key, source[j].key)
    ensures Lookup(source, key) == None
  {
    forall j | 0 <= j < |source| ensures Less(key, source[j].key) && source[j].key != key {
      if j > 0 { LessTransitive(key, source[0].key, source[j].key); }
      LessIrreflexive(key);
    }
    LookupNone(source, key);
  }

  lemma AdvancedSource(source: seq<Entry>, key: Key, other: Key)
    requires Ascending(source) && (|source| > 0 ==> !Less(source[0].key, key))
    ensures Ascending(AdvanceOne(source, key))
    ensures forall j :: 0 <= j < |AdvanceOne(source, key)| ==> Less(key, AdvanceOne(source, key)[j].key)
    ensures Lookup(AdvanceOne(source, key), key) == None
    ensures other != key ==> Lookup(AdvanceOne(source, key), other) == Lookup(source, other)
  {
    if |source| > 0 {
      LessTotal(source[0].key, key);
      if source[0].key == key {
        var rest := source[1..];
        forall j | 0 <= j < |rest| ensures Less(key, rest[j].key) { assert Less(source[0].key, source[j + 1].key); }
        HeadAbove(rest, key);
      } else {
        HeadAbove(source, key);
      }
    }
  }

  lemma AdvancedSources(sources: seq<seq<Entry>>, i: nat, key: Key, other: Key)
    requires AllAscending(sources) && First(sources) == Some(i) && key == sources[i][0].key
    ensures AllAscending(Advance(sources, key)) && AllAbove(Advance(sources, key), key)
    ensures Newest(Advance(sources, key), key) == None
    ensures other != key ==> Newest(Advance(sources, key), other) == Newest(sources, other)
    ensures Newest(sources, key) == Some(sources[i][0].value)
  {
    hide Less, Ascending, AdvanceOne, Lookup;
    FirstIsLeast(sources);
    var rest := Advance(sources, key);
    forall j | 0 <= j < |sources|
      ensures Ascending(rest[j]) && Lookup(rest[j], key) == None
      ensures forall n :: 0 <= n < |rest[j]| ==> Less(key, rest[j][n].key)
      ensures other != key ==> Lookup(rest[j], other) == Lookup(sources[j], other)
    {
      AdvancedSource(sources[j], key, other);
    }
    NewestNone(rest, key);
    if other != key { SameNewest(rest, sources, other); }
    forall j | 0 <= j < i ensures Lookup(sources[j], key) == None {
      if |sources[j]| > 0 { LessTotal(sources[j][0].key, key); }
      HeadAbove(sources[j], key);
    }
    HeadIsFound(sources[i]);
    NewestIsFirst(sources, key, i);
  }

  lemma HeadIsFound(source: seq<Entry>)
    requires |source| > 0
    ensures Lookup(source, source[0].key) == Some(source[0].value)
  {}

  lemma {:induction false} NewestHasKey(sources: seq<seq<Entry>>, key: Key)
    requires Newest(sources, key).Some?
    ensures exists i :: 0 <= i < |sources| && HasKey(sources[i], key)
  {
    LookupIsMember(sources[0], key);
    if Lookup(sources[0], key).None? {
      NewestHasKey(sources[1..], key);
      var i :| 0 <= i < |sources[1..]| && HasKey(sources[1..][i], key);
      assert HasKey(sources[i + 1], key);
    }
  }

  /** Everything a merge of sources above a key emits is above that key. */
  lemma MergeStaysAbove(out: seq<Entry>, sources: seq<seq<Entry>>, dropping: bool, key: Key)
    requires IsMerge(out, sources, dropping) && AllAbove(sources, key)
    ensures forall j :: 0 <= j < |out| ==> Less(key, out[j].key)
  {
    hide Less, Ascending, Lookup, Newest;
    forall j | 0 <= j < |out| ensures Less(key, out[j].key) {
      LookupIsMember(out, out[j].key);
      assert HasKey(out, out[j].key);
      NewestHasKey(sources, out[j].key);
      var i :| 0 <= i < |sources| && HasKey(sources[i], out[j].key);
      var n :| 0 <= n < |sources[i]| && sources[i][n].key == out[j].key;
    }
  }

  /** The merge is strictly ascending and holds, for each key, exactly the newest source's entry, minus
      tombstones when they are dropped. */
  lemma {:induction false} MergeIsNewest(sources: seq<seq<Entry>>, dropping: bool)
    requires AllAscending(sources)
    ensures IsMerge(MergeOf(sources, dropping), sources, dropping)
    decreases TotalLength(sources)
  {
    hide Less, Ascending, Lookup, Newest, Advance;
    match First(sources)
    case None =>
      FirstIsLeast(sources);
      NothingToMerge(sources, dropping);
    case Some(i) =>
      var winner := sources[i][0];
      var rest := Advance(sources, winner.key);
      AdvanceShrinks(sources, winner.key);
      AdvancedSources(sources, i, winner.key, winner.key);
      MergeIsNewest(rest, dropping);
      MergeStaysAbove(MergeOf(rest, dropping), rest, dropping, winner.key);
      forall key ensures Newest(sources, key) == if key == winner.key then Some(winner.value) else Newest(rest, key) {
        AdvancedSources(sources, i, winner.key, key);
      }
      PutInFront(winner, MergeOf(rest, dropping), sources, rest, dropping);
  }

  /** Every entry of a merge is some source's. */
  lemma {:induction false} MergeTakesFromSources(sources: seq<seq<Entry>>, dropping: bool, e: Entry) returns (i: nat)
    requires e in MergeOf(sources, dropping)
    ensures i < |sources| && e in sources[i]
    decreases TotalLength(sources)
  {
    i := First(sources).value;
    var winner := sources[i][0];
    AdvanceShrinks(sources, winner.key);
    if e != winner { i := MergeTakesFromSources(Advance(sources, winner.key), dropping, e); }
  }

  lemma NothingToMerge(sources: seq<seq<Entry>>, dropping: bool)
    requires forall i :: 0 <= i < |sources| ==> sources[i] == []
    ensures IsMerge([], sources, dropping)
  {
    forall key ensures Newest(sources, key) == None { NewestNone(sources, key); }
  }

  lemma PutInFront(winner: Entry, out: seq<Entry>, sources: seq<seq<Entry>>, rest: seq<seq<Entry>>, dropping: bool)
    requires IsMerge(out, rest, dropping) && forall j :: 0 <= j < |out| ==> Less(winner.key, out[j].key)
    requires forall key :: Newest(sources, key) == if key == winner.key then Some(winner.value) else Newest(rest, key)
    ensures IsMerge((if dropping && winner.value == Tombstone then [] else [winner]) + out, sources, dropping)
  {
    hide Less, Newest;
    LessIrreflexive(winner.key);
    LookupNone(out, winner.key);
    if dropping && winner.value == Tombstone {
      assert [] + out == out;
    } else {
      assert ([winner] + out)[1..] == out;
      AscendingJoin([winner], out);
    }
  }

  /** There is only one ascending list with given lookups, so any merge is the merge. */
  lemma {:induction false} AscendingIsUnique(a: seq<Entry>, b: seq<Entry>)
    requires Ascending(a) && Ascending(b) && forall key :: Lookup(a, key) == Lookup(b, key)
    ensures a == b
  {
    BothOrNeitherEmpty(a, b);
    if |a| != 0 {
      SameHead(a, b);
      forall key ensures Lookup(a[1..], key) == Lookup(b[1..], key) {
        assert Lookup(a, key) == Lookup(b, key);
        if key == a[0].key {
          HeadGone(a);
          HeadGone(b);
        }
      }
      AscendingIsUnique(a[1..], b[1..]);
      assert a == [a[0]] + a[1..] && b == [b[0]] + b[1..];
    }
  }

  lemma BothOrNeitherEmpty(a: seq<Entry>, b: seq<Entry>)
    requires forall key :: Lookup(a, key) == Lookup(b, key)
    ensures |a| == 0 <==> |b| == 0
  {
    if |a| > 0 {
      assert Lookup(b, a[0].key).Some?;
    }
    if |b| > 0 {
      assert Lookup(a, b[0].key).Some?;
    }
  }

  lemma HeadGone(a: seq<Entry>)
    requires Ascending(a) && |a| > 0
    ensures Lookup(a[1..], a[0].key) == None
  {
    HeadAbove(a[1..], a[0].key);
  }

  lemma SameHead(a: seq<Entry>, b: seq<Entry>)
    requires Ascending(a) && Ascending(b) && |a| > 0 && |b| > 0 && forall key :: Lookup(a, key) == Lookup(b, key)
    ensures a[0] == b[0]
  {
    assert Lookup(a, a[0].key) == Lookup(b, a[0].key) && Lookup(a, b[0].key) == Lookup(b, b[0].key);
    LessTotal(a[0].key, b[0].key);
    if Less(a[0].key, b[0].key) {
      HeadAbove(b, a[0].key);
    } else if Less(b[0].key, a[0].key) {
      HeadAbove(a, b[0].key);
    }
  }

  // ---------------------------------------------------------------------
  // The heap loop
  // ---------------------------------------------------------------------

  /** A source: what it still yields, and whether it then fails. */
  datatype Source = Source(entries: seq<Entry>, fails: bool)

  /** The sources with the heap, which holds at most one entry a source and so is a map from source to entry. */
  datatype Heads = Heads(sources: seq<Source>, heap: map<nat, Entry>) {
    /** Every source has been asked for an entry: what is not in the heap is exhausted or has failed. */
    ghost predicate Polled() {
      && (forall i :: i in heap ==> i < |sources|)
      && forall i :: 0 <= i < |sources| && i !in heap ==> sources[i].entries == [] && !sources[i].fails
    }

    ghost function Left(i: nat): seq<Entry>
      requires i < |sources|
    {
      (if i in heap then [heap[i]] else []) + sources[i].entries
    }
  }

  /** Which sources fail, and what each failed source might have held after that: anything that keeps it
      ascending. Nothing the iterator does depends on it. */
  datatype Failures = Failures(failing: seq<bool>, completion: seq<seq<Entry>>) {
    ghost predicate Match(h: Heads) {
      && |failing| == |completion| == |h.sources|
      && forall i :: 0 <= i < |h.sources| && h.sources[i].fails ==> failing[i]
    }

    ghost predicate Any() {
      exists i :: 0 <= i < |failing| && failing[i]
    }

    /** No failure has come up yet. */
    ghost predicate AllToCome(h: Heads)
      requires |failing| == |h.sources|
    {
      forall i :: 0 <= i < |h.sources| && failing[i] ==> h.sources[i].fails
    }

    ghost function Completed(h: Heads, i: nat): seq<Entry>
      requires |failing| == |completion| == |h.sources| && i < |h.sources|
    {
      h.Left(i) + if failing[i] then completion[i] else []
    }

    /** What the sources have yet to contribute, had none of them failed. */
    ghost function View(h: Heads): (r: seq<seq<Entry>>)
      requires |failing| == |completion| == |h.sources|
      ensures |r| == |h.sources|
    {
      seq(|h.sources|, i requires 0 <= i < |h.sources| => Completed(h, i))
    }
  }

  /** The top of the heap: a smallest key, and among equal keys the newest source. */
  predicate IsTop(heap: map<nat, Entry>, top: nat) {
    && top in heap
    && forall i :: i in heap ==> Less(heap[top].key, heap[i].key) || (heap[top].key == heap[i].key && top <= i)
  }

  lemma {:induction false} TopExists(heap: map<nat, Entry>)
    requires heap != map[]
    ensures exists top :: IsTop(heap, top)
    decreases |heap|
  {
    hide Less;
    var x :| x in heap;
    var rest := heap - {x};
    if rest == map[] {
      assert heap.Keys == rest.Keys + {x};
      assert IsTop(heap, x);
    } else {
      TopExists(rest);
      var y :| IsTop(rest, y);
      LessTotal(heap[x].key, heap[y].key);
      var top := if Less(heap[x].key, heap[y].key) || (heap[x].key == heap[y].key && x <= y) then x else y;
      forall i | i in heap
        ensures Less(heap[top].key, heap[i].key) || (heap[top].key == heap[i].key && top <= i)
      {
        if i != x && top == x && heap[x].key != heap[y].key && heap[y].key != heap[i].key {
          LessTransitive(heap[x].key, heap[y].key, heap[i].key);
        }
      }
      assert IsTop(heap, top);
    }
  }

  /** Before any failure the top of the heap is the first head of what is left. */
  lemma TopIsFirst(f: Failures, h: Heads, top: nat)
    requires h.Polled() && f.Match(h) && f.AllToCome(h) && IsTop(h.heap, top)
    ensures First(f.View(h)) == Some(top) && |f.View(h)[top]| > 0 && f.View(h)[top][0] == h.heap[top]
  {
    var view := f.View(h);
    FirstIsLeast(view);
    hide Less;
    HeadsOfView(f, h);
    LessIrreflexive(h.heap[top].key);
    var first := First(view).value;
    assert !Less(view[top][0].key, view[first][0].key);
    assert top <= first;
  }

  lemma HeadsOfView(f: Failures, h: Heads)
    requires h.Polled() && f.Match(h) && f.AllToCome(h)
    ensures forall i :: 0 <= i < |h.sources| ==>
              if i in h.heap then |f.View(h)[i]| > 0 && f.View(h)[i][0] == h.heap[i] else f.View(h)[i] == []
  {}

  lemma EmptyHeapIsEmptyView(f: Failures, h: Heads, dropping: bool)
    requires h.Polled() && f.Match(h) && f.AllToCome(h) && h.heap == map[]
    ensures MergeOf(f.View(h), dropping) == []
  {
    HeadsOfView(f, h);
    FirstIsLeast(f.View(h));
  }

  /** Source i still is as it was. */
  ghost predicate Untouched(f: Failures, before: Heads, now: Heads, i: nat)
    requires |f.failing| == |f.completion| == |before.sources| == |now.sources| && i < |now.sources|
  {
    && (i in now.heap <==> i in before.heap) && (i in now.heap ==> now.heap[i] == before.heap[i])
    && f.Completed(now, i) == f.Completed(before, i)
  }

  /** Source i has given up its head, which was under the key. */
  ghost predicate Moved(f: Failures, before: Heads, now: Heads, i: nat, key: Key)
    requires |f.failing| == |f.completion| == |before.sources| == |now.sources| && i < |now.sources|
  {
    && i in before.heap && before.heap[i].key == key && f.Completed(now, i) == f.Completed(before, i)[1..]
    && (i in now.heap ==> now.heap[i].key != key)
  }

  /** In the middle of taking a key off the sources. */
  ghost predicate Advancing(f: Failures, before: Heads, now: Heads, key: Key)
    requires |f.failing| == |f.completion| == |before.sources| == |now.sources|
  {
    forall i :: 0 <= i < |now.sources| ==> Untouched(f, before, now, i) || Moved(f, before, now, i, key)
  }

  lemma AdvancedView(f: Failures, before: Heads, now: Heads, key: Key)
    requires before.Polled() && f.Match(before) && f.AllToCome(before) && |now.sources| == |before.sources|
    requires Advancing(f, before, now, key) && forall i :: i in now.heap ==> now.heap[i].key != key
    ensures f.View(now) == Advance(f.View(before), key)
  {
    HeadsOfView(f, before);
    var now', advanced := f.View(now), Advance(f.View(before), key);
    forall i | 0 <= i < |now.sources| ensures now'[i] == advanced[i] {
      assert Untouched(f, before, now, i) || Moved(f, before, now, i, key);
    }
  }

  /** One source gives up its head; the rest stay as they are. */
  ghost predicate TookHead(f: Failures, before: Heads, now: Heads, i: nat)
    requires |f.failing| == |f.completion| == |before.sources| == |now.sources| && i in before.heap && i < |now.sources|
  {
    && f.Completed(now, i) == f.Completed(before, i)[1..]
    && (forall j :: 0 <= j < |now.sources| && j != i ==> Untouched(f, before, now, j))
    && (i in now.heap ==> Less(before.heap[i].key, now.heap[i].key))
  }

  lemma AdvancingStep(f: Failures, before: Heads, mid: Heads, now: Heads, i: nat, key: Key)
    requires |f.failing| == |f.completion| == |before.sources| == |mid.sources| == |now.sources|
    requires Advancing(f, before, mid, key) && i in mid.heap && i < |mid.sources| && mid.heap[i].key == key
    requires TookHead(f, mid, now, i)
    ensures Advancing(f, before, now, key)
  {
    hide Less;
    LessIrreflexive(key);
    forall j | 0 <= j < |now.sources| ensures Untouched(f, before, now, j) || Moved(f, before, now, j, key) {
      assert Untouched(f, before, mid, j) || Moved(f, before, mid, j, key);
      if j != i { assert Untouched(f, mid, now, j); }
    }
  }

  lemma TookHeadKeepsAscending(f: Failures, before: Heads, now: Heads, i: nat)
    requires |f.failing| == |f.completion| == |before.sources| == |now.sources| && i in before.heap && i < |now.sources|
    requires TookHead(f, before, now, i) && AllAscending(f.View(before))
    ensures AllAscending(f.View(now))
  {
    hide Less;
    forall j | 0 <= j < |now.sources| ensures Ascending(f.View(now)[j]) {
      assert Ascending(f.View(before)[j]);
      if j != i { assert Untouched(f, before, now, j); }
    }
  }

  class MergeIterator {
    var sources: seq<Source>
    var heap: map<nat, Entry>
    const dropTombstones: bool
    var pendingError: bool
    /** Whether any source has failed so far. */
    ghost var broken: bool
    ghost const failures: Failures

    ghost function Now(): Heads
      reads this
    {
      Heads(sources, heap)
    }

    ghost predicate Valid()
      reads this
    {
      && Now().Polled() && failures.Match(Now()) && AllAscending(failures.View(Now()))
      && (!broken ==> failures.AllToCome(Now())) && (pendingError ==> broken)
      && (broken ==> failures.Any())
    }

    /** What is left to merge, had no source failed. */
    ghost function Remaining(): seq<Entry>
      requires Valid()
      reads this
    {
      MergeOf(failures.View(Now()), dropTombstones)
    }

    /** Pull the next entry of one source into the heap, if it has one; a failure is kept for later. */
    method Refill(i: nat)
      requires i < |sources| && i !in heap
      requires |failures.failing| == |failures.completion| == |sources|
      modifies this`sources, this`heap, this`pendingError, this`broken
      ensures |sources| == |old(sources)|
      ensures forall j :: 0 <= j < |sources| ==> Now().Left(j) == old(Now()).Left(j)
      ensures forall j :: j != i ==> (j in heap <==> j in old(heap)) && (j in heap ==> heap[j] == old(heap)[j])
      ensures forall j :: 0 <= j < |sources| && j != i ==> sources[j] == old(sources)[j]
      ensures i !in heap ==> sources[i].entries == [] && !sources[i].fails
      ensures i in heap ==> |old(sources[i].entries)| > 0 && heap[i] == old(sources[i].entries)[0]
      ensures sources[i].fails ==> old(sources[i].fails)
      ensures !broken ==> !old(broken) && sources[i].fails == old(sources[i].fails)
      ensures (pendingError ==> old(pendingError) || broken) && (old(pendingError) ==> pendingError)
      ensures broken && !old(broken) ==> pendingError && old(sources[i].fails)
    {
      var source := sources[i];
      if |source.entries| > 0 {
        heap := heap[i := source.entries[0]];
        sources := sources[i := source.(entries := source.entries[1..])];
      } else if source.fails {
        pendingError, broken := true, true;
        sources := sources[i := source.(fails := false)];
      }
    }

    /** Start with every source asked once. The failures may be completed in any way that keeps the
        sources ascending. */
    constructor (sources: seq<Source>, dropTombstones: bool, ghost failures: Failures)
      requires failures.Match(Heads(sources, map[])) && failures.AllToCome(Heads(sources, map[]))
      requires AllAscending(failures.View(Heads(sources, map[])))
      ensures Valid() && this.dropTombstones == dropTombstones && this.failures == failures && (broken ==> pendingError)
      ensures Remaining() == MergeOf(failures.View(Heads(sources, map[])), dropTombstones)
    {
      this.sources, heap, this.dropTombstones, pendingError := sources, map[], dropTombstones, false;
      broken, this.failures := false, failures;
      new;
      ghost var start := Heads(sources, map[]);
      for i := 0 to |sources|
        invariant |this.sources| == |sources|
        invariant forall j :: j in heap ==> j < i
        invariant forall j :: 0 <= j < |sources| ==> Now().Left(j) == start.Left(j)
        invariant forall j :: 0 <= j < i && j !in heap ==> this.sources[j].entries == [] && !this.sources[j].fails
        invariant forall j :: 0 <= j < |sources| ==>
          (this.sources[j].fails ==> sources[j].fails) && (!broken ==> this.sources[j].fails == sources[j].fails)
        invariant (broken <==> pendingError) && (broken ==> failures.Any())
      {
        Refill(i);
      }
      assert failures.View(Now()) == failures.View(start);
    }

    method Peek() returns (top: nat)
      requires heap != map[]
      ensures IsTop(heap, top)
    {
      TopExists(heap);
      top :| top in heap && IsTop(heap, top);
    }

    /** Pop one source's entry and refill from that source. */
    method TakeHead(i: nat)
      requires Valid() && i in heap
      modifies this`sources, this`heap, this`pendingError, this`broken
      ensures Valid() && |sources| == |old(sources)| && TookHead(failures, old(Now()), Now(), i)
      ensures Weight(Now()) < Weight(old(Now()))
      ensures (old(broken) ==> broken) && (broken && !old(broken) ==> pendingError)
      ensures old(pendingError) ==> pendingError
    {
      hide Less, AllAscending, TookHead, Weight, Failures.View, Failures.Completed, Heads.Polled, Failures.Match,
           Failures.AllToCome, Failures.Any;
      ghost var before, wasBroken := Now(), broken;
      MatchSizes(failures, before, i);
      heap := heap - {i};
      Refill(i);
      RefilledStays(failures, before, Now(), i, wasBroken, broken);
      HeadTaken(failures, before, Now(), i);
      TookHeadKeepsAscending(failures, before, Now(), i);
      WeightDrops(before, Now(), i);
    }

    /** Discard every other entry under the key: they are older. */
    method DiscardShadowed(key: Key, ghost before: Heads)
      requires Valid() && |before.sources| == |sources| && Advancing(failures, before, Now(), key)
      requires forall i :: i in heap ==> !Less(heap[i].key, key)
      modifies this`sources, this`heap, this`pendingError, this`broken
      ensures Valid() && |sources| == |before.sources| && Advancing(failures, before, Now(), key)
      ensures forall i :: i in heap ==> heap[i].key != key
      ensures Weight(Now()) <= Weight(old(Now()))
      ensures (old(broken) ==> broken) && (broken && !old(broken) ==> pendingError)
      ensures old(pendingError) ==> pendingError
    {
      hide Less, Heads.Polled, Weight;
      while heap != map[]
        invariant Valid() && |sources| == |before.sources| && Advancing(failures, before, Now(), key)
        invariant forall i :: i in heap ==> !Less(heap[i].key, key)
        invariant Weight(Now()) <= Weight(old(Now()))
        invariant (old(broken) ==> broken) && (broken && !old(broken) ==> pendingError)
                  && (old(pendingError) ==> pendingError)
        decreases Weight(Now())
      {
        var top := Peek();
        if heap[top].key != key {
          TopExcludes(heap, top, key);
          return;
        }
        ghost var mid := Now();
        TopInBounds(mid, top);
        TakeHead(top);
        AdvancingStep(failures, before, mid, Now(), top, key);
        NoneBelow(failures, mid, Now(), top, key);
      }
    }

    /** The next entry of the merge, or the failure that came up. */
    method Next() returns (r: Option<Result<Entry>>)
      requires Valid()
      modifies this`sources, this`heap, this`pendingError, this`broken
      ensures Valid() && (old(broken) ==> broken)
      ensures old(pendingError) ==> r == Some(Err)
      ensures r == Some(Err) ==> broken
      ensures !old(broken) && r.None? ==> !broken && old(Remaining()) == []
      ensures !old(broken) && r.Some? && r.value.Ok? ==>
                old(Remaining()) == [r.value.value] + Remaining() && (broken ==> pendingError)
      ensures r.Some? && r.value.Ok? ==> Weight(Now()) < Weight(old(Now()))
    {
      hide Less, Heads.Polled, Weight, MergeOf, Failures.View, Failures.Match, Failures.AllToCome, AllAscending,
           Advancing, TookHead;
      while true
        invariant Valid() && (old(broken) ==> broken) && (old(pendingError) ==> pendingError)
        invariant !old(broken) ==> Remaining() == old(Remaining()) && (broken ==> pendingError)
        invariant Weight(Now()) <= Weight(old(Now()))
        decreases Weight(Now())
      {
        if pendingError {
          pendingError := false;
          return Some(Err);
        }
        if heap == map[] {
          if !broken { EmptyHeapIsEmptyView(failures, Now(), dropTombstones); }
          return None;
        }
        ghost var before, wasBroken := Now(), broken;
        var top := Peek();
        var winner := heap[top];
        TakeAll(top);
        if !wasBroken { WinnerComesFirst(failures, before, Now(), top, dropTombstones); }
        if dropTombstones && winner.value.Tombstone? { continue; }
        return Some(Ok(winner));
      }
    }

    /** Take the winning key off every source that has it. */
    method TakeAll(top: nat)
      requires Valid() && IsTop(heap, top)
      modifies this`sources, this`heap, this`pendingError, this`broken
      ensures Valid() && |sources| == |old(sources)|
      ensures Advancing(failures, old(Now()), Now(), old(heap)[top].key)
      ensures forall i :: i in heap ==> heap[i].key != old(heap)[top].key
      ensures Weight(Now()) < Weight(old(Now()))
      ensures (old(broken) ==> broken) && (broken && !old(broken) ==> pendingError)
      ensures old(pendingError) ==> pendingError
    {
      hide Less, Weight, AllAscending, Failures.AllToCome;
      ghost var before := Now();
      var key := heap[top].key;
      NothingMoved(failures, before, key);
      TopIsLeast(heap, top);
      hide Heads.Polled, Failures.Match, IsTop;
      TopInBounds(before, top);
      TakeHead(top);
      AdvancingStep(failures, before, before, Now(), top, key);
      NoneBelow(failures, before, Now(), top, key);
      DiscardShadowed(key, before);
    }
  }

  lemma TopInBounds(h: Heads, top: nat)
    requires h.Polled() && top in h.heap
    ensures top < |h.sources|
  {}

  lemma TopIsLeast(heap: map<nat, Entry>, top: nat)
    requires IsTop(heap, top)
    ensures forall i :: i in heap ==> !Less(heap[i].key, heap[top].key)
  {
    hide Less;
    forall i | i in heap ensures !Less(heap[i].key, heap[top].key) {
      LessIrreflexive(heap[top].key);
      if Less(heap[top].key, heap[i].key) { LessAsymmetric(heap[top].key, heap[i].key); }
    }
  }

  lemma TopExcludes(heap: map<nat, Entry>, top: nat, key: Key)
    requires IsTop(heap, top) && heap[top].key != key && !Less(heap[top].key, key)
    ensures forall i :: i in heap ==> heap[i].key != key
  {
    hide Less;
    LessTotal(heap[top].key, key);
    LessAsymmetric(key, heap[top].key);
  }

  lemma NothingMoved(f: Failures, h: Heads, key: Key)
    requires f.Match(h)
    ensures Advancing(f, h, h, key)
  {
    forall i | 0 <= i < |h.sources| ensures Untouched(f, h, h, i) {}
  }

  lemma NoneBelow(f: Failures, before: Heads, now: Heads, i: nat, key: Key)
    requires |f.failing| == |f.completion| == |before.sources| == |now.sources| && now.Polled()
    requires i in before.heap && i < |now.sources| && before.heap[i].key == key && TookHead(f, before, now, i)
    requires forall j :: j in before.heap ==> !Less(before.heap[j].key, key)
    ensures forall j :: j in now.heap ==> !Less(now.heap[j].key, key)
  {
    hide Less;
    forall j | j in now.heap ensures !Less(now.heap[j].key, key) {
      if j == i {
        LessAsymmetric(key, now.heap[i].key);
      } else {
        assert Untouched(f, before, now, j);
      }
    }
  }

  /** What was emitted is the head of the merge, and what is left merges to its tail. */
  lemma WinnerComesFirst(f: Failures, before: Heads, now: Heads, top: nat, dropping: bool)
    requires before.Polled() && f.Match(before) && f.AllToCome(before) && IsTop(before.heap, top)
    requires |now.sources| == |before.sources| && Advancing(f, before, now, before.heap[top].key)
    requires forall i :: i in now.heap ==> now.heap[i].key != before.heap[top].key
    ensures MergeOf(f.View(before), dropping)
         == (if dropping && before.heap[top].value == Tombstone then [] else [before.heap[top]])
            + MergeOf(f.View(now), dropping)
  {
    TopIsFirst(f, before, top);
    AdvancedView(f, before, now, before.heap[top].key);
    hide Failures.View, Advancing, Heads.Polled, Failures.AllToCome, IsTop, Advance;
  }

  /** Entries not yet merged. */
  ghost function Weight(h: Heads): nat {
    TotalLength(seq(|h.sources|, i requires 0 <= i < |h.sources| => h.Left(i)))
  }

  lemma {:induction false} ShorterWeighsLess(a: seq<seq<Entry>>, b: seq<seq<Entry>>, i: nat)
    requires |a| == |b| && i < |a| && |b[i]| < |a[i]| && forall j :: 0 <= j < |a| && j != i ==> a[j] == b[j]
    ensures TotalLength(b) < TotalLength(a)
  {
    if i == 0 {
      assert a[1..] == b[1..];
    } else {
      ShorterWeighsLess(a[1..], b[1..], i - 1);
    }
  }

  lemma WeightDrops(before: Heads, now: Heads, i: nat)
    requires |before.sources| == |now.sources| && i < |now.sources| && |now.Left(i)| < |before.Left(i)|
    requires forall j :: 0 <= j < |now.sources| && j != i ==> now.Left(j) == before.Left(j)
    ensures Weight(now) < Weight(before)
  {
    ShorterWeighsLess(seq(|before.sources|, j requires 0 <= j < |before.sources| => before.Left(j)),
                      seq(|now.sources|, j requires 0 <= j < |now.sources| => now.Left(j)), i);
  }

  lemma MatchSizes(f: Failures, h: Heads, i: nat)
    requires h.Polled() && f.Match(h) && i in h.heap
    ensures |f.failing| == |f.completion| == |h.sources| && i < |h.sources|
  {}

  /** Asking one source again keeps every source accounted for. */
  lemma RefilledStays(f: Failures, before: Heads, now: Heads, i: nat, wasBroken: bool, isBroken: bool)
    requires before.Polled() && f.Match(before) && |now.sources| == |before.sources| && i < |now.sources|
    requires (!wasBroken ==> f.AllToCome(before)) && (wasBroken ==> f.Any())
    requires forall j :: j != i ==> (j in now.heap <==> j in before.heap)
    requires forall j :: 0 <= j < |now.sources| && j != i ==> now.sources[j] == before.sources[j]
    requires i !in now.heap ==> now.sources[i].entries == [] && !now.sources[i].fails
    requires now.sources[i].fails ==> before.sources[i].fails
    requires !isBroken ==> !wasBroken && now.sources[i].fails == before.sources[i].fails
    requires isBroken && !wasBroken ==> before.sources[i].fails
    ensures now.Polled() && f.Match(now) && (!isBroken ==> f.AllToCome(now)) && (isBroken ==> f.Any())
  {
    if isBroken && !wasBroken { assert f.failing[i]; }
  }

  lemma HeadTaken(f: Failures, before: Heads, now: Heads, i: nat)
    requires |f.failing| == |f.completion| == |before.sources| == |now.sources| && i in before.heap && i < |now.sources|
    requires AllAscending(f.View(before))
    requires forall j :: j != i ==>
               (j in now.heap <==> j in before.heap) && (j in now.heap ==> now.heap[j] == before.heap[j])
    requires forall j :: 0 <= j < |now.sources| && j != i ==> now.Left(j) == before.Left(j)
    requires now.Left(i) == before.sources[i].entries
    ensures TookHead(f, before, now, i)
  {
    hide Less;
    assert before.Left(i)[1..] == now.Left(i);
    assert f.Completed(before, i)[1..] == f.Completed(now, i);
    if i in now.heap {
      assert Ascending(f.View(before)[i]);
      assert f.View(before)[i][0] == before.heap[i] && f.View(before)[i][1] == now.heap[i];
    }
  }

  lemma BrokenMeansFailing(merge: MergeIterator)
    requires merge.Valid() && merge.broken
    ensures merge.failures.Any()
  {}

  /** Drain a merge until it ends or fails. What came out before a failure is a prefix of the merge that
      would have come out had the failed sources gone on, however they would have gone on. */
  method Drain(merge: MergeIterator) returns (out: seq<Entry>, failed: bool)
    requires merge.Valid() && (merge.broken ==> merge.pendingError)
    modifies merge
    ensures out <= old(merge.Remaining())
    ensures !failed ==> out == old(merge.Remaining()) && !merge.broken
    ensures failed ==> merge.failures.Any()
  {
    hide MergeIterator.Valid, MergeIterator.Remaining;
    out := [];
    while true
      invariant merge.Valid() && (merge.broken ==> merge.pendingError)
      invariant out + merge.Remaining() == old(merge.Remaining())
      decreases Weight(merge.Now())
    {
      ghost var before := merge.Remaining();
      var r := merge.Next();
      if r.None? { return out, false; }
      if r.value.Err? {
        BrokenMeansFailing(merge);
        return out, true;
      }
      assert merge.Remaining() == before[1..];
      out := out + [r.value.value];
    }
  }
}
