/** Levels of sorted runs and what reading them answers (src/storage/lsm.rs). A table is the name of its
    file and the list of entries its file holds. */
module LsmTrees {
  import opened Octets
  import opened Bytes
  import opened SortedEntries
  import opened Merges
  import SSTables

  datatype TableFile = TableFile(name: string, entries: seq<Entry>) {
    function MinKey(): Key
      requires |entries| > 0
    {
      entries[0].key
    }

    function MaxKey(): Key
      requires |entries| > 0
    {
      entries[|entries| - 1].key
    }
  }

  /** Tables of a run ascend and do not overlap. Within a level, runs are newest first. */
  datatype Run = Run(sequence: nat, tables: seq<TableFile>, units: nat)

  type Levels = seq<seq<Run>>

  function Parts(tables: seq<TableFile>): (r: seq<seq<Entry>>)
    ensures |r| == |tables|
  {
    seq(|tables|, i requires 0 <= i < |tables| => tables[i].entries)
  }

  function EntriesOf(tables: seq<TableFile>): seq<Entry> {
    Concat(Parts(tables))
  }

  /** Tables in order hold one ascending list, and none is empty. */
  ghost predicate Sound(tables: seq<TableFile>) {
    SSTables.NonEmpty(Parts(tables)) && Ascending(EntriesOf(tables))
  }

  ghost predicate SoundRuns(runs: seq<Run>) {
    forall r :: 0 <= r < |runs| ==> Sound(runs[r].tables)
  }

  ghost predicate SoundLevels(levels: Levels) {
    forall l :: 0 <= l < |levels| ==> SoundRuns(levels[l])
  }

  // ---------------------------------------------------------------------
  // Reading one run
  // ---------------------------------------------------------------------

  /** How many leading tables start at or before the key. */
  function TablesAtMost(tables: seq<TableFile>, key: Key): (n: nat)
    requires SSTables.NonEmpty(Parts(tables))
    ensures n <= |tables|
    ensures forall i :: 0 <= i < n ==> !Less(key, Parts(tables)[i][0].key)
    ensures n < |tables| ==> Less(key, Parts(tables)[n][0].key)
  {
    if |tables| == 0 || Less(key, PartOf(tables, 0)[0].key) then 0
    else
      PartsTail(tables);
      1 + TablesAtMost(tables[1..], key)
  }

  function PartOf(tables: seq<TableFile>, i: nat): (part: seq<Entry>)
    requires SSTables.NonEmpty(Parts(tables)) && i < |tables|
    ensures |part| > 0 && part == Parts(tables)[i]
  {
    assert |Parts(tables)[i]| > 0;
    tables[i].entries
  }

  lemma PartsTail(tables: seq<TableFile>)
    requires |tables| > 0
    ensures Parts(tables[1..]) == Parts(tables)[1..]
    ensures SSTables.NonEmpty(Parts(tables)) ==> SSTables.NonEmpty(Parts(tables[1..]))
  {
    assert Parts(tables[1..]) == Parts(tables)[1..];
  }

  /** Probe the one table that can hold the key. */
  function RunGet(tables: seq<TableFile>, key: Key): Option<Value>
    requires SSTables.NonEmpty(Parts(tables))
  {
    var past := TablesAtMost(tables, key);
    if past == 0 then None else Lookup(tables[past - 1].entries, key)
  }

  lemma RunGetIsLookup(tables: seq<TableFile>, key: Key)
    requires Sound(tables)
    ensures RunGet(tables, key) == Lookup(EntriesOf(tables), key)
  {
    hide Less, Lookup, Ascending, Concat;
    var past := TablesAtMost(tables, key);
    SSTables.BlockDecidesLookup(Parts(tables), past, key);
  }

  /** How many leading tables end before a key. */
  function TablesBefore(tables: seq<TableFile>, start: Key): (n: nat)
    requires SSTables.NonEmpty(Parts(tables))
    ensures n <= |tables|
  {
    if |tables| == 0 then 0
    else
      PartsTail(tables);
      var part := PartOf(tables, 0);
      if Less(part[|part| - 1].key, start) then 1 + TablesBefore(tables[1..], start) else 0
  }

  /** A range scan of a run: whole tables before the key are skipped, the others are seeked. */
  function ScanFrom(tables: seq<TableFile>, start: Key): seq<Entry> {
    if |tables| == 0 then [] else From(tables[0].entries, start) + ScanFrom(tables[1..], start)
  }

  function SourceFrom(tables: seq<TableFile>, start: Key): seq<Entry>
    requires SSTables.NonEmpty(Parts(tables))
  {
    ScanFrom(tables[TablesBefore(tables, start)..], start)
  }

  lemma {:induction false} ScanFromIsTail(tables: seq<TableFile>, start: Key)
    ensures ScanFrom(tables, start) == From(EntriesOf(tables), start)
  {
    hide Less, From;
    if |tables| == 0 {
      FromNone([], start);
    } else {
      PartsTail(tables);
      ScanFromIsTail(tables[1..], start);
      FromConcat(tables[0].entries, EntriesOf(tables[1..]), start);
    }
  }

  /** A table that ends before the key contributes nothing. */
  lemma EndsBefore(part: seq<Entry>, start: Key)
    requires Ascending(part) && |part| > 0 && Less(part[|part| - 1].key, start)
    ensures From(part, start) == []
  {
    forall i | 0 <= i < |part| ensures Less(part[i].key, start) {
      if i < |part| - 1 { LessTransitive(part[i].key, part[|part| - 1].key, start); }
    }
    FromNone(part, start);
  }

  lemma SoundTail(tables: seq<TableFile>)
    requires Sound(tables) && |tables| > 0
    ensures SSTables.NonEmpty(Parts(tables)) && |tables[0].entries| > 0 && Ascending(tables[0].entries)
    ensures Sound(tables[1..])
    ensures EntriesOf(tables) == tables[0].entries + EntriesOf(tables[1..])
    ensures Below(tables[0].entries, EntriesOf(tables[1..]))
  {
    hide Less, Ascending, Below;
    PartsTail(tables);
    assert |Parts(tables)[0]| > 0;
    AscendingParts(tables[0].entries, EntriesOf(tables[1..]));
  }

  lemma {:induction false} SourceFromIsTail(tables: seq<TableFile>, start: Key)
    requires Sound(tables)
    ensures SourceFrom(tables, start) == From(EntriesOf(tables), start)
  {
    hide Less, From, EntriesOf, Sound, Below;
    ScanFromIsTail(tables, start);
    if |tables| > 0 {
      SoundTail(tables);
      if Less(tables[0].entries[|tables[0].entries| - 1].key, start) {
        EndsBefore(tables[0].entries, start);
        SourceFromIsTail(tables[1..], start);
        ScanFromIsTail(tables[1..], start);
        SkipOne(tables, start);
      } else {
        assert tables[0..] == tables;
      }
    }
  }

  lemma SkipOne(tables: seq<TableFile>, start: Key)
    requires SSTables.NonEmpty(Parts(tables)) && |tables| > 0 && |tables[0].entries| > 0
    requires Less(tables[0].entries[|tables[0].entries| - 1].key, start) && From(tables[0].entries, start) == []
    ensures SSTables.NonEmpty(Parts(tables[1..]))
    ensures SourceFrom(tables, start) == SourceFrom(tables[1..], start)
    ensures ScanFrom(tables, start) == ScanFrom(tables[1..], start)
  {
    hide Less, From;
    PartsTail(tables);
    var n := TablesBefore(tables[1..], start);
    assert tables[1 + n..] == tables[1..][n..];
  }

  // ---------------------------------------------------------------------
  // Reading the tree
  // ---------------------------------------------------------------------

  function ReadRuns(runs: seq<Run>, key: Key): Option<Value> {
    if |runs| == 0 then None
    else if Lookup(EntriesOf(runs[0].tables), key).Some? then Lookup(EntriesOf(runs[0].tables), key)
    else ReadRuns(runs[1..], key)
  }

  function ReadLevels(levels: Levels, key: Key): Option<Value> {
    if |levels| == 0 then None
    else if ReadRuns(levels[0], key).Some? then ReadRuns(levels[0], key)
    else ReadLevels(levels[1..], key)
  }

  /** The newest record of a key, tombstones included. */
  function ReadTree(memtable: seq<Entry>, levels: Levels, key: Key): Option<Value> {
    if Lookup(memtable, key).Some? then Lookup(memtable, key) else ReadLevels(levels, key)
  }

  /** What a caller sees of it. */
  function Visible(v: Option<Value>): Option<seq<byte>> {
    if v.Some? && v.value.Put? then Some(v.value.bytes) else None
  }

  lemma {:induction false} ReadRunsConcat(a: seq<Run>, b: seq<Run>, key: Key)
    ensures ReadRuns(a + b, key) == if ReadRuns(a, key).Some? then ReadRuns(a, key) else ReadRuns(b, key)
  {
    hide Lookup, EntriesOf;
    if |a| == 0 {
      assert a + b == b;
    } else {
      assert (a + b)[0] == a[0] && (a + b)[1..] == a[1..] + b;
      ReadRunsConcat(a[1..], b, key);
    }
  }

  lemma {:induction false} ReadLevelsConcat(a: Levels, b: Levels, key: Key)
    ensures ReadLevels(a + b, key) == if ReadLevels(a, key).Some? then ReadLevels(a, key) else ReadLevels(b, key)
  {
    hide ReadRuns;
    if |a| == 0 {
      assert a + b == b;
    } else {
      assert (a + b)[0] == a[0] && (a + b)[1..] == a[1..] + b;
      ReadLevelsConcat(a[1..], b, key);
    }
  }

  /** All runs in the order a lookup consults them. */
  function FlatRuns(levels: Levels): seq<Run> {
    if |levels| == 0 then [] else levels[0] + FlatRuns(levels[1..])
  }

  function SourcesOf(runs: seq<Run>): (r: seq<seq<Entry>>)
    ensures |r| == |runs|
  {
    seq(|runs|, i requires 0 <= i < |runs| => EntriesOf(runs[i].tables))
  }

  /** Everything a scan merges, newest first. */
  function Sources(memtable: seq<Entry>, levels: Levels): seq<seq<Entry>> {
    [memtable] + SourcesOf(FlatRuns(levels))
  }

  lemma {:induction false} ReadRunsIsNewest(runs: seq<Run>, key: Key)
    ensures ReadRuns(runs, key) == Newest(SourcesOf(runs), key)
  {
    hide Lookup, EntriesOf;
    if |runs| != 0 {
      assert SourcesOf(runs)[1..] == SourcesOf(runs[1..]);
      ReadRunsIsNewest(runs[1..], key);
    }
  }

  lemma {:induction false} ReadLevelsIsFlat(levels: Levels, key: Key)
    ensures ReadLevels(levels, key) == ReadRuns(FlatRuns(levels), key)
  {
    hide ReadRuns;
    if |levels| == 0 {
      NoRuns(key);
    } else {
      ReadLevelsIsFlat(levels[1..], key);
      ReadRunsConcat(levels[0], FlatRuns(levels[1..]), key);
    }
  }

  lemma NoRuns(key: Key)
    ensures ReadRuns([], key) == None
  {}

  lemma ReadIsNewest(memtable: seq<Entry>, levels: Levels, key: Key)
    ensures Newest(Sources(memtable, levels), key) == ReadTree(memtable, levels, key)
  {
    hide Lookup, ReadRuns;
    ReadLevelsIsFlat(levels, key);
    ReadRunsIsNewest(FlatRuns(levels), key);
    assert Sources(memtable, levels)[1..] == SourcesOf(FlatRuns(levels));
  }

  lemma {:induction false} FlatRunsSound(levels: Levels)
    requires SoundLevels(levels)
    ensures SoundRuns(FlatRuns(levels))
  {
    hide Sound;
    if |levels| != 0 { FlatRunsSound(levels[1..]); }
  }

  lemma SourcesAscend(memtable: seq<Entry>, levels: Levels)
    requires Ascending(memtable) && SoundLevels(levels)
    ensures AllAscending(Sources(memtable, levels))
  {
    hide Ascending, EntriesOf, SSTables.NonEmpty;
    FlatRunsSound(levels);
    var runs, sources := FlatRuns(levels), Sources(memtable, levels);
    forall i | 0 <= i < |sources| ensures Ascending(sources[i]) {
      if i > 0 { assert Sound(runs[i - 1].tables); }
    }
  }

  /** A full scan: every live key in order. */
  function Iter(memtable: seq<Entry>, levels: Levels): seq<Entry> {
    MergeOf(Sources(memtable, levels), true)
  }

  /** `iter` and `get` agree in every state: a scan lists exactly the keys a lookup finds, in strictly
      ascending order, with the values it finds. */
  lemma IterAgreesWithGet(memtable: seq<Entry>, levels: Levels, key: Key)
    requires Ascending(memtable) && SoundLevels(levels)
    ensures Ascending(Iter(memtable, levels))
    ensures Visible(Lookup(Iter(memtable, levels), key)) == Visible(ReadTree(memtable, levels, key))
    ensures Lookup(Iter(memtable, levels), key).Some? <==> Visible(ReadTree(memtable, levels, key)).Some?
  {
    hide Lookup, ReadLevels, Sources, MergeOf, Newest, Ascending;
    SourcesAscend(memtable, levels);
    MergeIsNewest(Sources(memtable, levels), true);
    ReadIsNewest(memtable, levels, key);
  }

  function SourcesFrom(runs: seq<Run>, start: Key): (r: seq<seq<Entry>>)
    requires SoundRuns(runs)
    ensures |r| == |runs|
  {
    seq(|runs|, i requires 0 <= i < |runs| => SourceFrom(runs[i].tables, start))
  }

  /** A range scan: every source is seeked, then merged. */
  function RangeFrom(memtable: seq<Entry>, levels: Levels, start: Key): seq<Entry>
    requires SoundLevels(levels)
  {
    FlatRunsSound(levels);
    MergeOf([From(memtable, start)] + SourcesFrom(FlatRuns(levels), start), true)
  }

  lemma {:induction false} LookupFrom(entries: seq<Entry>, start: Key, key: Key)
    ensures Lookup(From(entries, start), key) == if Less(key, start) then None else Lookup(entries, key)
  {
    if |entries| != 0 {
      LookupFrom(entries[1..], start, key);
      if !Less(entries[0].key, start) {
        assert From(entries, start)[1..] == From(entries[1..], start);
      } else {
        assert From(entries, start) == From(entries[1..], start);
      }
    }
  }

  lemma {:induction false} FromAscends(entries: seq<Entry>, start: Key)
    requires Ascending(entries)
    ensures Ascending(From(entries, start))
    ensures forall x :: x in From(entries, start) ==> x in entries
  {
    hide Less;
    if |entries| != 0 {
      FromAscends(entries[1..], start);
      var rest := From(entries[1..], start);
      forall j | 0 <= j < |rest| ensures Less(entries[0].key, rest[j].key) {
        assert rest[j] in entries[1..];
        var i :| 0 <= i < |entries[1..]| && entries[1..][i] == rest[j];
        assert entries[i + 1] == rest[j];
      }
    }
  }

  lemma {:induction false} NewestFrom(sources: seq<seq<Entry>>, tails: seq<seq<Entry>>, start: Key, key: Key)
    requires |tails| == |sources| && forall i :: 0 <= i < |sources| ==> tails[i] == From(sources[i], start)
    ensures Newest(tails, key) == if Less(key, start) then None else Newest(sources, key)
  {
    hide Lookup, From, Less;
    if |sources| != 0 {
      LookupFrom(sources[0], start, key);
      NewestFrom(sources[1..], tails[1..], start, key);
    }
  }

  /** Seeking every source and merging is merging everything and taking the tail. */
  lemma RangeIsTailOfIter(memtable: seq<Entry>, levels: Levels, start: Key)
    requires Ascending(memtable) && SoundLevels(levels)
    ensures RangeFrom(memtable, levels, start) == From(Iter(memtable, levels), start)
  {
    hide Lookup, Less, From, Newest, MergeOf, Ascending, SoundRuns, Sound, FlatRuns;
    FlatRunsSound(levels);
    var runs := FlatRuns(levels);
    var sources, tails := Sources(memtable, levels), [From(memtable, start)] + SourcesFrom(runs, start);
    forall i | 0 <= i < |sources| ensures tails[i] == From(sources[i], start) {
      if i > 0 { SourceFromOfRun(runs, i - 1, start); }
    }
    SourcesAscend(memtable, levels);
    TailsAscend(sources, tails, start);
    MergeIsNewest(sources, true);
    MergeIsNewest(tails, true);
    FromAscends(Iter(memtable, levels), start);
    var scan, tail := RangeFrom(memtable, levels, start), From(Iter(memtable, levels), start);
    forall key ensures Lookup(scan, key) == Lookup(tail, key) {
      NewestFrom(sources, tails, start, key);
      LookupFrom(Iter(memtable, levels), start, key);
    }
    AscendingIsUnique(scan, tail);
  }

  lemma SourceFromOfRun(runs: seq<Run>, i: nat, start: Key)
    requires SoundRuns(runs) && i < |runs|
    ensures SourcesFrom(runs, start)[i] == From(SourcesOf(runs)[i], start)
  {
    SourceFromIsTail(runs[i].tables, start);
  }

  lemma TailsAscend(sources: seq<seq<Entry>>, tails: seq<seq<Entry>>, start: Key)
    requires AllAscending(sources) && |tails| == |sources| && forall i ::
               0 <= i < |sources| ==> tails[i] == From(sources[i], start)
    ensures AllAscending(tails)
  {
    hide Ascending, From;
    forall i | 0 <= i < |tails| ensures Ascending(tails[i]) { FromAscends(sources[i], start); }
  }
}
