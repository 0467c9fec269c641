/** What is on disk, what opening it rebuilds, and when it stands for a tree (src/storage/lsm.rs,
    src/storage/manifest.rs). The log is the list of records its replay yields. */
module Disks {
  import opened Octets
  import opened Bytes
  import opened SortedEntries
  import opened Sorting
  import opened LsmTrees
  import opened Manifests
  import MemTables

  datatype Disk = Disk(files: map<string, seq<Entry>>, manifest: Option<Manifest>, wal: seq<Entry>)

  /** Replaying a log into a fresh memtable. */
  function Replay(records: seq<Entry>): seq<Entry> {
    if |records| == 0 then []
    else MemTables.Insert(Replay(records[..|records| - 1]), records[|records| - 1])
  }

  lemma {:induction false} ReplayAscends(records: seq<Entry>)
    ensures Ascending(Replay(records))
  {
    hide MemTables.Insert, Ascending;
    if |records| == 0 {
      NothingAscends();
    } else {
      ReplayAscends(records[..|records| - 1]);
      MemTables.InsertKeepsOrder(Replay(records[..|records| - 1]), records[|records| - 1]);
    }
  }

  lemma {:induction false} ReplayedIsLogged(records: seq<Entry>, e: Entry)
    requires e in Replay(records)
    ensures e in records
  {
    hide MemTables.Insert, Ascending;
    if |records| != 0 {
      var init, last := records[..|records| - 1], records[|records| - 1];
      ReplayAscends(init);
      MemTables.InsertKeepsOrder(Replay(init), last);
      if e != last { ReplayedIsLogged(init, e); }
    }
  }

  lemma NothingAscends()
    ensures Ascending([])
  {}

  lemma ReplayOneMore(records: seq<Entry>, e: Entry)
    ensures Replay(records + [e]) == MemTables.Insert(Replay(records), e)
  {
    assert (records + [e])[..|records|] == records;
  }

  // ---------------------------------------------------------------------
  // The manifest of a tree
  // ---------------------------------------------------------------------

  function NamesIn(tables: seq<TableFile>): (r: seq<string>)
    ensures |r| == |tables|
  {
    seq(|tables|, i requires 0 <= i < |tables| => tables[i].name)
  }

  function EntryOf(level: nat, run: Run): RunEntry {
    RunEntry(level, run.sequence, NamesIn(run.tables), run.units)
  }

  function EntriesAt(level: nat, runs: seq<Run>): (r: seq<RunEntry>)
    ensures |r| == |runs|
  {
    seq(|runs|, i requires 0 <= i < |runs| => EntryOf(level, runs[i]))
  }

  /** Every run of the levels from `from` on, level by level, newest first. */
  function RunEntries(levels: Levels, from: nat): seq<RunEntry> {
    if |levels| == 0 then [] else EntriesAt(from, levels[0]) + RunEntries(levels[1..], from + 1)
  }

  function ManifestOf(levels: Levels, next: nat): Manifest {
    Manifest(RunEntries(levels, 0), next)
  }

  // ---------------------------------------------------------------------
  // Rebuilding
  // ---------------------------------------------------------------------

  function AtLevel(runs: seq<RunEntry>, level: nat): seq<RunEntry> {
    if |runs| == 0 then []
    else (if runs[0].level == level then [runs[0]] else []) + AtLevel(runs[1..], level)
  }

  /** One more than the deepest level named. */
  function LevelCount(runs: seq<RunEntry>): nat {
    if |runs| == 0 then 0
    else if runs[0].level + 1 > LevelCount(runs[1..]) then runs[0].level + 1 else LevelCount(runs[1..])
  }

  predicate NewerFirst(a: RunEntry, b: RunEntry) { a.sequence >= b.sequence }

  predicate AllExist(files: map<string, seq<Entry>>, names: seq<string>) {
    forall i :: 0 <= i < |names| ==> names[i] in files
  }

  function OpenTables(files: map<string, seq<Entry>>, names: seq<string>): (r: seq<TableFile>)
    requires AllExist(files, names)
    ensures |r| == |names|
  {
    seq(|names|, i requires 0 <= i < |names| => TableFile(names[i], files[names[i]]))
  }

  function OpenRun(files: map<string, seq<Entry>>, entry: RunEntry): Run
    requires AllExist(files, entry.files)
  {
    Run(entry.sequence, OpenTables(files, entry.files), if entry.units > 1 then entry.units else 1)
  }

  function OpenRuns(files: map<string, seq<Entry>>, entries: seq<RunEntry>): (r: seq<Run>)
    requires forall i :: 0 <= i < |entries| ==> AllExist(files, entries[i].files)
    ensures |r| == |entries|
  {
    seq(|entries|, i requires 0 <= i < |entries| => OpenRun(files, entries[i]))
  }

  /** Every file the manifest names is there. */
  predicate Complete(files: map<string, seq<Entry>>, runs: seq<RunEntry>) {
    forall i :: 0 <= i < |runs| ==> AllExist(files, runs[i].files)
  }

  lemma {:induction false} AtLevelMembers(runs: seq<RunEntry>, level: nat)
    ensures forall e :: e in AtLevel(runs, level) ==> e in runs && e.level == level
  {
    if |runs| != 0 { AtLevelMembers(runs[1..], level); }
  }

  lemma SortedAreComplete(files: map<string, seq<Entry>>, runs: seq<RunEntry>, level: nat)
    requires Complete(files, runs)
    ensures Complete(files, SortBy(AtLevel(runs, level), NewerFirst))
  {
    hide AllExist;
    var at := AtLevel(runs, level);
    AtLevelMembers(runs, level);
    SortKeepsElements(at, NewerFirst);
    SameElements(SortBy(at, NewerFirst), at);
    forall i | 0 <= i < |SortBy(at, NewerFirst)| ensures AllExist(files, SortBy(at, NewerFirst)[i].files) {
      assert SortBy(at, NewerFirst)[i] in runs;
    }
  }

  function RebuildLevel(files: map<string, seq<Entry>>, runs: seq<RunEntry>, level: nat): seq<Run>
    requires Complete(files, runs)
  {
    SortedAreComplete(files, runs, level);
    OpenRuns(files, SortBy(AtLevel(runs, level), NewerFirst))
  }

  /** Runs grouped by level and ordered newest first. */
  function Rebuild(files: map<string, seq<Entry>>, runs: seq<RunEntry>): (levels: Levels)
    requires Complete(files, runs)
    ensures |levels| == LevelCount(runs)
  {
    seq(LevelCount(runs), l requires 0 <= l < LevelCount(runs) => RebuildLevel(files, runs, l))
  }

  // ---------------------------------------------------------------------
  // What an engine keeps about its levels
  // ---------------------------------------------------------------------

  ghost predicate Descending(runs: seq<Run>) {
    forall i, j :: 0 <= i < j < |runs| ==> runs[i].sequence > runs[j].sequence
  }

  /** A run of a live level: it has files, counts at least one unit and is older than the next sequence. */
  ghost predicate LiveRun(run: Run, next: nat) {
    |run.tables| > 0 && run.units >= 1 && run.sequence < next
  }

  ghost predicate LiveRuns(runs: seq<Run>, next: nat) {
    Descending(runs) && forall i :: 0 <= i < |runs| ==> LiveRun(runs[i], next)
  }

  ghost predicate Live(levels: Levels, next: nat) {
    forall l :: 0 <= l < |levels| ==> LiveRuns(levels[l], next)
  }

  /** The file is on disk under its name. */
  ghost predicate Stored(files: map<string, seq<Entry>>, tables: seq<TableFile>) {
    forall i :: 0 <= i < |tables| ==> tables[i].name in files && files[tables[i].name] == tables[i].entries
  }

  ghost predicate StoredRuns(files: map<string, seq<Entry>>, runs: seq<Run>) {
    forall r :: 0 <= r < |runs| ==> Stored(files, runs[r].tables)
  }

  ghost predicate StoredLevels(files: map<string, seq<Entry>>, levels: Levels) {
    forall l :: 0 <= l < |levels| ==> StoredRuns(files, levels[l])
  }

  /** Levels that read the same run by run, up to empty levels at the bottom. */
  ghost predicate SameRuns(a: Levels, b: Levels) {
    && |a| <= |b| && (forall l :: 0 <= l < |a| ==> a[l] == b[l]) && forall l :: |a| <= l < |b| ==> b[l] == []
  }

  lemma {:induction false} EmptyLevelsReadNothing(levels: Levels, key: Key)
    requires forall l :: 0 <= l < |levels| ==> levels[l] == []
    ensures ReadLevels(levels, key) == None
  {
    if |levels| != 0 { EmptyLevelsReadNothing(levels[1..], key); }
  }

  lemma SameRunsReadSame(a: Levels, b: Levels, key: Key)
    requires SameRuns(a, b)
    ensures ReadLevels(a, key) == ReadLevels(b, key)
  {
    hide ReadLevels;
    assert b == b[..|a|] + b[|a|..] && b[..|a|] == a;
    ReadLevelsConcat(a, b[|a|..], key);
    EmptyLevelsReadNothing(b[|a|..], key);
  }

  // ---------------------------------------------------------------------
  // Opening what a manifest of live levels names rebuilds those levels
  // ---------------------------------------------------------------------

  lemma {:induction false} AtLevelConcat(a: seq<RunEntry>, b: seq<RunEntry>, level: nat)
    ensures AtLevel(a + b, level) == AtLevel(a, level) + AtLevel(b, level)
  {
    if |a| == 0 {
      assert a + b == b;
    } else {
      assert (a + b)[0] == a[0] && (a + b)[1..] == a[1..] + b;
      AtLevelConcat(a[1..], b, level);
      var head := if a[0].level == level then [a[0]] else [];
      assert AtLevel(a + b, level) == head + AtLevel((a + b)[1..], level);
      assert AtLevel(a, level) == head + AtLevel(a[1..], level);
    }
  }

  lemma {:induction false} AtLevelOfOne(level: nat, runs: seq<Run>, l: nat)
    ensures AtLevel(EntriesAt(level, runs), l) == if l == level then EntriesAt(level, runs) else []
  {
    if |runs| != 0 {
      AtLevelOfOne(level, runs[1..], l);
      assert EntriesAt(level, runs)[1..] == EntriesAt(level, runs[1..]);
    }
  }

  lemma {:induction false} AtLevelOfManifest(levels: Levels, from: nat, l: nat)
    ensures AtLevel(RunEntries(levels, from), l) == if from <= l < from + |levels| then EntriesAt(l, levels[l - from])
                                                    else []
  {
    if |levels| != 0 {
      AtLevelConcat(EntriesAt(from, levels[0]), RunEntries(levels[1..], from + 1), l);
      AtLevelOfOne(from, levels[0], l);
      AtLevelOfManifest(levels[1..], from + 1, l);
    }
  }

  /** Runs already newest first stay as they are. */
  lemma {:induction false} SortingDescending(entries: seq<RunEntry>)
    requires forall i, j :: 0 <= i < j < |entries| ==> entries[i].sequence > entries[j].sequence
    ensures SortBy(entries, NewerFirst) == entries
  {
    if |entries| != 0 {
      SortingDescending(entries[1..]);
      assert entries == [entries[0]] + entries[1..];
    }
  }

  lemma {:induction false} LevelCountBounds(runs: seq<RunEntry>)
    ensures forall e :: e in runs ==> e.level < LevelCount(runs)
    ensures LevelCount(runs) > 0 ==> exists e :: e in runs && e.level + 1 == LevelCount(runs)
  {
    if |runs| != 0 {
      LevelCountBounds(runs[1..]);
      assert runs[0] in runs;
      forall e | e in runs ensures e.level < LevelCount(runs) {
        assert e == runs[0] || e in runs[1..];
      }
      if LevelCount(runs) != runs[0].level + 1 {
        var e :| e in runs[1..] && e.level + 1 == LevelCount(runs[1..]);
        assert e in runs;
      }
    }
  }

  lemma {:induction false} AtLevelFinds(runs: seq<RunEntry>, e: RunEntry)
    requires e in runs
    ensures e in AtLevel(runs, e.level)
  {
    if runs[0] != e {
      assert e in runs[1..];
      AtLevelFinds(runs[1..], e);
    }
  }

  lemma {:induction false} ManifestIsComplete(files: map<string, seq<Entry>>, levels: Levels, from: nat)
    requires StoredLevels(files, levels)
    ensures Complete(files, RunEntries(levels, from))
  {
    hide AllExist, Stored;
    if |levels| != 0 {
      ManifestIsComplete(files, levels[1..], from + 1);
      var first := EntriesAt(from, levels[0]);
      forall i | 0 <= i < |first| ensures AllExist(files, first[i].files) {
        assert StoredRuns(files, levels[0]);
        NamesExist(files, levels[0][i].tables);
      }
    }
  }

  lemma NamesExist(files: map<string, seq<Entry>>, tables: seq<TableFile>)
    requires Stored(files, tables)
    ensures AllExist(files, NamesIn(tables)) && OpenTables(files, NamesIn(tables)) == tables
  {}

  lemma OpensRun(files: map<string, seq<Entry>>, level: nat, run: Run, next: nat)
    requires Stored(files, run.tables) && LiveRun(run, next)
    ensures AllExist(files, EntryOf(level, run).files) && OpenRun(files, EntryOf(level, run)) == run
  {
    NamesExist(files, run.tables);
    hide AllExist, OpenTables;
  }

  lemma RebuildsLevel(files: map<string, seq<Entry>>, levels: Levels, next: nat, l: nat)
    requires StoredLevels(files, levels) && Live(levels, next) && l < |levels|
    ensures Complete(files, RunEntries(levels, 0)) && RebuildLevel(files, RunEntries(levels, 0), l) == levels[l]
  {
    hide AllExist, StoredRuns, LiveRuns, StoredLevels, Live, SortBy, RunEntries, Complete, EntriesAt, OpenRuns, AtLevel,
         RebuildLevel;
    OneLevel(files, levels, next, l);
    ManifestIsComplete(files, levels, 0);
    AtLevelOfManifest(levels, 0, l);
    EntriesAreSorted(l, levels[l], next);
    OpensRuns(files, l, levels[l], next);
    RebuildsFrom(files, RunEntries(levels, 0), l, EntriesAt(l, levels[l]));
  }

  lemma OneLevel(files: map<string, seq<Entry>>, levels: Levels, next: nat, l: nat)
    requires StoredLevels(files, levels) && Live(levels, next) && l < |levels|
    ensures StoredRuns(files, levels[l]) && LiveRuns(levels[l], next)
  {
    hide StoredRuns, LiveRuns;
  }

  lemma RebuildsFrom(files: map<string, seq<Entry>>, runs: seq<RunEntry>, level: nat, entries: seq<RunEntry>)
    requires Complete(files, runs) && AtLevel(runs, level) == entries && SortBy(entries, NewerFirst) == entries
    requires forall i :: 0 <= i < |entries| ==> AllExist(files, entries[i].files)
    ensures RebuildLevel(files, runs, level) == OpenRuns(files, entries)
  {
    hide AllExist, Complete, SortBy, OpenRuns, AtLevel;
  }

  lemma EntriesAreSorted(level: nat, runs: seq<Run>, next: nat)
    requires LiveRuns(runs, next)
    ensures SortBy(EntriesAt(level, runs), NewerFirst) == EntriesAt(level, runs)
  {
    hide LiveRun, SortBy;
    SortingDescending(EntriesAt(level, runs));
  }

  lemma OpensRuns(files: map<string, seq<Entry>>, level: nat, runs: seq<Run>, next: nat)
    requires StoredRuns(files, runs) && LiveRuns(runs, next)
    ensures forall i :: 0 <= i < |EntriesAt(level, runs)| ==> AllExist(files, EntriesAt(level, runs)[i].files)
    ensures OpenRuns(files, EntriesAt(level, runs)) == runs
  {
    hide AllExist, Stored, OpenRun, LiveRun;
    var entries := EntriesAt(level, runs);
    forall i | 0 <= i < |entries| ensures AllExist(files, entries[i].files) && OpenRun(files, entries[i]) == runs[i] {
      OpensRun(files, level, runs[i], next);
    }
    assert OpenRuns(files, entries) == runs;
  }

  /** Opening rebuilds exactly the levels the manifest was written from. */
  lemma RebuildsLevels(files: map<string, seq<Entry>>, levels: Levels, next: nat)
    requires StoredLevels(files, levels) && Live(levels, next)
    ensures Complete(files, RunEntries(levels, 0)) && SameRuns(Rebuild(files, RunEntries(levels, 0)), levels)
  {
    hide Complete, RebuildLevel, StoredLevels, Live, EntriesAt;
    var runs := RunEntries(levels, 0);
    ManifestIsComplete(files, levels, 0);
    LevelCountBounds(runs);
    if LevelCount(runs) > |levels| {
      var e :| e in runs && e.level + 1 == LevelCount(runs);
      AtLevelFinds(runs, e);
      AtLevelOfManifest(levels, 0, e.level);
    }
    forall l | 0 <= l < |levels| ensures (l < LevelCount(runs) ==> RebuildLevel(files, runs, l) == levels[l])
                                      && (l >= LevelCount(runs) ==> levels[l] == [])
    {
      RebuildsLevel(files, levels, next, l);
      if l >= LevelCount(runs) { DeeperLevelIsEmpty(levels, l); }
    }
  }

  lemma NonEmptyIsCounted(levels: Levels, l: nat)
    requires l < |levels| && |levels[l]| > 0
    ensures l < LevelCount(RunEntries(levels, 0))
  {
    hide LevelCount;
    var runs := RunEntries(levels, 0);
    AtLevelOfManifest(levels, 0, l);
    AtLevelMembers(runs, l);
    LevelCountBounds(runs);
    var e := EntriesAt(l, levels[l])[0];
    assert e in AtLevel(runs, l);
  }

  lemma DeeperLevelIsEmpty(levels: Levels, l: nat)
    requires l < |levels| && l >= LevelCount(RunEntries(levels, 0))
    ensures levels[l] == []
  {
    if |levels[l]| > 0 { NonEmptyIsCounted(levels, l); }
  }
}
