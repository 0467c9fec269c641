/** When a disk stands for a tree, and what may happen to it without changing that (src/storage/lsm.rs). */
module Commits {
  import opened Octets
  import opened Bytes
  import opened SortedEntries
  import opened LsmTrees
  import opened Compactions
  import opened Coalescing
  import opened Manifests
  import opened Texts
  import opened Disks
  import SSTableFormat

  /** Every table of the levels, with how often it occurs. */
  ghost function Tables(levels: Levels): multiset<TableFile> {
    if |levels| == 0 then multiset{} else multiset(AllTables(levels[0])) + Tables(levels[1..])
  }

  /** A name some earlier sequence number was given out for. */
  ghost predicate Generated(name: string, next: nat) {
    exists level: nat, sequence: nat, part: nat :: name == TableFilename(level, sequence, part) && sequence < next
  }

  /** Each table is on disk under a name of its own that no later table will be given, and nothing in it is too
      long to read back. */
  ghost predicate Filed(files: map<string, seq<Entry>>, tables: multiset<TableFile>, next: nat) {
    && (forall t :: t in tables ==> OnDisk(files, t) && Generated(t.name, next))
    && (forall t :: tables[t] <= 1)
    && forall t, u :: t in tables && u in tables && t.name == u.name ==> t == u
  }

  ghost predicate OnDisk(files: map<string, seq<Entry>>, t: TableFile) {
    t.name in files && files[t.name] == t.entries && SSTableFormat.AllReadable(t.entries)
  }

  /** The manifest on disk is that of these levels. A new database has none. */
  ghost predicate Names(manifest: Option<Manifest>, levels: Levels, next: nat) {
    match manifest
    case None => next == 1 && forall l :: 0 <= l < |levels| ==> levels[l] == []
    case Some(m) => m == ManifestOf(levels, next) && next >= 1
  }

  ghost predicate Stands(disk: Disk, levels: Levels, next: nat) {
    && SoundLevels(levels) && Live(levels, next) && Filed(disk.files, Tables(levels), next)
    && Names(disk.manifest, levels, next) && SSTableFormat.AllReadable(disk.wal)
  }

  ghost predicate SameAnswers(m1: seq<Entry>, l1: Levels, m2: seq<Entry>, l2: Levels) {
    forall key: Key :: Visible(ReadTree(m1, l1, key)) == Visible(ReadTree(m2, l2, key))
  }

  // ---------------------------------------------------------------------
  // Tables and positions
  // ---------------------------------------------------------------------

  lemma {:induction false} TablesMembers(levels: Levels, l: nat, r: nat, i: nat)
    requires l < |levels| && r < |levels[l]| && i < |levels[l][r].tables|
    ensures levels[l][r].tables[i] in Tables(levels)
  {
    if l == 0 {
      AllTablesMembers(levels[0], levels[0][r].tables[i]);
      assert levels[0][r].tables[i] in AllTables(levels[0]);
    } else {
      TablesMembers(levels[1..], l - 1, r, i);
    }
  }

  lemma FiledIsStored(files: map<string, seq<Entry>>, levels: Levels, next: nat)
    requires Filed(files, Tables(levels), next)
    ensures StoredLevels(files, levels)
  {
    hide Generated, Tables;
    forall l, r, i | 0 <= l < |levels| && 0 <= r < |levels[l]| && 0 <= i < |levels[l][r].tables|
      ensures levels[l][r].tables[i].name in files
              && files[levels[l][r].tables[i].name] == levels[l][r].tables[i].entries
    {
      TablesMembers(levels, l, r, i);
    }
    forall l | 0 <= l < |levels| ensures StoredRuns(files, levels[l]) {
      forall r | 0 <= r < |levels[l]| ensures Stored(files, levels[l][r].tables) {}
    }
  }

  // ---------------------------------------------------------------------
  // Opening
  // ---------------------------------------------------------------------

  function MaxWithOne(n: nat): nat {
    if n > 1 then n else 1
  }

  datatype Reopened = Reopened(levels: Levels, next: nat, memtable: seq<Entry>)

  /** What opening finds; it fails when the manifest names a file that is not there. */
  function Reopen(disk: Disk): Option<Reopened> {
    var m := if disk.manifest.None? then Manifest([], 0) else disk.manifest.value;
    if !Complete(disk.files, m.runs) then None
    else Some(Reopened(Rebuild(disk.files, m.runs), MaxWithOne(m.nextSequence), Replay(disk.wal)))
  }

  /** A disk that stands for a tree opens as that tree, level by level and run by run. */
  lemma ReopenFindsTree(disk: Disk, levels: Levels, next: nat)
    requires Stands(disk, levels, next)
    ensures Reopen(disk).Some? && SameRuns(Reopen(disk).value.levels, levels) && Reopen(disk).value.next == next
    ensures Reopen(disk).value.memtable == Replay(disk.wal)
  {
    hide Filed, SoundLevels, Live, Rebuild, Complete, Replay, Tables, LevelCount;
    FiledIsStored(disk.files, levels, next);
    if disk.manifest.None? {
      NothingNamed(disk.files);
    } else {
      RebuildsLevels(disk.files, levels, next);
    }
  }

  lemma NothingNamed(files: map<string, seq<Entry>>)
    ensures Complete(files, []) && Rebuild(files, []) == []
  {}

  /** Empty levels at the bottom name nothing and hold nothing. */
  lemma {:induction false} EmptyLevelsNameNothing(levels: Levels, from: nat)
    requires forall l :: 0 <= l < |levels| ==> levels[l] == []
    ensures RunEntries(levels, from) == [] && Tables(levels) == multiset{}
  {
    if |levels| != 0 {
      EmptyLevelsNameNothing(levels[1..], from + 1);
      assert AllTables([]) == [];
    }
  }

  lemma {:induction false} SameRunsNameSame(a: Levels, b: Levels, from: nat)
    requires SameRuns(a, b)
    ensures RunEntries(a, from) == RunEntries(b, from) && Tables(a) == Tables(b)
    decreases |b|
  {
    if |a| == 0 {
      EmptyLevelsNameNothing(b, from);
    } else {
      assert SameRuns(a[1..], b[1..]);
      SameRunsNameSame(a[1..], b[1..], from + 1);
    }
  }

  /** What was found stands for the disk it was found on. */
  lemma ReopenedStands(disk: Disk, levels: Levels, next: nat)
    requires Stands(disk, levels, next)
    ensures Reopen(disk).Some? && Stands(disk, Reopen(disk).value.levels, Reopen(disk).value.next)
    ensures SameAnswers(Replay(disk.wal), Reopen(disk).value.levels, Replay(disk.wal), levels)
  {
    hide Filed, Tables, Reopen, Replay, ReadTree, Sound, LiveRuns;
    ReopenFindsTree(disk, levels, next);
    var found := Reopen(disk).value.levels;
    SameRunsNameSame(found, levels, 0);
    forall key: Key
      ensures Visible(ReadTree(Replay(disk.wal), found, key)) == Visible(ReadTree(Replay(disk.wal), levels, key))
    {
      SameTreesReadSame(Replay(disk.wal), found, levels, key);
    }
  }

  lemma SameTreesReadSame(memtable: seq<Entry>, a: Levels, b: Levels, key: Key)
    requires SameRuns(a, b)
    ensures ReadTree(memtable, a, key) == ReadTree(memtable, b, key)
  {
    hide SameRuns, ReadLevels;
    SameRunsReadSame(a, b, key);
  }

  // ---------------------------------------------------------------------
  // Steps that keep what a disk stands for
  // ---------------------------------------------------------------------

  /** A file with a name not yet given out cannot disturb a live one. */
  lemma WritingKeepsStanding(disk: Disk, levels: Levels, next: nat, level: nat, sequence: nat, part: nat,
                             entries: seq<Entry>)
    requires Stands(disk, levels, next) && sequence >= next
    ensures Stands(disk.(files := disk.files[TableFilename(level, sequence, part) := entries]), levels, next)
  {
    hide SoundLevels, Live, Names, Tables, TableFilename;
    var name := TableFilename(level, sequence, part);
    forall t | t in Tables(levels) ensures t.name != name {
      assert Generated(t.name, next);
      FreshName(t.name, next, level, sequence, part);
    }
  }

  lemma FreshName(name: string, next: nat, level: nat, sequence: nat, part: nat)
    requires Generated(name, next) && sequence >= next
    ensures name != TableFilename(level, sequence, part)
  {
    hide TableFilename;
    var l: nat, s: nat, p: nat :| name == TableFilename(l, s, p) && s < next;
    if name == TableFilename(level, sequence, part) {
      FilenamesAreDistinct(l, s, p, level, sequence, part);
    }
  }

  /** Removing a file no live table uses keeps the rest. */
  lemma RemovingKeepsStanding(disk: Disk, levels: Levels, next: nat, name: string)
    requires Stands(disk, levels, next) && forall t :: t in Tables(levels) ==> t.name != name
    ensures Stands(disk.(files := disk.files - {name}), levels, next)
  {
    hide SoundLevels, Live, Names, Tables, Generated;
  }

  lemma LogKeepsStanding(disk: Disk, levels: Levels, next: nat, wal: seq<Entry>)
    requires Stands(disk, levels, next) && SSTableFormat.AllReadable(wal)
    ensures Stands(disk.(wal := wal), levels, next)
  {
    hide SoundLevels, Live, Names, Filed;
  }

  /** The names the manifest references. */
  function Referenced(manifest: Option<Manifest>): set<string> {
    if manifest.None? then {}
    else set i: nat, j: nat | i < |manifest.value.runs| && j < |manifest.value.runs[i].files| ::
          manifest.value.runs[i].files[j]
  }

  /** The directory without the tables that its manifest does not name. */
  function Swept(disk: Disk): Disk {
    disk.(files := disk.files - (disk.files.Keys - Referenced(disk.manifest)))
  }

  /** Where the manifest lists a table. */
  lemma {:induction false} EveryTableIsNamed(levels: Levels, from: nat, t: TableFile) returns (i: nat, j: nat)
    requires t in Tables(levels)
    ensures i < |RunEntries(levels, from)| && j < |RunEntries(levels, from)[i].files|
    ensures RunEntries(levels, from)[i].files[j] == t.name
  {
    hide AllTables, EntriesAt;
    if t in AllTables(levels[0]) {
      AllTablesMembers(levels[0], t);
      i :| 0 <= i < |levels[0]| && t in levels[0][i].tables;
      j :| 0 <= j < |levels[0][i].tables| && levels[0][i].tables[j] == t;
      ListedHere(from, levels[0], i, j);
    } else {
      i, j := EveryTableIsNamed(levels[1..], from + 1, t);
      i := |levels[0]| + i;
    }
  }

  lemma ListedHere(level: nat, runs: seq<Run>, i: nat, j: nat)
    requires i < |runs| && j < |runs[i].tables|
    ensures j < |EntriesAt(level, runs)[i].files| && EntriesAt(level, runs)[i].files[j] == runs[i].tables[j].name
  {}

  lemma TableIsReferenced(levels: Levels, next: nat, t: TableFile)
    requires t in Tables(levels)
    ensures t.name in Referenced(Some(ManifestOf(levels, next)))
  {
    hide RunEntries, Tables;
    var i, j := EveryTableIsNamed(levels, 0, t);
    assert ManifestOf(levels, next).runs[i].files[j] == t.name;
  }

  /** Deleting any files that the manifest does not name removes nothing live. */
  lemma SweepingKeepsStanding(disk: Disk, levels: Levels, next: nat, names: set<string>)
    requires Stands(disk, levels, next) && names !! Referenced(disk.manifest)
    ensures Stands(disk.(files := disk.files - names), levels, next)
  {
    hide SoundLevels, Live, Tables, Generated, RunEntries;
    if disk.manifest.None? {
      EmptyLevelsNameNothing(levels, 0);
    } else {
      forall t | t in Tables(levels) ensures t.name in Referenced(disk.manifest) {
        TableIsReferenced(levels, next, t);
      }
    }
  }

  /** Of the tables on disk, sweeping leaves those of the tree alone. */
  lemma SweptIsNamed(disk: Disk, levels: Levels, next: nat, name: string)
    requires Stands(disk, levels, next)
    ensures name in Swept(disk).files <==> exists t :: t in Tables(levels) && t.name == name
  {
    hide SoundLevels, Live, Generated, RunEntries, Tables;
    if disk.manifest.None? {
      EmptyLevelsNameNothing(levels, 0);
    } else {
      if name in Referenced(disk.manifest) {
        var i: nat, j: nat :| i < |disk.manifest.value.runs| && j < |disk.manifest.value.runs[i].files|
                              && disk.manifest.value.runs[i].files[j] == name;
        NamedByTables(levels, 0, i, j);
      }
      if t :| t in Tables(levels) && t.name == name { TableIsReferenced(levels, next, t); }
    }
  }

  /** Every file the manifest names exists. */
  lemma NamedFilesExist(disk: Disk, levels: Levels, next: nat)
    requires Stands(disk, levels, next)
    ensures disk.manifest.Some? ==> Complete(disk.files, disk.manifest.value.runs)
  {
    hide Live, SoundLevels, Filed, RunEntries, Complete;
    FiledIsStored(disk.files, levels, next);
    if disk.manifest.Some? { ManifestIsComplete(disk.files, levels, 0); }
  }

  lemma {:induction false} NamedByTables(levels: Levels, from: nat, i: nat, j: nat)
    requires i < |RunEntries(levels, from)| && j < |RunEntries(levels, from)[i].files|
    ensures exists t :: t in Tables(levels) && t.name == RunEntries(levels, from)[i].files[j]
  {
    if i < |levels[0]| {
      var t := levels[0][i].tables[j];
      AllTablesMembers(levels[0], t);
      assert t in AllTables(levels[0]);
    } else {
      NamedByTables(levels[1..], from + 1, i - |levels[0]|, j);
      var t :| t in Tables(levels[1..]) && t.name == RunEntries(levels[1..], from + 1)[i - |levels[0]|].files[j];
      assert t in Tables(levels);
    }
  }

  /** Level numbers and unit counts fit the integers the manifest is parsed with. */
  ghost predicate Countable(levels: Levels, from: nat) {
    from + |levels| < U64 && forall l, r :: 0 <= l < |levels| && 0 <= r < |levels[l]| ==> levels[l][r].units < U64
  }

  lemma {:induction false} EntriesAreValid(levels: Levels, from: nat, next: nat, i: nat)
    requires Live(levels, next) && Countable(levels, from) && next < U64 && i < |RunEntries(levels, from)|
    ensures var e := RunEntries(levels, from)[i]; e.level < U64 && e.sequence < U64 && e.units < U64 && |e.files| > 0
  {
    assert LiveRuns(levels[0], next);
    if i < |levels[0]| {
      assert LiveRun(levels[0][i], next);
    } else {
      assert forall l :: 0 <= l < |levels[1..]| ==> levels[1..][l] == levels[l + 1];
      EntriesAreValid(levels[1..], from + 1, next, i - |levels[0]|);
    }
  }

  /** The manifest of a tree that a disk stands for survives being printed and parsed. */
  lemma CommittedManifestLoads(disk: Disk, levels: Levels, next: nat)
    requires Stands(disk, levels, next) && disk.manifest.Some? && next < U64 && Countable(levels, 0)
    ensures var m := disk.manifest.value;
            IsAscii(Body(m)) && IsAscii(Contents(m)) && Load(Contents(m)) == Ok(m)
  {
    hide SoundLevels, Live, Tables, RunEntries, TableFilename, IsWord, IsAscii, Body, Load, Contents, Countable;
    var m := disk.manifest.value;
    forall i, j | 0 <= i < |m.runs| && 0 <= j < |m.runs[i].files|
      ensures IsAscii(m.runs[i].files[j]) && IsWord(m.runs[i].files[j])
    {
      NamedByTables(levels, 0, i, j);
      var t :| t in Tables(levels) && t.name == m.runs[i].files[j];
      assert Generated(t.name, next);
      var level: nat, sequence: nat, part: nat :| t.name == TableFilename(level, sequence, part) && sequence < next;
      FilenameIsAscii(level, sequence, part);
      FilenameIsWord(level, sequence, part);
    }
    forall i | 0 <= i < |m.runs| ensures ValidRun(m.runs[i]) { EntriesAreValid(levels, 0, next, i); }
    BodyIsAscii(m);
    StoredLoads(m);
  }
}
