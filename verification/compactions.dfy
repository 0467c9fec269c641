/** What a compaction does to every lookup (src/storage/lsm.rs, src/storage/compaction/mod.rs). */
module Compactions {
  import opened Octets
  import opened Bytes
  import opened SortedEntries
  import opened Merges
  import opened LsmTrees
  import SSTables

  // ---------------------------------------------------------------------
  // Jobs
  // ---------------------------------------------------------------------

  /** Files selected from one run of a level. */
  datatype RunFiles = RunFiles(run: nat, files: seq<nat>)

  datatype LevelFiles = LevelFiles(level: nat, runs: seq<RunFiles>)

  /** Sources shallowest first, runs newest first, then the files of the target level to rewrite. */
  datatype Job = Job(sources: seq<LevelFiles>, target: nat, targets: seq<RunFiles>, dropTombstones: bool)

  /** One run a job names. */
  datatype Selection = Selection(level: nat, run: nat, files: seq<nat>)

  function SelectionsIn(level: nat, runs: seq<RunFiles>): (r: seq<Selection>)
    ensures |r| == |runs|
  {
    seq(|runs|, i requires 0 <= i < |runs| => Selection(level, runs[i].run, runs[i].files))
  }

  function SourceSelections(sources: seq<LevelFiles>): seq<Selection> {
    if |sources| == 0 then [] else SelectionsIn(sources[0].level, sources[0].runs) + SourceSelections(sources[1..])
  }

  /** Everything a job names, in merge order. */
  function Selections(job: Job): seq<Selection> {
    SourceSelections(job.sources) + SelectionsIn(job.target, job.targets)
  }

  /** Consulted earlier by a lookup. */
  predicate Earlier(l1: nat, r1: nat, l2: nat, r2: nat) {
    l1 < l2 || (l1 == l2 && r1 < r2)
  }

  /** The merge order is the read order, and no run is named twice. */
  ghost predicate Increasing(selections: seq<Selection>) {
    forall i, j :: 0 <= i < j < |selections| ==>
      Earlier(selections[i].level, selections[i].run, selections[j].level, selections[j].run)
  }

  // ---------------------------------------------------------------------
  // Taking files
  // ---------------------------------------------------------------------

  function Pick(tables: seq<TableFile>, files: seq<nat>): seq<TableFile> {
    if |tables| == 0 then []
    else
      var last := |tables| - 1;
      Pick(tables[..last], files) + if last in files then [tables[last]] else []
  }

  function Leave(tables: seq<TableFile>, files: seq<nat>): seq<TableFile> {
    if |tables| == 0 then []
    else
      var last := |tables| - 1;
      Leave(tables[..last], files) + if last in files then [] else [tables[last]]
  }

  predicate InRange(levels: Levels, l: nat, r: nat) {
    l < |levels| && r < |levels[l]|
  }

  function TablesAt(levels: Levels, l: nat, r: nat): seq<TableFile> {
    if InRange(levels, l, r) then levels[l][r].tables else []
  }

  function WithTables(levels: Levels, l: nat, r: nat, tables: seq<TableFile>): (levels': Levels)
    ensures |levels'| == |levels| && forall i :: 0 <= i < |levels| ==> |levels'[i]| == |levels[i]|
  {
    if InRange(levels, l, r) then levels[l := levels[l][r := levels[l][r].(tables := tables)]] else levels
  }

  /** The levels once every selected file has been taken; runs stay in place even when empty. */
  function After(levels: Levels, selections: seq<Selection>): Levels
    decreases |selections|
  {
    if |selections| == 0 then levels
    else
      var s := selections[0];
      After(WithTables(levels, s.level, s.run, Leave(TablesAt(levels, s.level, s.run), s.files)), selections[1..])
  }

  /** What was taken, one group of files a selection. */
  function Taken(levels: Levels, selections: seq<Selection>): (r: seq<seq<TableFile>>)
    ensures |r| == |selections|
    decreases |selections|
  {
    if |selections| == 0 then []
    else
      var s := selections[0];
      [Pick(TablesAt(levels, s.level, s.run), s.files)]
      + Taken(WithTables(levels, s.level, s.run, Leave(TablesAt(levels, s.level, s.run), s.files)), selections[1..])
  }

  /** The files selected at a position, as the first selection that names it says. */
  function FilesAt(selections: seq<Selection>, l: nat, r: nat): seq<nat> {
    if |selections| == 0 then []
    else if selections[0].level == l && selections[0].run == r then selections[0].files
    else FilesAt(selections[1..], l, r)
  }

  lemma {:induction false} FilesAtNone(selections: seq<Selection>, l: nat, r: nat)
    requires forall i :: 0 <= i < |selections| ==> !(selections[i].level == l && selections[i].run == r)
    ensures FilesAt(selections, l, r) == []
  {
    if |selections| != 0 { FilesAtNone(selections[1..], l, r); }
  }

  lemma {:induction false} FilesAtSelection(selections: seq<Selection>, i: nat)
    requires Increasing(selections) && i < |selections|
    ensures FilesAt(selections, selections[i].level, selections[i].run) == selections[i].files
  {
    if i > 0 { FilesAtSelection(selections[1..], i - 1); }
  }

  lemma {:induction false} LeaveNothingSelected(tables: seq<TableFile>)
    ensures Leave(tables, []) == tables && Pick(tables, []) == []
  {
    if |tables| != 0 {
      LeaveNothingSelected(tables[..|tables| - 1]);
    }
  }

  /** Every position keeps exactly what was not selected there. */
  lemma {:induction false} AfterAt(levels: Levels, selections: seq<Selection>, l: nat, r: nat)
    requires Increasing(selections)
    ensures |After(levels, selections)| == |levels|
    ensures forall i :: 0 <= i < |levels| ==> |After(levels, selections)[i]| == |levels[i]|
    ensures TablesAt(After(levels, selections), l, r) == Leave(TablesAt(levels, l, r), FilesAt(selections, l, r))
    decreases |selections|
  {
    hide Leave;
    LeaveNothingSelected(TablesAt(levels, l, r));
    if |selections| != 0 {
      var s := selections[0];
      var next := WithTables(levels, s.level, s.run, Leave(TablesAt(levels, s.level, s.run), s.files));
      AfterAt(next, selections[1..], l, r);
      if s.level == l && s.run == r {
        FilesAtNone(selections[1..], l, r);
        LeaveNothingSelected(TablesAt(next, l, r));
        LeaveOfNothing(s.files);
      }
    }
  }

  lemma LeaveOfNothing(files: seq<nat>)
    ensures Leave([], files) == [] && Pick([], files) == []
  {}

  /** Each group holds what its run held under the selected indices at the start. */
  lemma {:induction false} TakenAt(levels: Levels, selections: seq<Selection>, i: nat)
    requires Increasing(selections) && i < |selections|
    ensures Taken(levels, selections)[i]
         == Pick(TablesAt(levels, selections[i].level, selections[i].run), selections[i].files)
    decreases |selections|
  {
    hide Leave, Pick;
    if i > 0 {
      var s := selections[0];
      TakenAt(WithTables(levels, s.level, s.run, Leave(TablesAt(levels, s.level, s.run), s.files)), selections[1..],
              i - 1);
    }
  }

  // ---------------------------------------------------------------------
  // A run split in two answers as before
  // ---------------------------------------------------------------------

  lemma EntriesAppend(tables: seq<TableFile>, t: TableFile)
    ensures EntriesOf(tables + [t]) == EntriesOf(tables) + t.entries
  {
    assert Parts(tables + [t]) == Parts(tables) + [t.entries];
    ConcatAppend(Parts(tables), t.entries);
  }

  lemma SoundInit(tables: seq<TableFile>)
    requires Sound(tables) && |tables| > 0
    ensures var init, t := tables[..|tables| - 1], tables[|tables| - 1];
            && Sound(init) && |t.entries| > 0 && Ascending(t.entries) && Below(EntriesOf(init), t.entries)
            && EntriesOf(tables) == EntriesOf(init) + t.entries
  {
    hide Ascending, Below;
    var init, t := tables[..|tables| - 1], tables[|tables| - 1];
    assert tables == init + [t];
    EntriesAppend(init, t);
    AscendingParts(EntriesOf(init), t.entries);
    assert Parts(tables)[|tables| - 1] == t.entries;
    forall i | 0 <= i < |init| ensures |Parts(init)[i]| > 0 { assert Parts(init)[i] == Parts(tables)[i]; }
  }

  lemma SoundAppend(tables: seq<TableFile>, t: TableFile)
    requires Sound(tables) && |t.entries| > 0 && Ascending(t.entries) && Below(EntriesOf(tables), t.entries)
    ensures Sound(tables + [t])
  {
    hide Ascending, Below;
    EntriesAppend(tables, t);
    AscendingJoin(EntriesOf(tables), t.entries);
    forall i | 0 <= i < |tables + [t]| ensures |Parts(tables + [t])[i]| > 0 {
      if i < |tables| { assert Parts(tables + [t])[i] == Parts(tables)[i]; }
    }
  }

  lemma BelowSubset(part: seq<Entry>, whole: seq<Entry>, above: seq<Entry>)
    requires Below(whole, above) && forall e :: e in part ==> e in whole
    ensures Below(part, above)
  {
    hide Less;
    forall i, j | 0 <= i < |part| && 0 <= j < |above| ensures Less(part[i].key, above[j].key) {
      assert part[i] in whole;
      var n :| 0 <= n < |whole| && whole[n] == part[i];
    }
  }

  lemma {:induction false} SplitIsSound(tables: seq<TableFile>, files: seq<nat>)
    requires Sound(tables)
    ensures Sound(Pick(tables, files)) && Sound(Leave(tables, files))
    ensures forall e ::
              e in EntriesOf(Pick(tables, files)) || e in EntriesOf(Leave(tables, files)) <==> e in EntriesOf(tables)
  {
    hide Sound, Below, Ascending, EntriesOf;
    if |tables| == 0 {
      NoTables();
    } else {
      var init, t := tables[..|tables| - 1], tables[|tables| - 1];
      SoundInit(tables);
      SplitIsSound(init, files);
      var pick, leave := Pick(init, files), Leave(init, files);
      BelowSubset(EntriesOf(pick), EntriesOf(init), t.entries);
      BelowSubset(EntriesOf(leave), EntriesOf(init), t.entries);
      EntriesAppend(pick, t);
      EntriesAppend(leave, t);
      SoundAppend(pick, t);
      SoundAppend(leave, t);
      assert pick + [] == pick && leave + [] == leave;
    }
  }

  lemma NoTables()
    ensures Sound([]) && EntriesOf([]) == []
  {}

  /** A key of a run is either taken or left, never both. */
  lemma {:induction false} SplitLookup(tables: seq<TableFile>, files: seq<nat>, key: Key)
    requires Sound(tables)
    ensures var whole, pick, leave := Lookup(EntriesOf(tables), key), Lookup(EntriesOf(Pick(tables, files)), key),
                                      Lookup(EntriesOf(Leave(tables, files)), key);
            && whole == (if pick.Some? then pick else leave) && (pick.None? || leave.None?)
  {
    hide Sound, Below, Ascending, EntriesOf, Lookup;
    if |tables| == 0 {
      NoTables();
      LookupNone([], key);
    } else {
      var init, t := tables[..|tables| - 1], tables[|tables| - 1];
      SoundInit(tables);
      SplitLookup(init, files, key);
      var pick, leave := Pick(init, files), Leave(init, files);
      EntriesAppend(pick, t);
      EntriesAppend(leave, t);
      LookupConcat(EntriesOf(init), t.entries, key);
      LookupConcat(EntriesOf(pick), t.entries, key);
      LookupConcat(EntriesOf(leave), t.entries, key);
      BelowMeansDisjoint(EntriesOf(init), t.entries, key);
      assert pick + [] == pick && leave + [] == leave;
    }
  }

  lemma BelowMeansDisjoint(a: seq<Entry>, b: seq<Entry>, key: Key)
    requires Below(a, b)
    ensures Lookup(a, key).None? || Lookup(b, key).None?
  {
    LookupIsMember(a, key);
    LookupIsMember(b, key);
    LessIrreflexive(key);
  }

  // ---------------------------------------------------------------------
  // Lookups by position
  // ---------------------------------------------------------------------

  function HeldAt(levels: Levels, l: nat, r: nat, key: Key): Option<Value> {
    Lookup(EntriesOf(TablesAt(levels, l, r)), key)
  }

  /** No run consulted before this position has the key. */
  ghost predicate NoneEarlier(levels: Levels, l: nat, r: nat, key: Key) {
    forall l', r' :: Earlier(l', r', l, r) ==> HeldAt(levels, l', r', key).None?
  }

  ghost predicate NoneAnywhere(levels: Levels, key: Key) {
    forall l, r :: HeldAt(levels, l, r, key).None?
  }

  lemma {:induction false} ReadRunsAt(runs: seq<Run>, r: nat, key: Key)
    requires r <= |runs| && forall i :: 0 <= i < r ==> Lookup(EntriesOf(runs[i].tables), key).None?
    ensures ReadRuns(runs, key) == ReadRuns(runs[r..], key)
  {
    hide Lookup, EntriesOf;
    if r == 0 {
      assert runs[0..] == runs;
    } else {
      ReadRunsAt(runs[1..], r - 1, key);
      assert runs[1..][r - 1..] == runs[r..];
    }
  }

  lemma {:induction false} SkipLevels(levels: Levels, l: nat, key: Key)
    requires l <= |levels| && forall i :: 0 <= i < l ==> ReadRuns(levels[i], key).None?
    ensures ReadLevels(levels, key) == ReadLevels(levels[l..], key)
  {
    hide ReadRuns;
    if l == 0 {
      assert levels[0..] == levels;
    } else {
      SkipLevels(levels[1..], l - 1, key);
      assert levels[1..][l - 1..] == levels[l..];
    }
  }

  lemma LevelWithout(levels: Levels, l: nat, key: Key)
    requires l < |levels| && forall r :: 0 <= r < |levels[l]| ==> HeldAt(levels, l, r, key).None?
    ensures ReadRuns(levels[l], key) == None
  {
    hide Lookup, EntriesOf;
    forall r | 0 <= r < |levels[l]| ensures Lookup(EntriesOf(levels[l][r].tables), key).None? {
      assert HeldAt(levels, l, r, key).None?;
    }
    ReadRunsAt(levels[l], |levels[l]|, key);
  }

  /** The first holder in read order answers. */
  lemma ReadAtFirst(levels: Levels, l: nat, r: nat, key: Key)
    requires HeldAt(levels, l, r, key).Some? && NoneEarlier(levels, l, r, key)
    ensures ReadLevels(levels, key) == HeldAt(levels, l, r, key)
  {
    HolderInRange(levels, l, r, key);
    hide Lookup, EntriesOf;
    forall i | 0 <= i < l ensures ReadRuns(levels[i], key).None? {
      forall r' | 0 <= r' < |levels[i]| ensures HeldAt(levels, i, r', key).None? { assert Earlier(i, r', l, r); }
      LevelWithout(levels, i, key);
    }
    SkipLevels(levels, l, key);
    forall i | 0 <= i < r ensures Lookup(EntriesOf(levels[l][i].tables), key).None? {
      assert Earlier(l, i, l, r) && HeldAt(levels, l, i, key).None?;
    }
    ReadRunsAt(levels[l], r, key);
    assert levels[l][r..][0] == levels[l][r];
    assert levels[l..][0] == levels[l];
  }

  lemma HolderInRange(levels: Levels, l: nat, r: nat, key: Key)
    requires HeldAt(levels, l, r, key).Some?
    ensures InRange(levels, l, r)
  {}

  lemma ReadNothing(levels: Levels, key: Key)
    requires NoneAnywhere(levels, key)
    ensures ReadLevels(levels, key) == None
  {
    hide Lookup, EntriesOf, HeldAt;
    forall i | 0 <= i < |levels| ensures ReadRuns(levels[i], key).None? { LevelWithout(levels, i, key); }
    SkipLevels(levels, |levels|, key);
    assert levels[|levels|..] == [];
  }

  /** Where the key is first found, if anywhere. */
  lemma {:induction false} FirstHolderBefore(levels: Levels, key: Key, l: nat, r: nat)
    returns (found: bool, fl: nat, fr: nat)
    requires l < |levels| && r <= |levels[l]|
    ensures found ==> HeldAt(levels, fl, fr, key).Some? && NoneEarlier(levels, fl, fr, key)
    ensures !found ==> forall l', r' ::
              InRange(levels, l', r') && Earlier(l', r', l, r) ==> HeldAt(levels, l', r', key).None?
    decreases l, r
  {
    hide Lookup, EntriesOf;
    found, fl, fr := false, 0, 0;
    if r > 0 {
      found, fl, fr := FirstHolderBefore(levels, key, l, r - 1);
      if !found && HeldAt(levels, l, r - 1, key).Some? {
        forall l', r' | Earlier(l', r', l, r - 1) ensures HeldAt(levels, l', r', key).None? {
          if !InRange(levels, l', r') { OutOfRange(levels, l', r', key); }
        }
        return true, l, r - 1;
      }
    } else if l > 0 {
      found, fl, fr := FirstHolderBefore(levels, key, l - 1, |levels[l - 1]|);
    }
  }

  lemma OutOfRange(levels: Levels, l: nat, r: nat, key: Key)
    requires !InRange(levels, l, r)
    ensures HeldAt(levels, l, r, key).None?
  {
    NoTables();
    LookupNone([], key);
  }

  lemma FirstHolder(levels: Levels, key: Key) returns (found: bool, l: nat, r: nat)
    ensures found ==> HeldAt(levels, l, r, key).Some? && NoneEarlier(levels, l, r, key)
    ensures !found ==> NoneAnywhere(levels, key)
  {
    hide Lookup, EntriesOf, HeldAt;
    found, l, r := false, 0, 0;
    if |levels| > 0 {
      found, l, r := FirstHolderBefore(levels, key, |levels| - 1, |levels[|levels| - 1]|);
    }
    if !found {
      forall l', r' ensures HeldAt(levels, l', r', key).None? {
        if !InRange(levels, l', r') { OutOfRange(levels, l', r', key); }
      }
    }
  }

  // ---------------------------------------------------------------------
  // The whole compaction
  // ---------------------------------------------------------------------

  /** What the merge reads, in merge order. */
  function MergeSources(taken: seq<seq<TableFile>>): (r: seq<seq<Entry>>)
    ensures |r| == |taken|
  {
    seq(|taken|, i requires 0 <= i < |taken| => EntriesOf(taken[i]))
  }

  /** What the merge writes. */
  function Output(levels: Levels, job: Job): seq<Entry> {
    MergeOf(MergeSources(Taken(levels, Selections(job))), job.dropTombstones)
  }

  /** The key as selection i holds it. */
  function HeldBy(levels: Levels, s: Selection, key: Key): Option<Value> {
    Lookup(EntriesOf(Pick(TablesAt(levels, s.level, s.run), s.files)), key)
  }

  /** Selection i is the newest one that holds the key. */
  ghost predicate FirstTaken(levels: Levels, selections: seq<Selection>, i: nat, key: Key) {
    && i < |selections| && HeldBy(levels, selections[i], key).Some?
    && forall j :: 0 <= j < i ==> HeldBy(levels, selections[j], key).None?
  }

  ghost predicate NotTaken(levels: Levels, selections: seq<Selection>, key: Key) {
    forall i :: 0 <= i < |selections| ==> HeldBy(levels, selections[i], key).None?
  }

  /** A read of the tree that a compaction leaves: runs above the target, the output, the rest. */
  ghost function ReadAfter(levels: Levels, job: Job, key: Key): Option<Value> {
    var after := After(levels, Selections(job));
    var cut := if job.target < |after| then job.target else |after|;
    if ReadLevels(after[..cut], key).Some? then ReadLevels(after[..cut], key)
    else if Lookup(Output(levels, job), key).Some? then Lookup(Output(levels, job), key)
    else ReadLevels(after[cut..], key)
  }

  /** The newest taken record of a key keeps its place: what is left of the key above it stays above the
      output, and what is left below it stays below. */
  ghost predicate KeepsOrder(levels: Levels, job: Job, key: Key) {
    forall i: nat, l: nat, r: nat ::
      FirstTaken(levels, Selections(job), i, key) && HeldAt(After(levels, Selections(job)), l, r, key).Some? ==>
        (Earlier(l, r, Selections(job)[i].level, Selections(job)[i].run) <==> l < job.target)
  }

  /** The key as the files not selected at a position hold it. */
  function LeftAt(levels: Levels, selections: seq<Selection>, l: nat, r: nat, key: Key): Option<Value> {
    Lookup(EntriesOf(Leave(TablesAt(levels, l, r), FilesAt(selections, l, r))), key)
  }

  /** The newest record of the key that no selection takes. */
  ghost predicate NewestLeft(levels: Levels, selections: seq<Selection>, l: nat, r: nat, key: Key) {
    && LeftAt(levels, selections, l, r, key).Some?
    && forall l', r' :: Earlier(l', r', l, r) ==> LeftAt(levels, selections, l', r', key).None?
  }

  ghost predicate NothingLeft(levels: Levels, selections: seq<Selection>, key: Key) {
    forall l, r :: LeftAt(levels, selections, l, r, key).None?
  }

  /** The newest taken record, v at s, and the newest record left, at (l, r), change places: the output goes
      on top of a newer record, or below an older one, or the tombstone that hid an older one is dropped. */
  predicate Misplaced(job: Job, s: Selection, v: Value, l: nat, r: nat) {
    var dropped := job.dropTombstones && v == Tombstone;
    if Earlier(l, r, s.level, s.run) then l >= job.target && !dropped else l < job.target || dropped
  }

  /** They change places and a reader can tell them apart. */
  ghost predicate Disturbs(levels: Levels, job: Job, key: Key) {
    exists i: nat, l: nat, r: nat :: DisturbsAt(levels, job, key, i, l, r)
  }

  ghost predicate DisturbsAt(levels: Levels, job: Job, key: Key, i: nat, l: nat, r: nat) {
    && FirstTaken(levels, Selections(job), i, key) && NewestLeft(levels, Selections(job), l, r, key)
    && Misplaced(job, Selections(job)[i], HeldBy(levels, Selections(job)[i], key).value, l, r)
    && Visible(LeftAt(levels, Selections(job), l, r, key)) != Visible(HeldBy(levels, Selections(job)[i], key))
  }

  lemma SourcesHold(levels: Levels, job: Job, i: nat, key: Key)
    requires Increasing(Selections(job)) && i < |Selections(job)|
    ensures Lookup(MergeSources(Taken(levels, Selections(job)))[i], key) == HeldBy(levels, Selections(job)[i], key)
  {
    TakenAt(levels, Selections(job), i);
  }

  lemma TakenAscend(levels: Levels, job: Job)
    requires SoundLevels(levels) && Increasing(Selections(job))
    ensures AllAscending(MergeSources(Taken(levels, Selections(job))))
  {
    hide Ascending, EntriesOf, Pick, Taken;
    var selections := Selections(job);
    forall i | 0 <= i < |selections| ensures Ascending(EntriesOf(Taken(levels, selections)[i])) {
      TakenAt(levels, selections, i);
      SoundAt(levels, selections[i].level, selections[i].run);
      SplitIsSound(TablesAt(levels, selections[i].level, selections[i].run), selections[i].files);
      SoundAscends(Taken(levels, selections)[i]);
    }
  }

  lemma SoundAscends(tables: seq<TableFile>)
    requires Sound(tables)
    ensures Ascending(EntriesOf(tables))
  {}

  lemma SoundAt(levels: Levels, l: nat, r: nat)
    requires SoundLevels(levels)
    ensures Sound(TablesAt(levels, l, r))
  {
    hide Sound;
    NoTables();
  }

  /** The output answers a key as its newest taken record, unless that is a dropped tombstone. */
  lemma OutputHolds(levels: Levels, job: Job, key: Key)
    requires SoundLevels(levels) && Increasing(Selections(job))
    ensures NotTaken(levels, Selections(job), key) ==> Lookup(Output(levels, job), key) == None
    ensures forall i: nat :: FirstTaken(levels, Selections(job), i, key) ==>
              Lookup(Output(levels, job), key) == Kept(HeldBy(levels, Selections(job)[i], key), job.dropTombstones)
  {
    hide Lookup, Newest, MergeOf, Taken, Ascending, HeldBy, Increasing, SoundLevels;
    var sources, selections := MergeSources(Taken(levels, Selections(job))), Selections(job);
    TakenAscend(levels, job);
    MergeIsNewest(sources, job.dropTombstones);
    forall i | 0 <= i < |selections| ensures Lookup(sources[i], key) == HeldBy(levels, selections[i], key) {
      SourcesHold(levels, job, i, key);
    }
    if NotTaken(levels, selections, key) { NewestNone(sources, key); }
    forall i: nat | FirstTaken(levels, selections, i, key)
      ensures Lookup(Output(levels, job), key) == Kept(HeldBy(levels, selections[i], key), job.dropTombstones)
    {
      NewestIsFirst(sources, key, i);
    }
  }

  /** At every position a key is either taken or left. */
  lemma HeldSplits(levels: Levels, selections: seq<Selection>, l: nat, r: nat, key: Key)
    requires SoundLevels(levels) && Increasing(selections)
    ensures var before, left := HeldAt(levels, l, r, key), HeldAt(After(levels, selections), l, r, key);
            var taken := Lookup(EntriesOf(Pick(TablesAt(levels, l, r), FilesAt(selections, l, r))), key);
            before == (if taken.Some? then taken else left) && (taken.None? || left.None?)
  {
    hide Lookup, EntriesOf, Pick, Leave, After;
    AfterAt(levels, selections, l, r);
    SoundAt(levels, l, r);
    SplitLookup(TablesAt(levels, l, r), FilesAt(selections, l, r), key);
  }

  lemma {:induction false} FilesAtIsSome(selections: seq<Selection>, l: nat, r: nat)
    ensures FilesAt(selections, l, r) == [] || exists i :: 0 <= i < |selections| && selections[i].level == l
                                                     && selections[i].run == r
                                                        && selections[i].files == FilesAt(selections, l, r)
  {
    if |selections| != 0 && !(selections[0].level == l && selections[0].run == r) {
      FilesAtIsSome(selections[1..], l, r);
      if FilesAt(selections[1..], l, r) != [] {
        var i :| 0 <= i < |selections[1..]| && selections[1..][i].level == l && selections[1..][i].run == r
                 && selections[1..][i].files == FilesAt(selections[1..], l, r);
        assert selections[i + 1] == selections[1..][i];
      }
    }
  }

  lemma {:induction false} FirstTakenExists(levels: Levels, selections: seq<Selection>, n: nat, key: Key)
    returns (i: nat)
    requires n < |selections| && HeldBy(levels, selections[n], key).Some?
    ensures FirstTaken(levels, selections, i, key)
    decreases n
  {
    hide HeldBy;
    i := n;
    if j :| 0 <= j < n && HeldBy(levels, selections[j], key).Some? {
      i := FirstTakenExists(levels, selections, j, key);
    }
  }

  /** Nothing was taken of the key at any position consulted before the first taken one. */
  lemma NothingTakenEarlier(levels: Levels, selections: seq<Selection>, i: nat, key: Key, l: nat, r: nat)
    requires SoundLevels(levels) && Increasing(selections) && FirstTaken(levels, selections, i, key)
    requires Earlier(l, r, selections[i].level, selections[i].run)
    ensures HeldAt(levels, l, r, key) == HeldAt(After(levels, selections), l, r, key)
  {
    hide Lookup, EntriesOf, Pick, After, SoundLevels;
    HeldSplits(levels, selections, l, r, key);
    FilesAtIsSome(selections, l, r);
    if FilesAt(selections, l, r) == [] {
      NothingPicked(TablesAt(levels, l, r), key);
    } else {
      var j :| 0 <= j < |selections| && selections[j].level == l && selections[j].run == r
          && selections[j].files == FilesAt(selections, l, r);
      assert j < i;
      assert HeldBy(levels, selections[j], key).None?;
    }
  }

  lemma NothingPicked(tables: seq<TableFile>, key: Key)
    ensures Lookup(EntriesOf(Pick(tables, [])), key) == None
  {
    LeaveNothingSelected(tables);
    NoTables();
    LookupNone([], key);
  }

  lemma NothingTakenAnywhere(levels: Levels, selections: seq<Selection>, key: Key, l: nat, r: nat)
    requires SoundLevels(levels) && Increasing(selections) && NotTaken(levels, selections, key)
    ensures HeldAt(levels, l, r, key) == HeldAt(After(levels, selections), l, r, key)
  {
    hide Lookup, EntriesOf, Pick, After, SoundLevels;
    HeldSplits(levels, selections, l, r, key);
    FilesAtIsSome(selections, l, r);
    if FilesAt(selections, l, r) == [] {
      NothingPicked(TablesAt(levels, l, r), key);
    } else {
      var j :| 0 <= j < |selections| && selections[j].level == l && selections[j].run == r
          && selections[j].files == FilesAt(selections, l, r);
      assert HeldBy(levels, selections[j], key).None?;
    }
  }

  lemma HeldAtSelection(levels: Levels, selections: seq<Selection>, i: nat, key: Key)
    requires SoundLevels(levels) && Increasing(selections) && FirstTaken(levels, selections, i, key)
    ensures HeldAt(levels, selections[i].level, selections[i].run, key) == HeldBy(levels, selections[i], key)
    ensures HeldAt(After(levels, selections), selections[i].level, selections[i].run, key).None?
  {
    hide Lookup, EntriesOf, Pick, After, SoundLevels;
    HeldSplits(levels, selections, selections[i].level, selections[i].run, key);
    FilesAtSelection(selections, i);
  }

  lemma SameReads(a: Levels, b: Levels, key: Key)
    requires forall l, r :: HeldAt(a, l, r, key) == HeldAt(b, l, r, key)
    ensures ReadLevels(a, key) == ReadLevels(b, key)
  {
    hide HeldAt, ReadLevels;
    var found, l, r := FirstHolder(a, key);
    if found {
      ReadAtFirst(a, l, r, key);
      ReadAtFirst(b, l, r, key);
    } else {
      ReadNothing(a, key);
      ReadNothing(b, key);
    }
  }

  lemma HeldInPrefix(levels: Levels, cut: nat, l: nat, r: nat, key: Key)
    requires cut <= |levels|
    ensures HeldAt(levels[..cut], l, r, key) == if l < cut then HeldAt(levels, l, r, key) else None
  {
    if l >= cut { OutOfRange(levels[..cut], l, r, key); }
  }

  lemma LeftIsHeldAfter(levels: Levels, selections: seq<Selection>, l: nat, r: nat, key: Key)
    requires Increasing(selections)
    ensures HeldAt(After(levels, selections), l, r, key) == LeftAt(levels, selections, l, r, key)
  {
    hide Leave, After, Increasing, FilesAt;
    AfterAt(levels, selections, l, r);
  }

  /** What is left of a key, if anything. */
  lemma FindLeft(levels: Levels, selections: seq<Selection>, key: Key) returns (found: bool, l: nat, r: nat)
    requires Increasing(selections)
    ensures found ==> NewestLeft(levels, selections, l, r, key)
    ensures found ==>
              HeldAt(After(levels, selections), l, r, key).Some? && NoneEarlier(After(levels, selections), l, r, key)
    ensures !found ==> NothingLeft(levels, selections, key) && NoneAnywhere(After(levels, selections), key)
  {
    hide LeftAt, HeldAt, After, Increasing;
    found, l, r := FirstHolder(After(levels, selections), key);
    forall l', r' ensures HeldAt(After(levels, selections), l', r', key) == LeftAt(levels, selections, l', r', key) {
      LeftIsHeldAfter(levels, selections, l', r', key);
    }
  }

  lemma NewestLeftIsUnique(levels: Levels, selections: seq<Selection>, l: nat, r: nat, l': nat, r': nat, key: Key)
    requires NewestLeft(levels, selections, l, r, key) && NewestLeft(levels, selections, l', r', key)
    ensures l == l' && r == r'
  {
    hide LeftAt;
    assert Earlier(l, r, l', r') || Earlier(l', r', l, r) || (l == l' && r == r');
  }

  lemma FirstTakenIsUnique(levels: Levels, selections: seq<Selection>, i: nat, j: nat, key: Key)
    requires FirstTaken(levels, selections, i, key) && FirstTaken(levels, selections, j, key)
    ensures i == j
  {
    hide HeldBy;
  }

  /** Before, a taken key reads as the newer of its newest taken record and its newest record left. */
  lemma ReadsBefore(levels: Levels, job: Job, key: Key, i: nat, found: bool, l: nat, r: nat)
    requires SoundLevels(levels) && Increasing(Selections(job)) && FirstTaken(levels, Selections(job), i, key)
    requires var after := After(levels, Selections(job));
             if found then HeldAt(after, l, r, key).Some? && NoneEarlier(after, l, r, key) else NoneAnywhere(after, key)
    ensures var s := Selections(job)[i];
            ReadLevels(levels, key)
            == if found && Earlier(l, r, s.level, s.run) then HeldAt(After(levels, Selections(job)), l, r, key)
               else HeldBy(levels, s, key)
  {
    hide HeldAt, ReadLevels, After, SoundLevels, HeldBy, Increasing;
    var selections := Selections(job);
    var s := selections[i];
    if found && Earlier(l, r, s.level, s.run) {
      forall l', r' | Earlier(l', r', l, r) ensures HeldAt(levels, l', r', key).None? {
        NothingTakenEarlier(levels, selections, i, key, l', r');
      }
      NothingTakenEarlier(levels, selections, i, key, l, r);
      ReadAtFirst(levels, l, r, key);
    } else {
      HeldAtSelection(levels, selections, i, key);
      forall l', r' | Earlier(l', r', s.level, s.run) ensures HeldAt(levels, l', r', key).None? {
        NothingTakenEarlier(levels, selections, i, key, l', r');
      }
      ReadAtFirst(levels, s.level, s.run, key);
    }
  }

  /** Cutting levels in two cuts their reads in two. */
  lemma ReadsAroundCut(levels: Levels, cut: nat, key: Key, found: bool, l: nat, r: nat)
    requires cut <= |levels|
    requires if found then HeldAt(levels, l, r, key).Some? && NoneEarlier(levels, l, r, key)
             else NoneAnywhere(levels, key)
    ensures ReadLevels(levels[..cut], key) == if found && l < cut then HeldAt(levels, l, r, key) else None
    ensures !(found && l < cut) ==> ReadLevels(levels[cut..], key) == if found then HeldAt(levels, l, r, key) else None
  {
    hide HeldAt, ReadLevels;
    forall l': nat, r': nat
      ensures HeldAt(levels[..cut], l', r', key) == if l' < cut then HeldAt(levels, l', r', key) else None
    {
      HeldInPrefix(levels, cut, l', r', key);
    }
    if found && l < cut {
      ReadAtFirst(levels[..cut], l, r, key);
    } else {
      forall l': nat, r': nat ensures HeldAt(levels[..cut], l', r', key).None? {
        if found && l' < cut { assert Earlier(l', r', l, r); }
      }
      ReadNothing(levels[..cut], key);
      assert levels == levels[..cut] + levels[cut..];
      ReadLevelsConcat(levels[..cut], levels[cut..], key);
      if found { ReadAtFirst(levels, l, r, key); } else { ReadNothing(levels, key); }
    }
  }

  /** Afterwards it reads as what is left above the target, else as the output, else as what is left. */
  lemma ReadsAfter(levels: Levels, job: Job, key: Key, i: nat, found: bool, l: nat, r: nat)
    requires SoundLevels(levels) && Increasing(Selections(job)) && FirstTaken(levels, Selections(job), i, key)
    requires var after := After(levels, Selections(job));
             if found then HeldAt(after, l, r, key).Some? && NoneEarlier(after, l, r, key) else NoneAnywhere(after, key)
    ensures var kept := Kept(HeldBy(levels, Selections(job)[i], key), job.dropTombstones);
            ReadAfter(levels, job, key)
            == if found && l < job.target then HeldAt(After(levels, Selections(job)), l, r, key)
               else if kept.Some? then kept
               else if found then HeldAt(After(levels, Selections(job)), l, r, key) else None
  {
    OutputHolds(levels, job, key);
    hide HeldAt, ReadLevels, After, SoundLevels, HeldBy, Increasing, Output, Lookup, FirstTaken, Kept;
    var after := After(levels, Selections(job));
    var cut := if job.target < |after| then job.target else |after|;
    if found { HolderInRange(after, l, r, key); }
    ReadsAroundCut(after, cut, key, found, l, r);
  }

  /** For every tree and every job: a compaction changes what a reader of a key sees exactly when the key's
      newest taken record and its newest record left change places and differ. */
  lemma CompactionKeepsKey(levels: Levels, job: Job, key: Key)
    requires SoundLevels(levels) && Increasing(Selections(job))
    ensures Visible(ReadAfter(levels, job, key)) == Visible(ReadLevels(levels, key)) <==> !Disturbs(levels, job, key)
  {
    var selections := Selections(job);
    hide HeldAt, LeftAt, ReadLevels, After, SoundLevels, HeldBy, Increasing, ReadAfter;
    if NotTaken(levels, selections, key) {
      ReadsWithoutTaking(levels, job, key);
    } else {
      var n :| 0 <= n < |selections| && HeldBy(levels, selections[n], key).Some?;
      var i := FirstTakenExists(levels, selections, n, key);
      var found, l, r := FindLeft(levels, selections, key);
      ReadsBefore(levels, job, key, i, found, l, r);
      ReadsAfter(levels, job, key, i, found, l, r);
      if found {
        LeftIsHeldAfter(levels, selections, l, r, key);
        OnlyOnePlace(levels, job, key, i, l, r);
      } else {
        NothingToDisturb(levels, job, key);
      }
    }
  }

  lemma OnlyOnePlace(levels: Levels, job: Job, key: Key, i: nat, l: nat, r: nat)
    requires FirstTaken(levels, Selections(job), i, key) && NewestLeft(levels, Selections(job), l, r, key)
    ensures Disturbs(levels, job, key) <==> DisturbsAt(levels, job, key, i, l, r)
  {
    hide HeldBy, LeftAt, Selections, Misplaced, FirstTaken, NewestLeft;
    forall i': nat, l': nat, r': nat | DisturbsAt(levels, job, key, i', l', r') ensures i' == i && l' == l && r' == r {
      FirstTakenIsUnique(levels, Selections(job), i, i', key);
      NewestLeftIsUnique(levels, Selections(job), l, r, l', r', key);
    }
  }

  lemma NothingToDisturb(levels: Levels, job: Job, key: Key)
    requires NothingLeft(levels, Selections(job), key)
    ensures !Disturbs(levels, job, key)
  {
    hide HeldBy, LeftAt, Selections;
  }

  lemma ReadsWithoutTaking(levels: Levels, job: Job, key: Key)
    requires SoundLevels(levels) && Increasing(Selections(job)) && NotTaken(levels, Selections(job), key)
    ensures ReadAfter(levels, job, key) == ReadLevels(levels, key)
  {
    hide HeldAt, ReadLevels, After, SoundLevels, Output, Lookup, NotTaken, Increasing;
    var selections, after := Selections(job), After(levels, Selections(job));
    forall l, r ensures HeldAt(levels, l, r, key) == HeldAt(after, l, r, key) {
      NothingTakenAnywhere(levels, selections, key, l, r);
    }
    SameReads(levels, after, key);
    OutputHolds(levels, job, key);
    var cut := if job.target < |after| then job.target else |after|;
    assert after == after[..cut] + after[cut..];
    ReadLevelsConcat(after[..cut], after[cut..], key);
  }
}
