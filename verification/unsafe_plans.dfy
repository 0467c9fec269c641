/** Trees on which a merge policy plans a compaction that changes an answer
    (src/storage/compaction/tiering.rs, leveling.rs). */
module UnsafePlans {
  import opened Octets
  import opened Bytes
  import opened SortedEntries
  import opened LsmTrees
  import opened Compactions
  import opened Planning
  import opened UnitLimited
  import opened Units
  import EcoTune
  import opened Merges
  import SSTables

  function OneFile(sequence: nat, name: string, entries: seq<Entry>): Run {
    Run(sequence, [TableFile(name, entries)], 1)
  }

  const LOW: Key := [3]
  const KEY: Key := [5]
  const HIGH: Key := [9]
  const OLD: seq<byte> := [1]
  const NEW: seq<byte> := [2]

  lemma KeysAscend()
    ensures Less(LOW, KEY) && Less(KEY, HIGH) && Less(LOW, HIGH) && LOW != KEY && KEY != HIGH
  {}

  lemma OneTable(name: string, entries: seq<Entry>)
    ensures EntriesOf([TableFile(name, entries)]) == entries
    ensures |entries| > 0 && Ascending(entries) ==> Sound([TableFile(name, entries)])
  {
    assert Parts([TableFile(name, entries)]) == [entries];
    assert Concat([entries]) == entries + Concat([]);
  }

  lemma OneEntry(e: Entry, key: Key)
    ensures Ascending([e]) && Lookup([e], key) == if key == e.key then Some(e.value) else None
  {}

  // ---------------------------------------------------------------------
  // A dropped tombstone
  // ---------------------------------------------------------------------

  /** Below an empty top level, the key was written, then other data, then the key was deleted: three unit runs. */
  const DELETED: Levels := [[], [OneFile(3, "c", [Entry(KEY, Tombstone)]), OneFile(2, "b", [Entry(LOW, Put(NEW))]),
                                 OneFile(1, "a", [Entry(KEY, Put(OLD))])]]

  /** Merge two units' worth within the main level, as a schedule may ask. */
  const MERGE_TWO: Request := Request(1, 1, 1, false, Some(2))

  lemma DeletedIsSound()
    ensures SoundLevels(DELETED) && NoEmptyFiles(DELETED)
  {
    OneTable("c", [Entry(KEY, Tombstone)]);
    OneTable("b", [Entry(LOW, Put(NEW))]);
    OneTable("a", [Entry(KEY, Put(OLD))]);
    OneEntry(Entry(KEY, Tombstone), KEY);
    OneEntry(Entry(LOW, Put(NEW)), KEY);
    OneEntry(Entry(KEY, Put(OLD)), KEY);
    hide Sound;
    assert SoundRuns(DELETED[0]) && SoundRuns(DELETED[1]);
    SoundHasNoEmptyFiles(DELETED);
  }

  lemma MergeTwoPlan()
    ensures TieringPlan(DELETED, MERGE_TWO)
         == Some(Job([LevelFiles(1, [RunFiles(0, [0]), RunFiles(1, [0])])], 1, [], true))
  {
    assert AllIndices(1) == [0];
    var runs := DELETED[1];
    assert NewestRuns(runs[1..], 1, 1, 2) == [RunFiles(1, [0])] + [];
    assert NewestRuns(runs, 0, 0, 2) == [RunFiles(0, [0])] + [RunFiles(1, [0])];
    assert RunsToTake(DELETED, 1, MERGE_TWO) == [RunFiles(0, [0]), RunFiles(1, [0])];
    assert SourceLevels(DELETED, MERGE_TWO, 2) == [];
    assert SourceLevels(DELETED, MERGE_TWO, 1) == [LevelFiles(1, [RunFiles(0, [0]), RunFiles(1, [0])])];
  }

  lemma DeletedReads()
    ensures ReadLevels(DELETED[..1], KEY) == None && ReadLevels(DELETED[2..], KEY) == None
    ensures ReadRuns(DELETED[1][..2], KEY) == Some(Tombstone) && ReadRuns(DELETED[1][2..], KEY) == Some(Put(OLD))
  {
    OneTable("c", [Entry(KEY, Tombstone)]);
    OneTable("a", [Entry(KEY, Put(OLD))]);
    OneEntry(Entry(KEY, Tombstone), KEY);
    OneEntry(Entry(KEY, Put(OLD)), KEY);
    hide EntriesOf, Lookup;
    EmptyLevelsRead(DELETED[..1], KEY);
    EmptyLevelsRead(DELETED[2..], KEY);
    assert DELETED[1][..2][0] == DELETED[1][0] && DELETED[1][2..][0] == DELETED[1][2];
  }

  /** The plan drops the tombstone although the oldest run, which the merge leaves behind, still holds the
      value: the deleted key comes back. Leveling plans the same. */
  lemma MergingNewestRunsResurrects()
    ensures SoundLevels(DELETED) && NoEmptyFiles(DELETED) && TieringPlan(DELETED, MERGE_TWO).Some?
    ensures LevelingPlan(DELETED, MERGE_TWO) == TieringPlan(DELETED, MERGE_TWO)
    ensures Visible(ReadLevels(DELETED, KEY)) == None
    ensures Visible(ReadAfter(DELETED, TieringPlan(DELETED, MERGE_TWO).value, KEY)) == Some(OLD)
    ensures !Preserves(DELETED, TieringPlan(DELETED, MERGE_TWO).value)
  {
    DeletedIsSound();
    MergeTwoPlan();
    LevelingMergesLikeTiering(DELETED, MERGE_TWO);
    var job := TieringPlan(DELETED, MERGE_TWO).value;
    NewestRunsArePrefixOfLevel(DELETED, MERGE_TWO);
    OneLevelSelections(DELETED, MERGE_TWO);
    assert TakenEnd(job) == 2;
    DeletedReads();
    hide ReadLevels, ReadRuns, ReadAfter, SoundLevels, TieringPlan, LevelingPlan, NoEmptyFiles;
    PrefixReads(DELETED, job, 1, 2, KEY);
  }

  /** Two units merged while one is left: the merge is charged one. */
  lemma MergeLosesUnits()
    ensures TieringPlan(DELETED, MERGE_TWO).Some?
    ensures var job := TieringPlan(DELETED, MERGE_TWO).value;
            InputUnits(DELETED, job) == 2 && Charged(DELETED, job) == 1
  {
    MergeTwoPlan();
    var runs := UnitsOf(DELETED[1]);
    assert runs == [1, 1, 1];
    assert EcoTune.TakenFrom(runs[1..], 1) == 1 && EcoTune.TakenFrom(runs, 2) == 2;
    hide TieringPlan;
    NewestRunsAreCharged(DELETED, MERGE_TWO);
    assert runs[..2] == [1, 1] && runs[..2][1..] == [1] && [1][1..] == [];
    assert Between(runs, 2, 4) == [1];
  }

  /** A run of one file that is selected has nothing left. */
  lemma TakenWhole(levels: Levels, selections: seq<Selection>, i: nat, key: Key)
    requires Increasing(selections) && i < |selections| && selections[i].files == [0]
    requires |TablesAt(levels, selections[i].level, selections[i].run)| == 1
    ensures HeldAt(After(levels, selections), selections[i].level, selections[i].run, key).None?
    ensures HeldBy(levels, selections[i], key) == HeldAt(levels, selections[i].level, selections[i].run, key)
  {
    var l, r := selections[i].level, selections[i].run;
    var tables := TablesAt(levels, l, r);
    FilesAtSelection(selections, i);
    AfterAt(levels, selections, l, r);
    PickOne(tables[0].name, tables[0].entries);
    assert tables == [TableFile(tables[0].name, tables[0].entries)];
    hide HeldAt, After, Increasing, Pick, Leave;
    NothingHeld(After(levels, selections), l, r, key);
    PickIsWhole(levels, selections[i], key);
  }

  lemma PickIsWhole(levels: Levels, s: Selection, key: Key)
    requires Pick(TablesAt(levels, s.level, s.run), s.files) == TablesAt(levels, s.level, s.run)
    ensures HeldBy(levels, s, key) == HeldAt(levels, s.level, s.run, key)
  {}

  /** A run that is not selected is left as it is. */
  lemma NotSelected(levels: Levels, selections: seq<Selection>, l: nat, r: nat, key: Key)
    requires Increasing(selections) && forall i ::
               0 <= i < |selections| ==> !(selections[i].level == l && selections[i].run == r)
    ensures HeldAt(After(levels, selections), l, r, key) == HeldAt(levels, l, r, key)
  {
    FilesAtNone(selections, l, r);
    AfterAt(levels, selections, l, r);
    LeaveNothingSelected(TablesAt(levels, l, r));
    hide After;
  }

  lemma PickOne(name: string, entries: seq<Entry>)
    ensures Pick([TableFile(name, entries)], [0]) == [TableFile(name, entries)]
    ensures Leave([TableFile(name, entries)], [0]) == []
  {}

  // ---------------------------------------------------------------------
  // Leveling into overlapping runs
  // ---------------------------------------------------------------------

  /** One file above a level that tiering filled with two runs. */
  function TwoRuns(b: seq<Entry>, a: seq<Entry>): Levels {
    [[OneFile(3, "c", [Entry(LOW, Put(NEW))])], [OneFile(2, "b", b), OneFile(1, "a", a)]]
  }

  const DRAIN: Request := Request(0, 0, 1, false, None)

  lemma TwoRunsAreSound(b: seq<Entry>, a: seq<Entry>)
    requires |b| > 0 && |a| > 0 && Ascending(b) && Ascending(a)
    ensures SoundLevels(TwoRuns(b, a)) && NoEmptyFiles(TwoRuns(b, a))
  {
    OneTable("c", [Entry(LOW, Put(NEW))]);
    OneTable("b", b);
    OneTable("a", a);
    OneEntry(Entry(LOW, Put(NEW)), KEY);
    hide Sound, Ascending;
    assert SoundRuns(TwoRuns(b, a)[0]) && SoundRuns(TwoRuns(b, a)[1]);
    SoundHasNoEmptyFiles(TwoRuns(b, a));
  }

  predicate Meets(name: string, entries: seq<Entry>) {
    |entries| > 0 && OverlapsRange(TableFile(name, entries), (LOW, LOW))
  }

  /** Only run n of the level overlaps what comes down, so only its file is rewritten. */
  lemma DrainPlan(b: seq<Entry>, a: seq<Entry>, n: nat)
    requires |b| > 0 && |a| > 0 && NoEmptyFiles(TwoRuns(b, a))
    requires n < 2 && (Meets("b", b) <==> n == 0) && (Meets("a", a) <==> n == 1)
    ensures LevelingPlan(TwoRuns(b, a), DRAIN)
         == Some(Job([LevelFiles(0, [RunFiles(0, [0])])], 1, [RunFiles(n, [0])], true))
  {
    DrainSources(b, a);
    DrainSpan(b, a);
    DrainTargets(b, a, n);
    hide LevelingSources, OverlappingTargets, SpanOf, NamedFiles, SourceSelections, Meets;
  }

  lemma DrainSources(b: seq<Entry>, a: seq<Entry>)
    ensures var sources := [LevelFiles(0, [RunFiles(0, [0])])];
            LevelingSources(TwoRuns(b, a), DRAIN) == sources && SourceSelections(sources) == [Selection(0, 0, [0])]
  {
    var levels, sources := TwoRuns(b, a), [LevelFiles(0, [RunFiles(0, [0])])];
    assert AllIndices(1) == [0];
    assert SourceLevels(levels, DRAIN, 1) == [];
    assert AllFiles(levels[0][1..], 1) == [];
    assert AllFiles(levels[0], 0) == [RunFiles(0, [0])] + [];
    assert RunsToTake(levels, 0, DRAIN) == [RunFiles(0, [0])];
    assert SourceLevels(levels, DRAIN, 0) == sources + [];
    FirstSourceLevel(0, [RunFiles(0, [0])], []);
  }

  lemma DrainSpan(b: seq<Entry>, a: seq<Entry>)
    requires NoEmptyFiles(TwoRuns(b, a))
    ensures NamedFiles(TwoRuns(b, a), [Selection(0, 0, [0])]) == [TableFile("c", [Entry(LOW, Put(NEW))])]
    ensures SpanOf(NamedFiles(TwoRuns(b, a), [Selection(0, 0, [0])])) == Some((LOW, LOW))
  {
    var selections := [Selection(0, 0, [0])];
    var c := TableFile("c", [Entry(LOW, Put(NEW))]);
    PickOne("c", [Entry(LOW, Put(NEW))]);
    assert selections[..0] == [];
    assert NamedFiles(TwoRuns(b, a), selections) == [] + [c];
    assert [c][..0] == [];
    assert SpanOf([]) == None;
  }

  lemma DrainTargets(b: seq<Entry>, a: seq<Entry>, n: nat)
    requires |b| > 0 && |a| > 0
    requires n < 2 && (Meets("b", b) <==> n == 0) && (Meets("a", a) <==> n == 1)
    ensures OverlappingTargets(TwoRuns(b, a)[1], 0, (LOW, LOW)) == [RunFiles(n, [0])]
  {
    hide OverlapsRange;
    var span, runs := (LOW, LOW), TwoRuns(b, a)[1];
    FilesOverlappingOne(runs[0].tables, span);
    FilesOverlappingOne(runs[1].tables, span);
    assert OverlappingTargets(runs[1..][1..], 2, span) == [];
    assert runs[1..][0] == runs[1];
    hide FilesOverlapping;
    var older := if n == 1 then [RunFiles(1, [0])] else [];
    assert OverlappingTargets(runs[1..], 1, span) == older + [];
    assert OverlappingTargets(runs, 0, span) == (if n == 0 then [RunFiles(0, [0])] else []) + older;
  }

  lemma FilesOverlappingOne(tables: seq<TableFile>, span: (Key, Key))
    requires |tables| == 1 && |tables[0].entries| > 0
    ensures FilesOverlapping(tables, span) == if OverlapsRange(tables[0], span) then [0] else []
  {
    hide OverlapsRange;
    assert tables[..0] == [];
    assert FilesOverlapping([], span) == [];
  }

  /** The two runs hold the key, the file above does not. */
  lemma TwoRunsHold(b: seq<Entry>, a: seq<Entry>)
    ensures HeldAt(TwoRuns(b, a), 0, 0, KEY) == None
    ensures HeldAt(TwoRuns(b, a), 1, 0, KEY) == Lookup(b, KEY) && HeldAt(TwoRuns(b, a), 1, 1, KEY) == Lookup(a, KEY)
  {
    KeysAscend();
    OneTable("c", [Entry(LOW, Put(NEW))]);
    OneTable("b", b);
    OneTable("a", a);
    OneEntry(Entry(LOW, Put(NEW)), KEY);
    hide EntriesOf, Lookup;
  }

  /** The newer run answers before; afterwards the output, unless its tombstone was dropped, and then the run left. */
  lemma DrainReads(b: seq<Entry>, a: seq<Entry>, n: nat, job: Job)
    requires SoundLevels(TwoRuns(b, a)) && n < 2 && Lookup(b, KEY).Some? && Lookup(a, KEY).Some?
    requires Selections(job) == [Selection(0, 0, [0]), Selection(1, n, [0])] && job.target == 1 && job.dropTombstones
    ensures ReadLevels(TwoRuns(b, a), KEY) == Lookup(b, KEY)
    ensures ReadAfter(TwoRuns(b, a), job, KEY)
         == var taken := if n == 0 then Lookup(b, KEY) else Lookup(a, KEY);
            var left := if n == 0 then Lookup(a, KEY) else Lookup(b, KEY);
            if taken != Some(Tombstone) then taken else left
  {
    var levels, selections, other := TwoRuns(b, a), Selections(job), 1 - n;
    hide HeldAt, HeldBy, After, ReadLevels, ReadAfter, SoundLevels, Selections, Lookup;
    TwoRunsHold(b, a);
    TakenWhole(levels, selections, 0, KEY);
    TakenWhole(levels, selections, 1, KEY);
    NotSelected(levels, selections, 1, other, KEY);
    var after: Levels := After(levels, selections);
    forall l': nat, r': nat | Earlier(l', r', 1, other) ensures HeldAt(after, l', r', KEY).None? {
      if l' == 0 && r' > 0 {
        EmptyStaysEmpty(levels, selections, l', r');
        NothingHeld(after, l', r', KEY);
      }
    }
    assert FirstTaken(levels, selections, 1, KEY);
    ReadsBefore(levels, job, KEY, 1, true, 1, other);
    ReadsAfter(levels, job, KEY, 1, true, 1, other);
  }

  lemma DrainSelections(levels: Levels, n: nat)
    ensures Selections(Job([LevelFiles(0, [RunFiles(0, [0])])], 1, [RunFiles(n, [0])], true))
         == [Selection(0, 0, [0]), Selection(1, n, [0])]
  {
    FirstSourceLevel(0, [RunFiles(0, [0])], []);
    assert [LevelFiles(0, [RunFiles(0, [0])])] + [] == [LevelFiles(0, [RunFiles(0, [0])])];
  }

  /** A newer run with the newer value, an older run that covers what comes down. */
  const NEWER: seq<Entry> := [Entry(KEY, Put(NEW))]
  const COVERING: seq<Entry> := [Entry(LOW, Put(OLD)), Entry(KEY, Put(OLD)), Entry(HIGH, Put(OLD))]

  /** The older run's value is merged into the output, which goes above the newer run: the old value comes
      back. It takes a level with overlapping runs, which switching a live tree from tiering leaves behind. */
  lemma LevelingOvertakes()
    ensures var levels := TwoRuns(NEWER, COVERING);
            && SoundLevels(levels) && NoEmptyFiles(levels) && LevelingPlan(levels, DRAIN).Some?
            && Visible(ReadLevels(levels, KEY)) == Some(NEW)
            && Visible(ReadAfter(levels, LevelingPlan(levels, DRAIN).value, KEY)) == Some(OLD)
            && !Preserves(levels, LevelingPlan(levels, DRAIN).value)
  {
    KeysAscend();
    var levels := TwoRuns(NEWER, COVERING);
    TwoRunsAreSound(NEWER, COVERING);
    LessAsymmetric(LOW, KEY);
    LessAsymmetric(LOW, HIGH);
    LessIrreflexive(LOW);
    assert Lookup(COVERING, KEY) == Lookup(COVERING[1..], KEY) == Some(Put(OLD))
           && Lookup(NEWER, KEY) == Some(Put(NEW));
    hide Less, Lookup, SoundLevels, NoEmptyFiles;
    DrainPlan(NEWER, COVERING, 1);
    DrainSelections(levels, 1);
    hide LevelingPlan, ReadLevels, ReadAfter, Selections, TwoRuns;
    DrainReads(NEWER, COVERING, 1, LevelingPlan(levels, DRAIN).value);
  }

  /** A newer run that covers what comes down and deletes the key, an older run with its value. */
  const DELETING: seq<Entry> := [Entry(LOW, Put(OLD)), Entry(KEY, Tombstone)]
  const HIDDEN: seq<Entry> := [Entry(KEY, Put(OLD))]

  /** No record goes on top of a newer one here. The level is the deepest, so the tombstone is dropped, and
      the older run, which does not overlap what comes down, answers the deleted key. */
  lemma LevelingUncovers()
    ensures var levels := TwoRuns(DELETING, HIDDEN);
            && SoundLevels(levels) && NoEmptyFiles(levels) && LevelingPlan(levels, DRAIN).Some?
            && Visible(ReadLevels(levels, KEY)) == None
            && Visible(ReadAfter(levels, LevelingPlan(levels, DRAIN).value, KEY)) == Some(OLD)
            && !Preserves(levels, LevelingPlan(levels, DRAIN).value)
  {
    KeysAscend();
    var levels := TwoRuns(DELETING, HIDDEN);
    TwoRunsAreSound(DELETING, HIDDEN);
    LessAsymmetric(LOW, KEY);
    LessIrreflexive(LOW);
    assert Lookup(DELETING, KEY) == Lookup(DELETING[1..], KEY) == Some(Tombstone)
           && Lookup(HIDDEN, KEY) == Some(Put(OLD));
    hide Less, Lookup, SoundLevels, NoEmptyFiles;
    DrainPlan(DELETING, HIDDEN, 0);
    DrainSelections(levels, 0);
    hide LevelingPlan, ReadLevels, ReadAfter, Selections, TwoRuns;
    DrainReads(DELETING, HIDDEN, 0, LevelingPlan(levels, DRAIN).value);
  }
}
