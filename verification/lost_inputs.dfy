/** A value that a failed compaction takes out of memory and the next flush takes off the disk
    (src/storage/lsm.rs). */
module LostInputs {
  import opened Octets
  import opened Bytes
  import opened SortedEntries
  import opened LsmTrees
  import opened Compactions
  import opened Disks
  import opened Commits
  import opened Installs
  import opened Coalescing
  import opened Planning
  import opened Failures
  import opened LsmEngines
  import opened UnsafePlans
  import opened Runs
  import Manifests
  import Wals

  function FileOf(sequence: nat): string {
    Manifests.TableFilename(0, sequence, 0)
  }

  const WRITTEN: seq<Entry> := [Entry(KEY, Put(OLD))]
  const LATER: seq<Entry> := [Entry(LOW, Put(NEW))]

  /** One flushed run. */
  const FLUSHED: Levels := [[OneFile(1, FileOf(1), WRITTEN)]]

  /** The directory with it, and with the file of a later run that no manifest names yet. */
  const DIRECTORY: Disk := Disk(map[FileOf(1) := WRITTEN, FileOf(3) := LATER], Some(ManifestOf(FLUSHED, 2)), [])

  const DRAINING: Job := Job([LevelFiles(0, [RunFiles(0, [0])])], 1, [], true)

  const LATER_RUN: Run := OneFile(3, FileOf(3), LATER)

  lemma DrainingIsPlanned()
    ensures TieringPlan(FLUSHED, DRAIN) == Some(DRAINING) && Selections(DRAINING) == [Selection(0, 0, [0])]
  {
    hide Manifests.TableFilename;
    assert AllIndices(1) == [0];
    assert SourceLevels(FLUSHED, DRAIN, 1) == [];
    assert AllFiles(FLUSHED[0][1..], 1) == [];
    assert AllFiles(FLUSHED[0], 0) == [RunFiles(0, [0])] + [];
    assert RunsToTake(FLUSHED, 0, DRAIN) == [RunFiles(0, [0])];
    assert SourceLevels(FLUSHED, DRAIN, 0) == [LevelFiles(0, [RunFiles(0, [0])])] + [];
    FirstSourceLevel(0, [RunFiles(0, [0])], []);
    assert [LevelFiles(0, [RunFiles(0, [0])])] + [] == [LevelFiles(0, [RunFiles(0, [0])])];
  }

  lemma DirectoryStands()
    ensures Stands(DIRECTORY, FLUSHED, 2) && FileOf(1) != FileOf(3)
  {
    hide Manifests.TableFilename;
    OneTable(FileOf(1), WRITTEN);
    OneEntry(Entry(KEY, Put(OLD)), KEY);
    if FileOf(1) == FileOf(3) { Manifests.FilenamesAreDistinct(0, 1, 0, 0, 3, 0); }
    assert SoundRuns(FLUSHED[0]);
    assert LiveRuns(FLUSHED[0], 2);
    OnlyTable();
    assert Generated(FileOf(1), 2);
  }

  lemma OnlyTable()
    ensures Tables(FLUSHED) == multiset{TableFile(FileOf(1), WRITTEN)}
  {
    hide Manifests.TableFilename;
    assert FLUSHED[0][1..] == [] && FLUSHED[1..] == [];
    assert AllTables([]) == [];
    assert AllTables(FLUSHED[0]) == [TableFile(FileOf(1), WRITTEN)];
  }

  lemma FlushedReads()
    ensures ReadLevels(FLUSHED, KEY) == Some(Put(OLD))
  {
    hide Manifests.TableFilename;
    OneTable(FileOf(1), WRITTEN);
    OneEntry(Entry(KEY, Put(OLD)), KEY);
    hide EntriesOf, Lookup;
    assert FLUSHED[0][0] == OneFile(1, FileOf(1), WRITTEN);
    assert ReadRuns(FLUSHED[0], KEY) == Some(Put(OLD));
  }

  lemma NothingIsLeft()
    requires Stands(DIRECTORY, FLUSHED, 2)
    ensures ReadLevels(Lossy(FLUSHED, DRAINING), KEY) == None
    ensures TableFile(FileOf(1), WRITTEN) in TakenTables(Taken(FLUSHED, Selections(DRAINING)))
  {
    DrainingIsPlanned();
    hide Manifests.TableFilename, ReadLevels, SoundLevels, Lossy, HeldAt, After, Pick, Leave;
    var selections := Selections(DRAINING);
    LossyReads(FLUSHED, DRAINING, KEY);
    TakenWhole(FLUSHED, selections, 0, KEY);
    forall l: nat, r: nat ensures HeldAt(After(FLUSHED, selections), l, r, KEY).None? {
      if !(l == 0 && r == 0) {
        EmptyStaysEmpty(FLUSHED, selections, l, r);
        NothingHeld(After(FLUSHED, selections), l, r, KEY);
      }
    }
    ReadNothing(After(FLUSHED, selections), KEY);
    PickOne(FileOf(1), WRITTEN);
    TakenAt(FLUSHED, selections, 0);
    TakenTablesMember(Taken(FLUSHED, selections), 0, 0);
  }

  lemma LaterIsWritten()
    ensures Fresh(DIRECTORY.files, LATER_RUN.tables, 0, 3) && Writes(Some(LATER_RUN), LATER)
            && Lookup(LATER, KEY) == None
  {
    hide Manifests.TableFilename;
    KeysAscend();
    OneTable(FileOf(3), LATER);
    OneEntry(Entry(LOW, Put(NEW)), KEY);
  }

  /** The run is planned to be drained, its file cannot be read, and the caller goes on: the key is gone from
      the answers, and once anything is flushed it is gone from the disk. */
  lemma FailureThenFlushForgets()
    ensures Stands(DIRECTORY, FLUSHED, 2) && Visible(ReadTree([], FLUSHED, KEY)) == Some(OLD)
    ensures TieringPlan(FLUSHED, DRAIN) == Some(DRAINING) && Forgets(FLUSHED, DRAINING, KEY)
    ensures Visible(ReadTree([], Lossy(FLUSHED, DRAINING), KEY)) == None
    ensures var after := Insert(Extend(Lossy(FLUSHED, DRAINING), 0), 0, Some(LATER_RUN));
            var committed := DIRECTORY.(manifest := Some(ManifestOf(after, 4)));
            && Stands(committed, after, 4) && Visible(ReadTree([], after, KEY)) == None
            && FileOf(1) in committed.files && FileOf(1) !in Swept(committed).files
  {
    DirectoryStands();
    DrainingIsPlanned();
    FlushedReads();
    NothingIsLeft();
    LaterIsWritten();
    assert SoundLevels(FLUSHED);
    assert Increasing(Selections(DRAINING));
    LookupNone([], KEY);
    hide Manifests.TableFilename, Stands, ReadLevels, Lossy, Forgets, TieringPlan, Insert, Extend, Swept, Selections,
         Lookup, SoundLevels, Fresh, Writes, Committable, TakenTables, Taken, Increasing;
    FailedCompactionKeepsKey(FLUSHED, DRAINING, KEY);
    StandsIsCommittable(DIRECTORY, FLUSHED, 2);
    FlushMakesLossPermanent(DIRECTORY, FLUSHED, DRAINING, 2, LATER, LATER_RUN);
  }

  /** A failed compaction as an event of a run. */
  lemma FailureFollows(whole: Levels, job: Job, planner: Planner, trials: Trials)
    requires SoundLevels(whole) && Increasing(Selections(job))
    requires planner(0, whole) == Compact(job) && Unreadable(trials(0), Loss(whole, job))
    ensures Follows(State([], whole, whole), Event(Settle, None, false, []), planner, trials,
                    WentOnWithout(Loss(whole, job), true), State([], Lossy(whole, job), whole))
  {
    hide SoundLevels, Increasing, Selections, Unreadable, Lossy, Follows, SameAnswers, Wals.Fits;
    StandsAtOnce(whole, []);
    NothingReplayed();
    GoesOnWithout(State([], whole, whole), Event(Settle, None, false, []), planner, trials, Loss(whole, job),
                  State([], Lossy(whole, job), whole));
  }

  lemma FirstGroupFails(outcome: Outcomes)
    requires outcome(0) == Some(0)
    ensures Unreadable(outcome, Loss(FLUSHED, DRAINING))
  {
    DrainingIsPlanned();
    hide Manifests.TableFilename, Pick, Leave;
    PickOne(FileOf(1), WRITTEN);
    TakenAt(FLUSHED, Selections(DRAINING), 0);
    OneTable(FileOf(1), WRITTEN);
    assert InputOf(MergeSources(Taken(FLUSHED, Selections(DRAINING)))[0], outcome(0)).fails;
  }

  /** Compactions are asked for, the file cannot be read, the caller goes on: the process no longer has the key,
      and the directory still does. */
  lemma GoingOnForgets(planner: Planner, trials: Trials)
    requires planner(0, FLUSHED) == Compact(DRAINING) && trials(0)(0) == Some(0)
    ensures var before, after := State([], FLUSHED, FLUSHED), State([], Lossy(FLUSHED, DRAINING), FLUSHED);
            var loss := Loss(FLUSHED, DRAINING);
            && Follows(before, Event(Settle, None, false, []), planner, trials, WentOnWithout(loss, true), after)
            && Served(before)(KEY) == Some(OLD) && Served(after)(KEY) == None && Runs.Stored(after)(KEY) == Some(OLD)
            && Lost(after, loss, KEY)
  {
    DirectoryStands();
    DrainingIsPlanned();
    assert SoundLevels(FLUSHED) && Increasing(Selections(DRAINING));
    FirstGroupFails(trials(0));
    FailureThenFlushForgets();
    LookupNone([], KEY);
    hide Manifests.TableFilename, Stands, ReadTree, Lossy, Forgets, TieringPlan, Insert, Extend, Swept, Selections,
         Lookup, SoundLevels, Increasing, Unreadable, Follows;
    FailureFollows(FLUSHED, DRAINING, planner, trials);
  }
}
