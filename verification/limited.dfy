/** Merging only the newest units of a level, and exactly when that is safe
    (src/storage/compaction/mod.rs, tiering.rs, leveling.rs; src/storage/growth/ecotune_scheme.rs). */
module UnitLimited {
  import opened Octets
  import opened Bytes
  import opened SortedEntries
  import opened Merges
  import opened LsmTrees
  import opened Compactions
  import opened Planning

  /** One past the last run a job takes from its last level. */
  function TakenEnd(job: Job): nat {
    if |Selections(job)| == 0 then 0 else Selections(job)[|Selections(job)| - 1].run + 1
  }

  /** The tombstone that answers the key sits in the first `end` runs of level l, no deeper level holds data,
      and an older run of level l has a value for the key. */
  ghost predicate Uncovers(levels: Levels, l: nat, end: nat, key: Key) {
    && l < |levels| && end <= |levels[l]| && IsDeepestLevel(levels, l)
    && ReadLevels(levels[..l], key).None? && ReadRuns(levels[l][..end], key) == Some(Tombstone)
    && Visible(ReadRuns(levels[l][end..], key)).Some?
  }

  // ---------------------------------------------------------------------
  // What is left
  // ---------------------------------------------------------------------

  lemma {:induction false} AfterUntouched(levels: Levels, selections: seq<Selection>, l: nat, r: nat)
    requires InRange(levels, l, r)
    requires forall i :: 0 <= i < |selections| ==> !(selections[i].level == l && selections[i].run == r)
    ensures InRange(After(levels, selections), l, r) && After(levels, selections)[l][r] == levels[l][r]
    decreases |selections|
  {
    hide Leave;
    if |selections| != 0 {
      var s := selections[0];
      AfterUntouched(WithTables(levels, s.level, s.run, Leave(TablesAt(levels, s.level, s.run), s.files)),
                     selections[1..], l, r);
    }
  }

  /** A job on one level leaves the others as they are. */
  lemma OtherLevelsUntouched(levels: Levels, selections: seq<Selection>, l: nat)
    requires Increasing(selections) && l < |levels| && forall i :: 0 <= i < |selections| ==> selections[i].level == l
    ensures |After(levels, selections)| == |levels|
    ensures After(levels, selections)[..l] == levels[..l] && After(levels, selections)[l + 1..] == levels[l + 1..]
  {
    hide After, Increasing;
    AfterAt(levels, selections, l, 0);
    var after: Levels := After(levels, selections);
    forall l' | 0 <= l' < |levels| && l' != l ensures after[l'] == levels[l'] {
      forall r | 0 <= r < |levels[l']|
        ensures after[l'][r] == levels[l'][r]
      {
        AfterUntouched(levels, selections, l', r);
      }
    }
  }

  // ---------------------------------------------------------------------
  // Merging the newest runs
  // ---------------------------------------------------------------------

  /** The selections are the runs before `end` that hold files, whole. */
  ghost predicate TakesPrefix(levels: Levels, selections: seq<Selection>, l: nat, end: nat) {
    && Increasing(selections) && l < |levels| && end <= |levels[l]|
    && (forall i :: 0 <= i < |selections| ==>
          && selections[i].level == l && selections[i].run < end
          && selections[i].files == AllIndices(|levels[l][selections[i].run].tables|))
    && forall r: nat ::
         r < end && |levels[l][r].tables| > 0 ==> Selection(l, r, AllIndices(|levels[l][r].tables|)) in selections
  }

  lemma NewestRunsArePrefixOfLevel(levels: Levels, request: Request)
    requires TieringPlan(levels, request).Some? && request.first == request.last == request.target
    ensures var job := TieringPlan(levels, request).value;
            TakesPrefix(levels, Selections(job), request.target, TakenEnd(job))
  {
    hide AllIndices, RunsToTake, Increasing;
    var l, runs := request.target, RunsToTake(levels, request.target, request);
    var job := TieringPlan(levels, request).value;
    var selections := Selections(job);
    SourcesInOrder(levels, request, request.first);
    TieringSelections(levels, request);
    OneLevelSelections(levels, request);
    RunsToTakeInOrder(levels, l, request);
    RunsAreTakenWhole(levels, l, request);
    assert |runs| > 0;
    forall r: nat | r < TakenEnd(job) && |levels[l][r].tables| > 0
      ensures Selection(l, r, AllIndices(|levels[l][r].tables|)) in selections
    {
      TakenArePrefix(levels, request, l, r, |runs| - 1);
      var n :| 0 <= n < |runs| && runs[n] == RunFiles(r, AllIndices(|levels[l][r].tables|));
      assert selections[n] == Selection(l, r, AllIndices(|levels[l][r].tables|));
    }
  }

  /** Each selection names every file of its run. */
  ghost predicate AreWhole(selected: seq<RunFiles>, runs: seq<Run>, from: nat) {
    forall i :: 0 <= i < |selected| ==>
      from <= selected[i].run < from + |runs| && selected[i].files == AllIndices(|runs[selected[i].run - from].tables|)
  }

  lemma WholeInTail(selected: seq<RunFiles>, runs: seq<Run>, from: nat)
    requires |runs| > 0 && AreWhole(selected, runs[1..], from + 1)
    ensures AreWhole(selected, runs, from)
    ensures AreWhole([RunFiles(from, AllIndices(|runs[0].tables|))] + selected, runs, from)
  {
    hide AllIndices;
    forall i | 0 <= i < |selected|
      ensures from <= selected[i].run < from + |runs|
              && selected[i].files == AllIndices(|runs[selected[i].run - from].tables|)
    {
      assert runs[1..][selected[i].run - (from + 1)] == runs[selected[i].run - from];
    }
  }

  lemma {:induction false} NewestRunsAreWhole(runs: seq<Run>, from: nat, accumulated: nat, units: nat)
    ensures AreWhole(NewestRuns(runs, from, accumulated, units), runs, from)
  {
    if |runs| == 0 || (|runs[0].tables| > 0 && accumulated + runs[0].units > units) {
      assert NewestRuns(runs, from, accumulated, units) == [];
    } else if |runs[0].tables| == 0 {
      NewestRunsAreWhole(runs[1..], from + 1, accumulated, units);
      WholeInTail(NewestRuns(runs[1..], from + 1, accumulated, units), runs, from);
    } else {
      NewestRunsStep(runs, from, accumulated, units);
      var sum := accumulated + runs[0].units;
      if sum >= units {
        hide NewestRuns, AllIndices;
        WholeInTail([], runs, from);
      } else {
        NewestRunsAreWhole(runs[1..], from + 1, sum, units);
        hide NewestRuns, AllIndices, AreWhole;
        WholeInTail(NewestRuns(runs[1..], from + 1, sum, units), runs, from);
      }
    }
  }

  lemma {:induction false} AllFilesAreWhole(runs: seq<Run>, from: nat)
    ensures AreWhole(AllFiles(runs, from), runs, from)
  {
    if |runs| != 0 {
      AllFilesAreWhole(runs[1..], from + 1);
      hide AllIndices, AreWhole;
      WholeInTail(AllFiles(runs[1..], from + 1), runs, from);
      assert [] + AllFiles(runs[1..], from + 1) == AllFiles(runs[1..], from + 1);
    }
  }

  lemma RunsAreTakenWhole(levels: Levels, l: nat, request: Request)
    ensures AreWhole(RunsToTake(levels, l, request), LevelAt(levels, l), 0)
  {
    hide AllIndices, AllFiles, NewestRuns;
    AllFilesAreWhole(LevelAt(levels, l), 0);
    if request.mergeUnits.Some? { NewestRunsAreWhole(LevelAt(levels, l), 0, 0, request.mergeUnits.value); }
  }

  /** The first run of a level that has the key, if any. */
  lemma {:induction false} FirstRunWith(runs: seq<Run>, key: Key) returns (found: bool, r: nat)
    ensures found ==> r < |runs| && Lookup(EntriesOf(runs[r].tables), key).Some?
                      && ReadRuns(runs, key) == Lookup(EntriesOf(runs[r].tables), key)
                      && forall j :: 0 <= j < r ==> Lookup(EntriesOf(runs[j].tables), key).None?
    ensures !found ==> ReadRuns(runs, key) == None && forall j ::
              0 <= j < |runs| ==> Lookup(EntriesOf(runs[j].tables), key).None?
  {
    hide Lookup, EntriesOf;
    found, r := false, 0;
    if |runs| != 0 {
      if Lookup(EntriesOf(runs[0].tables), key).Some? { return true, 0; }
      found, r := FirstRunWith(runs[1..], key);
      if found {
        r := r + 1;
        forall j | 0 <= j < r ensures Lookup(EntriesOf(runs[j].tables), key).None? {
          if j > 0 { assert runs[1..][j - 1] == runs[j]; }
        }
      } else {
        forall j | 0 <= j < |runs| ensures Lookup(EntriesOf(runs[j].tables), key).None? {
          if j > 0 { assert runs[1..][j - 1] == runs[j]; }
        }
      }
    }
  }

  lemma {:induction false} PickAll(tables: seq<TableFile>, n: nat)
    requires |tables| <= n
    ensures Pick(tables, AllIndices(n)) == tables
  {
    hide AllIndices;
    if |tables| != 0 {
      PickAll(tables[..|tables| - 1], n);
      AllIndicesHold(n, |tables| - 1);
      assert tables == tables[..|tables| - 1] + [tables[|tables| - 1]];
    }
  }

  /** The output answers as the taken runs do, minus dropped tombstones. */
  lemma PrefixOutput(levels: Levels, job: Job, l: nat, end: nat, key: Key)
    requires SoundLevels(levels) && TakesPrefix(levels, Selections(job), l, end)
    ensures Lookup(Output(levels, job), key) == Kept(ReadRuns(levels[l][..end], key), job.dropTombstones)
  {
    hide Lookup, EntriesOf, Pick, Output, SoundLevels, Increasing, AllIndices;
    var selections, prefix := Selections(job), levels[l][..end];
    OutputHolds(levels, job, key);
    forall i: nat | i < |selections|
      ensures HeldBy(levels, selections[i], key) == Lookup(EntriesOf(prefix[selections[i].run].tables), key)
    {
      PickAll(levels[l][selections[i].run].tables, |levels[l][selections[i].run].tables|);
    }
    var found, r := FirstRunWith(prefix, key);
    if found {
      if |levels[l][r].tables| == 0 { NothingIn(levels[l][r].tables, key); }
      var i :| 0 <= i < |selections| && selections[i] == Selection(l, r, AllIndices(|levels[l][r].tables|));
      forall j | 0 <= j < i ensures HeldBy(levels, selections[j], key).None? { EarlierRun(selections, j, i, l); }
      assert FirstTaken(levels, selections, i, key);
    } else {
      assert NotTaken(levels, selections, key);
    }
  }

  lemma EarlierRun(selections: seq<Selection>, j: nat, i: nat, l: nat)
    requires Increasing(selections) && j < i < |selections| && selections[j].level == selections[i].level == l
    ensures selections[j].run < selections[i].run
  {}

  lemma NothingIn(tables: seq<TableFile>, key: Key)
    requires |tables| == 0
    ensures Lookup(EntriesOf(tables), key) == None
  {
    NoTables();
    LookupNone([], key);
  }

  /** Of the level itself the older runs are left. */
  lemma SuffixIsLeft(levels: Levels, selections: seq<Selection>, l: nat, end: nat, key: Key)
    requires TakesPrefix(levels, selections, l, end)
    ensures |After(levels, selections)| == |levels|
            && ReadRuns(After(levels, selections)[l], key) == ReadRuns(levels[l][end..], key)
  {
    hide Lookup, EntriesOf, After, Increasing, AllIndices;
    AfterAt(levels, selections, l, 0);
    var after: Levels := After(levels, selections);
    forall r: nat | r < end ensures Lookup(EntriesOf(after[l][r].tables), key).None? {
      CoveredIsCleared(levels, selections, l, r);
      NothingIn(after[l][r].tables, key);
    }
    ReadRunsAt(after[l], end, key);
    forall r | end <= r < |levels[l]| ensures after[l][r] == levels[l][r] { AfterUntouched(levels, selections, l, r); }
    assert after[l][end..] == levels[l][end..];
  }

  lemma ReadsAtLevel(levels: Levels, l: nat, key: Key)
    requires l < |levels|
    ensures ReadLevels(levels[l..], key)
         == if ReadRuns(levels[l], key).Some? then ReadRuns(levels[l], key) else ReadLevels(levels[l + 1..], key)
    ensures ReadLevels(levels, key)
         == if ReadLevels(levels[..l], key).Some? then ReadLevels(levels[..l], key) else ReadLevels(levels[l..], key)
  {
    hide ReadRuns;
    assert levels[l..][0] == levels[l] && levels[l..][1..] == levels[l + 1..];
    assert levels == levels[..l] + levels[l..];
    ReadLevelsConcat(levels[..l], levels[l..], key);
  }

  /** Below the deepest level there is nothing to read. */
  lemma {:induction false} EmptyLevelsRead(levels: Levels, key: Key)
    requires forall l :: 0 <= l < |levels| ==> IsEmptyLevel(levels[l])
    ensures ReadLevels(levels, key) == None
  {
    if |levels| != 0 {
      EmptyRunsRead(levels[0], key);
      EmptyLevelsRead(levels[1..], key);
    }
  }

  lemma {:induction false} EmptyRunsRead(runs: seq<Run>, key: Key)
    requires IsEmptyLevel(runs)
    ensures ReadRuns(runs, key) == None
  {
    if |runs| != 0 {
      NothingIn(runs[0].tables, key);
      EmptyRunsRead(runs[1..], key);
    }
  }

  /** The reads before and after a merge of the newest runs of a level. */
  lemma PrefixReads(levels: Levels, job: Job, l: nat, end: nat, key: Key)
    requires SoundLevels(levels) && TakesPrefix(levels, Selections(job), l, end) && job.target == l
    ensures var above, prefix, suffix, below :=
              ReadLevels(levels[..l], key), ReadRuns(levels[l][..end], key), ReadRuns(levels[l][end..], key),
              ReadLevels(levels[l + 1..], key);
            var older := if suffix.Some? then suffix else below;
            var kept := Kept(prefix, job.dropTombstones);
            && ReadLevels(levels, key) == (if above.Some? then above else if prefix.Some? then prefix else older)
            && ReadAfter(levels, job, key) == (if above.Some? then above else if kept.Some? then kept else older)
  {
    hide ReadRuns, ReadLevels, Output, Kept, After, SoundLevels, Increasing;
    var selections := Selections(job);
    var after: Levels := After(levels, selections);
    PrefixOutput(levels, job, l, end, key);
    SuffixIsLeft(levels, selections, l, end, key);
    OtherLevelsUntouched(levels, selections, l);
    ReadsAtLevel(levels, l, key);
    ReadsAtLevel(after, l, key);
    assert levels[l] == levels[l][..end] + levels[l][end..];
    ReadRunsConcat(levels[l][..end], levels[l][end..], key);
  }

  /** Merging the newest runs of a level within it changes no answer exactly when no key's answering
      tombstone is among them, at the deepest level, over a value in an older run. */
  lemma TieringLimitedPreservesExactlyWhen(levels: Levels, request: Request)
    requires SoundLevels(levels) && TieringPlan(levels, request).Some?
             && request.first == request.last == request.target
    ensures var job := TieringPlan(levels, request).value;
            && TakenEnd(job) <= |LevelAt(levels, request.target)|
            && (Preserves(levels, job) <==> forall key: Key :: !Uncovers(levels, request.target, TakenEnd(job), key))
  {
    NewestRunsArePrefixOfLevel(levels, request);
    var job := TieringPlan(levels, request).value;
    assert job.target == request.target && job.dropTombstones == IsDeepestLevel(levels, request.target);
    var l, end := job.target, TakenEnd(job);
    hide ReadLevels, ReadRuns, ReadAfter, SoundLevels, TieringPlan, Increasing, IsDeepestLevel, IsEmptyLevel;
    forall key: Key
      ensures Visible(ReadAfter(levels, job, key)) == Visible(ReadLevels(levels, key))
              <==> !Uncovers(levels, l, end, key)
    {
      PrefixReads(levels, job, l, end, key);
      if job.dropTombstones { NothingBelowDeepest(levels, l, key); }
    }
  }

  lemma NothingBelowDeepest(levels: Levels, l: nat, key: Key)
    requires l < |levels| && IsDeepestLevel(levels, l)
    ensures ReadLevels(levels[l + 1..], key) == None
  {
    EmptyLevelsRead(levels[l + 1..], key);
  }

  // ---------------------------------------------------------------------
  // Leveling
  // ---------------------------------------------------------------------

  /** Asked for the newest units of a level, leveling plans what tiering does, unless it slices a file off. */
  lemma LevelingMergesLikeTiering(levels: Levels, request: Request)
    requires NoEmptyFiles(levels) && request.first == request.last == request.target && !Sliceable(levels, request)
    ensures LevelingPlan(levels, request) == TieringPlan(levels, request)
  {
    NamedFilesNotEmpty(levels, SourceSelections(LevelingSources(levels, request)));
    hide SourceLevels, NamedFiles, SpanOf;
  }

  /** A slice is of the level's only run, so nothing of its keys stays. */
  lemma SlicingIsSafe(levels: Levels, request: Request)
    requires SoundLevels(levels) && NoEmptyFiles(levels) && LevelingPlan(levels, request).Some? && IsLimited(request)
    requires Sliceable(levels, request)
    ensures ValidJob(levels, LevelingPlan(levels, request).value)
    ensures TakenEnd(LevelingPlan(levels, request).value) == |levels[request.target]|
  {
    var whole := request.(mergeUnits := None);
    assert LevelingPlan(levels, whole) == LevelingPlan(levels, request);
    LevelingWholeIsSafe(levels, whole);
    SliceSelection(levels, request);
    LevelingParts(levels, request);
  }

  lemma LevelingLimitedPreservesExactlyWhen(levels: Levels, request: Request)
    requires SoundLevels(levels) && NoEmptyFiles(levels) && LevelingPlan(levels, request).Some? && IsLimited(request)
    ensures var job := LevelingPlan(levels, request).value;
            Preserves(levels, job) <==> forall key: Key :: !Uncovers(levels, request.target, TakenEnd(job), key)
  {
    if Sliceable(levels, request) {
      SlicingIsSafe(levels, request);
      var job := LevelingPlan(levels, request).value;
      ValidJobPreserves(levels, job);
      hide Preserves, LevelingPlan, SoundLevels, NoEmptyFiles, IsDeepestLevel;
      forall key: Key
        ensures !Uncovers(levels, request.target, TakenEnd(job), key)
      {
        NoOlderRuns(levels, request.target, key);
      }
    } else {
      LevelingMergesLikeTiering(levels, request);
      TieringLimitedPreservesExactlyWhen(levels, request);
    }
  }

  lemma NoOlderRuns(levels: Levels, l: nat, key: Key)
    requires l < |levels|
    ensures !Uncovers(levels, l, |levels[l]|, key)
  {
    assert levels[l][|levels[l]|..] == [];
  }

  // ---------------------------------------------------------------------
  // A guard that suffices
  // ---------------------------------------------------------------------

  /** No key of a level loses the tombstone that answers it, if its newest units are merged as planned. */
  ghost predicate UncoversNothing(levels: Levels, request: Request, job: Job) {
    IsLimited(request) ==> forall key: Key :: !Uncovers(levels, request.target, TakenEnd(job), key)
  }

  /** Over deeper data, or where runs share no key, nothing is uncovered. */
  lemma GuardSuffices(levels: Levels, l: nat, end: nat, key: Key)
    requires l < |levels| && end <= |levels[l]| && (!IsDeepestLevel(levels, l) || KeyDisjoint(levels[l]))
    ensures !Uncovers(levels, l, end, key)
  {
    hide ReadRuns, ReadLevels, IsDeepestLevel, KeyDisjoint;
    if KeyDisjoint(levels[l]) { ReadOnlyOnce(levels[l], end, key); }
  }

  lemma ReadOnlyOnce(runs: seq<Run>, end: nat, key: Key)
    requires KeyDisjoint(runs) && end <= |runs|
    ensures ReadRuns(runs[..end], key).None? || ReadRuns(runs[end..], key).None?
  {
    hide ReadRuns, KeyDisjoint, Lookup, EntriesOf;
    var newer, i := FirstRunWith(runs[..end], key);
    var older, j := FirstRunWith(runs[end..], key);
    if newer && older { SharesNothing(runs, i, end + j, key); }
  }

  lemma SharesNothing(runs: seq<Run>, i: nat, j: nat, key: Key)
    requires KeyDisjoint(runs) && i < j < |runs|
    ensures Lookup(EntriesOf(runs[i].tables), key).None? || Lookup(EntriesOf(runs[j].tables), key).None?
  {}

  // ---------------------------------------------------------------------
  // Every request a growth scheme makes
  // ---------------------------------------------------------------------

  /** Tiering changes no answer, for any scheduled request, exactly when a merge of newest units uncovers nothing. */
  lemma TieringPreservesExactlyWhen(levels: Levels, request: Request)
    requires SoundLevels(levels) && TieringPlan(levels, request).Some? && IsScheduled(request)
    ensures Preserves(levels, TieringPlan(levels, request).value)
            <==> UncoversNothing(levels, request, TieringPlan(levels, request).value)
  {
    hide SoundLevels, TieringPlan, ValidJob, Preserves, Uncovers;
    if IsWhole(request) {
      TieringWholeIsSafe(levels, request);
      ValidJobPreserves(levels, TieringPlan(levels, request).value);
    } else {
      TieringLimitedPreservesExactlyWhen(levels, request);
    }
  }

  /** So does leveling, when besides no key of a target file that it rewrites changes places with a record
      left in another run of the target. */
  lemma LevelingPreservesExactlyWhen(levels: Levels, request: Request)
    requires SoundLevels(levels) && NoEmptyFiles(levels) && LevelingPlan(levels, request).Some? && IsScheduled(request)
    ensures var job := LevelingPlan(levels, request).value;
            Preserves(levels, job) <==>
              UncoversNothing(levels, request, job)
                && (IsWhole(request) ==> forall key: Key :: !TargetDisturbs(levels, request, job, key))
  {
    hide SoundLevels, NoEmptyFiles, LevelingPlan, Preserves, Uncovers, TargetDisturbs;
    if IsWhole(request) {
      LevelingWholePreservesExactlyWhen(levels, request);
    } else {
      LevelingLimitedPreservesExactlyWhen(levels, request);
    }
  }
}
