/** The units a merge is charged with, and what that does to EcoTune's schedule (src/storage/lsm.rs,
    src/storage/compaction/mod.rs, src/storage/growth/ecotune_scheme.rs). */
module Units {
  import opened Octets
  import opened Bytes
  import opened SortedEntries
  import opened LsmTrees
  import opened Compactions
  import opened Disks
  import opened Commits
  import opened Installs
  import opened Planning
  import opened UnitLimited
  import opened EcoTune

  /** The units of the runs that these indices name. */
  function UnitsNamed(levels: Levels, selections: seq<Selection>): nat {
    if |selections| == 0 then 0
    else
      (if InRange(levels, selections[0].level, selections[0].run)
       then levels[selections[0].level][selections[0].run].units else 0)
      + UnitsNamed(levels, selections[1..])
  }

  /** What a merge is meant to carry: the units of the runs that its sources name. */
  function InputUnits(levels: Levels, job: Job): nat {
    UnitsNamed(levels, SourceSelections(job.sources))
  }

  /** What it is charged: the indices of its sources are looked up once the inputs are gone. */
  function Charged(levels: Levels, job: Job): (units: nat)
    ensures units >= 1
  {
    MaxWithOne(UnitsNamed(Prune(After(levels, Selections(job)), job), SourceSelections(job.sources)))
  }

  // ---------------------------------------------------------------------
  // Levels once the inputs are gone
  // ---------------------------------------------------------------------

  lemma {:induction false} PruneEmptyLevel(runs: seq<Run>)
    requires IsEmptyLevel(runs)
    ensures PruneRuns(runs) == []
  {
    if |runs| != 0 {
      forall r | 0 <= r < |runs[1..]| ensures |runs[1..][r].tables| == 0 { assert runs[1..][r] == runs[r + 1]; }
      PruneEmptyLevel(runs[1..]);
    }
  }

  lemma {:induction false} PruneNothing(runs: seq<Run>)
    requires forall r :: 0 <= r < |runs| ==> |runs[r].tables| > 0
    ensures PruneRuns(runs) == runs
  {
    if |runs| != 0 { PruneNothing(runs[1..]); }
  }

  lemma PruneTwice(runs: seq<Run>)
    ensures PruneRuns(PruneRuns(runs)) == PruneRuns(runs)
  {
    PruneRunsMembers(runs);
    PruneNothing(PruneRuns(runs));
  }

  lemma {:induction false} PruneConcat(a: seq<Run>, b: seq<Run>)
    ensures PruneRuns(a + b) == PruneRuns(a) + PruneRuns(b)
  {
    if |a| == 0 {
      assert a + b == b;
    } else {
      assert (a + b)[0] == a[0] && (a + b)[1..] == a[1..] + b;
      PruneConcat(a[1..], b);
    }
  }

  lemma {:induction false} PrunedSourceLevel(levels: Levels, sources: seq<LevelFiles>, l: nat)
    ensures LevelAt(PruneSources(levels, sources), l) == if l in LevelsOf(sources) then PruneRuns(LevelAt(levels, l))
                                                         else LevelAt(levels, l)
    decreases |sources|
  {
    hide PruneRuns;
    PruneTwice(LevelAt(levels, l));
    EmptyLevelStays();
    if |sources| != 0 { PrunedSourceLevel(PruneAt(levels, sources[0].level), sources[1..], l); }
  }

  lemma EmptyLevelStays()
    ensures PruneRuns([]) == []
  {}

  /** A level that a job takes sources from, once they are gone. */
  lemma PrunedLevel(levels: Levels, job: Job, l: nat)
    requires l in LevelsOf(job.sources)
    ensures LevelAt(Prune(levels, job), l) == PruneRuns(LevelAt(levels, l))
  {
    hide PruneRuns, PruneSources, LevelsOf;
    PrunedSourceLevel(levels, job.sources, l);
    PruneTwice(LevelAt(levels, l));
    EmptyLevelStays();
  }

  lemma {:induction false} AfterKeepsUnits(levels: Levels, selections: seq<Selection>, l: nat, r: nat)
    requires InRange(levels, l, r)
    ensures InRange(After(levels, selections), l, r) && After(levels, selections)[l][r].units == levels[l][r].units
    decreases |selections|
  {
    hide Leave;
    if |selections| != 0 {
      var s := selections[0];
      AfterKeepsUnits(WithTables(levels, s.level, s.run, Leave(TablesAt(levels, s.level, s.run), s.files)),
                      selections[1..], l, r);
    }
  }

  // ---------------------------------------------------------------------
  // Whole levels
  // ---------------------------------------------------------------------

  lemma {:induction false} NothingLeftToName(levels: Levels, selections: seq<Selection>)
    requires forall i :: 0 <= i < |selections| ==> LevelAt(levels, selections[i].level) == []
    ensures UnitsNamed(levels, selections) == 0
  {
    if |selections| != 0 { NothingLeftToName(levels, selections[1..]); }
  }

  /** By the time the source adds them up, the levels that the job's indices name are empty. */
  lemma WholeLevelsNameNothing(levels: Levels, request: Request, job: Job)
    requires request.mergeUnits.None? && job.sources == SourceLevels(levels, request, request.first)
             && Increasing(Selections(job))
    ensures Charged(levels, job) == 1
  {
    var selections, sources := Selections(job), SourceSelections(job.sources);
    SourcesInOrder(levels, request, request.first);
    hide PruneRuns, After, Increasing, SourceSelections, SourceLevels, AllIndices, LevelsOf;
    var after := After(levels, selections);
    SelectionsAreTouched(job.sources);
    forall i | 0 <= i < |sources| ensures LevelAt(Prune(after, job), sources[i].level) == [] {
      var l := sources[i].level;
      AfterAt(levels, selections, l, 0);
      forall r | 0 <= r < |LevelAt(after, l)| ensures |LevelAt(after, l)[r].tables| == 0 {
        if |levels[l][r].tables| > 0 { SourcesCover(levels, request, request.first, l, r); }
        CoveredIsCleared(levels, selections, l, r);
      }
      PruneEmptyLevel(LevelAt(after, l));
      PrunedLevel(after, job, l);
    }
    NothingLeftToName(Prune(after, job), sources);
  }

  /** The merge is charged what its inputs carry. */
  predicate ChargedInFull(levels: Levels, job: Job) {
    Charged(levels, job) == MaxWithOne(InputUnits(levels, job))
  }

  /** Tiering whole levels is charged one unit, in full only if the inputs carry no more. */
  lemma TieringWholeIsCharged(levels: Levels, request: Request)
    requires TieringPlan(levels, request).Some? && request.mergeUnits.None?
    ensures var job := TieringPlan(levels, request).value;
            Charged(levels, job) == 1 && (ChargedInFull(levels, job) <==> InputUnits(levels, job) <= 1)
  {
    SourcesInOrder(levels, request, request.first);
    TieringSelections(levels, request);
    hide SourceLevels, Increasing, Charged, InputUnits, Selections;
    WholeLevelsNameNothing(levels, request, TieringPlan(levels, request).value);
  }

  /** So is leveling them. */
  lemma LevelingWholeIsCharged(levels: Levels, request: Request)
    requires NoEmptyFiles(levels) && LevelingPlan(levels, request).Some? && IsWhole(request)
             && !Sliceable(levels, request)
    ensures var job := LevelingPlan(levels, request).value;
            Charged(levels, job) == 1 && (ChargedInFull(levels, job) <==> InputUnits(levels, job) <= 1)
  {
    LevelingParts(levels, request);
    hide SourceLevels, Increasing, Charged, InputUnits, Selections, LevelingPlan;
    WholeLevelsNameNothing(levels, request, LevelingPlan(levels, request).value);
  }

  // ---------------------------------------------------------------------
  // A slice
  // ---------------------------------------------------------------------

  /** A slice leaves its run behind, with its units, unless it was the run's only file. */
  lemma SliceIsCharged(levels: Levels, request: Request)
    requires NoEmptyFiles(levels) && LevelingPlan(levels, request).Some? && IsScheduled(request)
             && Sliceable(levels, request)
    ensures var job, run := LevelingPlan(levels, request).value, levels[request.first][0];
            && Charged(levels, job) == (if |run.tables| > 1 then MaxWithOne(run.units) else 1)
            && (ChargedInFull(levels, job) <==> |run.tables| > 1 || run.units <= 1)
  {
    SliceNames(levels, request);
    hide LevelingPlan, Sliceable, PruneRuns, After, Increasing, Selections, SourceSelections;
    var job := LevelingPlan(levels, request).value;
    var l, run, selections := request.first, levels[request.first][0], Selections(job);
    var after := After(levels, selections);
    AfterAt(levels, selections, l, 0);
    FilesAtSelection(selections, 0);
    LeaveFirst(run.tables);
    AfterKeepsUnits(levels, selections, l, 0);
    PrunedLevel(after, job, l);
    assert LevelAt(after, l) == [after[l][0]];
    PruneOne(after[l][0]);
    NamedOne(levels, l, [0]);
    NamedOne(Prune(after, job), l, [0]);
  }

  /** A slice names the first file of the first run. */
  lemma SliceNames(levels: Levels, request: Request)
    requires NoEmptyFiles(levels) && LevelingPlan(levels, request).Some? && IsScheduled(request)
             && Sliceable(levels, request)
    ensures var job := LevelingPlan(levels, request).value;
            && job.sources == [LevelFiles(request.first, [RunFiles(0, [0])])]
            && SourceSelections(job.sources) == [Selection(request.first, 0, [0])]
            && Increasing(Selections(job)) && |Selections(job)| > 0
            && Selections(job)[0] == Selection(request.first, 0, [0])
  {
    LevelingParts(levels, request);
    var job, l := LevelingPlan(levels, request).value, request.first;
    assert job.sources == [LevelFiles(l, [RunFiles(0, [0])])];
    hide LevelingPlan, Increasing;
    FirstSourceLevel(l, [RunFiles(0, [0])], []);
    assert [LevelFiles(l, [RunFiles(0, [0])])] + [] == job.sources;
    assert SourceSelections(job.sources) == [Selection(l, 0, [0])];
  }

  lemma {:induction false} LeaveFirst(tables: seq<TableFile>)
    requires |tables| > 0
    ensures Leave(tables, [0]) == tables[1..]
  {
    var last := |tables| - 1;
    if last > 0 {
      LeaveFirst(tables[..last]);
      assert tables[1..] == tables[..last][1..] + [tables[last]];
    } else {
      assert tables[..last] == [];
      assert Leave([], [0]) == [];
    }
  }

  lemma PruneOne(run: Run)
    ensures PruneRuns([run]) == if |run.tables| == 0 then [] else [run]
  {
    EmptyLevelStays();
    assert [run][1..] == [];
  }

  lemma NamedOne(levels: Levels, l: nat, files: seq<nat>)
    ensures UnitsNamed(levels, [Selection(l, 0, files)]) == if |LevelAt(levels, l)| > 0 then LevelAt(levels, l)[0].units
                                                            else 0
  {
    var selections := [Selection(l, 0, files)];
    assert UnitsNamed(levels, selections[1..]) == 0;
  }

  // ---------------------------------------------------------------------
  // The newest units of a level
  // ---------------------------------------------------------------------

  function UnitsOf(runs: seq<Run>): (r: seq<nat>)
    ensures |r| == |runs| && forall i :: 0 <= i < |r| ==> r[i] == runs[i].units
  {
    seq(|runs|, i requires 0 <= i < |runs| => runs[i].units)
  }

  ghost predicate NoEmptyRuns(runs: seq<Run>) {
    forall r :: 0 <= r < |runs| ==> |runs[r].tables| > 0
  }

  /** Units from one index up to another, as far as there are any. */
  function Between(units: seq<nat>, from: nat, to: nat): seq<nat>
    requires from <= to
  {
    units[Least(from, |units|)..Least(to, |units|)]
  }

  function Least(a: nat, b: nat): nat {
    if a < b then a else b
  }

  lemma {:induction false} NamedInOrder(levels: Levels, selections: seq<Selection>, l: nat, from: nat)
    requires forall i :: 0 <= i < |selections| ==> selections[i].level == l && selections[i].run == from + i
    ensures UnitsNamed(levels, selections) == Total(Between(UnitsOf(LevelAt(levels, l)), from, from + |selections|))
  {
    var units := UnitsOf(LevelAt(levels, l));
    if |selections| == 0 {
      assert Between(units, from, from) == [];
    } else {
      NamedInOrder(levels, selections[1..], l, from + 1);
      if from < |units| {
        var window := Between(units, from, from + |selections|);
        assert window[0] == units[from] && window[1..] == Between(units, from + 1, from + |selections|);
      } else {
        assert Between(units, from, from + |selections|) == [] == Between(units, from + 1, from + |selections|);
      }
    }
  }

  /** On a level without empty runs, the planner's selection is the schedule's: as many of the newest runs. */
  lemma {:induction false} NewestRunsAreTakenFrom(runs: seq<Run>, from: nat, accumulated: nat, units: nat)
    requires NoEmptyRuns(runs) && accumulated <= units
    ensures var newest := NewestRuns(runs, from, accumulated, units);
            && |newest| == TakenFrom(UnitsOf(runs), units - accumulated)
            && forall i :: 0 <= i < |newest| ==> newest[i].run == from + i
  {
    hide AllIndices;
    if |runs| != 0 && accumulated + runs[0].units <= units {
      NewestRunsStep(runs, from, accumulated, units);
      assert UnitsOf(runs)[1..] == UnitsOf(runs[1..]);
      NewestRunsAreTakenFrom(runs[1..], from + 1, accumulated + runs[0].units, units);
    }
  }

  /** The units that move up to the indices of the `k` runs taken. */
  function MovedUp(runs: seq<nat>, k: nat): nat {
    Total(Between(runs, k, k + k))
  }

  /** A merge of the newest runs of a level is charged the units of the runs that move up into their places. */
  lemma NewestRunsAreCharged(levels: Levels, request: Request)
    requires TieringPlan(levels, request).Some? && IsLimited(request) && NoEmptyRuns(LevelAt(levels, request.target))
    ensures var job, runs := TieringPlan(levels, request).value, UnitsOf(LevelAt(levels, request.target));
            var k := Selected(runs, request.mergeUnits.value);
            && k >= 2 && InputUnits(levels, job) == Total(runs[..k])
               && Charged(levels, job) == MaxWithOne(MovedUp(runs, k))
            && LevelAt(Prune(After(levels, Selections(job)), job), request.target)
               == LevelAt(levels, request.target)[k..]
  {
    NewestRunsAreSelected(levels, request);
    OneLevelSources(levels, request);
    hide TieringPlan, Selections, SourceSelections, TakesPrefix, UnitsOf, Selected, Charged, InputUnits, MovedUp, Prune,
         After, NoEmptyRuns;
    PrefixIsCharged(levels, TieringPlan(levels, request).value, request.target,
                    Selected(UnitsOf(LevelAt(levels, request.target)), request.mergeUnits.value));
  }

  lemma PrefixIsCharged(levels: Levels, job: Job, l: nat, k: nat)
    requires 0 < k == |Selections(job)| && SourceSelections(job.sources) == Selections(job)
    requires TakesPrefix(levels, Selections(job), l, k) && NoEmptyRuns(levels[l])
    requires forall i :: 0 <= i < k ==> Selections(job)[i].level == l && Selections(job)[i].run == i
    ensures InputUnits(levels, job) == Total(UnitsOf(levels[l])[..k])
    ensures Charged(levels, job) == MaxWithOne(MovedUp(UnitsOf(levels[l]), k))
    ensures LevelAt(Prune(After(levels, Selections(job)), job), l) == levels[l][k..]
  {
    PrefixIsLeft(levels, job, l, k);
    assert l < |levels| && k <= |levels[l]|;
    hide PruneRuns, After, Prune, Increasing, Selections, SourceSelections, UnitsOf, TakesPrefix, UnitsNamed, Total,
         LevelAt, NoEmptyRuns, MovedUp, MaxWithOne, Between;
    NamedPrefix(levels, SourceSelections(job.sources), l, k);
    NamedSuffix(Prune(After(levels, Selections(job)), job), SourceSelections(job.sources), l, levels[l], k);
  }

  lemma NamedPrefix(levels: Levels, selections: seq<Selection>, l: nat, k: nat)
    requires l < |levels| && k == |selections| <= |levels[l]|
    requires forall i :: 0 <= i < k ==> selections[i].level == l && selections[i].run == i
    ensures UnitsNamed(levels, selections) == Total(UnitsOf(levels[l])[..k])
  {
    hide UnitsNamed, Total, LevelAt, UnitsOf;
    LevelInRange(levels, l);
    NamedInOrder(levels, selections, l, 0);
  }

  lemma NamedSuffix(levels: Levels, selections: seq<Selection>, l: nat, runs: seq<Run>, k: nat)
    requires k == |selections| <= |runs| && LevelAt(levels, l) == runs[k..]
    requires forall i :: 0 <= i < k ==> selections[i].level == l && selections[i].run == i
    ensures UnitsNamed(levels, selections) == MovedUp(UnitsOf(runs), k)
  {
    hide UnitsNamed, Total, LevelAt;
    NamedInOrder(levels, selections, l, 0);
    assert UnitsOf(runs[k..]) == UnitsOf(runs)[k..];
    assert Between(UnitsOf(runs)[k..], 0, k) == Between(UnitsOf(runs), k, k + k);
  }

  lemma LevelInRange(levels: Levels, l: nat)
    requires l < |levels|
    ensures LevelAt(levels, l) == levels[l]
  {}

  lemma PrefixIsLeft(levels: Levels, job: Job, l: nat, k: nat)
    requires 0 < k == |Selections(job)| && SourceSelections(job.sources) == Selections(job)
    requires TakesPrefix(levels, Selections(job), l, k) && NoEmptyRuns(levels[l])
    ensures LevelAt(Prune(After(levels, Selections(job)), job), l) == levels[l][k..]
  {
    PrefixIsPruned(levels, Selections(job), l, k);
    SelectionsAreTouched(job.sources);
    assert Selections(job)[0].level == l;
    hide PruneRuns, After, Prune, Selections, SourceSelections, LevelsOf, LevelAt, NoEmptyRuns, TakesPrefix;
    PrunedLevel(After(levels, Selections(job)), job, l);
  }

  lemma NewestRunsAreSelected(levels: Levels, request: Request)
    requires TieringPlan(levels, request).Some? && IsLimited(request) && NoEmptyRuns(LevelAt(levels, request.target))
    ensures var selections := Selections(TieringPlan(levels, request).value);
            var k := Selected(UnitsOf(LevelAt(levels, request.target)), request.mergeUnits.value);
            && k >= 2 && |selections| == k && TakesPrefix(levels, selections, request.target, k)
            && forall i :: 0 <= i < |selections| ==> selections[i].level == request.target && selections[i].run == i
  {
    hide Selections, TieringPlan, TakesPrefix, LevelAt, NewestRuns, NoEmptyRuns, SelectionsIn, TakenFrom, UnitsOf;
    var l, units := request.target, request.mergeUnits.value;
    var newest := NewestRuns(LevelAt(levels, l), 0, 0, units);
    NewestRunsArePrefixOfLevel(levels, request);
    NewestRunsAreTakenFrom(LevelAt(levels, l), 0, 0, units);
    OneLevelSelections(levels, request);
    assert RunsToTake(levels, l, request) == newest && |newest| >= 2;
    hide RunsToTake;
    SelectionsAreNewest(l, newest);
  }

  lemma SelectionsAreNewest(l: nat, newest: seq<RunFiles>)
    requires forall i :: 0 <= i < |newest| ==> newest[i].run == i
    ensures forall i :: 0 <= i < |newest| ==>
              SelectionsIn(l, newest)[i].level == l && SelectionsIn(l, newest)[i].run == i
  {}

  lemma OneLevelSources(levels: Levels, request: Request)
    requires TieringPlan(levels, request).Some?
    ensures SourceSelections(TieringPlan(levels, request).value.sources)
            == Selections(TieringPlan(levels, request).value)
  {
    TieringSelections(levels, request);
  }

  lemma PrefixIsPruned(levels: Levels, selections: seq<Selection>, l: nat, end: nat)
    requires TakesPrefix(levels, selections, l, end) && NoEmptyRuns(levels[l])
    ensures PruneRuns(LevelAt(After(levels, selections), l)) == levels[l][end..]
  {
    hide After, Increasing, AllIndices, PruneRuns;
    AfterAt(levels, selections, l, 0);
    var after: Levels := After(levels, selections);
    forall r: nat | r < end ensures |after[l][r].tables| == 0 { CoveredIsCleared(levels, selections, l, r); }
    forall r | end <= r < |levels[l]| ensures after[l][r] == levels[l][r] { AfterUntouched(levels, selections, l, r); }
    PruneEmptyLevel(after[l][..end]);
    PruneNothing(levels[l][end..]);
    assert after[l] == after[l][..end] + levels[l][end..];
    PruneConcat(after[l][..end], levels[l][end..]);
  }

  /** It is charged in full exactly when as many units move up as were taken. */
  lemma NewestRunsAreChargedInFull(levels: Levels, request: Request)
    requires TieringPlan(levels, request).Some? && IsLimited(request) && NoEmptyRuns(LevelAt(levels, request.target))
    requires forall r :: 0 <= r < |LevelAt(levels, request.target)| ==> LevelAt(levels, request.target)[r].units >= 1
    ensures var job, runs := TieringPlan(levels, request).value, UnitsOf(LevelAt(levels, request.target));
            var k := Selected(runs, request.mergeUnits.value);
            ChargedInFull(levels, job) <==> MovedUp(runs, k) == Total(runs[..k])
  {
    NewestRunsAreCharged(levels, request);
    hide TieringPlan, Charged, InputUnits, MovedUp;
    var runs := UnitsOf(LevelAt(levels, request.target));
    TotalAtLeast(runs[..Selected(runs, request.mergeUnits.value)]);
  }

  lemma {:induction false} TotalAtLeast(units: seq<nat>)
    requires forall i :: 0 <= i < |units| ==> units[i] >= 1
    ensures Total(units) >= |units|
  {
    if |units| != 0 { TotalAtLeast(units[1..]); }
  }

  // ---------------------------------------------------------------------
  // The schedule, as charged
  // ---------------------------------------------------------------------

  /** The units of a level after a merge of its newest runs, `width` units' worth. */
  function ChargedAbsorb(runs: seq<nat>, width: nat): seq<nat> {
    var k := Selected(runs, width);
    if k == 0 then runs else [MaxWithOne(MovedUp(runs, k))] + runs[k..]
  }

  /** That is what installing the merge makes of the level. */
  lemma InstalledUnits(levels: Levels, request: Request, run: Run)
    requires TieringPlan(levels, request).Some? && IsLimited(request) && NoEmptyRuns(LevelAt(levels, request.target))
    requires run.units == Charged(levels, TieringPlan(levels, request).value)
    ensures UnitsOf(LevelAt(Installed(levels, TieringPlan(levels, request).value, Some(run), false), request.target))
         == ChargedAbsorb(UnitsOf(LevelAt(levels, request.target)), request.mergeUnits.value)
  {
    var job, l := TieringPlan(levels, request).value, request.target;
    assert job.target == l;
    NewestRunsAreCharged(levels, request);
    hide TieringPlan, Prune, After, Selections, Charged, InputUnits, MovedUp, Selected, Installed, NoEmptyRuns, UnitsOf;
    InstalledLevel(levels, job, run);
    UnitsAfterInsert(run, LevelAt(levels, l), Selected(UnitsOf(LevelAt(levels, l)), request.mergeUnits.value));
  }

  lemma InstalledLevel(levels: Levels, job: Job, run: Run)
    ensures LevelAt(Installed(levels, job, Some(run), false), job.target)
         == [run] + LevelAt(Prune(After(levels, Selections(job)), job), job.target)
  {
    hide Prune, After, Selections, Extend, Tables, ReadLevels;
    ExtendKeeps(Prune(After(levels, Selections(job)), job), job.target, []);
  }

  lemma UnitsAfterInsert(run: Run, runs: seq<Run>, k: nat)
    requires k <= |runs|
    ensures UnitsOf([run] + runs[k..]) == [run.units] + UnitsOf(runs)[k..]
  {}

  /** The level after the unit runs and merges of a plan, as charged. */
  ghost function ChargedExecute(plan: Plan, pending: nat, runs: seq<nat>): seq<nat>
    decreases plan
  {
    match plan
    case Base => ChargedAbsorb([1] + runs, pending + 1)
    case Skip(rest) => ChargedExecute(rest, pending + 1, [1] + runs)
    case Merge(x, left, right) => ChargedExecute(right, pending + x, ChargedExecute(left, 0, runs))
  }

  /** The main level after each of its merges, as scheduled; the round-ending merge takes whole levels. */
  ghost function Planned(plan: Plan, pending: nat, runs: seq<nat>, rightmost: bool): seq<seq<nat>>
    decreases plan
  {
    match plan
    case Base => if rightmost then [] else [Absorb([1] + runs, pending + 1)]
    case Skip(rest) => Planned(rest, pending + 1, [1] + runs, rightmost)
    case Merge(x, left, right) =>
      Planned(left, 0, runs, false) + Planned(right, pending + x, Execute(left, 0, runs), rightmost)
  }

  /** And as charged. */
  ghost function Happens(plan: Plan, pending: nat, runs: seq<nat>, rightmost: bool): seq<seq<nat>>
    decreases plan
  {
    match plan
    case Base => if rightmost then [] else [ChargedAbsorb([1] + runs, pending + 1)]
    case Skip(rest) => Happens(rest, pending + 1, [1] + runs, rightmost)
    case Merge(x, left, right) =>
      Happens(left, 0, runs, false) + Happens(right, pending + x, ChargedExecute(left, 0, runs), rightmost)
  }

  /** At every merge of the schedule, the units of the runs that move up add up to its width. */
  ghost predicate MovesUpEnough(plan: Plan, pending: nat, runs: seq<nat>, rightmost: bool)
    decreases plan
  {
    match plan
    case Base => rightmost || MovedUp([1] + runs, Selected([1] + runs, pending + 1)) == pending + 1
    case Skip(rest) => MovesUpEnough(rest, pending + 1, [1] + runs, rightmost)
    case Merge(x, left, right) =>
      MovesUpEnough(left, 0, runs, false) && MovesUpEnough(right, pending + x, Execute(left, 0, runs), rightmost)
  }

  /** The engine carries out a round as scheduled exactly when, at every merge, as many units move up as
      were taken. */
  lemma {:induction false} ScheduleHappensExactlyWhen(plan: Plan, incoming: nat, pending: nat, runs: seq<nat>, k: nat,
                                                      rightmost: bool)
    requires Schedules(plan, incoming) && (rightmost || pending + incoming >= 2)
    requires k <= |runs| && Total(runs[..k]) == pending && forall i :: 0 <= i < |runs| ==> runs[i] > 0
    ensures Happens(plan, pending, runs, rightmost) == Planned(plan, pending, runs, rightmost)
            <==> MovesUpEnough(plan, pending, runs, rightmost)
    ensures !rightmost && MovesUpEnough(plan, pending, runs, rightmost)
            ==> ChargedExecute(plan, pending, runs) == Execute(plan, pending, runs)
    decreases plan
  {
    hide Total, TakenFrom, MovedUp;
    match plan
    case Base =>
      BaseHappens(pending, runs, k, rightmost);
    case Skip(rest) =>
      PushUnit(1, runs, k);
      ScheduleHappensExactlyWhen(rest, incoming - 1, pending + 1, [1] + runs, k + 1, rightmost);
    case Merge(x, left, right) =>
      MergeHappens(x, left, right, pending, runs, rightmost);
      hide Happens, Planned, MovesUpEnough, ChargedExecute, Execute, EveryMergeExact;
      assert runs[..0] == [] && runs[0..] == runs;
      NoUnits();
      ScheduledWidthsAreExact(left, x, 0, runs, 0);
      ScheduleHappensExactlyWhen(left, x, 0, runs, 0, false);
      PushUnit(x, runs, k);
      ScheduleHappensExactlyWhen(right, incoming - x, pending + x, [x] + runs, k + 1, rightmost);
      SameCount(left, 0, runs, 0, runs, false);
      SameHalves(Happens(left, 0, runs, false), Happens(right, pending + x, ChargedExecute(left, 0, runs), rightmost),
                 Planned(left, 0, runs, false), Planned(right, pending + x, [x] + runs, rightmost));
  }

  lemma BaseHappens(pending: nat, runs: seq<nat>, k: nat, rightmost: bool)
    requires rightmost || pending + 1 >= 2
    requires k <= |runs| && Total(runs[..k]) == pending && forall i :: 0 <= i < |runs| ==> runs[i] > 0
    ensures Happens(Base, pending, runs, rightmost) == Planned(Base, pending, runs, rightmost)
            <==> MovesUpEnough(Base, pending, runs, rightmost)
    ensures !rightmost && MovesUpEnough(Base, pending, runs, rightmost)
            ==> ChargedExecute(Base, pending, runs) == Execute(Base, pending, runs)
  {
    if !rightmost {
      ScheduledWidthsAreExact(Base, 1, pending, runs, k);
      OneMergeHappens([1] + runs, pending + 1);
    }
  }

  lemma MergeHappens(x: nat, left: Plan, right: Plan, pending: nat, runs: seq<nat>, rightmost: bool)
    ensures var plan := Merge(x, left, right);
            && Happens(plan, pending, runs, rightmost)
               == Happens(left, 0, runs, false) + Happens(right, pending + x, ChargedExecute(left, 0, runs), rightmost)
            && Planned(plan, pending, runs, rightmost)
               == Planned(left, 0, runs, false) + Planned(right, pending + x, Execute(left, 0, runs), rightmost)
            && (MovesUpEnough(plan, pending, runs, rightmost)
                <==> MovesUpEnough(left, 0, runs, false)
                     && MovesUpEnough(right, pending + x, Execute(left, 0, runs), rightmost))
            && ChargedExecute(plan, pending, runs) == ChargedExecute(right, pending + x, ChargedExecute(left, 0, runs))
            && Execute(plan, pending, runs) == Execute(right, pending + x, Execute(left, 0, runs))
  {}

  lemma {:induction false} SameCount(plan: Plan, p: nat, runs: seq<nat>, p': nat, runs': seq<nat>, rightmost: bool)
    ensures |Happens(plan, p, runs, rightmost)| == |Planned(plan, p', runs', rightmost)|
    decreases plan
  {
    hide Absorb, ChargedAbsorb;
    match plan
    case Base =>
    case Skip(rest) => SameCount(rest, p + 1, [1] + runs, p' + 1, [1] + runs', rightmost);
    case Merge(x, left, right) =>
      SameCount(left, 0, runs, 0, runs', false);
      SameCount(right, p + x, ChargedExecute(left, 0, runs), p' + x, Execute(left, 0, runs'), rightmost);
  }

  lemma SameHalves(a: seq<seq<nat>>, b: seq<seq<nat>>, c: seq<seq<nat>>, d: seq<seq<nat>>)
    requires |a| == |c|
    ensures a + b == c + d <==> a == c && b == d
  {
    if a + b == c + d {
      assert (a + b)[..|a|] == a && (c + d)[..|a|] == c;
      assert (a + b)[|a|..] == b && (c + d)[|a|..] == d;
    }
  }

  lemma NoUnits()
    ensures Total([]) == 0
  {}

  lemma OneMergeHappens(runs: seq<nat>, width: nat)
    requires SelectsExactly(runs, width) && width >= 2
    ensures ChargedAbsorb(runs, width) == Absorb(runs, width) <==> MovedUp(runs, Selected(runs, width)) == width
  {
    hide Selected, MovedUp, Total;
    assert ChargedAbsorb(runs, width)[0] == MaxWithOne(MovedUp(runs, Selected(runs, width)));
  }

  /** A merge that reaches the oldest run of its level leaves nothing to move up, so no round with one is
      carried out as scheduled. */
  lemma {:induction false} ReachingTheOldestIsMischarged(plan: Plan, incoming: nat, pending: nat, runs: seq<nat>)
    requires Schedules(plan, incoming) && pending + incoming >= 2
    requires Total(runs) == pending && forall i :: 0 <= i < |runs| ==> runs[i] > 0
    ensures !MovesUpEnough(plan, pending, runs, false)
    decreases plan
  {
    hide Total, Selected, MovedUp;
    assert runs[..|runs|] == runs;
    match plan
    case Base =>
      assert ([1] + runs)[..|runs| + 1] == [1] + runs;
      PushUnit(1, runs, |runs|);
      EverythingTaken([1] + runs, pending + 1);
    case Skip(rest) =>
      PushUnit(1, runs, |runs|);
      assert ([1] + runs)[..|runs| + 1] == [1] + runs;
      ReachingTheOldestIsMischarged(rest, incoming - 1, pending + 1, [1] + runs);
    case Merge(x, left, right) =>
      assert runs[..0] == [] && runs[0..] == runs;
      NoUnits();
      ScheduledWidthsAreExact(left, x, 0, runs, 0);
      PushUnit(x, runs, |runs|);
      assert ([x] + runs)[..|runs| + 1] == [x] + runs;
      ReachingTheOldestIsMischarged(right, incoming - x, pending + x, [x] + runs);
  }

  lemma EverythingTaken(runs: seq<nat>, units: nat)
    requires |runs| > 0 && Total(runs) == units >= 2 && forall i :: 0 <= i < |runs| ==> runs[i] > 0
    ensures MovedUp(runs, Selected(runs, units)) != units
  {
    assert runs[..|runs|] == runs;
    ExactPrefixIsTaken(runs, units, |runs|);
    assert Between(runs, |runs|, |runs| + |runs|) == [];
    assert Between(runs, 0, 0) == [];
  }
}
