/** One merge policy a level, over whole runs: levels allowed one run stay free of shared keys, and so the jobs
    the policy plans are safe (src/storage/compaction/fluid.rs, leveling.rs, tiering.rs). */
module Fluids {
  import opened Octets
  import opened Bytes
  import opened SortedEntries
  import opened LsmTrees
  import opened Compactions
  import opened Sorting
  import opened Coalescing
  import opened Disks
  import opened Planning
  import opened UnitLimited
  import opened Installs

  /** Below level 0, the runs of a level that may hold one run share no key. */
  ghost predicate Tamed(levels: Levels, runsAt: nat -> nat) {
    forall l: nat :: l >= 1 && runsAt(l) <= 1 ==> KeyDisjoint(LevelAt(levels, l))
  }

  /** However the output is cut into tables, and whether or not it is folded, the levels stay tamed. */
  ghost predicate StaysTamed(levels: Levels, job: Job, runsAt: nat -> nat) {
    forall run: Option<Run>, fold: bool ::
        Writes(run, Output(levels, job)) ==> Tamed(Installed(levels, job, run, fold), runsAt)
  }

  // ---------------------------------------------------------------------
  // Thinning a level
  // ---------------------------------------------------------------------

  /** Some of the runs, in which nothing new is shared. */
  ghost predicate Thinned(a: seq<Run>, b: seq<Run>) {
    (forall run :: run in a ==> run in b) && (KeyDisjoint(b) ==> KeyDisjoint(a))
  }

  lemma {:induction false} PruneRunsThins(runs: seq<Run>)
    ensures Thinned(PruneRuns(runs), runs)
  {
    hide Lookup, EntriesOf;
    if |runs| != 0 {
      PruneRunsThins(runs[1..]);
      PruneRunsMembers(runs);
      var rest := PruneRuns(runs[1..]);
      if KeyDisjoint(runs) {
        forall i, j, key: Key | 0 <= i < j < |runs[1..]|
          ensures Lookup(EntriesOf(runs[1..][i].tables), key).None? || Lookup(EntriesOf(runs[1..][j].tables), key).None?
        {
          assert runs[1..][i] == runs[i + 1] && runs[1..][j] == runs[j + 1];
        }
        FirstSharesNothing(runs, rest);
      }
    }
  }

  lemma FirstSharesNothing(runs: seq<Run>, rest: seq<Run>)
    requires |runs| > 0 && KeyDisjoint(runs) && KeyDisjoint(rest) && forall run :: run in rest ==> run in runs[1..]
    ensures KeyDisjoint([runs[0]] + rest)
  {
    hide Lookup, EntriesOf;
    var all := [runs[0]] + rest;
    forall i, j, key: Key | 0 <= i < j < |all|
      ensures Lookup(EntriesOf(all[i].tables), key).None? || Lookup(EntriesOf(all[j].tables), key).None?
    {
      if i == 0 {
        assert all[j] in rest;
        var n :| 0 <= n < |runs[1..]| && runs[1..][n] == all[j];
        assert runs[n + 1] == all[j];
      }
    }
  }

  lemma ThinnedItself(runs: seq<Run>)
    ensures Thinned(runs, runs)
  {}

  lemma PruneAtThins(levels: Levels, m: nat, l: nat)
    ensures Thinned(LevelAt(PruneAt(levels, m), l), LevelAt(levels, l))
  {
    if m < |levels| && l == m { PruneRunsThins(levels[l]); } else { ThinnedItself(LevelAt(levels, l)); }
  }

  lemma {:induction false} PruneSourcesThins(levels: Levels, sources: seq<LevelFiles>, l: nat)
    ensures Thinned(LevelAt(PruneSources(levels, sources), l), LevelAt(levels, l))
    decreases |sources|
  {
    hide PruneAt, KeyDisjoint;
    if |sources| == 0 {
      ThinnedItself(LevelAt(levels, l));
    } else {
      PruneAtThins(levels, sources[0].level, l);
      PruneSourcesThins(PruneAt(levels, sources[0].level), sources[1..], l);
    }
  }

  lemma PruneThins(levels: Levels, job: Job, l: nat)
    ensures Thinned(LevelAt(Prune(levels, job), l), LevelAt(levels, l))
  {
    hide PruneAt, PruneSources, KeyDisjoint;
    PruneSourcesThins(levels, job.sources, l);
    PruneAtThins(PruneSources(levels, job.sources), job.target, l);
  }

  /** Taking files from runs that share nothing leaves runs that share nothing. */
  lemma TakingKeepsDisjoint(levels: Levels, selections: seq<Selection>, l: nat)
    requires SoundLevels(levels) && Increasing(selections) && KeyDisjoint(LevelAt(levels, l))
    ensures KeyDisjoint(LevelAt(After(levels, selections), l))
  {
    hide Lookup, EntriesOf, After, SoundLevels, Increasing;
    AfterAt(levels, selections, l, 0);
    var runs := LevelAt(After(levels, selections), l);
    forall i, j, key: Key | 0 <= i < j < |runs|
      ensures Lookup(EntriesOf(runs[i].tables), key).None? || Lookup(EntriesOf(runs[j].tables), key).None?
    {
      HeldSplits(levels, selections, l, i, key);
      HeldSplits(levels, selections, l, j, key);
    }
  }

  // ---------------------------------------------------------------------
  // Installing
  // ---------------------------------------------------------------------

  /** Levels other than the target only lose files and empty runs. */
  lemma OtherLevelsStayDisjoint(levels: Levels, job: Job, run: Option<Run>, fold: bool, l: nat)
    requires SoundLevels(levels) && Increasing(Selections(job)) && KeyDisjoint(LevelAt(levels, l)) && l != job.target
    ensures KeyDisjoint(LevelAt(Installed(levels, job, run, fold), l))
  {
    hide SoundLevels, Increasing, After, Prune, Extend, KeyDisjoint, Coalesce;
    var after := After(levels, Selections(job));
    TakingKeepsDisjoint(levels, Selections(job), l);
    PruneThins(after, job, l);
    ExtendKeepsLevel(Prune(after, job), job.target, l);
  }

  lemma ExtendKeepsLevel(levels: Levels, target: nat, l: nat)
    ensures LevelAt(Extend(levels, target), l) == LevelAt(levels, l)
  {
    ExtendKeeps(levels, target, []);
  }

  /** The target stays free of shared keys when nothing left there has a key of the output. */
  lemma TargetStaysDisjoint(levels: Levels, job: Job, run: Option<Run>, fold: bool)
    requires SoundLevels(levels) && Increasing(Selections(job)) && KeyDisjoint(LevelAt(levels, job.target))
    requires Writes(run, Output(levels, job))
    requires forall key: Key, r: nat :: !NotTaken(levels, Selections(job), key) ==>
               HeldAt(After(levels, Selections(job)), job.target, r, key).None?
    ensures KeyDisjoint(LevelAt(Installed(levels, job, run, fold), job.target))
  {
    hide SoundLevels, Increasing, After, Prune, Extend, KeyDisjoint, Coalesce, Output, NotTaken, HeldAt, Lookup,
         EntriesOf, Sound;
    var after := After(levels, Selections(job));
    TakingKeepsDisjoint(levels, Selections(job), job.target);
    PruneThins(after, job, job.target);
    var left := LevelAt(Prune(after, job), job.target);
    ExtendKeepsLevel(Prune(after, job), job.target, job.target);
    if run.Some? {
      forall key: Key, other | other in left
        ensures Lookup(EntriesOf(run.value.tables), key).None? || Lookup(EntriesOf(other.tables), key).None?
      {
        if Lookup(EntriesOf(run.value.tables), key).Some? {
          OutputHolds(levels, job, key);
          assert other in LevelAt(after, job.target);
          LeftOverHolds(after, job.target, other, key);
        }
      }
      OneMoreDisjoint(run.value, left);
      FoldingKeepsDisjoint([run.value] + left);
    } else {
      FoldingKeepsDisjoint(left);
    }
  }

  lemma LeftOverHolds(levels: Levels, l: nat, run: Run, key: Key)
    requires run in LevelAt(levels, l) && forall r: nat :: HeldAt(levels, l, r, key).None?
    ensures Lookup(EntriesOf(run.tables), key).None?
  {
    hide Lookup, EntriesOf;
    var r: nat :| r < |levels[l]| && levels[l][r] == run;
    assert HeldAt(levels, l, r, key).None?;
  }

  lemma OneMoreDisjoint(run: Run, runs: seq<Run>)
    requires KeyDisjoint(runs)
    requires forall key: Key, other :: other in runs ==>
               Lookup(EntriesOf(run.tables), key).None? || Lookup(EntriesOf(other.tables), key).None?
    ensures KeyDisjoint([run] + runs)
  {
    hide Lookup, EntriesOf;
  }

  lemma FoldingKeepsDisjoint(runs: seq<Run>)
    requires KeyDisjoint(runs)
    ensures KeyDisjoint(Coalesce(runs))
  {
    hide Lookup, EntriesOf, HasRange, Separated, SortBy, AllTables;
  }

  // ---------------------------------------------------------------------
  // The policy
  // ---------------------------------------------------------------------

  /** Whatever the growth scheme asks for, the job planned for a tamed tree changes no answer, exactly when a
      merge of the newest units of a level uncovers nothing. */
  lemma FluidIsSafeExactlyWhen(levels: Levels, request: Request, runsAt: nat -> nat)
    requires SoundLevels(levels) && NoEmptyFiles(levels) && Tamed(levels, runsAt) && IsScheduled(request)
    requires FluidPlan(levels, request, runsAt).Some?
    ensures var job := FluidPlan(levels, request, runsAt).value;
            Preserves(levels, job) <==> UncoversNothing(levels, request, job)
  {
    hide SoundLevels, NoEmptyFiles, KeyDisjoint, LevelingPlan, TieringPlan, ValidJob, IsDeepestLevel, Preserves,
         Uncovers;
    if runsAt(request.target) > 1 {
      TieringPreservesExactlyWhen(levels, request);
    } else if IsWhole(request) {
      LevelingWholeIsSafe(levels, request);
      ValidJobPreserves(levels, LevelingPlan(levels, request).value);
    } else {
      LevelingLimitedPreservesExactlyWhen(levels, request);
    }
  }

  /** And its execution leaves a tamed tree, so the same holds of the next job. */
  lemma FluidStaysTamed(levels: Levels, request: Request, runsAt: nat -> nat)
    requires SoundLevels(levels) && NoEmptyFiles(levels) && Tamed(levels, runsAt) && IsScheduled(request)
    requires FluidPlan(levels, request, runsAt).Some?
    ensures StaysTamed(levels, FluidPlan(levels, request, runsAt).value, runsAt)
  {
    FluidTarget(levels, request, runsAt);
    hide SoundLevels, NoEmptyFiles, KeyDisjoint, FluidPlan, Increasing, Installed, Writes, Output, HeldAt, After,
         NotTaken;
    var job := FluidPlan(levels, request, runsAt).value;
    forall run: Option<Run>, fold: bool | Writes(run, Output(levels, job))
      ensures Tamed(Installed(levels, job, run, fold), runsAt)
    {
      forall l: nat | l >= 1 && runsAt(l) <= 1 ensures KeyDisjoint(LevelAt(Installed(levels, job, run, fold), l)) {
        if l == job.target {
          TargetStaysDisjoint(levels, job, run, fold);
        } else {
          OtherLevelsStayDisjoint(levels, job, run, fold, l);
        }
      }
    }
  }

  /** A job of the policy goes where the request says, and if one run may be there it leaves nothing there
      of the keys it takes. */
  lemma FluidTarget(levels: Levels, request: Request, runsAt: nat -> nat)
    requires SoundLevels(levels) && NoEmptyFiles(levels) && Tamed(levels, runsAt) && IsScheduled(request)
    requires FluidPlan(levels, request, runsAt).Some?
    ensures var job := FluidPlan(levels, request, runsAt).value;
            && job.target == request.target && Increasing(Selections(job))
            && (job.target >= 1 && runsAt(job.target) <= 1 ==> forall key: Key, r: nat ::
                !NotTaken(levels, Selections(job), key) ==>
                 HeldAt(After(levels, Selections(job)), job.target, r, key).None?)
  {
    hide SoundLevels, NoEmptyFiles, KeyDisjoint, LevelingPlan, TieringPlan, After, HeldAt, HeldBy, Increasing,
         Selections, NotTaken;
    if runsAt(request.target) <= 1 { LevelingTarget(levels, request); } else { TieringTarget(levels, request); }
  }

  /** Leveling leaves nothing at its target of the keys it takes, when the runs there share none. */
  lemma LevelingTarget(levels: Levels, request: Request)
    requires SoundLevels(levels) && NoEmptyFiles(levels) && LevelingPlan(levels, request).Some? && IsScheduled(request)
    requires request.target >= 1 ==> KeyDisjoint(LevelAt(levels, request.target))
    ensures var job := LevelingPlan(levels, request).value;
            && job.target == request.target && Increasing(Selections(job))
            && (job.target >= 1 ==> forall key: Key, r: nat :: !NotTaken(levels, Selections(job), key) ==>
                 HeldAt(After(levels, Selections(job)), job.target, r, key).None?)
  {
    hide SoundLevels, NoEmptyFiles, KeyDisjoint, LevelingPlan, After, HeldAt, HeldBy, Increasing;
    LevelingParts(levels, request);
    var job := LevelingPlan(levels, request).value;
    if request.target >= 1 {
      forall key: Key, r: nat | !NotTaken(levels, Selections(job), key)
        ensures HeldAt(After(levels, Selections(job)), job.target, r, key).None?
      {
        var n :| 0 <= n < |Selections(job)| && HeldBy(levels, Selections(job)[n], key).Some?;
        var i := FirstTakenExists(levels, Selections(job), n, key);
        if IsWhole(request) {
          LevelingClears(levels, request, i, key, job.target, r);
        } else {
          SelectionLevel(Selections(job), job, request, i);
          HeldOnceInTarget(levels, Selections(job), i, r, key);
        }
      }
    }
  }

  lemma TieringTarget(levels: Levels, request: Request)
    requires TieringPlan(levels, request).Some?
    ensures TieringPlan(levels, request).value.target == request.target
    ensures Increasing(Selections(TieringPlan(levels, request).value))
  {
    SourcesInOrder(levels, request, request.first);
    TieringSelections(levels, request);
  }

  /** A flush only touches level 0. */
  lemma FlushStaysTamed(levels: Levels, run: Option<Run>, runsAt: nat -> nat)
    requires Tamed(levels, runsAt)
    ensures Tamed(Insert(Extend(levels, 0), 0, run), runsAt)
  {
    hide KeyDisjoint, Extend;
    forall l: nat | l >= 1 && runsAt(l) <= 1 ensures KeyDisjoint(LevelAt(Insert(Extend(levels, 0), 0, run), l)) {
      ExtendKeepsLevel(levels, 0, l);
    }
  }

  /** Reopening a tree keeps it tamed. */
  lemma SameRunsAsTame(a: Levels, b: Levels, runsAt: nat -> nat)
    requires SameRuns(a, b) && Tamed(b, runsAt)
    ensures Tamed(a, runsAt)
  {
    hide KeyDisjoint;
    forall l: nat | l >= 1 && runsAt(l) <= 1 ensures KeyDisjoint(LevelAt(a, l)) {
      assert LevelAt(a, l) == LevelAt(b, l);
    }
  }
}
