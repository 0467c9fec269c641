/** The storage engine over a directory that a crash can leave in any of the states it passes through
    (src/storage/lsm.rs). */
module LsmEngines {
  import opened Octets
  import opened Bytes
  import opened SortedEntries
  import opened Merges
  import opened LsmTrees
  import opened Compactions
  import opened Coalescing
  import opened Disks
  import opened Commits
  import opened Installs
  import opened Planning
  import opened UnitLimited
  import opened Fluids
  import opened Failures
  import opened Units
  import Manifests
  import MemTables
  import SSTableFormat
  import SSTableWriters
  import SSTables
  import TableSizes
  import Wals

  /** `runsAt` is how many runs the merge policy lets a level hold. */
  datatype Config = Config(memtableThreshold: nat, targetFileSize: nat, foldRuns: bool, maxCompactions: nat,
                           runsAt: nat -> nat)

  // ---------------------------------------------------------------------
  // New files
  // ---------------------------------------------------------------------

  /** The tables of a new run, under the names of its sequence number. */
  ghost predicate Fresh(files: map<string, seq<Entry>>, tables: seq<TableFile>, level: nat, sequence: nat) {
    forall i: nat :: i < |tables| ==>
      && tables[i].name == Manifests.TableFilename(level, sequence, i)
      && OnDisk(files, tables[i])
  }

  lemma FreshAreDistinct(files: map<string, seq<Entry>>, tables: seq<TableFile>, level: nat, sequence: nat, i: nat,
                         j: nat)
    requires Fresh(files, tables, level, sequence) && i < |tables| && j < |tables| && tables[i].name == tables[j].name
    ensures i == j
  {
    hide Manifests.TableFilename;
    Manifests.FilenamesAreDistinct(level, sequence, i, level, sequence, j);
  }

  lemma {:induction false} CountsOnce(tables: seq<TableFile>, t: TableFile)
    requires forall i, j :: 0 <= i < j < |tables| ==> tables[i] != tables[j]
    ensures multiset(tables)[t] <= 1
  {
    if |tables| != 0 {
      CountsOnce(tables[1..], t);
      assert tables == [tables[0]] + tables[1..];
      if t == tables[0] {
        assert t !in tables[1..];
        assert t !in multiset(tables[1..]);
      }
    }
  }

  /** Old tables and the new run's tables together still have names of their own. */
  lemma FiledTogether(files: map<string, seq<Entry>>, before: multiset<TableFile>, tables: seq<TableFile>, level: nat,
                      next: nat)
    requires Filed(files, before, next) && Fresh(files, tables, level, next)
    ensures Filed(files, before + multiset(tables), next + 1)
  {
    hide Filed, Fresh;
    forall t ensures (before + multiset(tables))[t] <= 1 { TablesCountOnce(files, before, tables, level, next, t); }
    FiledAll(files, before, tables, before + multiset(tables), level, next);
  }

  lemma FiledAll(files: map<string, seq<Entry>>, before: multiset<TableFile>, tables: seq<TableFile>,
                 all: multiset<TableFile>, level: nat, next: nat)
    requires Filed(files, before, next) && Fresh(files, tables, level, next)
    requires (forall t :: t in all <==> t in before || t in tables) && forall t :: all[t] <= 1
    ensures Filed(files, all, next + 1)
  {
    NewTablesAreGenerated(files, tables, level, next);
    hide Generated, Fresh;
    forall t | t in all ensures OnDisk(files, t) && Generated(t.name, next + 1) {
      if t in before { StillGenerated(t.name, next); }
    }
    forall t, u | t in all && u in all && t.name == u.name ensures t == u {
      SameNameSameTable(files, before, tables, level, next, t, u);
    }
  }

  lemma NewTablesAreGenerated(files: map<string, seq<Entry>>, tables: seq<TableFile>, level: nat, next: nat)
    requires Fresh(files, tables, level, next)
    ensures forall t :: t in tables ==> OnDisk(files, t) && Generated(t.name, next + 1)
  {
    hide Manifests.TableFilename;
  }

  lemma TablesCountOnce(files: map<string, seq<Entry>>, before: multiset<TableFile>, tables: seq<TableFile>, level: nat,
                        next: nat, t: TableFile)
    requires Filed(files, before, next) && Fresh(files, tables, level, next)
    ensures (before + multiset(tables))[t] <= 1
  {
    hide Manifests.TableFilename, Generated;
    forall i, j | 0 <= i < j < |tables| ensures tables[i] != tables[j] {
      if tables[i].name == tables[j].name { FreshAreDistinct(files, tables, level, next, i, j); }
    }
    CountsOnce(tables, t);
    if t in before && t in tables { NewNamesAreNew(files, before, tables, level, next, t, t); }
    assert t in multiset(tables) ==> t in tables;
  }

  lemma StillGenerated(name: string, next: nat)
    requires Generated(name, next)
    ensures Generated(name, next + 1)
  {}

  lemma NewNamesAreNew(files: map<string, seq<Entry>>, before: multiset<TableFile>, tables: seq<TableFile>, level: nat,
                       next: nat, t: TableFile, u: TableFile)
    requires Filed(files, before, next) && Fresh(files, tables, level, next) && t in before && u in tables
    ensures t.name != u.name
  {
    hide Manifests.TableFilename, Generated;
    var j: nat :| j < |tables| && tables[j] == u;
    assert Generated(t.name, next);
    FreshName(t.name, next, level, next, j);
  }

  lemma SameNameSameTable(files: map<string, seq<Entry>>, before: multiset<TableFile>, tables: seq<TableFile>,
                          level: nat, next: nat, t: TableFile, u: TableFile)
    requires Filed(files, before, next) && Fresh(files, tables, level, next) && t.name == u.name
    requires (t in before || t in tables) && (u in before || u in tables)
    ensures t == u
  {
    hide Manifests.TableFilename, Generated;
    if t in tables && u in tables {
      var i: nat :| i < |tables| && tables[i] == t;
      var j: nat :| j < |tables| && tables[j] == u;
      FreshAreDistinct(files, tables, level, next, i, j);
    } else if t in before && u in tables {
      NewNamesAreNew(files, before, tables, level, next, t, u);
    } else if t in tables && u in before {
      NewNamesAreNew(files, before, tables, level, next, u, t);
    }
  }

  /** Of tables with names of their own, those taken share no name with those kept. */
  lemma FiledParts(files: map<string, seq<Entry>>, kept: multiset<TableFile>, taken: multiset<TableFile>, next: nat)
    requires Filed(files, kept + taken, next)
    ensures Filed(files, kept, next)
    ensures forall t, u :: t in kept && u in taken ==> t.name != u.name
  {
    hide Generated;
    var all := kept + taken;
    forall t ensures kept[t] <= 1 { assert all[t] <= 1; }
    forall t | t in kept ensures t in all {}
    forall t, u | t in kept && u in taken ensures t.name != u.name {
      assert t in all && u in all && all[t] == kept[t] + taken[t] <= 1;
    }
  }

  // ---------------------------------------------------------------------
  // A write's effect on every key
  // ---------------------------------------------------------------------

  lemma WriteReads(memtable: seq<Entry>, levels: Levels, e: Entry, key: Key)
    requires Ascending(memtable)
    ensures ReadTree(MemTables.Insert(memtable, e), levels, key)
         == if key == e.key then Some(e.value) else ReadTree(memtable, levels, key)
  {
    MemTables.LookupInsert(memtable, e, key);
  }

  /** A flush: the run in front of level 0 answers what the memtable answered. */
  lemma FlushReads(memtable: seq<Entry>, levels: Levels, run: Option<Run>, key: Key)
    requires Writes(run, memtable)
    ensures var levels' := Insert(Extend(levels, 0), 0, run);
            ReadTree([], levels', key) == ReadTree(memtable, levels', key) == ReadTree(memtable, levels, key)
  {
    hide ReadLevels, Lookup, EntriesOf, Sound, Extend, Insert, Tables;
    var extended := Extend(levels, 0);
    ExtendKeeps(levels, 0, key);
    InsertReads(extended, 0, run, key);
    assert extended[..0] == [] && extended[0..] == extended;
    NothingToReadIn(key);
    LookupNone([], key);
  }

  // ---------------------------------------------------------------------
  // Pieces of the engine
  // ---------------------------------------------------------------------

  /** The part of a run's files a selection names, and the rest. */
  method TakeFrom(tables: seq<TableFile>, files: seq<nat>) returns (taken: seq<TableFile>, left: seq<TableFile>)
    ensures taken == Pick(tables, files) && left == Leave(tables, files)
  {
    taken, left := [], [];
    for i := 0 to |tables|
      invariant taken == Pick(tables[..i], files) && left == Leave(tables[..i], files)
    {
      assert tables[..i + 1][..i] == tables[..i] && tables[..i + 1][i] == tables[i];
      if i in files { taken := taken + [tables[i]]; } else { left := left + [tables[i]]; }
    }
    assert tables[..|tables|] == tables;
  }

  method PruneEmptyRuns(runs: seq<Run>) returns (r: seq<Run>)
    ensures r == PruneRuns(runs)
  {
    r := [];
    var i := |runs|;
    while i > 0
      invariant 0 <= i <= |runs| && r == PruneRuns(runs[i..])
    {
      i := i - 1;
      assert runs[i..][0] == runs[i] && runs[i..][1..] == runs[i + 1..];
      if |runs[i].tables| > 0 { r := [runs[i]] + r; }
    }
    assert runs[0..] == runs;
  }

  /** What the growth scheme and the merge policy answer when asked for work. */
  datatype Plan = Quiet | NothingToDo | Compact(job: Job)

  type Planner = (nat, Levels) -> Plan

  /** Executing the job changes no answer and leaves the tree tamed. */
  ghost predicate SafeJob(levels: Levels, job: Job, runsAt: nat -> nat) {
    Increasing(Selections(job)) && Preserves(levels, job) && StaysTamed(levels, job, runsAt)
  }

  /** Every job planned for a sound, tamed tree is safe. */
  ghost predicate SafePlanner(planner: Planner, runsAt: nat -> nat) {
    forall step: nat, levels: Levels ::
      SoundLevels(levels) && Tamed(levels, runsAt) && planner(step, levels).Compact? ==>
        SafeJob(levels, planner(step, levels).job, runsAt)
  }

  /** What a growth scheme asks for at each step, if anything. */
  type Scheme = (nat, Levels) -> Option<Request>

  /** The planner asks the scheme, then the policy of the target level. */
  ghost predicate PlansFor(planner: Planner, scheme: Scheme, runsAt: nat -> nat) {
    forall step: nat, levels: Levels :: SoundLevels(levels) && NoEmptyFiles(levels) ==>
      planner(step, levels)
      == match scheme(step, levels)
         case None => Quiet
         case Some(request) =>
           match FluidPlan(levels, request, runsAt)
           case None => NothingToDo
           case Some(job) => Compact(job)
  }

  /** Whatever whole levels and newest units a scheme asks for, planning them with one policy a level is safe
      exactly when no merge of the newest units uncovers anything. */
  lemma FluidPlannerIsSafeExactlyWhen(planner: Planner, scheme: Scheme, runsAt: nat -> nat)
    requires PlansFor(planner, scheme, runsAt)
    requires forall step: nat, levels: Levels :: scheme(step, levels).Some? ==> IsScheduled(scheme(step, levels).value)
    ensures SafePlanner(planner, runsAt)
            <==> forall step: nat, levels: Levels ::
                   SoundLevels(levels) && Tamed(levels, runsAt) && scheme(step, levels).Some?
                     && planner(step, levels).Compact? ==>
                   UncoversNothing(levels, scheme(step, levels).value, planner(step, levels).job)
  {
    hide SoundLevels, NoEmptyFiles, Tamed, Preserves, StaysTamed, FluidPlan, IsScheduled, UncoversNothing, Increasing;
    forall step: nat, levels: Levels | SoundLevels(levels) && Tamed(levels, runsAt) && planner(step, levels).Compact?
      ensures scheme(step, levels).Some?
      ensures SafeJob(levels, planner(step, levels).job, runsAt)
              <==> UncoversNothing(levels, scheme(step, levels).value, planner(step, levels).job)
    {
      SoundHasNoEmptyFiles(levels);
      var request := scheme(step, levels).value;
      FluidIsSafeExactlyWhen(levels, request, runsAt);
      FluidStaysTamed(levels, request, runsAt);
      FluidTarget(levels, request, runsAt);
    }
  }

  /** How each input group's read goes: it may fail after some entries. */
  type Outcomes = nat -> Option<nat>

  /** How the reads of the compactions after a flush go, one compaction after the other. */
  type Trials = nat -> Outcomes

  function InputOf(group: seq<Entry>, fails: Option<nat>): Source {
    if fails.None? || fails.value > |group| then Source(group, false) else Source(group[..fails.value], true)
  }

  function RestOf(group: seq<Entry>, fails: Option<nat>): seq<Entry> {
    if fails.None? || fails.value > |group| then [] else group[fails.value..]
  }

  ghost predicate AllReadable(groups: seq<seq<Entry>>, outcome: Outcomes) {
    forall i: nat :: i < |groups| ==> !InputOf(groups[i], outcome(i)).fails
  }

  /** Merge the groups; a failing read leaves a prefix of the merge. */
  method MergeGroups(groups: seq<seq<Entry>>, dropping: bool, outcome: Outcomes) returns (out: seq<Entry>, ok: bool)
    requires AllAscending(groups)
    ensures out <= MergeOf(groups, dropping)
    ensures ok ==> out == MergeOf(groups, dropping)
    ensures AllReadable(groups, outcome) ==> ok
  {
    hide MergeOf, Ascending;
    var inputs := seq(|groups|, i requires 0 <= i < |groups| => InputOf(groups[i], outcome(i)));
    ghost var failures := Failures(seq(|groups|, i requires 0 <= i < |groups| => InputOf(groups[i], outcome(i)).fails),
                                   seq(|groups|, i requires 0 <= i < |groups| => RestOf(groups[i], outcome(i))));
    ghost var start := Heads(inputs, map[]);
    forall i | 0 <= i < |groups| ensures failures.Completed(start, i) == groups[i] {
      InputAndRest(groups[i], outcome(i));
    }
    assert failures.View(start) == groups;
    var merge := new MergeIterator(inputs, dropping, failures);
    var failed;
    out, failed := Drain(merge);
    ok := !failed;
  }

  lemma InputAndRest(group: seq<Entry>, fails: Option<nat>)
    ensures var input := InputOf(group, fails);
            [] + input.entries + (if input.fails then RestOf(group, fails) else []) == group
  {}

  /** The order of the groups a job merges. */
  method Groups(taken: seq<seq<TableFile>>) returns (groups: seq<seq<Entry>>)
    ensures groups == MergeSources(taken)
  {
    groups := seq(|taken|, i requires 0 <= i < |taken| => EntriesOf(taken[i]));
  }

  // ---------------------------------------------------------------------
  // The engine
  // ---------------------------------------------------------------------

  /** The disk stands for a tamed tree that answers every key as this memtable and these levels do. */
  ghost predicate Recovers(runsAt: nat -> nat, disk: Disk, memtable: seq<Entry>, levels: Levels) {
    exists held: Levels, next: nat ::
      Stands(disk, held, next) && Tamed(held, runsAt) && SameAnswers(Replay(disk.wal), held, memtable, levels)
  }

  /** Every disk the directory went through from position n on recovers with the answers of this memtable over
      the levels stored at the start or over those served. */
  ghost predicate CrashSafe(runsAt: nat -> nat, trace: seq<Disk>, n: nat, memtable: seq<Entry>, stored: Levels,
                            served: Levels) {
    forall i :: n <= i < |trace| ==>
      Recovers(runsAt, trace[i], memtable, stored) || Recovers(runsAt, trace[i], memtable, served)
  }

  /** The same with the tree on disk named. */
  ghost predicate AllStand(trace: seq<Disk>, n: nat, levels: Levels, next: nat, wal: seq<Entry>) {
    forall i :: n <= i < |trace| ==> Stands(trace[i], levels, next) && trace[i].wal == wal
  }

  lemma StandingIsCrashSafe(runsAt: nat -> nat, trace: seq<Disk>, n: nat, held: Levels, next: nat, wal: seq<Entry>,
                            memtable: seq<Entry>, stored: Levels, served: Levels)
    requires AllStand(trace, n, held, next, wal) && Tamed(held, runsAt)
    requires SameAnswers(Replay(wal), held, memtable, stored) || SameAnswers(Replay(wal), held, memtable, served)
    ensures CrashSafe(runsAt, trace, n, memtable, stored, served)
  {
    hide Stands, SameAnswers, Replay, Tamed;
  }

  /** These levels could be committed as they are. */
  ghost predicate Committable(disk: Disk, levels: Levels, next: nat) {
    Stands(disk.(manifest := Some(ManifestOf(levels, next))), levels, next)
  }

  lemma StandsIsCommittable(disk: Disk, levels: Levels, next: nat)
    requires Stands(disk, levels, next)
    ensures Committable(disk, levels, next)
  {
    hide SoundLevels, Live, Filed, RunEntries;
  }

  /** The directory stands for one tree, and another could be committed over it. */
  ghost predicate Holds(disk: Disk, held: Levels, heldNext: nat, kept: Levels, sequence: nat) {
    Stands(disk, held, heldNext) && heldNext <= sequence && Committable(disk, kept, sequence)
  }

  /** The first n entries of a file are there. */
  ghost predicate PartWritten(before: Disk, disk: Disk, name: string, entries: seq<Entry>, n: nat) {
    n <= |entries| && disk == before.(files := before.files[name := entries[..n]])
  }

  lemma OverwritesPart(before: Disk, disk: Disk, name: string, entries: seq<Entry>, n: nat)
    requires n <= |entries| && (disk == before || exists i ::
                                0 <= i <= |entries| && disk == before.(files := before.files[name := entries[..i]]))
    ensures disk.(files := disk.files[name := entries[..n]]) == before.(files := before.files[name := entries[..n]])
    ensures PartWritten(before, disk.(files := disk.files[name := entries[..n]]), name, entries, n)
  {
    assert disk.files[name := entries[..n]] == before.files[name := entries[..n]];
  }

  /** An empty directory is an empty tree. */
  lemma NewDatabaseRecovers(runsAt: nat -> nat)
    ensures Recovers(runsAt, Disk(map[], None, []), [], [])
  {
    assert Stands(Disk(map[], None, []), [], 1);
  }

  /** What opening finds in a directory that recovers. */
  lemma OpeningFinds(runsAt: nat -> nat, found: Disk, memtable: seq<Entry>, levels: Levels)
    requires Recovers(runsAt, found, memtable, levels)
    ensures Reopen(found).Some?
    ensures var reopened := Reopen(found).value;
            && Stands(found, reopened.levels, reopened.next) && Tamed(reopened.levels, runsAt)
            && SameAnswers(Replay(found.wal), reopened.levels, memtable, levels) && Ascending(Replay(found.wal))
  {
    var held: Levels, next: nat :|
      Stands(found, held, next) && Tamed(held, runsAt) && SameAnswers(Replay(found.wal), held, memtable, levels);
    ReopenFindsTree(found, held, next);
    ReopenedStands(found, held, next);
    ReplayAscends(found.wal);
    hide Stands, Replay, Reopen, ReadTree, Tamed, SameRuns, Ascending;
    SameRunsAsTame(Reopen(found).value.levels, held, runsAt);
  }

  /** Deleting a file no manifest names changes nothing that opening finds. */
  lemma SweepingRecovers(runsAt: nat -> nat, disk: Disk, names: set<string>, memtable: seq<Entry>, levels: Levels)
    requires Recovers(runsAt, disk, memtable, levels) && names !! Referenced(disk.manifest)
    ensures Recovers(runsAt, disk.(files := disk.files - names), memtable, levels)
  {
    hide Stands, Tamed, SameAnswers, Replay, Referenced;
    var held: Levels, next: nat :|
      Stands(disk, held, next) && Tamed(held, runsAt) && SameAnswers(Replay(disk.wal), held, memtable, levels);
    SweepingKeepsStanding(disk, held, next, names);
    RecoversAs(runsAt, disk.(files := disk.files - names), held, next, memtable, levels);
  }

  /** The levels that a failed compaction began with, and its job. */
  datatype Loss = Loss(whole: Levels, job: Job)

  /** The job was planned for these levels, an input of it could not be read, and its inputs are missing from
      what is left. */
  ghost predicate Lacks(planner: Planner, trials: Trials, loss: Loss, left: Levels) {
    && SoundLevels(loss.whole) && Increasing(Selections(loss.job)) && left == Lossy(loss.whole, loss.job)
    && exists step: nat :: planner(step, loss.whole) == Compact(loss.job) && Unreadable(trials(step), loss)
  }

  ghost predicate Unreadable(outcome: Outcomes, loss: Loss) {
    !AllReadable(MergeSources(Taken(loss.whole, Selections(loss.job))), outcome)
  }

  /** No compaction finds an input that it cannot read. */
  ghost predicate AllRead(trials: Trials) {
    forall step: nat, i: nat :: trials(step)(i).None?
  }

  /** A failed compaction loses the answer of exactly the keys that it forgets and the memtable does not have. */
  lemma ForgottenKeys(memtable: seq<Entry>, levels: Levels, job: Job, key: Key)
    requires SoundLevels(levels) && Increasing(Selections(job))
    ensures Visible(ReadTree(memtable, Lossy(levels, job), key)) == Visible(ReadTree(memtable, levels, key))
            <==> Lookup(memtable, key).Some? || !Forgets(levels, job, key)
  {
    hide Forgets, Lossy, SoundLevels, Increasing, Lookup, ReadLevels;
    FailedCompactionKeepsKey(levels, job, key);
  }

  /** The same against the answers of another tree. */
  lemma ForgottenAnswers(planner: Planner, trials: Trials, memtable: seq<Entry>, loss: Loss, left: Levels,
                         m0: seq<Entry>, l0: Levels)
    requires Lacks(planner, trials, loss, left) && SameAnswers(memtable, loss.whole, m0, l0)
    ensures forall key: Key :: Visible(ReadTree(memtable, left, key)) == Visible(ReadTree(m0, l0, key))
                               <==> Lookup(memtable, key).Some? || !Forgets(loss.whole, loss.job, key)
  {
    hide Forgets, Lossy, SoundLevels, Increasing, Lookup, ReadTree, Unreadable, Selections;
    forall key: Key ensures Visible(ReadTree(memtable, left, key)) == Visible(ReadTree(m0, l0, key))
                            <==> Lookup(memtable, key).Some? || !Forgets(loss.whole, loss.job, key)
    {
      ForgottenKeys(memtable, loss.whole, loss.job, key);
      assert Visible(ReadTree(memtable, loss.whole, key)) == Visible(ReadTree(m0, l0, key));
    }
  }

  /** Some of the tables that the manifest does not name are gone. */
  ghost predicate PartSwept(found: Disk, disk: Disk) {
    && disk.manifest == found.manifest && disk.wal == found.wal
    && Swept(found).files.Keys <= disk.files.Keys <= found.files.Keys
    && forall name :: name in disk.files ==> disk.files[name] == found.files[name]
  }

  lemma NothingSwept(found: Disk)
    ensures PartSwept(found, found)
  {
    hide Referenced;
  }

  lemma SweptFurther(found: Disk, disk: Disk, next: Disk)
    requires PartSwept(found, disk) && PartSwept(disk, next)
    ensures PartSwept(found, next)
  {
    hide Referenced;
  }

  class LsmTree {
    const config: Config
    var disk: Disk
    var memtable: seq<Entry>
    /** Level 0 is the newest; within a level, runs are newest first. */
    var levels: Levels
    var nextSequence: nat
    /** Every state the directory has been in since it was opened. */
    var trace: seq<Disk>
    /** The tree that the directory stands for: the levels, unless a compaction failed since the last commit. */
    ghost var held: Levels
    ghost var heldNext: nat

    /** What the levels in memory need to be served and committed. */
    ghost predicate Usable()
      reads this
    {
      && Holds(disk, held, heldNext, levels, nextSequence) && Tamed(held, config.runsAt) && Tamed(levels, config.runsAt)
      && memtable == Replay(disk.wal) && Ascending(memtable)
    }

    /** Usable, and the directory stands for the levels in memory. */
    ghost predicate Valid()
      reads this
    {
      Usable() && held == levels && heldNext == nextSequence
    }

    /** What a caller reads under a key. */
    ghost function View(key: Key): Option<seq<byte>>
      reads this
    {
      Visible(ReadTree(memtable, levels, key))
    }

    /** Open a directory in whatever state a crash left it: unreferenced files are deleted one by one, and the
        tree found answers as that state should. */
    constructor Open(found: Disk, config: Config, ghost wrote: seq<Entry>, ghost into: Levels)
      requires Recovers(config.runsAt, found, wrote, into)
      ensures Valid() && SameAnswers(memtable, levels, wrote, into) && this.config == config
      ensures CrashSafe(config.runsAt, trace, 0, wrote, into, into)
      ensures disk == Swept(found) && |trace| > 0 && trace[0] == found
      ensures forall i :: 0 <= i < |trace| ==> PartSwept(found, trace[i])
    {
      hide LsmTree.Valid, SameAnswers, Recovers, CrashSafe, Swept, PartSwept;
      NothingSwept(found);
      this.config := config;
      disk, memtable, levels, nextSequence := found, [], [], 1;
      trace := [found];
      held, heldNext := [], 1;
      new;
      OneCrashSafe(config.runsAt, [], found, wrote, into, into);
      assert [] + [found] == [found];
      Sweep(wrote, into);
      Load(wrote, into);
    }

    /** Build the levels that the manifest lists and replay the log. */
    method Load(ghost wrote: seq<Entry>, ghost into: Levels)
      requires Recovers(config.runsAt, disk, wrote, into)
      modifies this`memtable, this`levels, this`nextSequence, this`held, this`heldNext
      ensures Valid() && SameAnswers(memtable, levels, wrote, into)
    {
      hide Stands, Replay, Reopen, Tamed, SameAnswers, Recovers, Ascending;
      OpeningFinds(config.runsAt, disk, wrote, into);
      var reopened := Reopen(disk).value;
      memtable, levels, nextSequence := Replay(disk.wal), reopened.levels, reopened.next;
      held, heldNext := levels, nextSequence;
      StandsIsCommittable(disk, levels, nextSequence);
    }

    /** Startup deletes every table the manifest does not name, in whatever order the directory lists them. */
    method Sweep(ghost wrote: seq<Entry>, ghost into: Levels)
      requires Recovers(config.runsAt, disk, wrote, into) && |trace| > 0
               && CrashSafe(config.runsAt, trace, 0, wrote, into, into)
      modifies this`disk, this`trace
      ensures Recovers(config.runsAt, disk, wrote, into) && CrashSafe(config.runsAt, trace, 0, wrote, into, into)
      ensures disk == Swept(old(disk)) && |old(trace)| <= |trace| && trace[..|old(trace)|] == old(trace)
      ensures forall i :: |old(trace)| <= i < |trace| ==> PartSwept(old(disk), trace[i])
    {
      hide Recovers, Referenced, CrashSafe;
      var stale := disk.files.Keys - Referenced(disk.manifest);
      while stale != {}
        invariant stale !! Referenced(disk.manifest) && disk.manifest == old(disk.manifest) && disk.wal == old(disk.wal)
        invariant disk.files - stale == Swept(old(disk)).files && PartSwept(old(disk), disk)
        invariant forall i :: |old(trace)| <= i < |trace| ==> PartSwept(old(disk), trace[i])
        invariant Recovers(config.runsAt, disk, wrote, into) && CrashSafe(config.runsAt, trace, 0, wrote, into, into)
        invariant |old(trace)| <= |trace| && trace[..|old(trace)|] == old(trace)
      {
        var name :| name in stale;
        ghost var before := trace;
        SweepingRecovers(config.runsAt, disk, {name}, wrote, into);
        Step(disk.(files := disk.files - {name}));
        stale := stale - {name};
        OneCrashSafe(config.runsAt, before, disk, wrote, into, into);
        CrashSafeJoin(config.runsAt, before, trace, 0, wrote, into, into);
      }
      assert disk.files - {} == disk.files;
    }

    /** One step of the directory. */
    method Step(next: Disk)
      modifies this`disk, this`trace
      ensures disk == next && trace == old(trace) + [next]
    {
      disk := next;
      trace := trace + [next];
    }

    // -----------------------------------------------------------------
    // Reads
    // -----------------------------------------------------------------

    method Get(key: Key) returns (r: Option<seq<byte>>)
      requires Usable()
      ensures r == View(key)
    {
      hide ReadRuns, Lookup, EntriesOf, RunGet, Filed, Live, Names;
      var found := Lookup(memtable, key);
      if found.Some? { return Visible(found); }
      for l := 0 to |levels|
        invariant ReadLevels(levels, key) == ReadLevels(levels[l..], key)
      {
        assert levels[l..][0] == levels[l] && levels[l..][1..] == levels[l + 1..];
        assert SoundRuns(levels[l]);
        var hit := GetInLevel(levels[l], key);
        if hit.Some? { return Visible(hit); }
      }
      NothingToReadIn(key);
      return None;
    }

    /** Every live key in order. */
    method Iter() returns (out: seq<Entry>)
      requires Usable()
      ensures out == LsmTrees.Iter(memtable, levels) && Ascending(out)
      ensures forall key :: Lookup(out, key).Some? <==> View(key).Some?
      ensures forall key :: View(key).Some? ==> Lookup(out, key) == Some(Value.Put(View(key).value))
    {
      hide MergeOf, Ascending, Lookup, ReadTree, Filed, Live, Names, SourcesOf;
      SourcesAscend(memtable, levels);
      var runs := FlatRuns(levels);
      var groups := [memtable] + SourcesOf(runs);
      var ok;
      out, ok := MergeGroups(groups, true, i => None);
      ReadableWithoutFailures(groups);
      forall key ensures (Lookup(out, key).Some? <==> View(key).Some?)
                      && (View(key).Some? ==> Lookup(out, key) == Some(Value.Put(View(key).value)))
      {
        IterAgreesWithGet(memtable, levels, key);
        ScanHoldsVisible(Lookup(out, key), ReadTree(memtable, levels, key));
      }
      IterAgreesWithGet(memtable, levels, []);
    }

    /** Live keys at or after a start: the tail of the full scan. */
    method RangeFrom(start: Key) returns (out: seq<Entry>)
      requires Usable()
      ensures out == From(LsmTrees.Iter(memtable, levels), start)
    {
      RangeIsTailOfIter(memtable, levels, start);
      hide MergeOf, Ascending, From, SourcesOf, Filed, Live, Names, SourceFrom;
      SourcesAscend(memtable, levels);
      FlatRunsSound(levels);
      var runs := FlatRuns(levels);
      var groups := [From(memtable, start)] + SourcesFrom(runs, start);
      SeekedAscend(memtable, levels, start);
      var ok;
      out, ok := MergeGroups(groups, true, i => None);
      ReadableWithoutFailures(groups);
    }

    // -----------------------------------------------------------------
    // Writing runs
    // -----------------------------------------------------------------

    /** Create a file and fill it, entry by entry; whatever part of it is there, until a manifest names it, it
        is inert. */
    method WriteFile(level: nat, sequence: nat, part: nat, entries: seq<Entry>, ghost kept: Levels)
      returns (table: TableFile)
      requires Holds(disk, held, heldNext, kept, sequence)
      modifies this`disk, this`trace
      ensures Holds(disk, held, heldNext, kept, sequence) && disk.wal == old(disk.wal)
              && disk.manifest == old(disk.manifest)
      ensures table == TableFile(Manifests.TableFilename(level, sequence, part), entries)
      ensures disk.files == old(disk.files)[table.name := entries]
      ensures |trace| == |old(trace)| + |entries| + 1 && trace[..|old(trace)|] == old(trace)
      ensures forall i ::
                |old(trace)| <= i < |trace| ==> PartWritten(old(disk), trace[i], table.name, entries, i - |old(trace)|)
      ensures AllStand(trace, |old(trace)|, held, heldNext, old(disk.wal))
    {
      hide Holds, Manifests.TableFilename, AllStand, PartWritten;
      ghost var name := Manifests.TableFilename(level, sequence, part);
      NothingStands(trace, held, heldNext, disk.wal);
      for i := 0 to |entries| + 1
        invariant disk.wal == old(disk.wal) && disk.manifest == old(disk.manifest)
                  && Holds(disk, held, heldNext, kept, sequence)
        invariant i == 0 ==> disk == old(disk)
        invariant i > 0 ==> disk == old(disk).(files := old(disk.files)[name := entries[..i - 1]])
        invariant |trace| == |old(trace)| + i && trace[..|old(trace)|] == old(trace)
        invariant forall j ::
                    |old(trace)| <= j < |trace| ==> PartWritten(old(disk), trace[j], name, entries, j - |old(trace)|)
        invariant AllStand(trace, |old(trace)|, held, heldNext, old(disk.wal))
      {
        ghost var before := trace;
        OverwritesPart(old(disk), disk, name, entries, i);
        WritePart(level, sequence, part, entries[..i], kept);
        AllStandJoin(before, trace, |old(trace)|, held, heldNext, old(disk.wal));
      }
      assert entries[..|entries|] == entries;
      table := TableFile(Manifests.TableFilename(level, sequence, part), entries);
    }

    /** The file's contents so far. */
    method WritePart(level: nat, sequence: nat, part: nat, entries: seq<Entry>, ghost kept: Levels)
      requires Holds(disk, held, heldNext, kept, sequence)
      modifies this`disk, this`trace
      ensures disk == old(disk).(files := old(disk.files)[Manifests.TableFilename(level, sequence, part) := entries])
      ensures Holds(disk, held, heldNext, kept, sequence) && trace == old(trace) + [disk]
      ensures AllStand(trace, |old(trace)|, held, heldNext, disk.wal)
    {
      hide Holds, Manifests.TableFilename, AllStand;
      WritingKeepsHolding(disk, held, heldNext, kept, level, sequence, part, entries);
      Step(disk.(files := disk.files[Manifests.TableFilename(level, sequence, part) := entries]));
      HoldsStands(disk, held, heldNext, kept, sequence);
      OneMoreStands(old(trace), disk, held, heldNext, disk.wal);
    }

    /** Stream entries into a new run, starting a new file whenever the current one reaches its target. */
    method WriteRun(level: nat, sequence: nat, units: nat, entries: seq<Entry>, ghost kept: Levels)
      returns (run: Option<Run>)
      requires Holds(disk, held, heldNext, kept, sequence) && Ascending(entries) && SSTableFormat.AllReadable(entries)
      modifies this`disk, this`trace
      ensures Holds(disk, held, heldNext, kept, sequence) && disk.wal == old(disk.wal)
              && disk.manifest == old(disk.manifest)
      ensures |old(trace)| <= |trace| && AllStand(trace, |old(trace)|, held, heldNext, old(disk.wal))
      ensures trace[..|old(trace)|] == old(trace)
      ensures Writes(run, entries)
      ensures run.Some? ==> run.value.sequence == sequence && run.value.units == units && |run.value.tables| > 0
      ensures run.Some? ==>
                Fresh(disk.files, run.value.tables, level, sequence)
                && AllSmall(run.value.tables, config.targetFileSize)
      ensures run.None? <==> entries == []
    {
      var tables: seq<TableFile> := [];
      var start, bytes := 0, 0;
      EmptyRun();
      hide Holds, Ascending, Fresh, EntriesOf, SSTables.NonEmpty, SSTableFormat.AllReadable, TableSizes.DataBytes;
      NothingStands(trace, held, heldNext, disk.wal);
      NothingSmall(config.targetFileSize);
      hide AllStand, AllSmall;
      for i := 0 to |entries|
        invariant start <= i && bytes == TableSizes.DataBytes(entries[start..i])
                  && (i > 0 ==> |tables| > 0 || start < i)
        invariant (start < i ==> bytes < config.targetFileSize) && (start == i ==> bytes == 0)
        invariant Holds(disk, held, heldNext, kept, sequence) && disk.wal == old(disk.wal)
                  && disk.manifest == old(disk.manifest)
        invariant |old(trace)| <= |trace| && AllStand(trace, |old(trace)|, held, heldNext, old(disk.wal))
        invariant trace[..|old(trace)|] == old(trace)
        invariant EntriesOf(tables) == entries[..start] && SSTables.NonEmpty(Parts(tables))
        invariant Fresh(disk.files, tables, level, sequence) && AllSmall(tables, config.targetFileSize)
      {
        CountedOne(entries, start, i);
        PartOfList(entries, start, i + 1);
        bytes := bytes + |entries[i].key| + |entries[i].value.Payload()|;
        if bytes >= config.targetFileSize {
          ghost var before := trace;
          var table := ClosePart(level, sequence, tables, entries[start..i + 1], kept);
          AllStandJoin(before, trace, |old(trace)|, held, heldNext, disk.wal);
          assert entries[..start] + entries[start..i + 1] == entries[..i + 1];
          OneMoreSmall(tables, table, config.targetFileSize);
          tables := tables + [table];
          start, bytes := i + 1, 0;
        }
      }
      if start < |entries| {
        ghost var before := trace;
        LastPart(entries, start, config.targetFileSize);
        var table := ClosePart(level, sequence, tables, entries[start..], kept);
        AllStandJoin(before, trace, |old(trace)|, held, heldNext, disk.wal);
        assert entries[..start] + entries[start..] == entries;
        OneMoreSmall(tables, table, config.targetFileSize);
        tables := tables + [table];
      } else {
        assert entries[..start] == entries;
      }
      if |tables| == 0 {
        NoEntriesWithoutTables(tables);
        return None;
      }
      SoundWhenNonEmpty(tables, entries);
      return Some(Run(sequence, tables, units));
    }

    /** Finish the file being written. */
    method ClosePart(level: nat, sequence: nat, tables: seq<TableFile>, part: seq<Entry>, ghost kept: Levels)
      returns (table: TableFile)
      requires Holds(disk, held, heldNext, kept, sequence) && |part| > 0 && SSTableFormat.AllReadable(part)
      requires Fresh(disk.files, tables, level, sequence) && SSTables.NonEmpty(Parts(tables))
      modifies this`disk, this`trace
      ensures Holds(disk, held, heldNext, kept, sequence) && disk.wal == old(disk.wal)
              && disk.manifest == old(disk.manifest)
      ensures |old(trace)| <= |trace| && trace[..|old(trace)|] == old(trace)
      ensures AllStand(trace, |old(trace)|, held, heldNext, old(disk.wal))
      ensures table.entries == part
      ensures EntriesOf(tables + [table]) == EntriesOf(tables) + part && SSTables.NonEmpty(Parts(tables + [table]))
      ensures Fresh(disk.files, tables + [table], level, sequence)
    {
      hide Holds, Manifests.TableFilename, EntriesOf, AllStand;
      table := WriteFile(level, sequence, |tables|, part, kept);
      EntriesAppend(tables, table);
      FreshAppend(old(disk.files), tables, table, level, sequence);
      NonEmptyAppend(tables, table);
    }

    // -----------------------------------------------------------------
    // Flushing
    // -----------------------------------------------------------------

    /** Commit the levels in memory: from the rename on, opening the directory finds them, run by run. */
    method StoreManifest()
      requires Committable(disk, levels, nextSequence)
      modifies this`disk, this`trace, this`held, this`heldNext
      ensures held == levels && heldNext == nextSequence && Stands(disk, held, heldNext)
      ensures Reopen(disk).Some? && SameRuns(Reopen(disk).value.levels, levels)
      ensures Reopen(disk).value.next == nextSequence && Reopen(disk).value.memtable == Replay(old(disk.wal))
      ensures disk.files == old(disk.files) && disk.wal == old(disk.wal) && trace == old(trace) + [disk]
    {
      hide Stands, Reopen, Replay, SameRuns;
      Step(disk.(manifest := Some(ManifestOf(levels, nextSequence))));
      held, heldNext := levels, nextSequence;
      ReopenFindsTree(disk, held, heldNext);
    }

    /** Write the memtable out as the newest run of level 0, commit, and only then drop the log. No answer
        changes, and from the commit on the directory stands for the levels in memory, whatever it stood for
        before. */
    method FlushMemtable() returns (wrote: bool)
      requires Usable()
      modifies this
      ensures Usable() && SameAnswers(memtable, levels, old(memtable), old(levels)) && memtable == []
      ensures wrote <==> |old(memtable)| > 0
      ensures wrote ==> Valid()
      ensures !wrote ==> disk == old(disk) && levels == old(levels) && held == old(held) && heldNext == old(heldNext)
                         && nextSequence == old(nextSequence)
      ensures |old(trace)| <= |trace| && trace[..|old(trace)|] == old(trace)
      ensures CrashSafe(config.runsAt, trace, |old(trace)|, old(memtable), old(held), old(levels))
    {
      hide Holds, Committable, Stands, Replay, Ascending, Extend, Insert, Fresh, Writes, SameAnswers, CrashSafe, Tamed;
      ghost var mem, before, stored, next := memtable, levels, held, nextSequence;
      StandsAtOnce(levels, memtable);
      NothingNew(config.runsAt, trace, memtable, held, levels);
      if |memtable| == 0 { return false; }
      var run := WriteMemtable();
      ghost var written := trace;
      HoldsStands(disk, held, heldNext, before, next);
      FlushStep(disk, mem, before, next, run.value, config.runsAt);
      PlaceFlushed(run);
      CommitFlush(mem, stored, before);
      CrashSafeJoin(config.runsAt, written, trace, |old(trace)|, mem, stored, before);
      return true;
    }

    /** Take a sequence number and write the memtable under it; nothing on disk names the files yet. */
    method WriteMemtable() returns (run: Option<Run>)
      requires Usable() && |memtable| > 0
      modifies this`nextSequence, this`memtable, this`disk, this`trace
      ensures nextSequence == old(nextSequence) + 1 && memtable == []
      ensures Holds(disk, held, heldNext, levels, old(nextSequence)) && disk.wal == old(disk.wal)
      ensures run.Some? && Writes(run, old(memtable)) && Fresh(disk.files, run.value.tables, 0, old(nextSequence))
      ensures run.value.sequence == old(nextSequence) && run.value.units == 1 && |run.value.tables| > 0
      ensures |old(trace)| <= |trace| && trace[..|old(trace)|] == old(trace)
      ensures CrashSafe(config.runsAt, trace, |old(trace)|, old(memtable), held, levels)
    {
      hide Holds, Replay, ReadTree, Ascending, Fresh, Writes, SameAnswers, CrashSafe, AllStand, Recovers, Tamed;
      var sequence := nextSequence;
      nextSequence := nextSequence + 1;
      var flushed := memtable;
      memtable := [];
      ReplayedIsReadable(disk, held, heldNext, levels, sequence);
      run := WriteRun(0, sequence, 1, flushed, levels);
      StandsAtOnce(held, flushed);
      StandingIsCrashSafe(config.runsAt, trace, |old(trace)|, held, heldNext, disk.wal, flushed, held, levels);
    }

    method PlaceFlushed(run: Option<Run>)
      requires run.Some?
      modifies this`levels
      ensures levels == Insert(Extend(old(levels), 0), 0, run)
    {
      assert Extend(levels, 0) == if |levels| == 0 then Extend(levels + [[]], 0) else levels;
      if |levels| == 0 { levels := levels + [[]]; }
      levels := levels[0 := [run.value] + levels[0]];
    }

    /** Name the new run in the manifest, then replace the log with an empty one. */
    method CommitFlush(ghost mem: seq<Entry>, ghost stored: Levels, ghost before: Levels)
      requires memtable == [] && mem == Replay(disk.wal) && Tamed(levels, config.runsAt)
      requires Committable(disk, levels, nextSequence)
      requires SameAnswers(mem, levels, mem, before) && SameAnswers([], levels, mem, before)
      modifies this`disk, this`trace, this`held, this`heldNext
      ensures Valid() && |trace| == |old(trace)| + 2 && trace[..|old(trace)|] == old(trace)
      ensures CrashSafe(config.runsAt, trace, |old(trace)|, mem, stored, before)
    {
      hide Committable, Stands, Replay, Reopen, SameRuns, SameAnswers, Recovers, Ascending, Tamed;
      StoreManifest();
      RecoversAs(config.runsAt, disk, levels, nextSequence, mem, before);
      LogKeepsStanding(disk, levels, nextSequence, []);
      NothingReplayed();
      Step(disk.(wal := []));
      RecoversAs(config.runsAt, disk, levels, nextSequence, mem, before);
      StandsIsCommittable(disk, levels, nextSequence);
    }

    // -----------------------------------------------------------------
    // Compacting
    // -----------------------------------------------------------------

    /** Take every selected file out of the levels, group by group; runs stay in place for now. */
    method TakeFiles(selections: seq<Selection>) returns (taken: seq<seq<TableFile>>)
      modifies this`levels
      ensures levels == After(old(levels), selections) && taken == Taken(old(levels), selections)
    {
      hide Pick, Leave;
      taken := [];
      for i := 0 to |selections|
        invariant After(levels, selections[i..]) == After(old(levels), selections)
        invariant taken + Taken(levels, selections[i..]) == Taken(old(levels), selections)
      {
        var s := selections[i];
        assert selections[i..][0] == s && selections[i..][1..] == selections[i + 1..];
        var group, left := TakeFrom(TablesAt(levels, s.level, s.run), s.files);
        var next := WithTables(levels, s.level, s.run, left);
        assert taken + Taken(levels, selections[i..]) == (taken + [group]) + Taken(next, selections[i + 1..]);
        levels := next;
        taken := taken + [group];
      }
    }

    method PruneLevel(l: nat)
      modifies this`levels
      ensures levels == PruneAt(old(levels), l)
    {
      if l < |levels| {
        var runs := PruneEmptyRuns(levels[l]);
        levels := levels[l := runs];
      }
    }

    method PruneTouched(job: Job)
      modifies this`levels
      ensures levels == Prune(old(levels), job)
    {
      hide PruneAt;
      for i := 0 to |job.sources|
        invariant PruneSources(levels, job.sources[i..]) == PruneSources(old(levels), job.sources)
      {
        assert job.sources[i..][0] == job.sources[i] && job.sources[i..][1..] == job.sources[i + 1..];
        PruneLevel(job.sources[i].level);
      }
      PruneLevel(job.target);
    }

    /** Put the output in front of its target level, and fold that level if it is to hold one run. */
    method Install(target: nat, run: Option<Run>)
      modifies this`levels
      ensures levels == Fold(Insert(Extend(old(levels), target), target, run), target, config.foldRuns)
    {
      while |levels| <= target
        invariant Extend(levels, target) == Extend(old(levels), target)
        decreases target + 1 - |levels|
      {
        levels := levels + [[]];
      }
      if run.Some? { levels := levels[target := [run.value] + levels[target]]; }
      if config.foldRuns { levels := levels[target := Coalesce(levels[target])]; }
    }

    /** Delete the inputs of a committed compaction. */
    method Unlink(taken: seq<seq<TableFile>>)
      requires Stands(disk, levels, nextSequence)
      requires forall t, u :: t in Tables(levels) && u in TakenTables(taken) ==> t.name != u.name
      modifies this`disk, this`trace
      ensures Stands(disk, levels, nextSequence) && disk.wal == old(disk.wal)
      ensures |old(trace)| <= |trace| && trace[..|old(trace)|] == old(trace)
      ensures AllStand(trace, |old(trace)|, levels, nextSequence, old(disk.wal))
    {
      hide Stands, Tables, AllStand;
      NothingStands(trace, levels, nextSequence, disk.wal);
      for i := 0 to |taken|
        invariant Stands(disk, levels, nextSequence) && disk.wal == old(disk.wal)
        invariant |old(trace)| <= |trace| && trace[..|old(trace)|] == old(trace)
        invariant AllStand(trace, |old(trace)|, levels, nextSequence, old(disk.wal))
      {
        for j := 0 to |taken[i]|
          invariant Stands(disk, levels, nextSequence) && disk.wal == old(disk.wal)
          invariant |old(trace)| <= |trace| && trace[..|old(trace)|] == old(trace)
          invariant AllStand(trace, |old(trace)|, levels, nextSequence, old(disk.wal))
        {
          ghost var before := trace;
          TakenTablesMember(taken, i, j);
          RemovingKeepsStanding(disk, levels, nextSequence, taken[i][j].name);
          Step(disk.(files := disk.files - {taken[i][j].name}));
          OneMoreStands(before, disk, levels, nextSequence, old(disk.wal));
          AllStandJoin(before, trace, |old(trace)|, levels, nextSequence, old(disk.wal));
        }
      }
    }

    /** Merge the files a job names, install the result and commit it: every key then reads as ReadAfter says.
        A safe job changes no answer, and at every step the directory recovers with the same answers. When an
        input cannot be read, the directory goes on standing for its tree, but the levels in memory have lost
        the inputs. */
    method Execute(job: Job, outcome: Outcomes) returns (ok: bool)
      requires Usable() && Increasing(Selections(job))
      modifies this
      ensures memtable == old(memtable) && disk.wal == old(disk.wal)
      ensures ok ==> Stands(disk, levels, nextSequence)
      ensures ok ==> forall key: Key :: ReadLevels(levels, key) == ReadAfter(old(levels), job, key)
      ensures ok && SafeJob(old(levels), job, config.runsAt) ==>
                Valid() && SameAnswers(memtable, levels, old(memtable), old(levels))
      ensures !ok ==> Usable() && held == old(held) && heldNext == old(heldNext) && levels == Lossy(old(levels), job)
      ensures AllReadable(MergeSources(Taken(old(levels), Selections(job))), outcome) ==> ok
      ensures |old(trace)| <= |trace| && trace[..|old(trace)|] == old(trace)
      ensures !ok || SafeJob(old(levels), job, config.runsAt) ==>
                CrashSafe(config.runsAt, trace, |old(trace)|, old(memtable), old(held), old(levels))
    {
      hide Holds, Committable, Stands, Replay, ReadLevels, ReadAfter, Ascending, Lossy, Taken, Selections, MergeSources,
           SameAnswers, Fresh, Writes, AllReadable, CrashSafe, SafeJob, Increasing, Output, Tamed, Charged;
      ghost var before, stored, next := levels, held, nextSequence;
      var taken, run, read := MergeInputs(job, outcome);
      if !read {
        LossyIsUsable(disk, stored, heldNext, before, job, next, config.runsAt);
        return false;
      }
      ghost var written := trace;
      HoldsStands(disk, stored, heldNext, before, next);
      Finish(job, run, taken, stored, before, next);
      if SafeJob(before, job, config.runsAt) {
        CrashSafeJoin(config.runsAt, written, trace, |old(trace)|, memtable, stored, before);
      }
      return true;
    }

    /** Take the inputs out of the levels and stream their merge into new files. */
    method MergeInputs(job: Job, outcome: Outcomes) returns (taken: seq<seq<TableFile>>, run: Option<Run>, read: bool)
      requires Usable() && Increasing(Selections(job))
      modifies this`levels, this`nextSequence, this`disk, this`trace
      ensures nextSequence == old(nextSequence) + 1 && levels == Lossy(old(levels), job)
      ensures taken == Taken(old(levels), Selections(job))
      ensures Holds(disk, held, heldNext, old(levels), old(nextSequence)) && disk.wal == old(disk.wal)
      ensures read ==> Writes(run, Output(old(levels), job))
      ensures AllReadable(MergeSources(taken), outcome) ==> read
      ensures run.Some? ==> run.value.sequence == old(nextSequence) && run.value.units == Charged(old(levels), job)
      ensures run.Some? ==> Fresh(disk.files, run.value.tables, job.target, old(nextSequence)) && |run.value.tables| > 0
      ensures |old(trace)| <= |trace| && trace[..|old(trace)|] == old(trace)
      ensures CrashSafe(config.runsAt, trace, |old(trace)|, memtable, held, old(levels))
    {
      hide Replay, Ascending, SoundLevels, Prune, After, Taken, Selections, MergeSources, SameAnswers, Fresh, Writes,
           AllReadable, CrashSafe, AllStand, SourceSelections, Increasing, UnitsNamed, MergeOf, Tamed, AllAscending,
           Stands;
      StandsIsSound(disk.(manifest := Some(ManifestOf(levels, nextSequence))), levels, nextSequence);
      TakenAscend(levels, job);
      hide Holds;
      ghost var before := levels;
      taken := TakeFiles(Selections(job));
      PruneTouched(job);
      var units := MaxWithOne(UnitsNamed(levels, SourceSelections(job.sources)));
      var sequence := nextSequence;
      nextSequence := nextSequence + 1;
      var groups := Groups(taken);
      var merged;
      merged, read := MergeGroups(groups, job.dropTombstones, outcome);
      PrefixAscends(groups, job.dropTombstones, merged);
      MergedIsReadable(disk, held, heldNext, before, sequence, job, merged);
      run := WriteRun(job.target, sequence, units, merged, before);
      StandsAtOnce(held, memtable);
      StandingIsCrashSafe(config.runsAt, trace, |old(trace)|, held, heldNext, disk.wal, memtable, held, before);
    }

    /** Install the output, commit, and only then delete the inputs. */
    method Finish(job: Job, run: Option<Run>, taken: seq<seq<TableFile>>, ghost stored: Levels, ghost before: Levels,
                  ghost next: nat)
      requires Committable(disk, before, next) && memtable == Replay(disk.wal) && Ascending(memtable)
      requires Increasing(Selections(job))
      requires nextSequence == next + 1 && levels == Lossy(before, job)
      requires taken == Taken(before, Selections(job)) && Writes(run, Output(before, job))
      requires run.Some? ==> run.value.sequence == next && run.value.units >= 1 && |run.value.tables| > 0
      requires run.Some? ==> Fresh(disk.files, run.value.tables, job.target, next)
      modifies this`levels, this`disk, this`trace, this`held, this`heldNext
      ensures Stands(disk, levels, nextSequence) && disk.wal == old(disk.wal)
      ensures levels == Installed(before, job, run, config.foldRuns)
      ensures forall key: Key :: ReadLevels(levels, key) == ReadAfter(before, job, key)
      ensures |old(trace)| <= |trace| && trace[..|old(trace)|] == old(trace)
      ensures SafeJob(before, job, config.runsAt) ==>
                && Valid() && SameAnswers(memtable, levels, memtable, before)
                && CrashSafe(config.runsAt, trace, |old(trace)|, memtable, stored, before)
    {
      hide Stands, Committable, Replay, ReadTree, ReadLevels, ReadAfter, Ascending, Prune, After, Taken, Selections,
           SameAnswers, Fresh, Writes, CrashSafe, AllStand, SafeJob, Increasing, Output, Fold, Insert, Extend, Tables,
           TakenTables, Tamed, Reopen, SameRuns;
      Install(job.target, run);
      assert levels == Installed(before, job, run, config.foldRuns);
      CommittableIsSound(disk, before, next);
      InstalledAnswers(before, job, run, config.foldRuns);
      InstallCommits(disk, before, job, run, config.foldRuns, next);
      StoreManifest();
      OneMoreStands(old(trace), disk, levels, nextSequence, disk.wal);
      ghost var committed := trace;
      Unlink(taken);
      AllStandJoin(committed, trace, |old(trace)|, levels, nextSequence, disk.wal);
      StandsIsCommittable(disk, levels, nextSequence);
      if SafeJob(before, job, config.runsAt) {
        InstalledSafely(memtable, before, job, run, config.foldRuns, config.runsAt);
        StandingIsCrashSafe(config.runsAt, trace, |old(trace)|, levels, nextSequence, disk.wal, memtable, stored,
                            before);
      }
    }

    /** Run planned compactions until the scheme is satisfied or the ceiling is reached. If one fails, the levels
        in memory are those that it began with, without its inputs: exactly the keys that it forgets and the
        memtable does not have change their answers, and the directory keeps the answers from before. */
    method CompactUntilQuiet(planner: Planner, trials: Trials) returns (ok: bool, ghost lost: Option<Loss>)
      requires Usable() && SafePlanner(planner, config.runsAt)
      modifies this
      ensures memtable == old(memtable) && disk.wal == old(disk.wal)
      ensures Usable() && (old(Valid()) && ok ==> Valid())
      ensures ok ==> SameAnswers(memtable, levels, old(memtable), old(levels))
      ensures ok ==> lost.None? && (Valid() || (levels == old(levels) && held == old(held)))
      ensures !ok ==> lost.Some? && Lacks(planner, trials, lost.value, levels)
      ensures !ok ==> SameAnswers(memtable, lost.value.whole, old(memtable), old(levels))
      ensures !ok ==> held == lost.value.whole || (held == old(held) && lost.value.whole == old(levels))
      ensures !ok ==> forall key: Key ::
                View(key) == old(View(key))
                <==> Lookup(memtable, key).Some? || !Forgets(lost.value.whole, lost.value.job, key)
      ensures SameAnswers(memtable, held, old(memtable), old(held))
              || SameAnswers(memtable, held, old(memtable), old(levels))
      ensures AllRead(trials) ==> ok
      ensures |old(trace)| <= |trace| && trace[..|old(trace)|] == old(trace)
      ensures CrashSafe(config.runsAt, trace, |old(trace)|, old(memtable), old(held), old(levels))
    {
      hide Holds, Replay, ReadTree, Ascending, SoundLevels, Selections, Increasing, StaysTamed, KeepsOrder, ClearsBelow,
           Tamed, Recovers, ReadLevels, Lossy, ReadAfter, MergeSources, Taken, SameAnswers, CrashSafe, Lacks, Forgets,
           Lookup;
      lost := None;
      StandsAtOnce(levels, memtable);
      StandsAtOnce(held, memtable);
      NothingNew(config.runsAt, trace, memtable, held, levels);
      for step := 0 to config.maxCompactions
        invariant Usable() && (old(Valid()) ==> Valid()) && memtable == old(memtable) && disk.wal == old(disk.wal)
        invariant Valid() || (levels == old(levels) && held == old(held))
        invariant SameAnswers(memtable, levels, old(memtable), old(levels))
        invariant SameAnswers(memtable, held, old(memtable), old(held))
                  || SameAnswers(memtable, held, old(memtable), old(levels))
        invariant |old(trace)| <= |trace| && trace[..|old(trace)|] == old(trace)
        invariant CrashSafe(config.runsAt, trace, |old(trace)|, old(memtable), old(held), old(levels))
      {
        HoldsSound(disk, held, heldNext, levels, nextSequence);
        var plan := planner(step, levels);
        if plan.Quiet? { return true, None; }
        if plan.NothingToDo? { continue; }
        ghost var before, stored, served := trace, held, levels;
        WithoutFailures(MergeSources(Taken(levels, Selections(plan.job))), trials, step);
        var done := Execute(plan.job, trials(step));
        SameCrashSafe(config.runsAt, trace, |before|, memtable, stored, served, old(memtable), old(held), old(levels));
        CrashSafeJoin(config.runsAt, before, trace, |old(trace)|, old(memtable), old(held), old(levels));
        if !done {
          lost := Some(Loss(served, plan.job));
          LacksInputs(planner, trials, step, served, plan.job);
          ForgottenAnswers(planner, trials, memtable, lost.value, levels, old(memtable), old(levels));
          return false, lost;
        }
        SameTwice(memtable, levels, memtable, served, old(memtable), old(levels));
      }
      return true, None;
    }

    /** Flush, then compact. No answer changes unless a compaction fails, and a crash at any step loses nothing. */
    method Flush(planner: Planner, trials: Trials) returns (ok: bool, ghost lost: Option<Loss>)
      requires Usable() && SafePlanner(planner, config.runsAt)
      modifies this
      ensures Usable() && memtable == [] && (old(Valid()) && ok ==> Valid()) && (ok && |old(memtable)| > 0 ==> Valid())
      ensures ok ==> SameAnswers(memtable, levels, old(memtable), old(levels))
      ensures ok ==> lost.None? && (Valid()
                                    || (levels == old(levels) && held == old(held) && memtable == old(memtable)))
      ensures !ok ==> lost.Some? && Lacks(planner, trials, lost.value, levels) && held == lost.value.whole
      ensures !ok ==> SameAnswers(memtable, held, old(memtable), old(levels))
      ensures !ok ==> forall key: Key ::
                View(key) == old(View(key)) <==> !Forgets(lost.value.whole, lost.value.job, key)
      ensures SameAnswers(memtable, held, old(memtable), old(held))
              || SameAnswers(memtable, held, old(memtable), old(levels))
      ensures AllRead(trials) ==> ok
      ensures |old(trace)| <= |trace| && trace[..|old(trace)|] == old(trace)
      ensures CrashSafe(config.runsAt, trace, |old(trace)|, old(memtable), old(held), old(levels))
    {
      hide Holds, Replay, ReadTree, Ascending, Recovers, SafePlanner, Tamed, SameAnswers, CrashSafe, Lacks, Forgets,
           Lookup;
      StandsAtOnce(held, memtable);
      var wrote := FlushMemtable();
      if !wrote { return true, None; }
      ghost var before, mem, served := trace, memtable, levels;
      ok, lost := CompactUntilQuiet(planner, trials);
      SameCrashSafe(config.runsAt, trace, |before|, mem, served, served, old(memtable), old(held), old(levels));
      CrashSafeJoin(config.runsAt, before, trace, |old(trace)|, old(memtable), old(held), old(levels));
      SameTwice(memtable, held, mem, served, old(memtable), old(levels));
      if ok {
        SameTwice(memtable, levels, mem, served, old(memtable), old(levels));
      } else {
        ForgottenAnswers(planner, trials, memtable, lost.value, levels, old(memtable), old(levels));
        NothingInMemory();
      }
    }

    // -----------------------------------------------------------------
    // Writing
    // -----------------------------------------------------------------

    /** Log, apply, and flush when the memtable is full. The log refuses a record over its limit, and then
        nothing changes. Otherwise the key reads as written and every other key as before, and from the
        moment the record is in the log the directory opens as a tree with the new answers; until then, as
        one with the old. If a compaction fails, exactly the keys that it forgets read otherwise. */
    method Write(e: Entry, planner: Planner, trials: Trials)
      returns (accepted: bool, ok: bool, ghost lost: Option<Loss>)
      requires Usable() && SafePlanner(planner, config.runsAt)
      modifies this
      ensures Usable() && (old(Valid()) && ok ==> Valid())
      ensures accepted <==> Wals.Fits(e)
      ensures !accepted ==>
                ok && memtable == old(memtable) && levels == old(levels) && held == old(held) && trace == old(trace)
                && disk == old(disk)
      ensures accepted && ok ==> SameAnswers(memtable, levels, MemTables.Insert(old(memtable), e), old(levels))
      ensures accepted && ok ==> forall key ::
                View(key) == if key == e.key then Visible(Some(e.value)) else old(View(key))
      ensures ok ==> lost.None?
      ensures accepted && ok ==>
                Valid()
                || (levels == old(levels) && held == old(held) && memtable == MemTables.Insert(old(memtable), e))
      ensures !ok ==>
                lost.Some? && Lacks(planner, trials, lost.value, levels) && held == lost.value.whole && memtable == []
      ensures !ok ==> SameAnswers(memtable, held, MemTables.Insert(old(memtable), e), old(levels))
      ensures !ok ==> forall key: Key :: (View(key) == if key == e.key then Visible(Some(e.value)) else old(View(key)))
                                         <==> !Forgets(lost.value.whole, lost.value.job, key)
      ensures accepted ==> SameAnswers(memtable, held, MemTables.Insert(old(memtable), e), old(held))
                           || SameAnswers(memtable, held, MemTables.Insert(old(memtable), e), old(levels))
      ensures AllRead(trials) ==> ok
      ensures |old(trace)| <= |trace| && trace[..|old(trace)|] == old(trace) && (accepted ==> |old(trace)| < |trace|)
      ensures CrashSafe(config.runsAt, trace, |old(trace)|, MemTables.Insert(old(memtable), e), old(held), old(levels))
    {
      hide Holds, Stands, Replay, ReadTree, Ascending, Recovers, SafePlanner, Wals.Fits, MemTables.Insert, SameAnswers,
           CrashSafe, Tamed, Lacks, Forgets;
      ok, lost := true, None;
      accepted := Wals.Fits(e);
      NothingNew(config.runsAt, trace, MemTables.Insert(memtable, e), held, levels);
      if !accepted { return; }
      LogOneMore(disk, held, heldNext, levels, nextSequence, e);
      Step(disk.(wal := disk.wal + [e]));
      memtable := MemTables.Insert(memtable, e);
      StandsAtOnce(levels, memtable);
      StandsAtOnce(held, memtable);
      HoldsStands(disk, held, heldNext, levels, nextSequence);
      RecoversAs(config.runsAt, disk, held, heldNext, memtable, held);
      OneCrashSafe(config.runsAt, old(trace), disk, memtable, held, levels);
      WriteAnswers(old(memtable), levels, e);
      ghost var before := trace;
      if MemTables.TotalCharge(memtable) >= config.memtableThreshold {
        ghost var mem := memtable;
        ok, lost := Flush(planner, trials);
        if !ok {
          assert forall key: Key :: Visible(ReadTree(memtable, levels, key)) == Visible(ReadTree(mem, old(levels), key))
                                    <==> !Forgets(lost.value.whole, lost.value.job, key);
        }
        CrashSafeJoin(config.runsAt, before, trace, |old(trace)|, MemTables.Insert(old(memtable), e), old(held),
                      old(levels));
      }
      if ok { AnswersOf(memtable, levels, MemTables.Insert(old(memtable), e), old(levels), old(memtable), e); }
    }

    method Put(key: Key, value: seq<byte>, planner: Planner, trials: Trials)
      returns (accepted: bool, ok: bool, ghost lost: Option<Loss>)
      requires Usable() && SafePlanner(planner, config.runsAt)
      modifies this
      ensures Usable() && (old(Valid()) && ok ==> Valid())
      ensures accepted <==> Wals.Fits(Entry(key, Value.Put(value)))
      ensures !accepted ==> ok && trace == old(trace) && forall k :: View(k) == old(View(k))
      ensures |old(trace)| <= |trace| && trace[..|old(trace)|] == old(trace)
      ensures accepted && ok ==> forall k :: View(k) == if k == key then Some(value) else old(View(k))
      ensures ok ==> lost.None?
      ensures !ok ==>
                lost.Some? && Lacks(planner, trials, lost.value, levels) && held == lost.value.whole && memtable == []
      ensures !ok ==> SameAnswers(memtable, held, MemTables.Insert(old(memtable), Entry(key, Value.Put(value))),
                                  old(levels))
      ensures !ok ==> forall k: Key :: (View(k) == if k == key then Some(value) else old(View(k)))
                                       <==> !Forgets(lost.value.whole, lost.value.job, k)
      ensures CrashSafe(config.runsAt, trace, |old(trace)|,
                        MemTables.Insert(old(memtable), Entry(key, Value.Put(value))), old(held), old(levels))
    {
      hide LsmTree.Usable, LsmTree.Valid, SafePlanner, Wals.Fits, MemTables.Insert, CrashSafe, Lacks, Forgets,
           SameAnswers;
      accepted, ok, lost := Write(Entry(key, Value.Put(value)), planner, trials);
    }

    method Delete(key: Key, planner: Planner, trials: Trials)
      returns (accepted: bool, ok: bool, ghost lost: Option<Loss>)
      requires Usable() && SafePlanner(planner, config.runsAt)
      modifies this
      ensures Usable() && (old(Valid()) && ok ==> Valid())
      ensures accepted <==> Wals.Fits(Entry(key, Tombstone))
      ensures !accepted ==> ok && trace == old(trace) && forall k :: View(k) == old(View(k))
      ensures |old(trace)| <= |trace| && trace[..|old(trace)|] == old(trace)
      ensures accepted && ok ==> forall k :: View(k) == if k == key then None else old(View(k))
      ensures ok ==> lost.None?
      ensures !ok ==>
                lost.Some? && Lacks(planner, trials, lost.value, levels) && held == lost.value.whole && memtable == []
      ensures !ok ==> SameAnswers(memtable, held, MemTables.Insert(old(memtable), Entry(key, Tombstone)), old(levels))
      ensures !ok ==> forall k: Key :: (View(k) == if k == key then None else old(View(k)))
                                       <==> !Forgets(lost.value.whole, lost.value.job, k)
      ensures CrashSafe(config.runsAt, trace, |old(trace)|, MemTables.Insert(old(memtable), Entry(key, Tombstone)),
                        old(held), old(levels))
    {
      hide LsmTree.Usable, LsmTree.Valid, SafePlanner, Wals.Fits, MemTables.Insert, CrashSafe, Lacks, Forgets,
           SameAnswers;
      accepted, ok, lost := Write(Entry(key, Tombstone), planner, trials);
    }
  }

  lemma WithoutFailures(groups: seq<seq<Entry>>, trials: Trials, step: nat)
    ensures AllRead(trials) ==> AllReadable(groups, trials(step))
  {}

  lemma SameCrashSafe(runsAt: nat -> nat, trace: seq<Disk>, n: nat, m1: seq<Entry>, stored1: Levels, served1: Levels,
                      m2: seq<Entry>, stored2: Levels, served2: Levels)
    requires CrashSafe(runsAt, trace, n, m1, stored1, served1) && SameAnswers(m1, served1, m2, served2)
    requires SameAnswers(m1, stored1, m2, stored2) || SameAnswers(m1, stored1, m2, served2)
    ensures CrashSafe(runsAt, trace, n, m2, stored2, served2)
  {
    hide Recovers, SameAnswers;
    forall i | n <= i < |trace|
      ensures Recovers(runsAt, trace[i], m2, stored2) || Recovers(runsAt, trace[i], m2, served2)
    {
      if Recovers(runsAt, trace[i], m1, served1) {
        RecoversToo(runsAt, trace[i], m1, served1, m2, served2);
      } else if SameAnswers(m1, stored1, m2, stored2) {
        RecoversToo(runsAt, trace[i], m1, stored1, m2, stored2);
      } else {
        RecoversToo(runsAt, trace[i], m1, stored1, m2, served2);
      }
    }
  }

  lemma RecoversToo(runsAt: nat -> nat, disk: Disk, m1: seq<Entry>, l1: Levels, m2: seq<Entry>, l2: Levels)
    requires Recovers(runsAt, disk, m1, l1) && SameAnswers(m1, l1, m2, l2)
    ensures Recovers(runsAt, disk, m2, l2)
  {
    hide Stands, Replay, Tamed, SameAnswers;
    var held: Levels, next: nat :| Stands(disk, held, next) && Tamed(held, runsAt)
        && SameAnswers(Replay(disk.wal), held, m1, l1);
    SameTwice(Replay(disk.wal), held, m1, l1, m2, l2);
  }

  lemma SameTwice(m1: seq<Entry>, l1: Levels, m2: seq<Entry>, l2: Levels, m3: seq<Entry>, l3: Levels)
    requires SameAnswers(m2, l2, m3, l3)
    ensures SameAnswers(m1, l1, m2, l2) ==> SameAnswers(m1, l1, m3, l3)
  {
    hide ReadTree;
  }

  lemma LacksInputs(planner: Planner, trials: Trials, step: nat, whole: Levels, job: Job)
    requires SoundLevels(whole) && Increasing(Selections(job)) && planner(step, whole) == Compact(job)
    requires !AllReadable(MergeSources(Taken(whole, Selections(job))), trials(step))
    ensures Lacks(planner, trials, Loss(whole, job), Lossy(whole, job))
  {
    hide SoundLevels, Increasing, Selections, Lossy, AllReadable, MergeSources, Taken;
    assert Unreadable(trials(step), Loss(whole, job));
  }

  lemma NothingInMemory()
    ensures forall key: Key :: Lookup([], key) == None
  {}

  lemma NothingNew(runsAt: nat -> nat, trace: seq<Disk>, memtable: seq<Entry>, stored: Levels, served: Levels)
    ensures CrashSafe(runsAt, trace, |trace|, memtable, stored, served)
  {}

  lemma OneCrashSafe(runsAt: nat -> nat, before: seq<Disk>, disk: Disk, memtable: seq<Entry>, stored: Levels,
                     served: Levels)
    requires Recovers(runsAt, disk, memtable, stored)
    ensures CrashSafe(runsAt, before + [disk], |before|, memtable, stored, served)
  {
    hide Recovers;
  }

  lemma LogOneMore(disk: Disk, held: Levels, heldNext: nat, levels: Levels, next: nat, e: Entry)
    requires Holds(disk, held, heldNext, levels, next) && Ascending(Replay(disk.wal)) && Wals.Fits(e)
    ensures Holds(disk.(wal := disk.wal + [e]), held, heldNext, levels, next)
    ensures Replay(disk.wal + [e]) == MemTables.Insert(Replay(disk.wal), e) && Ascending(Replay(disk.wal + [e]))
  {
    TableSizes.LoggedIsReadable(e);
    hide Replay, Ascending, SSTableFormat.Readable, SoundLevels, Live, Filed, Names, Wals.Fits;
    assert SSTableFormat.AllReadable(disk.wal + [e]);
    hide Stands, SSTableFormat.AllReadable;
    LogKeepsStanding(disk, held, heldNext, disk.wal + [e]);
    LogKeepsStanding(disk.(manifest := Some(ManifestOf(levels, next))), levels, next, disk.wal + [e]);
    ReplayOneMore(disk.wal, e);
    ReplayAscends(disk.wal + [e]);
  }

  lemma WritingKeepsHolding(disk: Disk, held: Levels, heldNext: nat, kept: Levels, level: nat, sequence: nat, part: nat,
                            entries: seq<Entry>)
    requires Holds(disk, held, heldNext, kept, sequence)
    ensures Holds(disk.(files := disk.files[Manifests.TableFilename(level, sequence, part) := entries]), held, heldNext,
                  kept, sequence)
  {
    hide Stands, Manifests.TableFilename;
    WritingKeepsStanding(disk, held, heldNext, level, sequence, part, entries);
    WritingKeepsStanding(disk.(manifest := Some(ManifestOf(kept, sequence))), kept, sequence, level, sequence, part,
                         entries);
  }

  lemma HoldsStands(disk: Disk, held: Levels, heldNext: nat, kept: Levels, sequence: nat)
    requires Holds(disk, held, heldNext, kept, sequence)
    ensures Stands(disk, held, heldNext) && Committable(disk, kept, sequence)
  {
    hide Stands, Committable;
  }

  lemma HoldsSound(disk: Disk, held: Levels, heldNext: nat, kept: Levels, sequence: nat)
    requires Holds(disk, held, heldNext, kept, sequence)
    ensures SoundLevels(held) && SoundLevels(kept)
  {
    hide SoundLevels, Live, Filed, Names;
  }

  lemma CommittableIsSound(disk: Disk, levels: Levels, next: nat)
    requires Committable(disk, levels, next)
    ensures SoundLevels(levels)
  {
    hide SoundLevels, Live, Filed, Names;
  }

  /** What a memtable holds was logged. */
  lemma ReplayedIsReadable(disk: Disk, held: Levels, heldNext: nat, kept: Levels, sequence: nat)
    requires Holds(disk, held, heldNext, kept, sequence)
    ensures SSTableFormat.AllReadable(Replay(disk.wal))
  {
    assert SSTableFormat.AllReadable(disk.wal);
    hide Holds, Replay, SSTableFormat.Readable;
    var mem := Replay(disk.wal);
    forall i | 0 <= i < |mem| ensures SSTableFormat.Readable(mem[i]) { ReplayedIsLogged(disk.wal, mem[i]); }
  }

  /** What a merge writes was read from tables. */
  lemma MergedIsReadable(disk: Disk, held: Levels, heldNext: nat, levels: Levels, next: nat, job: Job, out: seq<Entry>)
    requires Holds(disk, held, heldNext, levels, next)
    requires out <= MergeOf(MergeSources(Taken(levels, Selections(job))), job.dropTombstones)
    ensures SSTableFormat.AllReadable(out)
  {
    assert Filed(disk.files, Tables(levels), next);
    AfterTables(levels, Selections(job));
    hide Holds, SSTableFormat.Readable, MergeOf, Taken, Tables, TakenTables, EntriesOf, Selections, After, Generated;
    var taken := Taken(levels, Selections(job));
    forall n | 0 <= n < |out| ensures SSTableFormat.Readable(out[n]) {
      var e := out[n];
      assert e == MergeOf(MergeSources(taken), job.dropTombstones)[n];
      var i := MergeTakesFromSources(MergeSources(taken), job.dropTombstones, e);
      var j := TableWith(taken[i], e);
      TakenTablesMember(taken, i, j);
      assert taken[i][j] in Tables(levels);
      assert OnDisk(disk.files, taken[i][j]);
    }
  }

  lemma {:induction false} TableWith(tables: seq<TableFile>, e: Entry) returns (j: nat)
    requires e in EntriesOf(tables)
    ensures j < |tables| && e in tables[j].entries
  {
    hide EntriesOf;
    if |tables| == 0 {
      NoEntriesWithoutTables(tables);
      assert false;
    }
    var init, last := tables[..|tables| - 1], tables[|tables| - 1];
    assert tables == init + [last];
    EntriesAppend(init, last);
    if e in last.entries { j := |tables| - 1; } else { j := TableWith(init, e); }
  }

  /** Every table of a run opens, if the target leaves room for an entry that goes past it. */
  ghost predicate AllSmall(tables: seq<TableFile>, target: nat) {
    target <= TableSizes.MAX_TARGET ==> forall i :: 0 <= i < |tables| ==> SSTableWriters.Small(tables[i].entries)
  }

  lemma OneMoreSmall(tables: seq<TableFile>, table: TableFile, target: nat)
    requires AllSmall(tables, target) && TableSizes.CutAt(table.entries, target)
    requires Ascending(table.entries) && SSTableFormat.AllReadable(table.entries)
    ensures AllSmall(tables + [table], target)
  {
    hide Ascending, SSTableFormat.AllReadable, SSTableWriters.Small, TableSizes.CutAt;
    if target <= TableSizes.MAX_TARGET { TableSizes.CutIsSmall(table.entries, target); }
  }

  lemma PartOfList(entries: seq<Entry>, start: nat, end: nat)
    requires Ascending(entries) && SSTableFormat.AllReadable(entries) && start <= end <= |entries|
    ensures Ascending(entries[start..end]) && SSTableFormat.AllReadable(entries[start..end])
  {
    hide Less, SSTableFormat.Readable;
  }

  lemma CountedOne(entries: seq<Entry>, start: nat, i: nat)
    requires start <= i < |entries|
    ensures TableSizes.DataBytes(entries[start..i + 1])
         == TableSizes.DataBytes(entries[start..i]) + |entries[i].key| + |entries[i].value.Payload()|
    ensures entries[start..i + 1][..i - start] == entries[start..i] && TableSizes.DataBytes(entries[i + 1..i + 1]) == 0
  {
    var part := entries[start..i + 1];
    assert part[|part| - 1] == entries[i] && part[..|part| - 1] == entries[start..i];
  }

  /** A failed compaction leaves a tree that could be committed and goes on being tamed. */
  lemma LossyIsUsable(disk: Disk, held: Levels, heldNext: nat, levels: Levels, job: Job, next: nat, runsAt: nat -> nat)
    requires Holds(disk, held, heldNext, levels, next) && Increasing(Selections(job)) && Tamed(levels, runsAt)
    ensures Holds(disk, held, heldNext, Lossy(levels, job), next + 1) && Tamed(Lossy(levels, job), runsAt)
  {
    hide SoundLevels, Live, Filed, Names, Fresh, Tables, Lossy, Tamed, Increasing, Selections, Taken, TakenTables;
    LossyIsSound(levels, job, next);
    LossyStaysTamed(levels, job, runsAt);
    LaterIsLive(Lossy(levels, job), next, next + 1);
    NothingFresh(disk.files, 0, next);
    CommitStands(disk, levels, Lossy(levels, job), next, 0, [], TakenTables(Taken(levels, Selections(job))));
  }

  lemma WriteAnswers(memtable: seq<Entry>, levels: Levels, e: Entry)
    requires Ascending(memtable)
    ensures forall key :: ReadTree(MemTables.Insert(memtable, e), levels, key)
                       == if key == e.key then Some(e.value) else ReadTree(memtable, levels, key)
  {
    hide ReadTree, MemTables.Insert, Ascending;
    forall key ensures ReadTree(MemTables.Insert(memtable, e), levels, key)
                    == if key == e.key then Some(e.value) else ReadTree(memtable, levels, key)
    {
      WriteReads(memtable, levels, e, key);
    }
  }

  lemma AnswersOf(m1: seq<Entry>, l1: Levels, m2: seq<Entry>, l2: Levels, memtable: seq<Entry>, e: Entry)
    requires SameAnswers(m1, l1, m2, l2)
    requires forall key :: ReadTree(m2, l2, key) == if key == e.key then Some(e.value) else ReadTree(memtable, l2, key)
    ensures forall key :: Visible(ReadTree(m1, l1, key)) == if key == e.key then Visible(Some(e.value))
                                                            else Visible(ReadTree(memtable, l2, key))
  {
    hide ReadTree;
  }

  lemma UsableRecovers(tree: LsmTree)
    requires tree.Usable()
    ensures Recovers(tree.config.runsAt, tree.disk, tree.memtable, tree.held) && Ascending(tree.memtable)
  {
    hide Stands, Committable, Replay, Ascending, ReadTree, Tamed;
    StandsAtOnce(tree.held, tree.memtable);
  }

  lemma StandsIsSound(disk: Disk, levels: Levels, next: nat)
    requires Stands(disk, levels, next)
    ensures SoundLevels(levels)
  {}

  lemma NothingStands(trace: seq<Disk>, levels: Levels, next: nat, wal: seq<Entry>)
    ensures AllStand(trace, |trace|, levels, next, wal)
  {}

  lemma OneMoreStands(before: seq<Disk>, disk: Disk, levels: Levels, next: nat, wal: seq<Entry>)
    requires Stands(disk, levels, next) && disk.wal == wal
    ensures AllStand(before + [disk], |before|, levels, next, wal)
  {
    hide Stands;
  }

  lemma {:induction false} TakenTablesMember(taken: seq<seq<TableFile>>, i: nat, j: nat)
    requires i < |taken| && j < |taken[i]|
    ensures taken[i][j] in TakenTables(taken)
  {
    if i > 0 { TakenTablesMember(taken[1..], i - 1, j); }
  }

  lemma PrefixAscends(groups: seq<seq<Entry>>, dropping: bool, out: seq<Entry>)
    requires AllAscending(groups) && out <= MergeOf(groups, dropping)
    ensures Ascending(out)
  {
    hide MergeOf, Less;
    MergeIsNewest(groups, dropping);
  }

  lemma InstalledAnswers(before: Levels, job: Job, run: Option<Run>, fold: bool)
    requires SoundLevels(before) && Increasing(Selections(job)) && Writes(run, Output(before, job))
    ensures forall key: Key :: ReadLevels(Installed(before, job, run, fold), key) == ReadAfter(before, job, key)
  {
    hide ReadLevels, ReadAfter, SoundLevels, Installed, Selections, Increasing, Output, Writes;
    forall key: Key ensures ReadLevels(Installed(before, job, run, fold), key) == ReadAfter(before, job, key) {
      InstalledReads(before, job, run, fold, key);
    }
  }

  /** A safe job, once installed, answers every key as before and leaves a tamed tree. */
  lemma InstalledSafely(memtable: seq<Entry>, before: Levels, job: Job, run: Option<Run>, fold: bool,
                        runsAt: nat -> nat)
    requires SoundLevels(before) && SafeJob(before, job, runsAt) && Writes(run, Output(before, job))
    ensures SameAnswers(memtable, Installed(before, job, run, fold), memtable, before)
    ensures Tamed(Installed(before, job, run, fold), runsAt)
  {
    hide ReadLevels, ReadAfter, SoundLevels, Installed, Selections, Increasing, Output, Writes, Lookup, KeepsOrder,
         ClearsBelow, Tamed;
    var after := Installed(before, job, run, fold);
    InstalledAnswers(before, job, run, fold);
    forall key: Key ensures Visible(ReadTree(memtable, after, key)) == Visible(ReadTree(memtable, before, key)) {
      assert Visible(ReadAfter(before, job, key)) == Visible(ReadLevels(before, key));
    }
  }

  lemma InstallCommits(disk: Disk, before: Levels, job: Job, run: Option<Run>, fold: bool, next: nat)
    requires Committable(disk, before, next) && Writes(run, Output(before, job))
    requires run.Some? ==> run.value.sequence == next && run.value.units >= 1 && |run.value.tables| > 0
    requires run.Some? ==> Fresh(disk.files, run.value.tables, job.target, next)
    ensures var after := Installed(before, job, run, fold);
            && Committable(disk, after, next + 1)
            && forall t, u ::
                 t in Tables(after) && u in TakenTables(Taken(before, Selections(job))) ==> t.name != u.name
  {
    hide SoundLevels, Live, Filed, Names, Fresh, Tables, Installed, Sound, Output, Taken, TakenTables, Selections,
         EntriesOf;
    var after, taken := Installed(before, job, run, fold), TakenTables(Taken(before, Selections(job)));
    InstalledSound(before, job, run, fold);
    InstalledLive(before, job, run, fold, next);
    InstalledTables(before, job, run, fold);
    var tables := if run.Some? then run.value.tables else [];
    NothingFresh(disk.files, job.target, next);
    CommitStands(disk, before, after, next, job.target, tables, taken);
  }

  lemma NothingFresh(files: map<string, seq<Entry>>, level: nat, sequence: nat)
    ensures Fresh(files, [], level, sequence)
  {}

  lemma NothingReplayed()
    ensures Replay([]) == [] && Ascending([])
  {}

  lemma StandsAtOnce(levels: Levels, memtable: seq<Entry>)
    ensures SameAnswers(memtable, levels, memtable, levels)
  {}

  lemma RecoversAs(runsAt: nat -> nat, disk: Disk, held: Levels, next: nat, memtable: seq<Entry>, levels: Levels)
    requires Stands(disk, held, next) && Tamed(held, runsAt) && SameAnswers(Replay(disk.wal), held, memtable, levels)
    ensures Recovers(runsAt, disk, memtable, levels)
  {}

  lemma CrashSafeJoin(runsAt: nat -> nat, before: seq<Disk>, after: seq<Disk>, n: nat, memtable: seq<Entry>,
                      stored: Levels, served: Levels)
    requires n <= |before| <= |after| && after[..|before|] == before
    requires CrashSafe(runsAt, before, n, memtable, stored, served)
             && CrashSafe(runsAt, after, |before|, memtable, stored, served)
    ensures CrashSafe(runsAt, after, n, memtable, stored, served) && after[..n] == before[..n]
  {
    hide Recovers;
    forall i | n <= i < |after|
      ensures Recovers(runsAt, after[i], memtable, stored) || Recovers(runsAt, after[i], memtable, served)
    {
      if i < |before| { assert after[i] == before[i]; }
    }
  }

  /** Putting the flushed run in front of level 0 can be committed, changes no answer and keeps the tree tamed. */
  lemma FlushStep(disk: Disk, memtable: seq<Entry>, before: Levels, next: nat, run: Run, runsAt: nat -> nat)
    requires Committable(disk, before, next) && Fresh(disk.files, run.tables, 0, next) && Tamed(before, runsAt)
    requires run.sequence == next && run.units == 1 && |run.tables| > 0 && Writes(Some(run), memtable)
    ensures var after := Insert(Extend(before, 0), 0, Some(run));
            && Committable(disk, after, next + 1) && Tamed(after, runsAt)
            && SameAnswers(memtable, after, memtable, before) && SameAnswers([], after, memtable, before)
  {
    assert Sound(run.tables);
    hide Committable, Fresh, Tamed, SameAnswers, Insert, Extend, Writes, Sound;
    FlushCommits(disk, before, next, run);
    FlushAnswers(memtable, before, Some(run));
    FlushStaysTamed(before, Some(run), runsAt);
  }

  /** A flush after a failed compaction makes the loss the tree on disk: the levels without the inputs are
      committed, and the next start deletes the inputs' files. */
  lemma FlushMakesLossPermanent(disk: Disk, levels: Levels, job: Job, next: nat, memtable: seq<Entry>, run: Run)
    requires Committable(disk, levels, next)
    requires Fresh(disk.files, run.tables, 0, next + 1) && Writes(Some(run), memtable)
    requires run.sequence == next + 1 && run.units == 1 && |run.tables| > 0
    ensures var after := Insert(Extend(Lossy(levels, job), 0), 0, Some(run));
            var committed := disk.(manifest := Some(ManifestOf(after, next + 2)));
            && Stands(committed, after, next + 2) && SameAnswers([], after, memtable, Lossy(levels, job))
            && forall t :: t in TakenTables(Taken(levels, Selections(job))) ==> t.name !in Swept(committed).files
  {
    assert Sound(run.tables);
    assert Stands(disk.(manifest := Some(ManifestOf(levels, next))), levels, next);
    hide SoundLevels, Live, Filed, Names, Fresh, Tables, Lossy, Selections, Taken, TakenTables, Insert, Extend, Writes,
         Sound, SameAnswers, Swept;
    var lossy, taken := Lossy(levels, job), TakenTables(Taken(levels, Selections(job)));
    var after := Insert(Extend(lossy, 0), 0, Some(run));
    LossyIsSound(levels, job, next);
    LaterIsLive(lossy, next, next + 1);
    StillFiled(disk.files, Tables(levels), next);
    FlushPlaces(lossy, next + 1, run);
    Swap(Tables(lossy), multiset(run.tables), taken, Tables(levels));
    CommitStands(disk, levels, after, next + 1, 0, run.tables, taken);
    FlushAnswers(memtable, lossy, Some(run));
    var committed := disk.(manifest := Some(ManifestOf(after, next + 2)));
    forall t | t in taken
      ensures t.name !in Swept(committed).files
    {
      SweptIsNamed(committed, after, next + 2, t.name);
    }
  }

  lemma FlushAnswers(memtable: seq<Entry>, levels: Levels, run: Option<Run>)
    requires Writes(run, memtable)
    ensures var levels' := Insert(Extend(levels, 0), 0, run);
            SameAnswers(memtable, levels', memtable, levels) && SameAnswers([], levels', memtable, levels)
  {
    hide ReadTree, Writes, Insert, Extend;
    forall key: Key ensures var levels' := Insert(Extend(levels, 0), 0, run);
                            ReadTree([], levels', key) == ReadTree(memtable, levels', key)
                              == ReadTree(memtable, levels, key)
    {
      FlushReads(memtable, levels, run, key);
    }
  }

  /** New levels that share out the old tables and the new run's can be committed. */
  lemma CommitStands(disk: Disk, before: Levels, after: Levels, next: nat, level: nat, tables: seq<TableFile>,
                     taken: multiset<TableFile>)
    requires Filed(disk.files, Tables(before), next) && Fresh(disk.files, tables, level, next)
             && SSTableFormat.AllReadable(disk.wal)
    requires SoundLevels(after) && Live(after, next + 1)
    requires Tables(after) + taken == Tables(before) + multiset(tables)
    ensures Committable(disk, after, next + 1)
    ensures forall t, u :: t in Tables(after) && u in taken ==> t.name != u.name
  {
    hide SoundLevels, Live, Filed, Fresh, Tables, RunEntries;
    FiledTogether(disk.files, Tables(before), tables, level, next);
    FiledParts(disk.files, Tables(after), taken, next + 1);
  }

  lemma FlushCommits(disk: Disk, before: Levels, next: nat, run: Run)
    requires Committable(disk, before, next) && Fresh(disk.files, run.tables, 0, next) && Sound(run.tables)
    requires run.sequence == next && run.units == 1 && |run.tables| > 0
    ensures Committable(disk, Insert(Extend(before, 0), 0, Some(run)), next + 1)
  {
    hide SoundLevels, Live, Filed, Names, Fresh, Tables, Extend, Insert, Sound;
    var after := Insert(Extend(before, 0), 0, Some(run));
    FlushPlaces(before, next, run);
    assert Tables(after) + multiset{} == Tables(before) + multiset(run.tables);
    CommitStands(disk, before, after, next, 0, run.tables, multiset{});
  }

  lemma FlushPlaces(before: Levels, next: nat, run: Run)
    requires SoundLevels(before) && Live(before, next) && Sound(run.tables)
    requires run.sequence == next && run.units == 1 && |run.tables| > 0
    ensures var after := Insert(Extend(before, 0), 0, Some(run));
            SoundLevels(after) && Live(after, next + 1) && Tables(after) == Tables(before) + multiset(run.tables)
  {
    hide SoundLevels, Live, Tables, Extend, Insert, ReadLevels, Sound;
    var extended := Extend(before, 0);
    ExtendKeeps(before, 0, []);
    ExtendIsLive(before, 0, next);
    InsertSound(extended, 0, Some(run));
    InsertIsLive(extended, 0, Some(run), next);
    InsertTables(extended, 0, run);
  }

  lemma StillFiled(files: map<string, seq<Entry>>, tables: multiset<TableFile>, next: nat)
    requires Filed(files, tables, next)
    ensures Filed(files, tables, next + 1)
  {
    hide Generated;
    forall t | t in tables ensures Generated(t.name, next + 1) { StillGenerated(t.name, next); }
  }

  lemma AllStandJoin(before: seq<Disk>, after: seq<Disk>, n: nat, levels: Levels, next: nat, wal: seq<Entry>)
    requires n <= |before| <= |after| && after[..|before|] == before
    requires AllStand(before, n, levels, next, wal) && AllStand(after, |before|, levels, next, wal)
    ensures AllStand(after, n, levels, next, wal) && after[..n] == before[..n]
  {
    hide Stands;
    forall i | n <= i < |after| ensures Stands(after[i], levels, next) && after[i].wal == wal {
      if i < |before| { assert after[i] == before[i]; }
    }
  }

  lemma EmptyRun()
    ensures EntriesOf([]) == [] && SSTables.NonEmpty(Parts([]))
    ensures forall files: map<string, seq<Entry>>, level: nat, sequence: nat :: Fresh(files, [], level, sequence)
  {}

  lemma NothingSmall(target: nat)
    ensures AllSmall([], target) && TableSizes.DataBytes([]) == 0
  {}

  lemma LastPart(entries: seq<Entry>, start: nat, target: nat)
    requires Ascending(entries) && SSTableFormat.AllReadable(entries) && start < |entries|
    requires TableSizes.DataBytes(entries[start..|entries|]) < target
    ensures Ascending(entries[start..]) && SSTableFormat.AllReadable(entries[start..])
            && TableSizes.CutAt(entries[start..], target)
  {
    PartOfList(entries, start, |entries|);
    assert entries[start..|entries|] == entries[start..];
    CountedOne(entries, start, |entries| - 1);
  }

  lemma NoEntriesWithoutTables(tables: seq<TableFile>)
    requires |tables| == 0
    ensures EntriesOf(tables) == []
  {}

  lemma SoundWhenNonEmpty(tables: seq<TableFile>, entries: seq<Entry>)
    requires SSTables.NonEmpty(Parts(tables)) && EntriesOf(tables) == entries && Ascending(entries)
    ensures Sound(tables) && (|tables| > 0 ==> entries != [])
  {
    if |tables| > 0 {
      assert |Parts(tables)[0]| > 0;
      PartsTail(tables);
    }
  }

  lemma FreshAppend(files: map<string, seq<Entry>>, tables: seq<TableFile>, table: TableFile, level: nat, sequence: nat)
    requires Fresh(files, tables, level, sequence) && table.name == Manifests.TableFilename(level, sequence, |tables|)
    requires SSTableFormat.AllReadable(table.entries)
    ensures Fresh(files[table.name := table.entries], tables + [table], level, sequence)
  {
    hide Manifests.TableFilename;
    forall i: nat | i < |tables| ensures tables[i].name != table.name {
      if tables[i].name == table.name { Manifests.FilenamesAreDistinct(level, sequence, i, level, sequence, |tables|); }
    }
  }

  lemma NonEmptyAppend(tables: seq<TableFile>, table: TableFile)
    requires SSTables.NonEmpty(Parts(tables)) && |table.entries| > 0
    ensures SSTables.NonEmpty(Parts(tables + [table]))
  {
    var all := tables + [table];
    forall i | 0 <= i < |all| ensures |Parts(all)[i]| > 0 {
      if i < |tables| { assert Parts(all)[i] == Parts(tables)[i]; }
    }
  }

  lemma ReadableWithoutFailures(groups: seq<seq<Entry>>)
    ensures AllReadable(groups, i => None)
  {}

  lemma SeekedAscend(memtable: seq<Entry>, levels: Levels, start: Key)
    requires SoundLevels(levels) && SoundRuns(FlatRuns(levels)) && AllAscending(Sources(memtable, levels))
    ensures AllAscending([From(memtable, start)] + SourcesFrom(FlatRuns(levels), start))
  {
    hide Ascending, From, SoundRuns, SourcesOf, SourcesFrom;
    var runs := FlatRuns(levels);
    var sources, tails := Sources(memtable, levels), [From(memtable, start)] + SourcesFrom(runs, start);
    forall i | 0 <= i < |sources| ensures tails[i] == From(sources[i], start) {
      if i > 0 { SourceFromOfRun(runs, i - 1, start); }
    }
    TailsAscend(sources, tails, start);
  }

  lemma ScanHoldsVisible(scanned: Option<Value>, read: Option<Value>)
    requires Visible(scanned) == Visible(read) && (scanned.Some? <==> Visible(read).Some?)
    ensures Visible(read).Some? ==> scanned == Some(Put(Visible(read).value))
  {}

  method GetInLevel(runs: seq<Run>, key: Key) returns (r: Option<Value>)
    requires SoundRuns(runs)
    ensures r == ReadRuns(runs, key)
  {
    hide Lookup, EntriesOf, RunGet;
    for i := 0 to |runs|
      invariant ReadRuns(runs, key) == ReadRuns(runs[i..], key)
    {
      assert runs[i..][0] == runs[i] && runs[i..][1..] == runs[i + 1..];
      assert Sound(runs[i].tables);
      RunGetIsLookup(runs[i].tables, key);
      r := RunGet(runs[i].tables, key);
      if r.Some? { return; }
    }
    NoRuns(key);
    return None;
  }
}
