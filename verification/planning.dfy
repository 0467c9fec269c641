/** Merge policies: which files a scheduled compaction takes, and when that is safe
    (src/storage/compaction/mod.rs, leveling.rs, tiering.rs, fluid.rs; src/storage/shape.rs). */
module Planning {
  import opened Octets
  import opened Bytes
  import opened SortedEntries
  import opened LsmTrees
  import opened Compactions
  import SSTables

  /** Merge the source levels first..last into the target; `mergeUnits` limits each level to its newest runs. */
  datatype Request = Request(first: nat, last: nat, target: nat, partial: bool, mergeUnits: Option<nat>) {
    predicate Spans() { last > first }

    predicate IsSource(level: nat) { first <= level <= last }
  }

  // ---------------------------------------------------------------------
  // The view of the tree
  // ---------------------------------------------------------------------

  function LevelAt(levels: Levels, l: nat): seq<Run> {
    if l < |levels| then levels[l] else []
  }

  /** No run of the level holds a file. */
  predicate IsEmptyLevel(runs: seq<Run>) {
    forall r :: 0 <= r < |runs| ==> |runs[r].tables| == 0
  }

  predicate IsDeepestLevel(levels: Levels, target: nat) {
    forall l :: target < l < |levels| ==> IsEmptyLevel(levels[l])
  }

  function AllIndices(n: nat): (r: seq<nat>)
    ensures |r| == n && forall i :: 0 <= i < n ==> r[i] == i
  {
    seq(n, i => i)
  }

  /** Every file of every run that has any, newest run first; `from` is the first run's index. */
  function AllFiles(runs: seq<Run>, from: nat): seq<RunFiles> {
    if |runs| == 0 then []
    else
      (if |runs[0].tables| == 0 then [] else [RunFiles(from, AllIndices(|runs[0].tables|))])
        + AllFiles(runs[1..], from + 1)
  }

  /** The newest runs whose units together reach `units` without overshooting it. */
  function NewestRuns(runs: seq<Run>, from: nat, accumulated: nat, units: nat): seq<RunFiles> {
    if |runs| == 0 then []
    else if |runs[0].tables| == 0 then NewestRuns(runs[1..], from + 1, accumulated, units)
    else if accumulated + runs[0].units > units then []
    else
      [RunFiles(from, AllIndices(|runs[0].tables|))]
      + (if accumulated + runs[0].units >= units then []
         else NewestRuns(runs[1..], from + 1, accumulated + runs[0].units, units))
  }

  function RunsToTake(levels: Levels, l: nat, request: Request): seq<RunFiles> {
    match request.mergeUnits
    case None => AllFiles(LevelAt(levels, l), 0)
    case Some(units) =>
      var newest := NewestRuns(LevelAt(levels, l), 0, 0, units);
      if |newest| < 2 then [] else newest
  }

  function SourceLevels(levels: Levels, request: Request, from: nat): seq<LevelFiles>
    decreases request.last + 1 - from
  {
    if from > request.last then []
    else
      var runs := RunsToTake(levels, from, request);
      (if |runs| == 0 then [] else [LevelFiles(from, runs)]) + SourceLevels(levels, request, from + 1)
  }

  // ---------------------------------------------------------------------
  // Tiering
  // ---------------------------------------------------------------------

  function TieringPlan(levels: Levels, request: Request): Option<Job> {
    var sources := SourceLevels(levels, request, request.first);
    if |sources| == 0 then None
    else
      var targetIsEmpty := request.IsSource(request.target) || IsEmptyLevel(LevelAt(levels, request.target));
      Some(Job(sources, request.target, [], IsDeepestLevel(levels, request.target) && targetIsEmpty))
  }

  // ---------------------------------------------------------------------
  // Leveling
  // ---------------------------------------------------------------------

  function LeastKey(a: Key, b: Key): Key {
    if Less(b, a) then b else a
  }

  function GreatestKey(a: Key, b: Key): Key {
    if Less(a, b) then b else a
  }

  /** The key range of some tables; none when there are none. */
  function SpanOf(tables: seq<TableFile>): Option<(Key, Key)>
    requires forall i :: 0 <= i < |tables| ==> |tables[i].entries| > 0
  {
    if |tables| == 0 then None
    else
      var last := |tables| - 1;
      var t := tables[last];
      match SpanOf(tables[..last])
      case None => Some((t.MinKey(), t.MaxKey()))
      case Some(span) => Some((LeastKey(span.0, t.MinKey()), GreatestKey(span.1, t.MaxKey())))
  }

  /** The files a list of selections names. */
  function NamedFiles(levels: Levels, selections: seq<Selection>): seq<TableFile> {
    if |selections| == 0 then []
    else
      var last := |selections| - 1;
      NamedFiles(levels, selections[..last])
      + Pick(TablesAt(levels, selections[last].level, selections[last].run), selections[last].files)
  }

  predicate OverlapsRange(t: TableFile, span: (Key, Key))
    requires |t.entries| > 0
  {
    AtMost(t.MinKey(), span.1) && AtMost(span.0, t.MaxKey())
  }

  function FilesOverlapping(tables: seq<TableFile>, span: (Key, Key)): (r: seq<nat>)
    requires forall i :: 0 <= i < |tables| ==> |tables[i].entries| > 0
    ensures forall i :: 0 <= i < |tables| ==> (i in r <==> OverlapsRange(tables[i], span))
    ensures forall i :: i in r ==> i < |tables|
  {
    if |tables| == 0 then []
    else
      var last := |tables| - 1;
      FilesOverlapping(tables[..last], span) + if OverlapsRange(tables[last], span) then [last] else []
  }

  function OverlappingTargets(runs: seq<Run>, from: nat, span: (Key, Key)): seq<RunFiles>
    requires forall r, i :: 0 <= r < |runs| && 0 <= i < |runs[r].tables| ==> |runs[r].tables[i].entries| > 0
  {
    if |runs| == 0 then []
    else
      var files := FilesOverlapping(runs[0].tables, span);
      (if |files| == 0 then [] else [RunFiles(from, files)]) + OverlappingTargets(runs[1..], from + 1, span)
  }

  predicate NoEmptyFiles(levels: Levels) {
    forall l, r, i :: 0 <= l < |levels| && 0 <= r < |levels[l]| && 0 <= i < |levels[l][r].tables| ==>
      |levels[l][r].tables[i].entries| > 0
  }

  predicate Sliceable(levels: Levels, request: Request) {
    && !request.Spans() && request.partial && request.first > 0
    && request.first < |levels| && |levels[request.first]| == 1
  }

  /** One file of the level's only run. */
  function Slice(levels: Levels, request: Request): seq<LevelFiles>
    requires Sliceable(levels, request)
  {
    if |levels[request.first][0].tables| == 0 then []
    else [LevelFiles(request.first, [RunFiles(0, [0])])]
  }

  function LevelingSources(levels: Levels, request: Request): seq<LevelFiles> {
    if Sliceable(levels, request) then Slice(levels, request) else SourceLevels(levels, request, request.first)
  }

  function LevelingTargets(levels: Levels, request: Request, sources: seq<LevelFiles>): seq<RunFiles>
    requires NoEmptyFiles(levels)
  {
    NamedFilesNotEmpty(levels, SourceSelections(sources));
    match SpanOf(NamedFiles(levels, SourceSelections(sources)))
    case None => []
    case Some(span) =>
      if request.IsSource(request.target) then []
      else OverlappingTargets(LevelAt(levels, request.target), 0, span)
  }

  function LevelingPlan(levels: Levels, request: Request): Option<Job>
    requires NoEmptyFiles(levels)
  {
    var sources := LevelingSources(levels, request);
    if |sources| == 0 then None
    else
      Some(Job(sources, request.target, LevelingTargets(levels, request, sources),
               IsDeepestLevel(levels, request.target)))
  }

  /** One policy a level: leveling into a target that may hold one run, tiering into any other. */
  function FluidPlan(levels: Levels, request: Request, runsAt: nat -> nat): Option<Job>
    requires NoEmptyFiles(levels)
  {
    if runsAt(request.target) <= 1 then LevelingPlan(levels, request) else TieringPlan(levels, request)
  }

  lemma {:induction false} PickedAreTables(tables: seq<TableFile>, files: seq<nat>)
    ensures forall t :: t in Pick(tables, files) ==> exists i :: 0 <= i < |tables| && i in files && tables[i] == t
    ensures forall i :: 0 <= i < |tables| && i in files ==> tables[i] in Pick(tables, files)
    ensures forall t :: t in Leave(tables, files) ==> exists i :: 0 <= i < |tables| && i !in files && tables[i] == t
  {
    if |tables| != 0 {
      var init := tables[..|tables| - 1];
      PickedAreTables(init, files);
      forall t | t in Pick(init, files) ensures exists i :: 0 <= i < |tables| && i in files && tables[i] == t {
        var i :| 0 <= i < |init| && i in files && init[i] == t;
        assert tables[i] == t;
      }
      forall t | t in Leave(init, files) ensures exists i :: 0 <= i < |tables| && i !in files && tables[i] == t {
        var i :| 0 <= i < |init| && i !in files && init[i] == t;
        assert tables[i] == t;
      }
      forall i | 0 <= i < |tables| && i in files ensures tables[i] in Pick(tables, files) {
        if i < |init| { assert init[i] in Pick(init, files); }
      }
    }
  }

  lemma {:induction false} NamedFilesNotEmpty(levels: Levels, selections: seq<Selection>)
    requires NoEmptyFiles(levels)
    ensures forall i :: 0 <= i < |NamedFiles(levels, selections)| ==> |NamedFiles(levels, selections)[i].entries| > 0
  {
    hide Pick;
    if |selections| != 0 {
      var s := selections[|selections| - 1];
      NamedFilesNotEmpty(levels, selections[..|selections| - 1]);
      var picked := Pick(TablesAt(levels, s.level, s.run), s.files);
      PickedAreTables(TablesAt(levels, s.level, s.run), s.files);
      forall i | 0 <= i < |picked| ensures |picked[i].entries| > 0 {
        assert picked[i] in picked;
        var n :| 0 <= n < |TablesAt(levels, s.level, s.run)| && n in s.files
            && TablesAt(levels, s.level, s.run)[n] == picked[i];
      }
    }
  }

  // ---------------------------------------------------------------------
  // What is selected
  // ---------------------------------------------------------------------

  /** Selected runs come newest first, each within the level. */
  ghost predicate InOrder(selected: seq<RunFiles>, from: nat, end: nat) {
    && (forall i :: 0 <= i < |selected| ==> from <= selected[i].run < end)
    && forall i, j :: 0 <= i < j < |selected| ==> selected[i].run < selected[j].run
  }

  lemma {:induction false} AllFilesInOrder(runs: seq<Run>, from: nat)
    ensures InOrder(AllFiles(runs, from), from, from + |runs|)
    ensures forall r :: 0 <= r < |runs| && |runs[r].tables| > 0 ==>
              RunFiles(from + r, AllIndices(|runs[r].tables|)) in AllFiles(runs, from)
  {
    if |runs| != 0 {
      AllFilesInOrder(runs[1..], from + 1);
      forall r | 0 <= r < |runs| && |runs[r].tables| > 0
        ensures RunFiles(from + r, AllIndices(|runs[r].tables|)) in AllFiles(runs, from)
      {
        if r > 0 { assert runs[1..][r - 1] == runs[r]; }
      }
    }
  }

  lemma {:induction false} NewestRunsInOrder(runs: seq<Run>, from: nat, accumulated: nat, units: nat)
    ensures InOrder(NewestRuns(runs, from, accumulated, units), from, from + |runs|)
    decreases |runs|
  {
    hide NewestRuns, AllIndices, InOrder;
    NothingInOrder(from, from + |runs|);
    if |runs| == 0 {
      NothingNewest(from, accumulated, units);
    } else {
      var first, sum := RunFiles(from, AllIndices(|runs[0].tables|)), accumulated + runs[0].units;
      NewestRunsSkip(runs, from, accumulated, units);
      if |runs[0].tables| == 0 {
        NewestRunsInOrder(runs[1..], from + 1, accumulated, units);
        LaterInOrder(NewestRuns(runs[1..], from + 1, accumulated, units), from, from + |runs|);
      } else if sum <= units {
        NewestRunsStep(runs, from, accumulated, units);
        NothingInOrder(from + 1, from + |runs|);
        if sum < units { NewestRunsInOrder(runs[1..], from + 1, sum, units); }
        FirstInOrder(first, if sum >= units then [] else NewestRuns(runs[1..], from + 1, sum, units), from + |runs|);
      }
    }
  }

  lemma NothingNewest(from: nat, accumulated: nat, units: nat)
    ensures NewestRuns([], from, accumulated, units) == []
  {}

  lemma NothingInOrder(from: nat, end: nat)
    ensures InOrder([], from, end)
  {}

  lemma LaterInOrder(selected: seq<RunFiles>, from: nat, end: nat)
    requires InOrder(selected, from + 1, end)
    ensures InOrder(selected, from, end)
  {}

  lemma FirstInOrder(first: RunFiles, rest: seq<RunFiles>, end: nat)
    requires first.run < end && InOrder(rest, first.run + 1, end)
    ensures InOrder([first] + rest, first.run, end)
  {}

  lemma RunsToTakeInOrder(levels: Levels, l: nat, request: Request)
    ensures InOrder(RunsToTake(levels, l, request), 0, |LevelAt(levels, l)|)
  {
    AllFilesInOrder(LevelAt(levels, l), 0);
    if request.mergeUnits.Some? { NewestRunsInOrder(LevelAt(levels, l), 0, 0, request.mergeUnits.value); }
  }

  lemma IncreasingIn(level: nat, runs: seq<RunFiles>, end: nat)
    requires InOrder(runs, 0, end)
    ensures Increasing(SelectionsIn(level, runs))
  {}

  lemma IncreasingConcat(a: seq<Selection>, b: seq<Selection>)
    requires Increasing(a) && Increasing(b)
    requires forall i, j :: 0 <= i < |a| && 0 <= j < |b| ==> Earlier(a[i].level, a[i].run, b[j].level, b[j].run)
    ensures Increasing(a + b)
  {
    hide Earlier;
  }

  ghost predicate LevelsWithin(selections: seq<Selection>, low: nat, high: nat) {
    forall i :: 0 <= i < |selections| ==> low <= selections[i].level <= high
  }

  lemma {:induction false} SourcesInOrder(levels: Levels, request: Request, from: nat)
    ensures var selections := SourceSelections(SourceLevels(levels, request, from));
            Increasing(selections) && LevelsWithin(selections, from, request.last)
    decreases request.last + 1 - from
  {
    hide RunsToTake;
    if from <= request.last {
      SourcesInOrder(levels, request, from + 1);
      RunsToTakeInOrder(levels, from, request);
      var runs := RunsToTake(levels, from, request);
      var rest := SourceLevels(levels, request, from + 1);
      FirstSourceLevel(from, runs, rest);
      assert SourceSelections(SourceLevels(levels, request, from)) == SelectionsIn(from, runs) + SourceSelections(rest);
      hide SourceLevels, SourceSelections, LevelAt;
      OneMoreLevelInOrder(from, runs, |LevelAt(levels, from)|, SourceSelections(rest), request.last);
    }
  }

  lemma OneMoreLevelInOrder(level: nat, runs: seq<RunFiles>, end: nat, rest: seq<Selection>, high: nat)
    requires level <= high && InOrder(runs, 0, end) && Increasing(rest) && LevelsWithin(rest, level + 1, high)
    ensures Increasing(SelectionsIn(level, runs) + rest) && LevelsWithin(SelectionsIn(level, runs) + rest, level, high)
  {
    IncreasingIn(level, runs, end);
    hide Increasing;
    IncreasingConcat(SelectionsIn(level, runs), rest);
  }

  lemma FirstSourceLevel(from: nat, runs: seq<RunFiles>, rest: seq<LevelFiles>)
    ensures SourceSelections((if |runs| == 0 then [] else [LevelFiles(from, runs)]) + rest)
         == SelectionsIn(from, runs) + SourceSelections(rest)
  {
    if |runs| == 0 {
      assert [] + rest == rest;
    } else {
      assert ([LevelFiles(from, runs)] + rest)[1..] == rest;
    }
  }

  /** Without a limit on units, every file of a source level is selected. */
  lemma {:induction false} SourcesCover(levels: Levels, request: Request, from: nat, l: nat, r: nat)
    requires request.mergeUnits.None? && from <= l <= request.last && InRange(levels, l, r) && |levels[l][r].tables| > 0
    ensures Selection(l, r, AllIndices(|levels[l][r].tables|)) in SourceSelections(SourceLevels(levels, request, from))
    decreases request.last + 1 - from
  {
    hide AllIndices, AllFiles;
    var runs := RunsToTake(levels, from, request);
    var rest := SourceLevels(levels, request, from + 1);
    FirstSourceLevel(from, runs, rest);
    if l == from {
      AllFilesInOrder(levels[l], 0);
      var named := RunFiles(r, AllIndices(|levels[l][r].tables|));
      assert named in runs;
      var i :| 0 <= i < |runs| && runs[i] == named;
      assert SelectionsIn(from, runs)[i] == Selection(l, r, AllIndices(|levels[l][r].tables|));
    } else {
      SourcesCover(levels, request, from + 1, l, r);
    }
  }

  lemma {:induction false} LeaveAll(tables: seq<TableFile>, n: nat)
    requires |tables| <= n
    ensures Leave(tables, AllIndices(n)) == []
  {
    hide AllIndices;
    if |tables| != 0 {
      LeaveAll(tables[..|tables| - 1], n);
      AllIndicesHold(n, |tables| - 1);
    }
  }

  lemma AllIndicesHold(n: nat, i: nat)
    requires i < n
    ensures i in AllIndices(n)
  {
    assert AllIndices(n)[i] == i;
  }

  /** A run whose every file is selected has nothing left. */
  lemma CoveredIsCleared(levels: Levels, selections: seq<Selection>, l: nat, r: nat)
    requires Increasing(selections)
    requires InRange(levels, l, r) && |levels[l][r].tables| > 0 ==>
               Selection(l, r, AllIndices(|levels[l][r].tables|)) in selections
    ensures TablesAt(After(levels, selections), l, r) == []
  {
    hide AllIndices, Increasing, After, Leave;
    AfterAt(levels, selections, l, r);
    LeaveOfNothing(FilesAt(selections, l, r));
    if InRange(levels, l, r) && |levels[l][r].tables| > 0 {
      var i :| 0 <= i < |selections| && selections[i] == Selection(l, r, AllIndices(|levels[l][r].tables|));
      FilesAtSelection(selections, i);
      LeaveAll(levels[l][r].tables, |levels[l][r].tables|);
    }
  }

  lemma NothingHeld(levels: Levels, l: nat, r: nat, key: Key)
    requires TablesAt(levels, l, r) == []
    ensures HeldAt(levels, l, r, key).None?
  {
    NoTables();
    LookupNone([], key);
  }

  /** What is left at a position was there before. */
  lemma EmptyStaysEmpty(levels: Levels, selections: seq<Selection>, l: nat, r: nat)
    requires Increasing(selections) && TablesAt(levels, l, r) == []
    ensures TablesAt(After(levels, selections), l, r) == []
  {
    hide After;
    AfterAt(levels, selections, l, r);
    LeaveOfNothing(FilesAt(selections, l, r));
  }

  // ---------------------------------------------------------------------
  // Safety
  // ---------------------------------------------------------------------

  /** The job changes no answer, for any key. */
  ghost predicate Preserves(levels: Levels, job: Job) {
    forall key: Key :: Visible(ReadAfter(levels, job, key)) == Visible(ReadLevels(levels, key))
  }

  /** Where a job drops the tombstone of a key it takes, nothing of the key is left at or below the output. */
  ghost predicate ClearsBelow(levels: Levels, job: Job, key: Key) {
    job.dropTombstones && !NotTaken(levels, Selections(job), key) ==>
      forall l: nat, r: nat :: l >= job.target ==> HeldAt(After(levels, Selections(job)), l, r, key).None?
  }

  /** The side conditions of a compaction, key by key. */
  ghost predicate ValidJob(levels: Levels, job: Job) {
    && Increasing(Selections(job))
    && forall key: Key :: KeepsOrder(levels, job, key) && ClearsBelow(levels, job, key)
  }

  /** With nothing left at or below the output, a tombstone has nothing to hide. */
  lemma NothingBelowIsSafe(levels: Levels, job: Job, key: Key)
    requires SoundLevels(levels) && Increasing(Selections(job)) && KeepsOrder(levels, job, key)
             && ClearsBelow(levels, job, key)
    ensures !Disturbs(levels, job, key) && Visible(ReadAfter(levels, job, key)) == Visible(ReadLevels(levels, key))
  {
    hide HeldAt, LeftAt, ReadLevels, After, SoundLevels, Lookup, HeldBy, Increasing, ReadAfter, Visible;
    CompactionKeepsKey(levels, job, key);
    if Disturbs(levels, job, key) {
      var i: nat, l: nat, r: nat :| DisturbsAt(levels, job, key, i, l, r);
      LeftIsHeldAfter(levels, Selections(job), l, r, key);
      assert false;
    }
  }

  /** A valid job changes no answer. */
  lemma ValidJobPreserves(levels: Levels, job: Job)
    requires SoundLevels(levels) && ValidJob(levels, job)
    ensures Preserves(levels, job)
  {
    hide Visible, ReadAfter, ReadLevels, SoundLevels, Increasing, KeepsOrder, ClearsBelow;
    forall key: Key ensures Visible(ReadAfter(levels, job, key)) == Visible(ReadLevels(levels, key)) {
      assert KeepsOrder(levels, job, key) && ClearsBelow(levels, job, key);
      NothingBelowIsSafe(levels, job, key);
    }
  }

  /** A request for whole levels: into the next level, or into one of the source levels. */
  predicate IsWhole(request: Request) {
    && request.mergeUnits.None?
    && (request.IsSource(request.target) || (request.target == request.last + 1 && request.first <= request.last))
  }

  /** A request for the newest units of one level, merged within it. */
  predicate IsLimited(request: Request) {
    request.mergeUnits.Some? && request.first == request.last == request.target
  }

  /** The requests the growth schemes make. */
  predicate IsScheduled(request: Request) {
    IsWhole(request) || IsLimited(request)
  }

  /** Tiering a whole span of levels, into one of them or into the next, is safe for every tree. */
  lemma TieringWholeIsSafe(levels: Levels, request: Request)
    requires SoundLevels(levels) && TieringPlan(levels, request).Some? && IsWhole(request)
    ensures ValidJob(levels, TieringPlan(levels, request).value)
  {
    hide SoundLevels, HeldAt, After, FirstTaken, Increasing;
    var job := TieringPlan(levels, request).value;
    var selections := Selections(job);
    SourcesInOrder(levels, request, request.first);
    TieringSelections(levels, request);
    forall key: Key ensures KeepsOrder(levels, job, key) && ClearsBelow(levels, job, key) {
      forall l: nat, r: nat | HeldAt(After(levels, selections), l, r, key).Some?
        ensures l < request.first || l > request.last
      {
        TieringClears(levels, request, l, r, key);
      }
      OutsideSourcesKeepsOrder(levels, request, job, key);
      if job.dropTombstones {
        forall l: nat, r: nat | l >= job.target ensures HeldAt(After(levels, selections), l, r, key).None? {
          TieringClears(levels, request, l, r, key);
        }
      }
    }
  }

  /** With nothing left of the key in the source levels, what is left lies above or below all of them. */
  lemma OutsideSourcesKeepsOrder(levels: Levels, request: Request, job: Job, key: Key)
    requires job.target == request.target && request.first <= request.target <= request.last + 1
    requires LevelsWithin(Selections(job), request.first, request.last)
    requires forall l: nat, r: nat ::
               HeldAt(After(levels, Selections(job)), l, r, key).Some? ==> l < request.first || l > request.last
    ensures KeepsOrder(levels, job, key)
  {
    hide HeldAt, After, HeldBy;
  }

  lemma TieringSelections(levels: Levels, request: Request)
    requires TieringPlan(levels, request).Some?
    ensures Selections(TieringPlan(levels, request).value)
            == SourceSelections(SourceLevels(levels, request, request.first))
  {
    hide SourceSelections, SourceLevels;
    assert SelectionsIn(request.target, []) == [];
  }

  lemma TieringClears(levels: Levels, request: Request, l: nat, r: nat, key: Key)
    requires TieringPlan(levels, request).Some? && request.mergeUnits.None?
    requires Increasing(Selections(TieringPlan(levels, request).value))
    ensures request.IsSource(l) ==> HeldAt(After(levels, Selections(TieringPlan(levels, request).value)), l, r,
                                           key).None?
    ensures TieringPlan(levels, request).value.dropTombstones && l >= request.target
            && request.target >= request.first ==>
              HeldAt(After(levels, Selections(TieringPlan(levels, request).value)), l, r, key).None?
  {
    hide HeldAt, After, Increasing, AllIndices, SourceSelections, SourceLevels, Selections;
    var job := TieringPlan(levels, request).value;
    var selections := Selections(job);
    TieringSelections(levels, request);
    if request.IsSource(l) {
      if InRange(levels, l, r) && |levels[l][r].tables| > 0 { SourcesCover(levels, request, request.first, l, r); }
      CoveredIsCleared(levels, selections, l, r);
      NothingHeld(After(levels, selections), l, r, key);
    } else if job.dropTombstones && l >= request.target {
      EmptyStaysEmpty(levels, selections, l, r);
      NothingHeld(After(levels, selections), l, r, key);
    }
  }

  lemma NewestRunsStep(runs: seq<Run>, from: nat, accumulated: nat, units: nat)
    requires |runs| > 0 && |runs[0].tables| > 0 && accumulated + runs[0].units <= units
    ensures var sum := accumulated + runs[0].units;
            NewestRuns(runs, from, accumulated, units)
            == [RunFiles(from, AllIndices(|runs[0].tables|))]
               + (if sum >= units then [] else NewestRuns(runs[1..], from + 1, sum, units))
  {}

  lemma InTail(x: RunFiles, first: RunFiles, rest: seq<RunFiles>)
    requires x in rest
    ensures x in [first] + rest
  {}

  lemma LaterIsInTail(all: seq<RunFiles>, first: RunFiles, rest: seq<RunFiles>, more: bool, i: nat, from: nat)
    requires all == [first] + (if more then rest else []) && i < |all| && first.run == from && all[i].run > from
    ensures more && i > 0 && i - 1 < |rest| && rest[i - 1] == all[i]
  {}

  lemma NewestRunsSkip(runs: seq<Run>, from: nat, accumulated: nat, units: nat)
    requires |runs| > 0
    ensures |runs[0].tables| == 0 ==>
              NewestRuns(runs, from, accumulated, units) == NewestRuns(runs[1..], from + 1, accumulated, units)
    ensures |runs[0].tables| > 0 && accumulated + runs[0].units > units
            ==> NewestRuns(runs, from, accumulated, units) == []
  {}

  /** The selected runs are the newest of those that hold anything: none in between is left out. */
  lemma {:induction false} NewestRunsArePrefix(runs: seq<Run>, from: nat, accumulated: nat, units: nat, r: nat, i: nat)
    requires r < |runs| && |runs[r].tables| > 0
    requires i < |NewestRuns(runs, from, accumulated, units)|
             && from + r <= NewestRuns(runs, from, accumulated, units)[i].run
    ensures RunFiles(from + r, AllIndices(|runs[r].tables|)) in NewestRuns(runs, from, accumulated, units)
    decreases |runs|
  {
    hide NewestRuns, AllIndices;
    var tail, first, sum := runs[1..], RunFiles(from, AllIndices(|runs[0].tables|)), accumulated + runs[0].units;
    NewestRunsSkip(runs, from, accumulated, units);
    if |runs[0].tables| > 0 { NewestRunsStep(runs, from, accumulated, units); }
    if r == 0 {
      assert from + 0 == from;
    } else {
      assert tail[r - 1] == runs[r] && (from + 1) + (r - 1) == from + r;
      if |runs[0].tables| == 0 {
        NewestRunsArePrefix(tail, from + 1, accumulated, units, r - 1, i);
      } else {
        var rest := NewestRuns(tail, from + 1, sum, units);
        LaterIsInTail(NewestRuns(runs, from, accumulated, units), first, rest, sum < units, i, from);
        NewestRunsArePrefix(tail, from + 1, sum, units, r - 1, i - 1);
        InTail(RunFiles(from + r, AllIndices(|runs[r].tables|)), first, rest);
      }
    }
  }

  lemma TakenArePrefix(levels: Levels, request: Request, l: nat, r: nat, i: nat)
    requires InRange(levels, l, r) && |levels[l][r].tables| > 0
    requires i < |RunsToTake(levels, l, request)| && r <= RunsToTake(levels, l, request)[i].run
    ensures RunFiles(r, AllIndices(|levels[l][r].tables|)) in RunsToTake(levels, l, request)
  {
    hide AllIndices, AllFiles, NewestRuns;
    assert 0 + r == r && LevelAt(levels, l) == levels[l];
    if request.mergeUnits.None? {
      AllFilesInOrder(levels[l], 0);
      assert RunFiles(0 + r, AllIndices(|levels[l][r].tables|)) in AllFiles(levels[l], 0);
    } else {
      NewestRunsArePrefix(levels[l], 0, 0, request.mergeUnits.value, r, i);
    }
  }

  lemma OneLevelSelections(levels: Levels, request: Request)
    requires TieringPlan(levels, request).Some? && request.first == request.last == request.target
    ensures Selections(TieringPlan(levels, request).value)
         == SelectionsIn(request.target, RunsToTake(levels, request.target, request))
    ensures |RunsToTake(levels, request.target, request)| > 0
  {
    hide RunsToTake;
    var runs := RunsToTake(levels, request.target, request);
    assert SourceLevels(levels, request, request.last + 1) == [];
    assert SourceLevels(levels, request, request.first) == [LevelFiles(request.target, runs)];
    assert SourceSelections([LevelFiles(request.target, runs)])
           == SelectionsIn(request.target, runs) + SourceSelections([]);
  }

  lemma NewestRunsKeepOrder(levels: Levels, request: Request, key: Key)
    requires TieringPlan(levels, request).Some? && request.first == request.last == request.target
    requires Increasing(Selections(TieringPlan(levels, request).value))
    ensures KeepsOrder(levels, TieringPlan(levels, request).value, key)
  {
    hide HeldAt, After, HeldBy, Increasing, AllIndices, RunsToTake;
    var job, runs := TieringPlan(levels, request).value, RunsToTake(levels, request.target, request);
    var selections := Selections(job);
    OneLevelSelections(levels, request);
    forall i: nat, l: nat, r: nat | FirstTaken(levels, selections, i, key)
      && HeldAt(After(levels, selections), l, r, key).Some?
      ensures Earlier(l, r, selections[i].level, selections[i].run) <==> l < job.target
    {
      assert selections[i] == Selection(request.target, runs[i].run, runs[i].files);
      if l == request.target && r < runs[i].run {
        if InRange(levels, l, r) && |levels[l][r].tables| > 0 {
          TakenArePrefix(levels, request, l, r, i);
          var named := RunFiles(r, AllIndices(|levels[l][r].tables|));
          var n :| 0 <= n < |runs| && runs[n] == named;
          assert selections[n] == Selection(l, r, AllIndices(|levels[l][r].tables|));
        }
        CoveredIsCleared(levels, selections, l, r);
        NothingHeld(After(levels, selections), l, r, key);
        assert false;
      }
    }
  }

  // ---------------------------------------------------------------------
  // Leveling is safe when the target's runs do not share keys
  // ---------------------------------------------------------------------

  /** No key is in two runs of the level. */
  ghost predicate KeyDisjoint(runs: seq<Run>) {
    forall i, j, key: Key :: 0 <= i < j < |runs| ==>
      Lookup(EntriesOf(runs[i].tables), key).None? || Lookup(EntriesOf(runs[j].tables), key).None?
  }

  lemma SoundHasNoEmptyFiles(levels: Levels)
    requires SoundLevels(levels)
    ensures NoEmptyFiles(levels)
  {
    forall l, r, i | 0 <= l < |levels| && 0 <= r < |levels[l]| && 0 <= i < |levels[l][r].tables|
      ensures |levels[l][r].tables[i].entries| > 0
    {
      assert SoundRuns(levels[l]) && Sound(levels[l][r].tables);
      assert |Parts(levels[l][r].tables)[i]| > 0;
    }
  }

  lemma AtMostTransitive(a: Key, b: Key, c: Key)
    requires AtMost(a, b) && AtMost(b, c)
    ensures AtMost(a, c)
  {
    LessTotal(a, b);
    LessTotal(b, c);
    if Less(c, a) && a != b { LessTransitive(c, a, b); }
  }

  lemma Extremes(a: Key, b: Key)
    ensures AtMost(LeastKey(a, b), a) && AtMost(LeastKey(a, b), b)
    ensures AtMost(a, GreatestKey(a, b)) && AtMost(b, GreatestKey(a, b))
  {
    LessIrreflexive(a);
    LessIrreflexive(b);
    LessTotal(a, b);
    if Less(a, b) { LessAsymmetric(a, b); }
    if Less(b, a) { LessAsymmetric(b, a); }
  }

  lemma {:induction false} SpanCovers(tables: seq<TableFile>, t: TableFile)
    requires forall i :: 0 <= i < |tables| ==> |tables[i].entries| > 0
    requires t in tables
    ensures SpanOf(tables).Some? && AtMost(SpanOf(tables).value.0, t.MinKey())
            && AtMost(t.MaxKey(), SpanOf(tables).value.1)
  {
    hide Less, AtMost, LeastKey, GreatestKey;
    var init, last := tables[..|tables| - 1], tables[|tables| - 1];
    assert tables == init + [last];
    ReflexiveAtMost(last.MinKey());
    ReflexiveAtMost(last.MaxKey());
    if SpanOf(init).Some? {
      var span := SpanOf(init).value;
      Extremes(span.0, last.MinKey());
      Extremes(span.1, last.MaxKey());
      if t in init {
        SpanCovers(init, t);
        AtMostTransitive(LeastKey(span.0, last.MinKey()), span.0, t.MinKey());
        AtMostTransitive(t.MaxKey(), span.1, GreatestKey(span.1, last.MaxKey()));
      }
    } else if t in init {
      SpanCovers(init, t);
    }
  }

  lemma ReflexiveAtMost(a: Key)
    ensures AtMost(a, a)
  {
    LessIrreflexive(a);
  }

  /** A key of a table lies between the table's ends. */
  lemma WithinTable(entries: seq<Entry>, i: nat)
    requires Ascending(entries) && i < |entries|
    ensures AtMost(entries[0].key, entries[i].key) && AtMost(entries[i].key, entries[|entries| - 1].key)
  {
    LessIrreflexive(entries[i].key);
    if i > 0 { LessAsymmetric(entries[0].key, entries[i].key); }
    if i < |entries| - 1 { LessAsymmetric(entries[i].key, entries[|entries| - 1].key); }
  }

  /** The table of a run that holds a key. */
  lemma {:induction false} HoldingTable(tables: seq<TableFile>, key: Key) returns (n: nat)
    requires Sound(tables) && Lookup(EntriesOf(tables), key).Some?
    ensures n < |tables| && |tables[n].entries| > 0
    ensures AtMost(tables[n].MinKey(), key) && AtMost(key, tables[n].MaxKey())
  {
    HasTables(tables, key);
    hide Sound, Ascending, Below, EntriesOf, Less, AtMost;
    var init, t := tables[..|tables| - 1], tables[|tables| - 1];
    SoundInit(tables);
    LookupConcat(EntriesOf(init), t.entries, key);
    if Lookup(EntriesOf(init), key).Some? {
      n := HoldingTable(init, key);
      assert init[n] == tables[n];
    } else {
      n := |tables| - 1;
      LookupIsMember(t.entries, key);
      var i :| 0 <= i < |t.entries| && t.entries[i].key == key;
      WithinTable(t.entries, i);
    }
  }

  lemma HasTables(tables: seq<TableFile>, key: Key)
    requires Lookup(EntriesOf(tables), key).Some?
    ensures |tables| > 0
  {}

  lemma {:induction false} NamedFilesHold(levels: Levels, selections: seq<Selection>, i: nat, t: TableFile)
    requires i < |selections| && t in Pick(TablesAt(levels, selections[i].level, selections[i].run),
                                           selections[i].files)
    ensures t in NamedFiles(levels, selections)
    decreases |selections|
  {
    hide Pick;
    if i < |selections| - 1 { NamedFilesHold(levels, selections[..|selections| - 1], i, t); }
  }

  /** A key taken from the sources lies in their span. */
  lemma TakenKeyInSpan(levels: Levels, selections: seq<Selection>, i: nat, key: Key)
    requires SoundLevels(levels) && NoEmptyFiles(levels) && i < |selections| && HeldBy(levels, selections[i], key).Some?
    ensures forall n :: 0 <= n < |NamedFiles(levels, selections)| ==> |NamedFiles(levels, selections)[n].entries| > 0
    ensures SpanOf(NamedFiles(levels, selections)).Some?
    ensures AtMost(SpanOf(NamedFiles(levels, selections)).value.0, key)
    ensures AtMost(key, SpanOf(NamedFiles(levels, selections)).value.1)
  {
    hide Pick, EntriesOf, AtMost, SpanOf, NamedFiles, SoundLevels, NoEmptyFiles, Sound;
    var s := selections[i];
    NamedFilesNotEmpty(levels, selections);
    SoundAt(levels, s.level, s.run);
    SplitIsSound(TablesAt(levels, s.level, s.run), s.files);
    var picked := Pick(TablesAt(levels, s.level, s.run), s.files);
    var n := HoldingTable(picked, key);
    NamedFilesHold(levels, selections, i, picked[n]);
    SpanCovers(NamedFiles(levels, selections), picked[n]);
    var span := SpanOf(NamedFiles(levels, selections)).value;
    AtMostTransitive(span.0, picked[n].MinKey(), key);
    AtMostTransitive(key, picked[n].MaxKey(), span.1);
  }

  lemma {:induction false} OverlappingInOrder(runs: seq<Run>, from: nat, span: (Key, Key))
    requires forall r, i :: 0 <= r < |runs| && 0 <= i < |runs[r].tables| ==> |runs[r].tables[i].entries| > 0
    ensures InOrder(OverlappingTargets(runs, from, span), from, from + |runs|)
  {
    hide FilesOverlapping;
    if |runs| != 0 { OverlappingInOrder(runs[1..], from + 1, span); }
  }

  lemma {:induction false} OverlappingCovers(runs: seq<Run>, from: nat, span: (Key, Key), r: nat)
    requires forall r, i :: 0 <= r < |runs| && 0 <= i < |runs[r].tables| ==> |runs[r].tables[i].entries| > 0
    requires r < |runs| && |FilesOverlapping(runs[r].tables, span)| > 0
    ensures RunFiles(from + r, FilesOverlapping(runs[r].tables, span)) in OverlappingTargets(runs, from, span)
  {
    hide FilesOverlapping;
    if r > 0 {
      assert runs[1..][r - 1] == runs[r];
      OverlappingCovers(runs[1..], from + 1, span, r - 1);
    }
  }

  lemma RangesMeet(t: TableFile, span: (Key, Key), key: Key)
    requires |t.entries| > 0 && AtMost(t.MinKey(), key) && AtMost(key, t.MaxKey()) && AtMost(span.0, key)
             && AtMost(key, span.1)
    ensures OverlapsRange(t, span)
  {
    hide AtMost;
    AtMostTransitive(span.0, key, t.MaxKey());
    AtMostTransitive(t.MinKey(), key, span.1);
  }

  /** After the files overlapping a span are taken, nothing left of the run has a key in the span. */
  lemma NothingLeftInSpan(tables: seq<TableFile>, files: seq<nat>, span: (Key, Key), key: Key)
    requires Sound(tables) && forall i :: 0 <= i < |tables| ==> |tables[i].entries| > 0
    requires forall i :: 0 <= i < |tables| && OverlapsRange(tables[i], span) ==> i in files
    requires AtMost(span.0, key) && AtMost(key, span.1)
    ensures Lookup(EntriesOf(Leave(tables, files)), key) == None
  {
    hide EntriesOf, Leave, AtMost, Sound;
    SplitIsSound(tables, files);
    PickedAreTables(tables, files);
    var left := Leave(tables, files);
    if Lookup(EntriesOf(left), key).Some? {
      var n := HoldingTable(left, key);
      assert left[n] in left;
      var i :| 0 <= i < |tables| && i !in files && tables[i] == left[n];
      RangesMeet(tables[i], span, key);
      assert false;
    }
  }

  // ---------------------------------------------------------------------
  // Leveling jobs
  // ---------------------------------------------------------------------

  /** The parts of a leveling job. */
  lemma LevelingParts(levels: Levels, request: Request)
    requires NoEmptyFiles(levels) && LevelingPlan(levels, request).Some?
    requires request.IsSource(request.target) || (request.target == request.last + 1 && request.first <= request.last)
    ensures var job, sources := LevelingPlan(levels, request).value, SourceSelections(LevelingSources(levels, request));
            && job.target == request.target && job.sources == LevelingSources(levels, request)
            && Selections(job) == sources + SelectionsIn(request.target, job.targets)
            && Increasing(Selections(job)) && LevelsWithin(sources, request.first, request.last)
            && (request.IsSource(request.target) ==> job.targets == [])
  {
    var job, sources := LevelingPlan(levels, request).value, SourceSelections(LevelingSources(levels, request));
    LevelingSourcesInOrder(levels, request);
    LevelingTargetsInOrder(levels, request);
    hide LevelingSources, LevelingTargets, Earlier;
    IncreasingIn(request.target, job.targets, |LevelAt(levels, request.target)|);
    if request.IsSource(request.target) {
      assert sources + [] == sources;
    } else {
      SourcesBeforeTargets(sources, request, job.targets);
      IncreasingConcat(sources, SelectionsIn(request.target, job.targets));
    }
  }

  lemma SourcesBeforeTargets(sources: seq<Selection>, request: Request, targets: seq<RunFiles>)
    requires LevelsWithin(sources, request.first, request.last) && request.target == request.last + 1
    ensures forall i, j :: 0 <= i < |sources| && 0 <= j < |targets| ==>
              Earlier(sources[i].level, sources[i].run, SelectionsIn(request.target, targets)[j].level,
                      SelectionsIn(request.target, targets)[j].run)
  {}

  lemma LevelingSourcesInOrder(levels: Levels, request: Request)
    requires request.first <= request.last
    ensures var sources := SourceSelections(LevelingSources(levels, request));
            Increasing(sources) && LevelsWithin(sources, request.first, request.last)
  {
    if Sliceable(levels, request) {
      var slice := Slice(levels, request);
      if |slice| > 0 {
        FirstSourceLevel(request.first, [RunFiles(0, [0])], []);
        assert [LevelFiles(request.first, [RunFiles(0, [0])])] + [] == slice;
      }
    } else {
      SourcesInOrder(levels, request, request.first);
    }
  }

  lemma LevelingTargetsInOrder(levels: Levels, request: Request)
    requires NoEmptyFiles(levels)
    ensures var targets := LevelingTargets(levels, request, LevelingSources(levels, request));
            InOrder(targets, 0, |LevelAt(levels, request.target)|)
              && (request.IsSource(request.target) ==> targets == [])
  {
    hide LevelingSources, NamedFiles, SpanOf, OverlappingTargets, SourceSelections, InOrder;
    NamedFilesNotEmpty(levels, SourceSelections(LevelingSources(levels, request)));
    var span := SpanOf(NamedFiles(levels, SourceSelections(LevelingSources(levels, request))));
    NoneInOrder(|LevelAt(levels, request.target)|);
    if span.Some? { OverlappingInOrder(LevelAt(levels, request.target), 0, span.value); }
  }

  lemma NoneInOrder(end: nat)
    ensures InOrder([], 0, end)
  {}

  /** Nothing is left at the target of a key that the sources held. */
  lemma SourceKeyLeavesTarget(levels: Levels, request: Request, i: nat, r: nat, key: Key)
    requires SoundLevels(levels) && NoEmptyFiles(levels) && LevelingPlan(levels, request).Some?
    requires request.target == request.last + 1 && request.first <= request.last
    requires var sources := SourceSelections(LevelingSources(levels, request));
             i < |sources| && HeldBy(levels, sources[i], key).Some?
    ensures HeldAt(After(levels, Selections(LevelingPlan(levels, request).value)), request.target, r, key).None?
  {
    LevelingParts(levels, request);
    hide LevelingSources, NamedFiles, SpanOf, HeldBy, AtMost, EntriesOf, Leave, After, Increasing, SoundLevels,
         FilesOverlapping, OverlappingTargets, SourceSelections, FilesAt;
    var job, sources := LevelingPlan(levels, request).value, SourceSelections(LevelingSources(levels, request));
    var selections := Selections(job);
    TakenKeyInSpan(levels, sources, i, key);
    var span := SpanOf(NamedFiles(levels, sources)).value;
    AfterAt(levels, selections, request.target, r);
    SoundAt(levels, request.target, r);
    if InRange(levels, request.target, r) {
      var tables := levels[request.target][r].tables;
      TargetFilesAt(levels, request, span, r);
      NothingLeftInSpan(tables, FilesAt(selections, request.target, r), span, key);
    } else {
      LeaveOfNothing(FilesAt(selections, request.target, r));
      NothingHeld(After(levels, selections), request.target, r, key);
    }
  }

  lemma TargetFilesAt(levels: Levels, request: Request, span: (Key, Key), r: nat)
    requires NoEmptyFiles(levels) && LevelingPlan(levels, request).Some?
    requires request.target == request.last + 1 && request.first <= request.last
    requires InRange(levels, request.target, r)
    requires forall n :: 0 <= n < |NamedFiles(levels, SourceSelections(LevelingSources(levels, request)))| ==>
               |NamedFiles(levels, SourceSelections(LevelingSources(levels, request)))[n].entries| > 0
    requires SpanOf(NamedFiles(levels, SourceSelections(LevelingSources(levels, request)))) == Some(span)
    ensures var tables := levels[request.target][r].tables;
            forall i :: 0 <= i < |tables| && OverlapsRange(tables[i], span) ==>
              i in FilesAt(Selections(LevelingPlan(levels, request).value), request.target, r)
  {
    LevelingParts(levels, request);
    var job := LevelingPlan(levels, request).value;
    assert job.targets == OverlappingTargets(levels[request.target], 0, span);
    hide LevelingPlan, LevelingSources, NamedFiles, SpanOf, AtMost, Increasing, SourceSelections, OverlapsRange,
         OverlappingTargets, FilesOverlapping, FilesAt, Selections;
    TargetSelected(levels, job, levels[request.target], span, r);
  }

  lemma TargetSelected(levels: Levels, job: Job, runs: seq<Run>, span: (Key, Key), r: nat)
    requires forall r, i :: 0 <= r < |runs| && 0 <= i < |runs[r].tables| ==> |runs[r].tables[i].entries| > 0
    requires r < |runs| && job.targets == OverlappingTargets(runs, 0, span) && Increasing(Selections(job))
    ensures forall i ::
              0 <= i < |runs[r].tables| && OverlapsRange(runs[r].tables[i], span)
              ==> i in FilesAt(Selections(job), job.target, r)
  {
    hide AtMost, Increasing, SourceSelections, OverlapsRange, OverlappingTargets, FilesAt, Selections;
    var files := FilesOverlapping(runs[r].tables, span);
    if |files| > 0 {
      OverlappingCovers(runs, 0, span, r);
      assert 0 + r == r;
      var n :| 0 <= n < |job.targets| && job.targets[n] == RunFiles(r, files);
      SelectionOfTarget(levels, job, n);
      FilesAtSelection(Selections(job), |SourceSelections(job.sources)| + n);
    }
  }

  lemma SelectionOfTarget(levels: Levels, job: Job, n: nat)
    requires n < |job.targets|
    ensures |SourceSelections(job.sources)| + n < |Selections(job)|
    ensures Selections(job)[|SourceSelections(job.sources)| + n]
            == Selection(job.target, job.targets[n].run, job.targets[n].files)
  {}

  /** Where a leveling job can leave a key it also takes. */
  lemma LevelingLeftovers(levels: Levels, request: Request, i: nat, l: nat, r: nat, key: Key)
    requires SoundLevels(levels) && NoEmptyFiles(levels) && LevelingPlan(levels, request).Some? && IsWhole(request)
    requires var job := LevelingPlan(levels, request).value;
             FirstTaken(levels, Selections(job), i, key) && HeldAt(After(levels, Selections(job)), l, r, key).Some?
    ensures var job := LevelingPlan(levels, request).value;
            || l < request.first || (l > request.last && l > request.target)
            || (i >= |SourceSelections(job.sources)| && l <= request.last < request.target)
            || (i >= |SourceSelections(job.sources)| && l == request.target > request.last
                && r != Selections(job)[i].run)
  {
    LevelingParts(levels, request);
    hide HeldAt, HeldBy, After, Increasing, SoundLevels, NoEmptyFiles, LevelingPlan, AllIndices, Sliceable;
    var job := LevelingPlan(levels, request).value;
    var selections, sources := Selections(job), SourceSelections(job.sources);
    HeldAtSelection(levels, selections, i, key);
    if request.IsSource(l) && i < |sources| {
      assert selections[i] == sources[i];
      SourceLeftovers(levels, request, sources, i, l, r, key);
    } else if l == request.target && !request.IsSource(l) && i < |sources| {
      assert selections[i] == sources[i];
      SourceKeyLeavesTarget(levels, request, i, r, key);
    }
  }

  /** A source level keeps no file of a key taken from it. */
  lemma SourceLeftovers(levels: Levels, request: Request, sources: seq<Selection>, i: nat, l: nat, r: nat, key: Key)
    requires NoEmptyFiles(levels) && LevelingPlan(levels, request).Some? && request.mergeUnits.None?
    requires request.IsSource(request.target) || (request.target == request.last + 1 && request.first <= request.last)
    requires sources == SourceSelections(LevelingSources(levels, request)) && i < |sources| && request.IsSource(l)
    requires HeldAt(After(levels, Selections(LevelingPlan(levels, request).value)), sources[i].level, sources[i].run,
                    key).None?
    ensures HeldAt(After(levels, Selections(LevelingPlan(levels, request).value)), l, r, key).None?
  {
    LevelingParts(levels, request);
    hide HeldAt, After, Increasing, NoEmptyFiles, LevelingPlan, AllIndices;
    var selections := Selections(LevelingPlan(levels, request).value);
    if Sliceable(levels, request) {
      SliceSelection(levels, request);
      if r > 0 {
        EmptyStaysEmpty(levels, selections, l, r);
        NothingHeld(After(levels, selections), l, r, key);
      }
    } else {
      if InRange(levels, l, r) && |levels[l][r].tables| > 0 {
        SourcesCover(levels, request, request.first, l, r);
        var s := Selection(l, r, AllIndices(|levels[l][r].tables|));
        assert s in sources;
        assert s in selections;
      }
      CoveredIsCleared(levels, selections, l, r);
      NothingHeld(After(levels, selections), l, r, key);
    }
  }

  lemma SliceSelection(levels: Levels, request: Request)
    requires Sliceable(levels, request)
    ensures forall i :: 0 <= i < |SourceSelections(LevelingSources(levels, request))| ==>
              SourceSelections(LevelingSources(levels, request))[i] == Selection(request.first, 0, [0])
  {
    var slice := Slice(levels, request);
    if |slice| > 0 {
      FirstSourceLevel(request.first, [RunFiles(0, [0])], []);
      assert [LevelFiles(request.first, [RunFiles(0, [0])])] + [] == slice;
    }
  }

  lemma HeldOnceInTarget(levels: Levels, selections: seq<Selection>, i: nat, r: nat, key: Key)
    requires SoundLevels(levels) && Increasing(selections) && FirstTaken(levels, selections, i, key)
    requires KeyDisjoint(LevelAt(levels, selections[i].level))
    ensures HeldAt(After(levels, selections), selections[i].level, r, key).None?
  {
    hide Lookup, EntriesOf, Pick, Leave, After, SoundLevels, Increasing, HeldBy;
    var l := selections[i].level;
    HeldAtSelection(levels, selections, i, key);
    HeldSplits(levels, selections, l, r, key);
    if HeldAt(levels, l, r, key).Some? {
      HolderInRange(levels, l, r, key);
      HolderInRange(levels, l, selections[i].run, key);
      assert Lookup(EntriesOf(levels[l][r].tables), key).Some?;
      assert Lookup(EntriesOf(levels[l][selections[i].run].tables), key).Some?;
      assert r == selections[i].run;
    }
  }

  /** A selected file of the target level holds the newest taken record of the key, and an unselected
      file of a newer run there holds the key too: the output would go on top of the newer record. */
  ghost predicate Overtakes(levels: Levels, job: Job, key: Key) {
    exists i: nat, r: nat ::
      && FirstTaken(levels, Selections(job), i, key) && i >= |SourceSelections(job.sources)|
      && r < Selections(job)[i].run && HeldAt(After(levels, Selections(job)), job.target, r, key).Some?
  }

  /** Leveling keeps a key's order exactly when its output overtakes no newer record at the target. */
  lemma LevelingKeepsOrderExactlyWhen(levels: Levels, request: Request, key: Key)
    requires SoundLevels(levels) && NoEmptyFiles(levels) && LevelingPlan(levels, request).Some? && IsWhole(request)
    ensures KeepsOrder(levels, LevelingPlan(levels, request).value, key)
       <==> !Overtakes(levels, LevelingPlan(levels, request).value, key)
  {
    LevelingParts(levels, request);
    var job := LevelingPlan(levels, request).value;
    hide HeldAt, HeldBy, After, Increasing, NoEmptyFiles, LevelingPlan, SoundLevels;
    var selections := Selections(job);
    forall i: nat, l: nat, r: nat | FirstTaken(levels, selections, i, key)
      && HeldAt(After(levels, selections), l, r, key).Some?
      ensures (Earlier(l, r, selections[i].level, selections[i].run) <==> l < job.target)
           || (i >= |SourceSelections(job.sources)| && l == job.target && r < selections[i].run)
    {
      LevelingLeftovers(levels, request, i, l, r, key);
      SelectionLevel(selections, job, request, i);
    }
    if Overtakes(levels, job, key) {
      var i: nat, r: nat :|
        && FirstTaken(levels, selections, i, key) && i >= |SourceSelections(job.sources)|
        && r < selections[i].run && HeldAt(After(levels, selections), job.target, r, key).Some?;
      SelectionLevel(selections, job, request, i);
      assert Earlier(job.target, r, selections[i].level, selections[i].run);
    }
  }

  /** The target is merged whole, or its runs share no key. */
  ghost predicate Mergeable(levels: Levels, request: Request) {
    request.IsSource(request.target) || KeyDisjoint(LevelAt(levels, request.target))
  }

  lemma MergeableIsNotOvertaken(levels: Levels, request: Request, key: Key)
    requires SoundLevels(levels) && NoEmptyFiles(levels) && LevelingPlan(levels, request).Some? && IsWhole(request)
    requires Mergeable(levels, request)
    ensures !Overtakes(levels, LevelingPlan(levels, request).value, key)
    ensures KeepsOrder(levels, LevelingPlan(levels, request).value, key)
  {
    LevelingKeepsOrderExactlyWhen(levels, request, key);
    LevelingParts(levels, request);
    var job := LevelingPlan(levels, request).value;
    hide HeldAt, HeldBy, After, Increasing, NoEmptyFiles, LevelingPlan, SoundLevels, KeyDisjoint, KeepsOrder;
    var selections := Selections(job);
    if Overtakes(levels, job, key) {
      var i: nat, r: nat :|
        && FirstTaken(levels, selections, i, key) && i >= |SourceSelections(job.sources)|
        && r < selections[i].run && HeldAt(After(levels, selections), job.target, r, key).Some?;
      SelectionLevel(selections, job, request, i);
      HeldOnceInTarget(levels, selections, i, r, key);
    }
  }

  lemma SelectionLevel(selections: seq<Selection>, job: Job, request: Request, i: nat)
    requires selections == SourceSelections(job.sources) + SelectionsIn(request.target, job.targets) && i < |selections|
    requires LevelsWithin(SourceSelections(job.sources), request.first, request.last)
    ensures i < |SourceSelections(job.sources)| ==> request.first <= selections[i].level <= request.last
    ensures i >= |SourceSelections(job.sources)| ==> selections[i].level == request.target && |job.targets| > 0
  {
    if i < |SourceSelections(job.sources)| { assert selections[i] == SourceSelections(job.sources)[i]; }
  }

  /** Nothing of a taken key is left at the target; below it, nothing at all when the target is deepest. */
  lemma LevelingClears(levels: Levels, request: Request, i: nat, key: Key, l: nat, r: nat)
    requires SoundLevels(levels) && NoEmptyFiles(levels) && LevelingPlan(levels, request).Some? && IsWhole(request)
    requires Mergeable(levels, request)
    requires FirstTaken(levels, Selections(LevelingPlan(levels, request).value), i, key)
    requires l == request.target || (l > request.target && IsDeepestLevel(levels, request.target))
    ensures HeldAt(After(levels, Selections(LevelingPlan(levels, request).value)), l, r, key).None?
  {
    LevelingParts(levels, request);
    var job := LevelingPlan(levels, request).value;
    var selections := Selections(job);
    hide HeldAt, HeldBy, After, Increasing, KeyDisjoint, NoEmptyFiles, LevelingPlan, SoundLevels;
    if HeldAt(After(levels, selections), l, r, key).Some? {
      if l > request.target {
        BelowDeepest(levels, request.target, selections, l, r, key);
      } else {
        LevelingLeftovers(levels, request, i, l, r, key);
        SelectionLevel(selections, job, request, i);
        HeldOnceInTarget(levels, selections, i, r, key);
      }
    }
  }

  lemma BelowDeepest(levels: Levels, target: nat, selections: seq<Selection>, l: nat, r: nat, key: Key)
    requires IsDeepestLevel(levels, target) && Increasing(selections) && l > target
    ensures HeldAt(After(levels, selections), l, r, key).None?
  {
    EmptyStaysEmpty(levels, selections, l, r);
    NothingHeld(After(levels, selections), l, r, key);
  }

  /** Leveling into a level that is merged whole, or whose runs share no key, is safe for every tree. */
  lemma LevelingWholeIsSafe(levels: Levels, request: Request)
    requires SoundLevels(levels) && NoEmptyFiles(levels) && LevelingPlan(levels, request).Some? && IsWhole(request)
    requires Mergeable(levels, request)
    ensures ValidJob(levels, LevelingPlan(levels, request).value)
  {
    LevelingParts(levels, request);
    var job := LevelingPlan(levels, request).value;
    assert job.dropTombstones == IsDeepestLevel(levels, request.target);
    hide SoundLevels, HeldAt, After, Increasing, KeyDisjoint, NoEmptyFiles, LevelingPlan, HeldBy, KeepsOrder,
         IsDeepestLevel, Mergeable;
    forall key: Key ensures KeepsOrder(levels, job, key) && ClearsBelow(levels, job, key) {
      MergeableIsNotOvertaken(levels, request, key);
      if job.dropTombstones && !NotTaken(levels, Selections(job), key) {
        var n :| 0 <= n < |Selections(job)| && HeldBy(levels, Selections(job)[n], key).Some?;
        var i := FirstTakenExists(levels, Selections(job), n, key);
        forall l: nat, r: nat | l >= job.target ensures HeldAt(After(levels, Selections(job)), l, r, key).None? {
          LevelingClears(levels, request, i, key, l, r);
        }
      }
    }
  }

  // ---------------------------------------------------------------------
  // Exactly when leveling is safe
  // ---------------------------------------------------------------------

  /** The newest taken record of the key comes from a selected file of the target level, and the newest
      record left of it sits in another run of that level: in a newer run, which the output goes on top of,
      or in an older one, which a tombstone dropped at the deepest level no longer hides. */
  ghost predicate TargetDisturbs(levels: Levels, request: Request, job: Job, key: Key)
  {
    exists i: nat, r: nat :: TargetDisturbsAt(levels, request, job, key, i, r)
  }

  ghost predicate TargetDisturbsAt(levels: Levels, request: Request, job: Job, key: Key, i: nat, r: nat) {
    && FirstTaken(levels, Selections(job), i, key) && i >= |SourceSelections(job.sources)|
    && NewestLeft(levels, Selections(job), request.target, r, key)
    && Visible(LeftAt(levels, Selections(job), request.target, r, key))
       != Visible(HeldBy(levels, Selections(job)[i], key))
    && var dropped := IsDeepestLevel(levels, request.target)
       && HeldBy(levels, Selections(job)[i], key) == Some(Tombstone);
       if r < Selections(job)[i].run then !dropped else dropped
  }

  /** Nothing else a leveling job leaves can change places with what it takes. */
  lemma LevelingDisturbsAtTarget(levels: Levels, request: Request, key: Key, i: nat, l: nat, r: nat)
    requires SoundLevels(levels) && NoEmptyFiles(levels) && LevelingPlan(levels, request).Some? && IsWhole(request)
    requires DisturbsAt(levels, LevelingPlan(levels, request).value, key, i, l, r)
    ensures l == request.target && TargetDisturbsAt(levels, request, LevelingPlan(levels, request).value, key, i, r)
  {
    LevelingParts(levels, request);
    var job := LevelingPlan(levels, request).value;
    assert job.dropTombstones == IsDeepestLevel(levels, request.target);
    hide HeldAt, HeldBy, LeftAt, After, Increasing, NoEmptyFiles, LevelingPlan, SoundLevels, IsDeepestLevel;
    var selections := Selections(job);
    LeftIsHeldAfter(levels, selections, l, r, key);
    LevelingLeftovers(levels, request, i, l, r, key);
    SelectionLevel(selections, job, request, i);
    if l > request.target && job.dropTombstones { BelowDeepest(levels, request.target, selections, l, r, key); }
  }

  lemma TargetDisturbsIsDisturbing(levels: Levels, request: Request, key: Key, i: nat, r: nat)
    requires SoundLevels(levels) && NoEmptyFiles(levels) && LevelingPlan(levels, request).Some? && IsWhole(request)
    requires TargetDisturbsAt(levels, request, LevelingPlan(levels, request).value, key, i, r)
    ensures DisturbsAt(levels, LevelingPlan(levels, request).value, key, i, request.target, r)
  {
    LevelingParts(levels, request);
    var job := LevelingPlan(levels, request).value;
    assert job.dropTombstones == IsDeepestLevel(levels, request.target);
    hide HeldBy, LeftAt, Increasing, NoEmptyFiles, LevelingPlan, SoundLevels, IsDeepestLevel;
    SelectionLevel(Selections(job), job, request, i);
  }

  /** For every whole request, leveling changes no answer exactly when no key of a selected target file
      changes places with a record left in another run of the target. */
  lemma LevelingWholePreservesExactlyWhen(levels: Levels, request: Request)
    requires SoundLevels(levels) && NoEmptyFiles(levels) && LevelingPlan(levels, request).Some? && IsWhole(request)
    ensures var job := LevelingPlan(levels, request).value;
            Preserves(levels, job) <==> forall key: Key :: !TargetDisturbs(levels, request, job, key)
  {
    LevelingParts(levels, request);
    hide SoundLevels, NoEmptyFiles, LevelingPlan, Increasing, ReadAfter, ReadLevels, DisturbsAt, TargetDisturbsAt,
         Visible;
    var job := LevelingPlan(levels, request).value;
    forall key: Key
      ensures Visible(ReadAfter(levels, job, key)) == Visible(ReadLevels(levels, key))
              <==> !TargetDisturbs(levels, request, job, key)
    {
      CompactionKeepsKey(levels, job, key);
      if Disturbs(levels, job, key) {
        var i: nat, l: nat, r: nat :| DisturbsAt(levels, job, key, i, l, r);
        LevelingDisturbsAtTarget(levels, request, key, i, l, r);
      }
      if TargetDisturbs(levels, request, job, key) {
        var i: nat, r: nat :| TargetDisturbsAt(levels, request, job, key, i, r);
        TargetDisturbsIsDisturbing(levels, request, key, i, r);
      }
    }
  }
}
