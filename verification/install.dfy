/** How an executed job leaves the levels: inputs taken, empty runs dropped, output in front of its
    target, disjoint runs folded (src/storage/lsm.rs). */
module Installs {
  import opened Octets
  import opened Bytes
  import opened SortedEntries
  import opened Sorting
  import opened LsmTrees
  import opened Compactions
  import opened Coalescing
  import opened Disks
  import opened Commits

  function PruneRuns(runs: seq<Run>): seq<Run> {
    if |runs| == 0 then []
    else (if |runs[0].tables| == 0 then [] else [runs[0]]) + PruneRuns(runs[1..])
  }

  function PruneAt(levels: Levels, l: nat): (r: Levels)
    ensures |r| == |levels|
  {
    if l < |levels| then levels[l := PruneRuns(levels[l])] else levels
  }

  function PruneSources(levels: Levels, sources: seq<LevelFiles>): (r: Levels)
    ensures |r| == |levels|
    decreases |sources|
  {
    if |sources| == 0 then levels else PruneSources(PruneAt(levels, sources[0].level), sources[1..])
  }

  /** Empty runs go from every level the job touched. */
  function Prune(levels: Levels, job: Job): (r: Levels)
    ensures |r| == |levels|
  {
    PruneAt(PruneSources(levels, job.sources), job.target)
  }

  function Extend(levels: Levels, target: nat): (r: Levels)
    ensures |r| > target && |r| >= |levels|
    decreases target + 1 - |levels|
  {
    if |levels| <= target then Extend(levels + [[]], target) else levels
  }

  function Insert(levels: Levels, target: nat, run: Option<Run>): (r: Levels)
    requires target < |levels|
    ensures |r| == |levels|
  {
    if run.None? then levels else levels[target := [run.value] + levels[target]]
  }

  function Fold(levels: Levels, target: nat, fold: bool): (r: Levels)
    requires target < |levels|
    ensures |r| == |levels|
  {
    if fold then levels[target := Coalesce(levels[target])] else levels
  }

  function Installed(levels: Levels, job: Job, run: Option<Run>, fold: bool): Levels {
    var pruned := Prune(After(levels, Selections(job)), job);
    Fold(Insert(Extend(pruned, job.target), job.target, run), job.target, fold)
  }

  // ---------------------------------------------------------------------
  // Replacing one level
  // ---------------------------------------------------------------------

  lemma SplitAt(levels: Levels, l: nat, key: Key)
    requires l < |levels|
    ensures ReadLevels(levels, key)
         == if ReadLevels(levels[..l], key).Some? then ReadLevels(levels[..l], key)
            else if ReadRuns(levels[l], key).Some? then ReadRuns(levels[l], key) else ReadLevels(levels[l + 1..], key)
  {
    hide ReadRuns;
    assert levels == levels[..l] + levels[l..];
    ReadLevelsConcat(levels[..l], levels[l..], key);
  }

  lemma ReplaceLevel(levels: Levels, l: nat, runs: seq<Run>, key: Key)
    requires l < |levels| && ReadRuns(runs, key) == ReadRuns(levels[l], key)
    ensures ReadLevels(levels[l := runs], key) == ReadLevels(levels, key)
    ensures forall cut :: 0 <= cut <= |levels| ==>
              ReadLevels(levels[l := runs][..cut], key) == ReadLevels(levels[..cut], key)
              && ReadLevels(levels[l := runs][cut..], key) == ReadLevels(levels[cut..], key)
  {
    hide ReadLevels, ReadRuns;
    var levels' := levels[l := runs];
    ReplaceInside(levels, l, runs, key);
    forall cut | 0 <= cut <= |levels|
      ensures ReadLevels(levels'[..cut], key) == ReadLevels(levels[..cut], key)
      ensures ReadLevels(levels'[cut..], key) == ReadLevels(levels[cut..], key)
    {
      if l < cut {
        assert levels'[..cut] == levels[..cut][l := runs] && levels'[cut..] == levels[cut..];
        ReplaceInside(levels[..cut], l, runs, key);
      } else {
        assert levels'[..cut] == levels[..cut] && levels'[cut..] == levels[cut..][l - cut := runs];
        ReplaceInside(levels[cut..], l - cut, runs, key);
      }
    }
  }

  lemma ReplaceInside(levels: Levels, l: nat, runs: seq<Run>, key: Key)
    requires l < |levels| && ReadRuns(runs, key) == ReadRuns(levels[l], key)
    ensures ReadLevels(levels[l := runs], key) == ReadLevels(levels, key)
  {
    hide ReadLevels, ReadRuns;
    var levels' := levels[l := runs];
    SplitAt(levels, l, key);
    SplitAt(levels', l, key);
    assert levels'[..l] == levels[..l] && levels'[l + 1..] == levels[l + 1..];
  }

  lemma TablesStep(levels: Levels)
    requires |levels| > 0
    ensures Tables(levels) == multiset(AllTables(levels[0])) + Tables(levels[1..])
  {}

  lemma {:induction false} TablesOfReplaced(levels: Levels, l: nat, runs: seq<Run>)
    requires l < |levels|
    ensures Tables(levels[l := runs]) + multiset(AllTables(levels[l])) == Tables(levels) + multiset(AllTables(runs))
  {
    hide AllTables;
    var levels' := levels[l := runs];
    TablesStep(levels);
    TablesStep(levels');
    hide Tables;
    if l == 0 {
      assert levels'[1..] == levels[1..] && levels'[0] == runs;
      Shuffle(multiset(AllTables(runs)), multiset(AllTables(levels[0])), Tables(levels[1..]));
    } else {
      TablesOfReplaced(levels[1..], l - 1, runs);
      assert levels'[1..] == levels[1..][l - 1 := runs] && levels[1..][l - 1] == levels[l];
      AddToBoth(multiset(AllTables(levels[0])), Tables(levels'[1..]), multiset(AllTables(levels[l])),
                Tables(levels[1..]), multiset(AllTables(runs)));
    }
  }

  lemma AddToBoth(m: multiset<TableFile>, a: multiset<TableFile>, x: multiset<TableFile>, b: multiset<TableFile>,
                  y: multiset<TableFile>)
    requires a + x == b + y
    ensures (m + a) + x == (m + b) + y
  {
    forall t ensures ((m + a) + x)[t] == ((m + b) + y)[t] { assert (a + x)[t] == (b + y)[t]; }
  }

  lemma Shuffle(a: multiset<TableFile>, b: multiset<TableFile>, rest: multiset<TableFile>)
    ensures (a + rest) + b == (b + rest) + a
  {}

  lemma Cancel(a: multiset<TableFile>, b: multiset<TableFile>, x: multiset<TableFile>)
    requires a + x == b + x
    ensures a == b
  {
    forall t ensures a[t] == b[t] { assert (a + x)[t] == (b + x)[t]; }
  }

  // ---------------------------------------------------------------------
  // Pruning
  // ---------------------------------------------------------------------

  lemma {:induction false} PruneRunsReads(runs: seq<Run>, key: Key)
    ensures ReadRuns(PruneRuns(runs), key) == ReadRuns(runs, key)
    ensures AllTables(PruneRuns(runs)) == AllTables(runs)
  {
    hide EntriesOf, Lookup;
    if |runs| != 0 {
      PruneRunsReads(runs[1..], key);
      var rest := PruneRuns(runs[1..]);
      if |runs[0].tables| == 0 {
        NothingToRead(runs[0], key);
        assert PruneRuns(runs) == rest;
        assert AllTables(runs) == AllTables(runs[1..]);
      } else {
        assert ([runs[0]] + rest)[1..] == rest;
      }
    }
  }

  lemma {:induction false} PruneRunsMembers(runs: seq<Run>)
    ensures forall r :: r in PruneRuns(runs) ==> r in runs && |r.tables| > 0
  {
    if |runs| != 0 { PruneRunsMembers(runs[1..]); }
  }

  lemma PruneRunsSound(runs: seq<Run>)
    requires SoundRuns(runs)
    ensures SoundRuns(PruneRuns(runs))
  {
    hide Sound;
    PruneRunsMembers(runs);
    forall i | 0 <= i < |PruneRuns(runs)| ensures Sound(PruneRuns(runs)[i].tables) {
      assert PruneRuns(runs)[i] in runs;
      var j :| 0 <= j < |runs| && runs[j] == PruneRuns(runs)[i];
    }
  }

  lemma NothingToRead(run: Run, key: Key)
    requires |run.tables| == 0
    ensures Lookup(EntriesOf(run.tables), key) == None
  {
    assert run.tables == [];
    NoTables();
    LookupNone([], key);
  }

  lemma {:induction false} PruneRunsDescends(runs: seq<Run>)
    requires Descending(runs)
    ensures Descending(PruneRuns(runs))
  {
    if |runs| != 0 {
      PruneRunsDescends(runs[1..]);
      PruneRunsMembers(runs[1..]);
      var rest := PruneRuns(runs[1..]);
      forall i | 0 <= i < |rest| ensures runs[0].sequence > rest[i].sequence {
        assert rest[i] in rest;
        var j :| 0 <= j < |runs[1..]| && runs[1..][j] == rest[i];
        assert runs[j + 1] == rest[i];
      }
    }
  }

  /** Levels that read alike from any level on, hold the same tables and stay sound. */
  ghost predicate Alike(a: Levels, b: Levels) {
    && |a| == |b| && Tables(a) == Tables(b) && (SoundLevels(b) ==> SoundLevels(a))
    && forall key, cut: nat :: cut <= |a| ==> AlikeAt(a, b, cut, key)
  }

  ghost predicate AlikeAt(a: Levels, b: Levels, cut: nat, key: Key)
    requires cut <= |a| == |b|
  {
    ReadLevels(a[..cut], key) == ReadLevels(b[..cut], key) && ReadLevels(a[cut..], key) == ReadLevels(b[cut..], key)
  }

  lemma AlikeTransitive(a: Levels, b: Levels, c: Levels)
    requires Alike(a, b) && Alike(b, c)
    ensures Alike(a, c)
  {
    hide ReadLevels, Tables, SoundLevels;
    forall key, cut: nat | cut <= |a| ensures AlikeAt(a, c, cut, key) {
      assert AlikeAt(a, b, cut, key) && AlikeAt(b, c, cut, key);
    }
  }

  lemma ReplacedAlike(levels: Levels, l: nat, runs: seq<Run>)
    requires l < |levels| && multiset(AllTables(runs)) == multiset(AllTables(levels[l]))
    requires SoundLevels(levels) && SoundRuns(runs) && forall key: Key ::
               ReadRuns(runs, key) == ReadRuns(levels[l], key)
    ensures Alike(levels[l := runs], levels) && SoundLevels(levels[l := runs])
  {
    hide ReadLevels, ReadRuns, SoundRuns, AllTables, Tables;
    var levels' := levels[l := runs];
    TablesOfReplaced(levels, l, runs);
    Cancel(Tables(levels'), Tables(levels), multiset(AllTables(runs)));
    forall key, cut: nat | cut <= |levels'| ensures AlikeAt(levels', levels, cut, key) {
      ReplaceLevel(levels, l, runs, key);
    }
  }

  lemma PruneAtAlike(levels: Levels, l: nat)
    requires SoundLevels(levels)
    ensures Alike(PruneAt(levels, l), levels) && SoundLevels(PruneAt(levels, l))
  {
    hide ReadRuns, SoundRuns, AllTables, PruneRuns;
    if l < |levels| {
      forall key: Key ensures ReadRuns(PruneRuns(levels[l]), key) == ReadRuns(levels[l], key) {
        PruneRunsReads(levels[l], key);
      }
      PruneRunsReads(levels[l], []);
      PruneRunsSound(levels[l]);
      ReplacedAlike(levels, l, PruneRuns(levels[l]));
    } else {
      AlikeItself(levels);
    }
  }

  lemma AlikeItself(levels: Levels)
    ensures Alike(levels, levels)
  {
    hide ReadLevels, Tables, SoundLevels;
  }

  lemma {:induction false} PruneSourcesAlike(levels: Levels, sources: seq<LevelFiles>)
    requires SoundLevels(levels)
    ensures Alike(PruneSources(levels, sources), levels) && SoundLevels(PruneSources(levels, sources))
    decreases |sources|
  {
    hide Alike, SoundLevels, PruneAt;
    if |sources| == 0 {
      AlikeItself(levels);
    } else {
      PruneAtAlike(levels, sources[0].level);
      PruneSourcesAlike(PruneAt(levels, sources[0].level), sources[1..]);
      AlikeTransitive(PruneSources(levels, sources), PruneAt(levels, sources[0].level), levels);
    }
  }

  lemma PruneAlike(levels: Levels, job: Job)
    requires SoundLevels(levels)
    ensures Alike(Prune(levels, job), levels) && SoundLevels(Prune(levels, job))
  {
    hide Alike, SoundLevels, PruneAt, PruneSources;
    PruneSourcesAlike(levels, job.sources);
    PruneAtAlike(PruneSources(levels, job.sources), job.target);
    AlikeTransitive(Prune(levels, job), PruneSources(levels, job.sources), levels);
  }

  // ---------------------------------------------------------------------
  // Extending, inserting, folding
  // ---------------------------------------------------------------------

  lemma OneMoreLevel(levels: Levels, key: Key)
    ensures ReadLevels(levels + [[]], key) == ReadLevels(levels, key)
    ensures Tables(levels + [[]]) == Tables(levels)
    ensures SoundLevels(levels) ==> SoundLevels(levels + [[]])
  {
    ReadLevelsConcat(levels, [[]], key);
    EmptyLevelsReadNothing([[]], key);
    TablesConcat(levels, [[]]);
    EmptyLevelsNameNothing([[]], 0);
    assert SoundRuns([]);
  }

  lemma {:induction false} TablesConcat(a: Levels, b: Levels)
    ensures Tables(a + b) == Tables(a) + Tables(b)
  {
    hide AllTables;
    if |a| == 0 {
      assert a + b == b;
    } else {
      assert (a + b)[0] == a[0] && (a + b)[1..] == a[1..] + b;
      TablesConcat(a[1..], b);
    }
  }

  lemma {:induction false} ExtendKeeps(levels: Levels, target: nat, key: Key)
    ensures ReadLevels(Extend(levels, target), key) == ReadLevels(levels, key)
    ensures Tables(Extend(levels, target)) == Tables(levels)
    ensures SoundLevels(levels) ==> SoundLevels(Extend(levels, target))
    ensures levels <= Extend(levels, target) && forall l ::
              |levels| <= l < |Extend(levels, target)| ==> Extend(levels, target)[l] == []
    decreases target + 1 - |levels|
  {
    hide ReadLevels, Tables, SoundLevels;
    if |levels| <= target {
      OneMoreLevel(levels, key);
      ExtendKeeps(levels + [[]], target, key);
    }
  }

  /** Up to its target an extended tree reads as the original one does up to the cut. */
  lemma ExtendKeepsCut(levels: Levels, target: nat, key: Key)
    ensures var cut := if target < |levels| then target else |levels|;
            && ReadLevels(Extend(levels, target)[..target], key) == ReadLevels(levels[..cut], key)
            && ReadLevels(Extend(levels, target)[target..], key) == ReadLevels(levels[cut..], key)
  {
    hide ReadLevels;
    ExtendKeeps(levels, target, key);
    var extended := Extend(levels, target);
    if target < |levels| {
      assert extended == levels;
    } else {
      assert extended[..target] == levels + extended[|levels|..target];
      ReadLevelsConcat(levels, extended[|levels|..target], key);
      EmptyLevelsReadNothing(extended[|levels|..target], key);
      EmptyLevelsReadNothing(extended[target..], key);
      assert levels[|levels|..] == [] && levels[..|levels|] == levels;
      NothingToReadIn(key);
    }
  }

  lemma NothingToReadIn(key: Key)
    ensures ReadLevels([], key) == None
  {}

  lemma InsertReads(levels: Levels, target: nat, run: Option<Run>, key: Key)
    requires target < |levels|
    ensures ReadLevels(Insert(levels, target, run), key)
         == if ReadLevels(levels[..target], key).Some? then ReadLevels(levels[..target], key)
            else if run.Some? && Lookup(EntriesOf(run.value.tables), key).Some?
                then Lookup(EntriesOf(run.value.tables), key)
            else ReadLevels(levels[target..], key)
  {
    hide Lookup, EntriesOf;
    var levels' := Insert(levels, target, run);
    SplitAt(levels, target, key);
    SplitAt(levels', target, key);
    assert levels'[..target] == levels[..target] && levels'[target + 1..] == levels[target + 1..];
    assert levels[target..][0] == levels[target] && levels[target..][1..] == levels[target + 1..];
    if run.Some? { assert levels'[target][1..] == levels[target]; }
  }

  lemma InsertTables(levels: Levels, target: nat, run: Run)
    requires target < |levels|
    ensures Tables(Insert(levels, target, Some(run))) == Tables(levels) + multiset(run.tables)
  {
    hide Tables;
    var runs := [run] + levels[target];
    TablesOfReplaced(levels, target, runs);
    assert runs[1..] == levels[target];
    assert AllTables(runs) == run.tables + AllTables(levels[target]);
    hide AllTables;
    Cancel(Tables(levels[target := runs]), Tables(levels) + multiset(run.tables), multiset(AllTables(levels[target])));
  }

  lemma InsertSound(levels: Levels, target: nat, run: Option<Run>)
    requires target < |levels| && SoundLevels(levels) && (run.Some? ==> Sound(run.value.tables))
    ensures SoundLevels(Insert(levels, target, run))
  {
    hide Sound;
    if run.Some? {
      var runs := [run.value] + levels[target];
      forall r | 0 <= r < |runs| ensures Sound(runs[r].tables) {
        assert SoundRuns(levels[target]);
      }
      assert SoundRuns(runs);
    }
  }

  lemma FoldAlike(levels: Levels, target: nat, fold: bool)
    requires target < |levels| && SoundLevels(levels)
    ensures Alike(Fold(levels, target, fold), levels) && SoundLevels(Fold(levels, target, fold))
  {
    hide ReadRuns, AllTables, Coalesce;
    if fold {
      var runs := levels[target];
      assert SoundRuns(runs);
      hide SoundRuns;
      forall key: Key ensures ReadRuns(Coalesce(runs), key) == ReadRuns(runs, key) { CoalesceKeepsReads(runs, key); }
      CoalesceKeepsReads(runs, []);
      CoalesceKeepsTables(runs);
      ReplacedAlike(levels, target, Coalesce(runs));
    } else {
      AlikeItself(levels);
    }
  }

  lemma CoalesceKeepsTables(runs: seq<Run>)
    ensures multiset(AllTables(Coalesce(runs))) == multiset(AllTables(runs))
  {
    hide Separated, HasRange, SortBy;
    if Coalesce(runs) != runs {
      var folded := Coalesce(runs);
      SortKeepsElements(AllTables(runs), TableLe);
      assert folded[1..] == [] && AllTables(folded[1..]) == [];
      assert AllTables(folded) == folded[0].tables;
    }
  }

  // ---------------------------------------------------------------------
  // The whole installation
  // ---------------------------------------------------------------------

  lemma AlikeReads(a: Levels, b: Levels, cut: nat, key: Key)
    requires Alike(a, b) && cut <= |a|
    ensures ReadLevels(a[..cut], key) == ReadLevels(b[..cut], key)
            && ReadLevels(a[cut..], key) == ReadLevels(b[cut..], key)
    ensures ReadLevels(a, key) == ReadLevels(b, key)
  {
    hide ReadLevels, Tables, SoundLevels;
    assert AlikeAt(a, b, cut, key);
    assert AlikeAt(a, b, |a|, key);
    assert a[..|a|] == a && b[..|b|] == b;
  }

  /** The output as a run, or none when the merge left nothing to write. */
  ghost predicate Writes(run: Option<Run>, entries: seq<Entry>) {
    if run.None? then entries == [] else EntriesOf(run.value.tables) == entries && Sound(run.value.tables)
  }

  /** Once installed, every key reads as the compaction says it should, folding or not. */
  lemma InstalledReads(levels: Levels, job: Job, run: Option<Run>, fold: bool, key: Key)
    requires SoundLevels(levels) && Increasing(Selections(job)) && Writes(run, Output(levels, job))
    ensures ReadLevels(Installed(levels, job, run, fold), key) == ReadAfter(levels, job, key)
  {
    hide ReadLevels, SoundLevels, Alike, Prune, Extend, Fold, Insert, After, Output, Lookup, EntriesOf, Sound,
         Increasing;
    var after := After(levels, Selections(job));
    AfterIsSound(levels, Selections(job));
    var pruned := Prune(after, job);
    PruneAlike(after, job);
    var extended := Extend(pruned, job.target);
    ExtendKeeps(pruned, job.target, key);
    ExtendKeepsCut(pruned, job.target, key);
    var inserted := Insert(extended, job.target, run);
    InsertReads(extended, job.target, run, key);
    InsertSound(extended, job.target, run);
    FoldAlike(inserted, job.target, fold);
    AlikeReads(Fold(inserted, job.target, fold), inserted, 0, key);
    AlikeReads(pruned, after, if job.target < |after| then job.target else |after|, key);
    if run.None? { LookupNone([], key); }
  }

  lemma {:induction false} AfterIsSound(levels: Levels, selections: seq<Selection>)
    requires SoundLevels(levels)
    ensures SoundLevels(After(levels, selections))
    decreases |selections|
  {
    hide Sound, Leave;
    if |selections| != 0 {
      var s := selections[0];
      var tables := TablesAt(levels, s.level, s.run);
      SoundAt(levels, s.level, s.run);
      SplitIsSound(tables, s.files);
      WithTablesSound(levels, s.level, s.run, Leave(tables, s.files));
      AfterIsSound(WithTables(levels, s.level, s.run, Leave(tables, s.files)), selections[1..]);
    }
  }

  lemma WithTablesSound(levels: Levels, l: nat, r: nat, tables: seq<TableFile>)
    requires SoundLevels(levels) && Sound(tables)
    ensures SoundLevels(WithTables(levels, l, r, tables))
  {
    hide Sound;
    if InRange(levels, l, r) {
      assert SoundRuns(levels[l]);
      var runs := levels[l][r := levels[l][r].(tables := tables)];
      assert SoundRuns(runs);
    }
  }

  lemma InstalledSound(levels: Levels, job: Job, run: Option<Run>, fold: bool)
    requires SoundLevels(levels) && (run.Some? ==> Sound(run.value.tables))
    ensures SoundLevels(Installed(levels, job, run, fold))
  {
    hide SoundLevels, Alike, Prune, Extend, Fold, Insert, After, Sound, ReadLevels;
    AfterIsSound(levels, Selections(job));
    var after := After(levels, Selections(job));
    PruneAlike(after, job);
    ExtendKeeps(Prune(after, job), job.target, []);
    InsertSound(Extend(Prune(after, job), job.target), job.target, run);
    FoldAlike(Insert(Extend(Prune(after, job), job.target), job.target, run), job.target, fold);
  }

  // ---------------------------------------------------------------------
  // No table is lost or duplicated
  // ---------------------------------------------------------------------

  ghost function TakenTables(taken: seq<seq<TableFile>>): multiset<TableFile> {
    if |taken| == 0 then multiset{} else multiset(taken[0]) + TakenTables(taken[1..])
  }

  lemma {:induction false} PickAndLeaveTables(tables: seq<TableFile>, files: seq<nat>)
    ensures multiset(Pick(tables, files)) + multiset(Leave(tables, files)) == multiset(tables)
  {
    if |tables| != 0 {
      var init, t := tables[..|tables| - 1], tables[|tables| - 1];
      PickAndLeaveTables(init, files);
      PickAndLeaveLast(tables, files);
      assert tables == init + [t];
      hide Pick, Leave;
      OneMore(multiset(Pick(init, files)), multiset(Leave(init, files)), multiset{t}, multiset(init));
    }
  }

  lemma PickAndLeaveLast(tables: seq<TableFile>, files: seq<nat>)
    requires |tables| > 0
    ensures var init, t := tables[..|tables| - 1], tables[|tables| - 1];
            if |tables| - 1 in files
            then multiset(Pick(tables, files)) == multiset(Pick(init, files)) + multiset{t}
                 && multiset(Leave(tables, files)) == multiset(Leave(init, files))
            else multiset(Pick(tables, files)) == multiset(Pick(init, files))
                 && multiset(Leave(tables, files)) == multiset(Leave(init, files)) + multiset{t}
  {
    var init, t := tables[..|tables| - 1], tables[|tables| - 1];
    var pick, leave := Pick(init, files), Leave(init, files);
    assert pick + [] == pick && leave + [] == leave;
    if |tables| - 1 in files {
      assert Pick(tables, files) == pick + [t] && Leave(tables, files) == leave + [];
    } else {
      assert Pick(tables, files) == pick + [] && Leave(tables, files) == leave + [t];
    }
  }

  lemma OneMore(p: multiset<TableFile>, q: multiset<TableFile>, t: multiset<TableFile>, whole: multiset<TableFile>)
    requires p + q == whole
    ensures (p + t) + q == whole + t && p + (q + t) == whole + t
  {
    forall e
      ensures ((p + t) + q)[e] == (whole + t)[e] && (p + (q + t))[e] == (whole + t)[e]
    {
      assert (p + q)[e] == whole[e];
    }
  }

  lemma {:induction false} TablesOfReplacedRun(runs: seq<Run>, r: nat, run: Run)
    requires r < |runs|
    ensures multiset(AllTables(runs[r := run])) + multiset(runs[r].tables)
            == multiset(AllTables(runs)) + multiset(run.tables)
  {
    var runs' := runs[r := run];
    if r == 0 {
      assert runs'[1..] == runs[1..];
    } else {
      TablesOfReplacedRun(runs[1..], r - 1, run);
      assert runs'[1..] == runs[1..][r - 1 := run] && runs[1..][r - 1] == runs[r];
      AddToBoth(multiset(runs[0].tables), multiset(AllTables(runs'[1..])), multiset(runs[r].tables),
                multiset(AllTables(runs[1..])), multiset(run.tables));
    }
  }

  lemma WithTablesTables(levels: Levels, l: nat, r: nat, tables: seq<TableFile>)
    requires InRange(levels, l, r)
    ensures Tables(WithTables(levels, l, r, tables)) + multiset(TablesAt(levels, l, r))
            == Tables(levels) + multiset(tables)
  {
    hide Tables, AllTables;
    var run := levels[l][r].(tables := tables);
    var runs := levels[l][r := run];
    TablesOfReplacedRun(levels[l], r, run);
    TablesOfReplaced(levels, l, runs);
    Chain(Tables(levels[l := runs]), multiset(AllTables(levels[l])), Tables(levels), multiset(AllTables(runs)),
          multiset(levels[l][r].tables), multiset(tables));
  }

  lemma Chain(t': multiset<TableFile>, l: multiset<TableFile>, t: multiset<TableFile>, l': multiset<TableFile>,
              x: multiset<TableFile>, y: multiset<TableFile>)
    requires t' + l == t + l' && l' + x == l + y
    ensures t' + x == t + y
  {
    forall e ensures (t' + x)[e] == (t + y)[e] {
      assert (t' + l)[e] == (t + l')[e] && (l' + x)[e] == (l + y)[e];
    }
  }

  lemma {:induction false} AfterTables(levels: Levels, selections: seq<Selection>)
    ensures Tables(After(levels, selections)) + TakenTables(Taken(levels, selections)) == Tables(levels)
    decreases |selections|
  {
    hide Tables, Leave, Pick;
    if |selections| != 0 {
      var s := selections[0];
      var tables := TablesAt(levels, s.level, s.run);
      var next := WithTables(levels, s.level, s.run, Leave(tables, s.files));
      AfterTables(next, selections[1..]);
      PickAndLeaveTables(tables, s.files);
      if InRange(levels, s.level, s.run) {
        WithTablesTables(levels, s.level, s.run, Leave(tables, s.files));
      } else {
        LeaveOfNothing(s.files);
      }
      TakeStep(Tables(levels), Tables(next), Tables(After(levels, selections)), multiset(tables),
               multiset(Leave(tables, s.files)), multiset(Pick(tables, s.files)),
               TakenTables(Taken(next, selections[1..])));
    }
  }

  lemma TakeStep(before: multiset<TableFile>, next: multiset<TableFile>, after: multiset<TableFile>,
                 tables: multiset<TableFile>, left: multiset<TableFile>, picked: multiset<TableFile>,
                 later: multiset<TableFile>)
    requires next + tables == before + left && picked + left == tables && after + later == next
    ensures after + (picked + later) == before
  {
    forall e ensures (after + (picked + later))[e] == before[e] {
      assert (next + tables)[e] == (before + left)[e] && (picked + left)[e] == tables[e]
             && (after + later)[e] == next[e];
    }
  }

  /** The tables installed and the tables taken are those there were and those written. */
  lemma InstalledTables(levels: Levels, job: Job, run: Option<Run>, fold: bool)
    requires SoundLevels(levels) && (run.Some? ==> Sound(run.value.tables))
    ensures Tables(Installed(levels, job, run, fold)) + TakenTables(Taken(levels, Selections(job)))
         == Tables(levels) + if run.Some? then multiset(run.value.tables) else multiset{}
  {
    hide SoundLevels, Prune, Extend, Fold, After, Sound, Tables, ReadLevels;
    var after := After(levels, Selections(job));
    AfterIsSound(levels, Selections(job));
    AfterTables(levels, Selections(job));
    PruneAlike(after, job);
    var extended := Extend(Prune(after, job), job.target);
    ExtendKeeps(Prune(after, job), job.target, []);
    InsertSound(extended, job.target, run);
    FoldAlike(Insert(extended, job.target, run), job.target, fold);
    if run.Some? {
      InsertTables(extended, job.target, run.value);
      Swap(Tables(after), multiset(run.value.tables), TakenTables(Taken(levels, Selections(job))), Tables(levels));
    }
  }

  lemma Swap(a: multiset<TableFile>, x: multiset<TableFile>, t: multiset<TableFile>, b: multiset<TableFile>)
    requires a + t == b
    ensures (a + x) + t == b + x
  {
    forall e ensures ((a + x) + t)[e] == (b + x)[e] { assert (a + t)[e] == b[e]; }
  }

  // ---------------------------------------------------------------------
  // The installed levels are live
  // ---------------------------------------------------------------------

  /** Live, except that runs of the given levels may have lost all their files. */
  ghost predicate LiveBut(levels: Levels, next: nat, touched: set<nat>) {
    forall l :: 0 <= l < |levels| ==> LiveLevelBut(levels[l], next, l in touched)
  }

  ghost predicate LiveLevelBut(runs: seq<Run>, next: nat, touched: bool) {
    && Descending(runs)
    && forall r :: 0 <= r < |runs| ==>
         runs[r].sequence < next && runs[r].units >= 1 && (touched || |runs[r].tables| > 0)
  }

  function LevelsOf(sources: seq<LevelFiles>): set<nat> {
    if |sources| == 0 then {} else {sources[0].level} + LevelsOf(sources[1..])
  }

  lemma {:induction false} AfterIsLiveBut(levels: Levels, selections: seq<Selection>, next: nat, touched: set<nat>)
    requires LiveBut(levels, next, touched) && forall i :: 0 <= i < |selections| ==> selections[i].level in touched
    ensures LiveBut(After(levels, selections), next, touched)
    decreases |selections|
  {
    hide Leave;
    if |selections| != 0 {
      var s := selections[0];
      var tables := Leave(TablesAt(levels, s.level, s.run), s.files);
      WithTablesIsLiveBut(levels, s.level, s.run, tables, next, touched);
      AfterIsLiveBut(WithTables(levels, s.level, s.run, tables), selections[1..], next, touched);
    }
  }

  lemma WithTablesIsLiveBut(levels: Levels, l: nat, r: nat, tables: seq<TableFile>, next: nat, touched: set<nat>)
    requires LiveBut(levels, next, touched) && l in touched
    ensures LiveBut(WithTables(levels, l, r, tables), next, touched)
  {
    if InRange(levels, l, r) {
      assert LiveLevelBut(levels[l], next, true);
      assert LiveLevelBut(levels[l][r := levels[l][r].(tables := tables)], next, true);
    }
  }

  lemma PruneAtIsLiveBut(levels: Levels, l: nat, next: nat, touched: set<nat>)
    requires LiveBut(levels, next, touched)
    ensures LiveBut(PruneAt(levels, l), next, touched - {l})
  {
    if l < |levels| {
      assert LiveLevelBut(levels[l], next, l in touched);
      PruneRunsDescends(levels[l]);
      PruneRunsMembers(levels[l]);
      var pruned := PruneRuns(levels[l]);
      hide PruneRuns;
      forall r | 0 <= r < |pruned| ensures pruned[r].sequence < next && pruned[r].units >= 1 && |pruned[r].tables| > 0 {
        assert pruned[r] in pruned;
      }
      assert LiveLevelBut(pruned, next, false);
    }
  }

  lemma {:induction false} PruneSourcesIsLiveBut(levels: Levels, sources: seq<LevelFiles>, next: nat, touched: set<nat>)
    requires LiveBut(levels, next, touched)
    ensures LiveBut(PruneSources(levels, sources), next, touched - LevelsOf(sources))
    decreases |sources|
  {
    hide LiveBut, PruneAt;
    if |sources| == 0 {
      assert touched - LevelsOf(sources) == touched;
    } else {
      PruneAtIsLiveBut(levels, sources[0].level, next, touched);
      PruneSourcesIsLiveBut(PruneAt(levels, sources[0].level), sources[1..], next, touched - {sources[0].level});
      assert touched - LevelsOf(sources) == touched - {sources[0].level} - LevelsOf(sources[1..]);
    }
  }

  lemma {:induction false} SelectionsAreTouched(sources: seq<LevelFiles>)
    ensures forall i :: 0 <= i < |SourceSelections(sources)| ==> SourceSelections(sources)[i].level in LevelsOf(sources)
  {
    if |sources| != 0 { SelectionsAreTouched(sources[1..]); }
  }

  lemma LiveIsLiveBut(levels: Levels, next: nat, touched: set<nat>)
    requires Live(levels, next)
    ensures LiveBut(levels, next, touched)
  {
    forall l | 0 <= l < |levels| ensures LiveLevelBut(levels[l], next, l in touched) {
      assert LiveRuns(levels[l], next);
    }
  }

  lemma PrunedIsLive(levels: Levels, job: Job, next: nat)
    requires Live(levels, next)
    ensures Live(Prune(After(levels, Selections(job)), job), next)
  {
    hide Live, LiveBut, After, PruneAt, PruneSources, SourceSelections, LevelsOf;
    var touched := LevelsOf(job.sources) + {job.target};
    LiveIsLiveBut(levels, next, touched);
    SelectionsAreTouched(job.sources);
    AfterIsLiveBut(levels, Selections(job), next, touched);
    PruneSourcesIsLiveBut(After(levels, Selections(job)), job.sources, next, touched);
    PruneAtIsLiveBut(PruneSources(After(levels, Selections(job)), job.sources), job.target, next,
                     touched - LevelsOf(job.sources));
    assert touched - LevelsOf(job.sources) - {job.target} == {};
    AllPrunedIsLive(Prune(After(levels, Selections(job)), job), next);
  }

  lemma AllPrunedIsLive(levels: Levels, next: nat)
    requires LiveBut(levels, next, {})
    ensures Live(levels, next)
  {
    forall l | 0 <= l < |levels| ensures LiveRuns(levels[l], next) {
      assert LiveLevelBut(levels[l], next, l in {});
    }
  }

  lemma LaterIsLive(levels: Levels, next: nat, later: nat)
    requires Live(levels, next) && next <= later
    ensures Live(levels, later)
  {
    forall l | 0 <= l < |levels| ensures LiveRuns(levels[l], later) {
      assert LiveRuns(levels[l], next);
    }
  }

  lemma InsertIsLive(levels: Levels, target: nat, run: Option<Run>, next: nat)
    requires Live(levels, next) && target < |levels|
    requires run.Some? ==> run.value.sequence == next && run.value.units >= 1 && |run.value.tables| > 0
    ensures Live(Insert(levels, target, run), next + 1)
  {
    LaterIsLive(levels, next, next + 1);
    if run.Some? {
      assert LiveRuns(levels[target], next);
      var runs := [run.value] + levels[target];
      assert LiveRuns(runs, next + 1);
    }
  }

  lemma {:induction false} NewestSequenceBound(runs: seq<Run>, next: nat)
    requires |runs| > 0 && forall r :: 0 <= r < |runs| ==> runs[r].sequence < next
    ensures NewestSequence(runs) < next
  {
    if |runs| > 1 { NewestSequenceBound(runs[1..], next); }
  }

  lemma FoldIsLive(levels: Levels, target: nat, fold: bool, next: nat)
    requires Live(levels, next) && target < |levels|
    ensures Live(Fold(levels, target, fold), next)
  {
    if fold && Coalesce(levels[target]) != levels[target] {
      var runs := levels[target];
      assert LiveRuns(runs, next);
      hide HasRange, Separated, SortBy, NewestSequence;
      NewestSequenceBound(runs, next);
      HasTablesToFold(runs);
      assert LiveRuns(Coalesce(runs), next);
    }
  }

  lemma HasTablesToFold(runs: seq<Run>)
    requires |runs| > 0 && |runs[0].tables| > 0
    ensures |SortBy(AllTables(runs), TableLe)| > 0
  {}

  lemma InstalledLive(levels: Levels, job: Job, run: Option<Run>, fold: bool, next: nat)
    requires Live(levels, next)
    requires run.Some? ==> run.value.sequence == next && run.value.units >= 1 && |run.value.tables| > 0
    ensures Live(Installed(levels, job, run, fold), next + 1)
  {
    hide Live, Prune, Extend, Fold, Insert, After, Tables, ReadLevels;
    var pruned := Prune(After(levels, Selections(job)), job);
    PrunedIsLive(levels, job, next);
    ExtendIsLive(pruned, job.target, next);
    InsertIsLive(Extend(pruned, job.target), job.target, run, next);
    FoldIsLive(Insert(Extend(pruned, job.target), job.target, run), job.target, fold, next + 1);
  }

  lemma ExtendIsLive(levels: Levels, target: nat, next: nat)
    requires Live(levels, next)
    ensures Live(Extend(levels, target), next)
  {
    ExtendKeeps(levels, target, []);
    hide Extend, Tables, ReadLevels;
    var extended := Extend(levels, target);
    forall l | 0 <= l < |extended| ensures LiveRuns(extended[l], next) {
      if l < |levels| {
        assert extended[l] == levels[l] && LiveRuns(levels[l], next);
      } else {
        assert extended[l] == [];
      }
    }
  }
}
