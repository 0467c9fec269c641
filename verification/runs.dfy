/** Whole runs of the engine: any sequence of writes and flushes, cut off by crashes at any step of the
    directory and by failed reads, after which the caller starts again or goes on (src/storage/lsm.rs). */
module Runs {
  import opened Octets
  import opened Bytes
  import opened SortedEntries
  import opened LsmTrees
  import opened Compactions
  import opened Disks
  import opened Planning
  import opened Fluids
  import opened Commits
  import opened Failures
  import opened LsmEngines
  import MemTables
  import Wals

  datatype Operation = Write(entry: Entry) | Flush | Settle

  /** An operation; how many steps of the directory it is allowed before the process dies; whether the caller
      opens the directory again if it fails; and, for each attempt to open it that dies on the way, how many
      files that attempt deletes first. */
  datatype Event = Event(operation: Operation, diesAfter: Option<nat>, restarts: bool, attempts: seq<nat>)

  /** The log refuses an oversized record; a process that dies before its first step has not logged anything. */
  predicate TakesEffect(event: Event) {
    event.operation.Write? && Wals.Fits(event.operation.entry) && event.diesAfter != Some(0)
  }

  predicate Overwrites(event: Event, key: Key) {
    TakesEffect(event) && event.operation.entry.key == key
  }

  /** The writes that took effect, in order. */
  function Effective(events: seq<Event>): seq<Entry> {
    if |events| == 0 then []
    else
      var last := events[|events| - 1];
      Effective(events[..|events| - 1]) + if TakesEffect(last) then [last.operation.entry] else []
  }

  /** What the newest of these writes to a key says. */
  function Answer(writes: seq<Entry>, key: Key): Option<seq<byte>> {
    if |writes| == 0 then None
    else
      var last := writes[|writes| - 1];
      if last.key == key then Visible(Some(last.value)) else Answer(writes[..|writes| - 1], key)
  }

  // ---------------------------------------------------------------------
  // What a caller sees
  // ---------------------------------------------------------------------

  type Answers = Key -> Option<seq<byte>>

  ghost function AnswersOf(memtable: seq<Entry>, levels: Levels): Answers {
    (key: Key) => Visible(ReadTree(memtable, levels, key))
  }

  ghost predicate Alike(a: Answers, b: Answers) {
    forall key: Key :: a(key) == b(key)
  }

  ghost function Written(a: Answers, event: Event): Answers {
    if TakesEffect(event)
    then (key: Key) => if key == event.operation.entry.key then Visible(Some(event.operation.entry.value)) else a(key)
    else a
  }

  /** A process: its memtable, the levels it serves, and those its directory stands for. */
  datatype State = State(memtable: seq<Entry>, levels: Levels, held: Levels)

  /** What the process answers. */
  ghost function Served(s: State): Answers {
    AnswersOf(s.memtable, s.levels)
  }

  /** What it would answer if it were started again now. */
  ghost function Stored(s: State): Answers {
    AnswersOf(s.memtable, s.held)
  }

  /** The memtable an operation's record is applied to. */
  function Applied(memtable: seq<Entry>, operation: Operation): seq<Entry> {
    if operation.Write? && Wals.Fits(operation.entry) then MemTables.Insert(memtable, operation.entry) else memtable
  }

  /** Nothing but the memtable changed. */
  ghost predicate NothingCommitted(before: State, operation: Operation, after: State) {
    after == before.(memtable := Applied(before.memtable, operation))
  }

  /** How an event ended: the process went on, went on without the inputs of a failed compaction, or was started
      again; and whether the directory had been made to stand for the levels served. */
  datatype Course =
    | WentOn(committed: bool)
    | WentOnWithout(loss: Loss, committed: bool)
    | StartedAgain(committed: bool)

  /** The failed compaction forgot the key, and the memtable does not have it. */
  ghost predicate Lost(after: State, loss: Loss, key: Key) {
    Lookup(after.memtable, key).None? && Forgets(loss.whole, loss.job, key)
  }

  /** One event. Whichever way it ends, what is stored then is what was stored before, or what was served before,
      with the event's write over it. */
  ghost predicate Follows(before: State, event: Event, planner: Planner, trials: Trials, course: Course, after: State) {
    && Alike(Stored(after), Written(if course.committed then Served(before) else Stored(before), event))
    && match course
       case WentOn(committed) =>
         && event.diesAfter.None? && Alike(Served(after), Written(Served(before), event))
         && if committed then after.held == after.levels else NothingCommitted(before, event.operation, after)
       case WentOnWithout(loss, committed) =>
         && event.diesAfter.None? && !event.restarts && Lacks(planner, trials, loss, after.levels)
         && Alike(AnswersOf(after.memtable, loss.whole), Written(Served(before), event))
         && (if committed then after.held == loss.whole
             else NothingCommitted(before, event.operation, after.(levels := loss.whole)))
         && forall key: Key :: Served(after)(key) == Written(Served(before), event)(key) <==> !Lost(after, loss, key)
       case StartedAgain(committed) =>
         && (event.diesAfter.Some? || (event.restarts && !AllRead(trials))) && after.held == after.levels
         && (event.diesAfter == Some(0) ==> !committed)
  }

  // ---------------------------------------------------------------------
  // Running
  // ---------------------------------------------------------------------

  /** The disk on which an operation is cut off, given where its steps start in the trace. */
  function CutOff(before: Disk, trace: seq<Disk>, n: nat, diesAfter: Option<nat>): Disk
    requires n <= |trace|
  {
    if |trace| == n || diesAfter == Some(0) then before
    else if diesAfter.Some? && n + diesAfter.value < |trace| then trace[n + diesAfter.value - 1]
    else trace[|trace| - 1]
  }

  /** Whatever the cut, the disk recovers: with the answers stored before when no step was made, otherwise with
      the event's write over those stored or served before. */
  lemma CutOffRecovers(runsAt: nat -> nat, before: Disk, trace: seq<Disk>, n: nat, diesAfter: Option<nat>,
                       m0: seq<Entry>, m: seq<Entry>, stored: Levels, served: Levels)
    requires n <= |trace| && Recovers(runsAt, before, m0, stored) && CrashSafe(runsAt, trace, n, m, stored, served)
    ensures var cut := CutOff(before, trace, n, diesAfter);
            if |trace| == n || diesAfter == Some(0) then Recovers(runsAt, cut, m0, stored)
            else Recovers(runsAt, cut, m, stored) || Recovers(runsAt, cut, m, served)
  {
    hide Recovers;
  }

  ghost function StateOf(tree: LsmTree): State
    reads tree
  {
    State(tree.memtable, tree.levels, tree.held)
  }

  lemma WriteIsWritten(memtable: seq<Entry>, levels: Levels, event: Event)
    requires Ascending(memtable) && TakesEffect(event)
    ensures Alike(AnswersOf(MemTables.Insert(memtable, event.operation.entry), levels),
                  Written(AnswersOf(memtable, levels), event))
  {
    hide ReadTree, MemTables.Insert, Ascending;
    WriteAnswers(memtable, levels, event.operation.entry);
  }

  lemma SameIsAlike(m1: seq<Entry>, l1: Levels, m2: seq<Entry>, l2: Levels)
    ensures SameAnswers(m1, l1, m2, l2) <==> Alike(AnswersOf(m1, l1), AnswersOf(m2, l2))
  {
    hide ReadTree;
    if SameAnswers(m1, l1, m2, l2) {
      forall key: Key ensures AnswersOf(m1, l1)(key) == AnswersOf(m2, l2)(key) {
        assert Visible(ReadTree(m1, l1, key)) == Visible(ReadTree(m2, l2, key));
      }
    }
    if Alike(AnswersOf(m1, l1), AnswersOf(m2, l2)) {
      forall key: Key ensures Visible(ReadTree(m1, l1, key)) == Visible(ReadTree(m2, l2, key)) {
        assert AnswersOf(m1, l1)(key) == AnswersOf(m2, l2)(key);
      }
    }
  }

  lemma AlikeTwice(a: Answers, b: Answers, c: Answers)
    requires Alike(a, b) && Alike(b, c)
    ensures Alike(a, c)
  {}

  lemma AppliedIsWritten(memtable: seq<Entry>, levels: Levels, event: Event)
    requires Ascending(memtable) && event.diesAfter != Some(0)
    ensures Alike(AnswersOf(Applied(memtable, event.operation), levels), Written(AnswersOf(memtable, levels), event))
  {
    hide AnswersOf, Alike, MemTables.Insert, Ascending, Wals.Fits, Written;
    if TakesEffect(event) {
      WriteIsWritten(memtable, levels, event);
    } else {
      NothingWritten(AnswersOf(memtable, levels), event);
    }
  }

  lemma NothingWritten(a: Answers, event: Event)
    requires !TakesEffect(event)
    ensures Alike(a, Written(a, event))
  {}

  /** Run the operation on the tree. */
  method Perform(tree: LsmTree, operation: Operation, planner: Planner, trials: Trials)
    returns (ok: bool, ghost lost: Option<Loss>)
    requires tree.Usable() && SafePlanner(planner, tree.config.runsAt)
    modifies tree
    ensures tree.Usable() && (old(tree.Valid()) && ok ==> tree.Valid())
    ensures if ok then DoneBy(old(StateOf(tree)), operation, StateOf(tree))
            else lost.Some? && FailedAt(old(StateOf(tree)), operation, planner, trials, lost.value, StateOf(tree))
    ensures AllRead(trials) ==> ok
    ensures |old(tree.trace)| <= |tree.trace| && tree.trace[..|old(tree.trace)|] == old(tree.trace)
    ensures |tree.trace| == |old(tree.trace)| ==> Applied(old(tree.memtable), operation) == old(tree.memtable)
    ensures CrashSafe(tree.config.runsAt, tree.trace, |old(tree.trace)|, Applied(old(tree.memtable), operation),
                      old(tree.held), old(tree.levels))
  {
    hide LsmTree.Usable, SafePlanner, CrashSafe, SameAnswers, Lacks, MemTables.Insert, Wals.Fits, Forgets;
    StandsAtOnce(tree.levels, tree.memtable);
    NothingNew(tree.config.runsAt, tree.trace, tree.memtable, tree.held, tree.levels);
    match operation {
      case Write(e) =>
        var accepted;
        accepted, ok, lost := tree.Write(e, planner, trials);
      case Flush =>
        ok, lost := tree.Flush(planner, trials);
      case Settle =>
        ok, lost := tree.CompactUntilQuiet(planner, trials);
    }
  }

  /** The operation succeeded: the directory now stands for the levels served, or only the memtable changed. */
  ghost predicate DoneBy(before: State, operation: Operation, after: State) {
    && SameAnswers(after.memtable, after.levels, Applied(before.memtable, operation), before.levels)
    && (after.held == after.levels || NothingCommitted(before, operation, after))
  }

  /** A compaction of it failed: the directory stands for the levels that compaction began with, or nothing was
      committed before it. */
  ghost predicate FailedAt(before: State, operation: Operation, planner: Planner, trials: Trials, loss: Loss,
                           after: State) {
    && Lacks(planner, trials, loss, after.levels)
    && SameAnswers(after.memtable, loss.whole, Applied(before.memtable, operation), before.levels)
    && (after.held == loss.whole || NothingCommitted(before, operation, after.(levels := loss.whole)))
  }

  /** A process that goes on. */
  lemma GoesOn(before: State, event: Event, planner: Planner, trials: Trials, after: State)
    requires Ascending(before.memtable) && event.diesAfter.None? && DoneBy(before, event.operation, after)
    ensures Follows(before, event, planner, trials, WentOn(after.held == after.levels), after)
  {
    hide Ascending, Applied, AnswersOf, Alike, SameAnswers, Written;
    var m := Applied(before.memtable, event.operation);
    AppliedIsWritten(before.memtable, before.levels, event);
    AppliedIsWritten(before.memtable, before.held, event);
    SameIsAlike(after.memtable, after.levels, m, before.levels);
    AlikeTwice(Served(after), AnswersOf(m, before.levels), Written(Served(before), event));
  }

  /** A process that goes on without the inputs of a failed compaction. */
  lemma GoesOnWithout(before: State, event: Event, planner: Planner, trials: Trials, loss: Loss, after: State)
    requires Ascending(before.memtable) && event.diesAfter.None? && !event.restarts
    requires FailedAt(before, event.operation, planner, trials, loss, after)
    ensures Follows(before, event, planner, trials, WentOnWithout(loss, after.held == loss.whole), after)
  {
    hide Ascending, Applied, AnswersOf, Alike, SameAnswers, Written, Lacks, Forgets, Lookup;
    var m := Applied(before.memtable, event.operation);
    AppliedIsWritten(before.memtable, before.levels, event);
    AppliedIsWritten(before.memtable, before.held, event);
    SameIsAlike(after.memtable, loss.whole, m, before.levels);
    AlikeTwice(AnswersOf(after.memtable, loss.whole), AnswersOf(m, before.levels), Written(Served(before), event));
    LostKeys(planner, trials, loss, after, Written(Served(before), event));
  }

  /** Exactly the lost keys are answered otherwise. */
  lemma LostKeys(planner: Planner, trials: Trials, loss: Loss, after: State, a: Answers)
    requires Lacks(planner, trials, loss, after.levels) && Alike(AnswersOf(after.memtable, loss.whole), a)
    ensures forall key: Key :: Served(after)(key) == a(key) <==> !Lost(after, loss, key)
  {
    StandsAtOnce(loss.whole, after.memtable);
    ForgottenAnswers(planner, trials, after.memtable, loss, after.levels, after.memtable, loss.whole);
    hide Lacks, Forgets, Lookup, ReadTree;
    forall key: Key ensures Served(after)(key) == a(key) <==> !Lost(after, loss, key) {
      assert AnswersOf(after.memtable, loss.whole)(key) == a(key);
    }
  }

  /** A process that starts again on what it finds. */
  lemma StartsAgain(before: State, event: Event, planner: Planner, trials: Trials, after: State, wrote: seq<Entry>,
                    committed: bool)
    requires Ascending(before.memtable) && after.held == after.levels
    requires event.diesAfter.Some? || (event.restarts && !AllRead(trials))
    requires SameAnswers(after.memtable, after.levels, wrote, if committed then before.levels else before.held)
    requires if event.diesAfter == Some(0) then wrote == before.memtable && !committed
             else wrote == Applied(before.memtable, event.operation)
    ensures Follows(before, event, planner, trials, StartedAgain(committed), after)
  {
    var into := if committed then before.levels else before.held;
    SameIsAlike(after.memtable, after.levels, wrote, into);
    hide Ascending, Applied, AnswersOf, SameAnswers, Written, AllRead;
    if event.diesAfter == Some(0) {
      NothingWritten(AnswersOf(before.memtable, into), event);
    } else {
      AppliedIsWritten(before.memtable, into, event);
    }
    AlikeTwice(Stored(after), AnswersOf(wrote, into), Written(AnswersOf(before.memtable, into), event));
  }

  /** The caller does not go on after a failed compaction, or none fails. */
  ghost predicate Careful(event: Event, trials: Trials) {
    event.restarts || AllRead(trials)
  }

  /** Where an attempt to open the directory dies. */
  function DiedOpening(trace: seq<Disk>, deletions: nat): Disk
    requires |trace| > 0
  {
    if deletions < |trace| then trace[deletions] else trace[|trace| - 1]
  }

  lemma SafeAt(runsAt: nat -> nat, trace: seq<Disk>, disk: Disk, memtable: seq<Entry>, levels: Levels)
    requires CrashSafe(runsAt, trace, 0, memtable, levels, levels) && disk in trace
    ensures Recovers(runsAt, disk, memtable, levels)
  {
    hide Recovers;
  }

  /** Attempts to open the directory that die on the way leave it as recoverable as it was. */
  method Attempt(config: Config, start: Disk, attempts: seq<nat>, ghost wrote: seq<Entry>, ghost into: Levels)
    returns (found: Disk)
    requires Recovers(config.runsAt, start, wrote, into)
    ensures Recovers(config.runsAt, found, wrote, into) && PartSwept(start, found)
  {
    hide LsmTree.Valid, Recovers, CrashSafe, PartSwept, SameAnswers, Swept;
    NothingSwept(start);
    found := start;
    for i := 0 to |attempts|
      invariant Recovers(config.runsAt, found, wrote, into) && PartSwept(start, found)
    {
      var attempt := new LsmTree.Open(found, config, wrote, into);
      var left := DiedOpening(attempt.trace, attempts[i]);
      SafeAt(config.runsAt, attempt.trace, left, wrote, into);
      SweptFurther(start, found, left);
      found := left;
    }
  }

  /** Run one event on a tree, which may be one that went on after a failed compaction. */
  method Live(tree: LsmTree, event: Event, planner: Planner, trials: Trials)
    returns (next: LsmTree, ghost course: Course)
    requires tree.Usable() && SafePlanner(planner, tree.config.runsAt)
    modifies tree
    ensures next == tree || fresh(next)
    ensures next.Usable() && next.config == tree.config
    ensures Follows(old(StateOf(tree)), event, planner, trials, course, StateOf(next))
    ensures Careful(event, trials) ==> !course.WentOnWithout? && (old(tree.Valid()) ==> next.Valid())
  {
    hide LsmTree.Usable, LsmTree.Valid, SafePlanner, Recovers, CrashSafe, DoneBy, FailedAt, Applied, Ascending, Follows,
         AllRead, SameAnswers;
    UsableRecovers(tree);
    var before, n := tree.disk, |tree.trace|;
    ghost var start, m := StateOf(tree), Applied(tree.memtable, event.operation);
    ghost var lost;
    var ok;
    ok, lost := Perform(tree, event.operation, planner, trials);
    if event.diesAfter.None? && (ok || !event.restarts) {
      if ok {
        GoesOn(start, event, planner, trials, StateOf(tree));
        return tree, WentOn(tree.held == tree.levels);
      }
      GoesOnWithout(start, event, planner, trials, lost.value, StateOf(tree));
      return tree, WentOnWithout(lost.value, tree.held == lost.value.whole);
    }
    CutOffRecovers(tree.config.runsAt, before, tree.trace, n, event.diesAfter, start.memtable, m, start.held,
                   start.levels);
    var left := CutOff(before, tree.trace, n, event.diesAfter);
    ghost var wrote := if event.diesAfter == Some(0) then start.memtable else m;
    ghost var committed := !Recovers(tree.config.runsAt, left, wrote, start.held);
    ghost var into := if committed then start.levels else start.held;
    var found := Attempt(tree.config, left, event.attempts, wrote, into);
    next := new LsmTree.Open(found, tree.config, wrote, into);
    ValidHolds(next);
    StartsAgain(start, event, planner, trials, StateOf(next), wrote, committed);
    course := StartedAgain(committed);
  }

  lemma ValidHolds(tree: LsmTree)
    requires tree.Valid()
    ensures tree.Usable() && tree.held == tree.levels
  {
    hide LsmTree.Usable;
  }

  // ---------------------------------------------------------------------
  // Whole runs
  // ---------------------------------------------------------------------

  /** How a run went: the states before, between and after its events, and how each event ended. */
  datatype Past = Past(states: seq<State>, courses: seq<Course>)

  /** Each event of a run follows on from the one before. */
  ghost predicate History(events: seq<Event>, planners: nat -> Planner, trials: nat -> Trials, past: Past) {
    && |past.states| == |events| + 1 && |past.courses| == |events|
    && (forall key: Key :: Served(past.states[0])(key) == None && Stored(past.states[0])(key) == None)
    && forall i :: 0 <= i < |events| ==>
         Follows(past.states[i], events[i], planners(i), trials(i), past.courses[i], past.states[i + 1])
  }

  function Before(past: Past, n: nat): Past
    requires n < |past.states| && n <= |past.courses|
  {
    Past(past.states[..n + 1], past.courses[..n])
  }

  lemma HistoryBefore(events: seq<Event>, planners: nat -> Planner, trials: nat -> Trials, past: Past, n: nat)
    requires History(events, planners, trials, past) && n <= |events|
    ensures History(events[..n], planners, trials, Before(past, n))
  {
    hide Follows, Served, Stored;
  }

  lemma HistoryGrows(events: seq<Event>, i: nat, planners: nat -> Planner, trials: nat -> Trials, past: Past,
                     course: Course, state: State)
    requires i < |events| && History(events[..i], planners, trials, past)
    requires Follows(past.states[i], events[i], planners(i), trials(i), course, state)
    ensures History(events[..i + 1], planners, trials, Past(past.states + [state], past.courses + [course]))
  {
    hide Follows, Served, Stored;
    var states, courses := past.states + [state], past.courses + [course];
    assert states[0] == past.states[0];
    forall j | 0 <= j < i + 1
      ensures Follows(states[j], events[..i + 1][j], planners(j), trials(j), courses[j], states[j + 1])
    {
      if j < i {
        assert Follows(past.states[j], events[..i][j], planners(j), trials(j), past.courses[j], past.states[j + 1]);
      }
    }
  }

  /** Whether a key's newest effective write is the one that the process serves, and the one that is stored. */
  datatype Kept = Kept(served: bool, stored: bool)

  /** What an event makes of that: a write restores its key, a failed compaction that forgets the key loses it to
      the process, a commit passes the loss on to the directory, and starting again brings back what is stored. */
  ghost function Keep(before: Kept, event: Event, course: Course, after: State, key: Key): Kept {
    var written := if Overwrites(event, key) then Kept(true, true) else before;
    var stored := if course.committed then written.served else written.stored;
    match course
    case WentOn(_) => Kept(written.served, stored)
    case WentOnWithout(loss, _) => Kept(written.served && !Lost(after, loss, key), stored)
    case StartedAgain(_) => Kept(stored, stored)
  }

  ghost function Keeps(events: seq<Event>, past: Past, key: Key): Kept
    requires |past.states| == |events| + 1 && |past.courses| == |events|
  {
    if |events| == 0 then Kept(true, true)
    else
      var n := |events| - 1;
      Keep(Keeps(events[..n], Before(past, n), key), events[n], past.courses[n], past.states[n + 1], key)
  }

  /** The newest effective write, one event later. */
  lemma OneMoreWrite(events: seq<Event>, key: Key)
    requires |events| > 0
    ensures var n := |events| - 1;
            Answer(Effective(events), key)
            == if Overwrites(events[n], key) then Visible(Some(events[n].operation.entry.value))
               else Answer(Effective(events[..n]), key)
  {
    var n := |events| - 1;
    var writes := Effective(events[..n]);
    if TakesEffect(events[n]) {
      assert (writes + [events[n].operation.entry])[..|writes|] == writes;
    } else {
      assert writes + [] == writes;
    }
  }

  /** In every history, a key that is kept reads as its newest effective write. */
  lemma {:induction false} KeptIsNewest(events: seq<Event>, planners: nat -> Planner, trials: nat -> Trials, past: Past,
                                        key: Key)
    requires History(events, planners, trials, past)
    ensures Keeps(events, past, key).served ==> Served(past.states[|events|])(key) == Answer(Effective(events), key)
    ensures Keeps(events, past, key).stored ==> Stored(past.states[|events|])(key) == Answer(Effective(events), key)
  {
    hide Follows, Effective, Answer, Lost, Served, Stored, Written, Keep;
    if |events| == 0 {
      NothingWrittenYet(events, key);
    } else {
      var n := |events| - 1;
      HistoryBefore(events, planners, trials, past, n);
      KeptIsNewest(events[..n], planners, trials, Before(past, n), key);
      OneMoreWrite(events, key);
      KeptOneMore(Keeps(events[..n], Before(past, n), key), past.states[n], events[n], planners(n), trials(n),
                  past.courses[n], past.states[n + 1], Answer(Effective(events[..n]), key), key);
    }
  }

  lemma NothingWrittenYet(events: seq<Event>, key: Key)
    requires |events| == 0
    ensures Answer(Effective(events), key) == None
  {}

  lemma KeptOneMore(kept: Kept, before: State, event: Event, planner: Planner, trials: Trials, course: Course,
                    after: State, newest: Option<seq<byte>>, key: Key)
    requires Follows(before, event, planner, trials, course, after)
    requires (kept.served ==> Served(before)(key) == newest) && (kept.stored ==> Stored(before)(key) == newest)
    ensures var newest' := if Overwrites(event, key) then Visible(Some(event.operation.entry.value)) else newest;
            var kept' := Keep(kept, event, course, after, key);
            (kept'.served ==> Served(after)(key) == newest') && (kept'.stored ==> Stored(after)(key) == newest')
  {
    hide Lacks, Lost, AnswersOf, TakesEffect;
    assert Stored(after)(key) == Written(if course.committed then Served(before) else Stored(before), event)(key);
    if course.WentOn? { assert Served(after)(key) == Written(Served(before), event)(key); }
  }

  /** The event at which a key stops being kept is a failed compaction that forgets it, and from then on the key
      does not read as its newest effective write: of the keys kept so far, exactly the forgotten ones are lost. */
  lemma LossIsExact(events: seq<Event>, planners: nat -> Planner, trials: nat -> Trials, past: Past, key: Key)
    requires History(events, planners, trials, past) && |events| > 0 && past.courses[|events| - 1].WentOnWithout?
    requires var n := |events| - 1;
             Keeps(events[..n], Before(past, n), key).served || Overwrites(events[n], key)
    ensures Served(past.states[|events|])(key) == Answer(Effective(events), key)
            <==> !Lost(past.states[|events|], past.courses[|events| - 1].loss, key)
  {
    hide Lacks, Lost, AnswersOf, Effective, Answer, Keeps, TakesEffect;
    var n := |events| - 1;
    HistoryBefore(events, planners, trials, past, n);
    KeptIsNewest(events[..n], planners, trials, Before(past, n), key);
    OneMoreWrite(events, key);
    assert Follows(past.states[n], events[n], planners(n), trials(n), past.courses[n], past.states[n + 1]);
  }

  /** A run in which nobody goes on after a failed compaction keeps every key. */
  lemma {:induction false} CarefulKeepsAll(events: seq<Event>, past: Past, key: Key)
    requires |past.states| == |events| + 1 && |past.courses| == |events|
    requires forall i :: 0 <= i < |events| ==> !past.courses[i].WentOnWithout?
    ensures Keeps(events, past, key) == Kept(true, true)
  {
    if |events| > 0 { CarefulKeepsAll(events[..|events| - 1], Before(past, |events| - 1), key); }
  }

  /** Any run of events on a new database, whatever each is planned with and whatever cannot be read. What the
      process serves and what the directory stores follow event by event; every key that is kept reads as its
      newest effective write says; and a caller that never goes on after a failed compaction keeps every key. */
  method Run(events: seq<Event>, config: Config, planners: nat -> Planner, trials: nat -> Trials)
    returns (tree: LsmTree, ghost past: Past)
    requires forall i :: SafePlanner(planners(i), config.runsAt)
    ensures tree.Usable() && fresh(tree) && History(events, planners, trials, past)
            && past.states[|events|] == StateOf(tree)
    ensures forall key: Key :: Keeps(events, past, key).served ==> tree.View(key) == Answer(Effective(events), key)
    ensures (forall i :: 0 <= i < |events| ==> Careful(events[i], trials(i))) ==>
              tree.Valid() && forall key: Key :: tree.View(key) == Answer(Effective(events), key)
  {
    hide LsmTree.Valid, LsmTree.Usable, SafePlanner, Recovers, CrashSafe, SameAnswers, Effective, Answer, Careful,
         History, Follows, Keeps, ReadTree;
    NewDatabaseRecovers(config.runsAt);
    tree := new LsmTree.Open(Disk(map[], None, []), config, [], []);
    ValidHolds(tree);
    past := Past([StateOf(tree)], []);
    HistoryStarts(events, planners, trials, StateOf(tree));
    for i := 0 to |events|
      invariant tree.Usable() && fresh(tree) && tree.config == config
      invariant History(events[..i], planners, trials, past) && |past.states| == i + 1
                && past.states[i] == StateOf(tree)
      invariant |past.courses| == i
      invariant (forall j :: 0 <= j < i ==> Careful(events[j], trials(j))) ==>
                  tree.Valid() && forall j :: 0 <= j < i ==> !past.courses[j].WentOnWithout?
    {
      ghost var course;
      tree, course := Live(tree, events[i], planners(i), trials(i));
      HistoryGrows(events, i, planners, trials, past, course, StateOf(tree));
      past := Past(past.states + [StateOf(tree)], past.courses + [course]);
    }
    assert events[..|events|] == events;
    ServedIsView(tree);
    forall key: Key
      ensures Keeps(events, past, key).served ==> tree.View(key) == Answer(Effective(events), key)
      ensures (forall i :: 0 <= i < |events| ==> Careful(events[i], trials(i))) ==> Keeps(events, past, key).served
    {
      KeptIsNewest(events, planners, trials, past, key);
      if forall i :: 0 <= i < |events| ==> Careful(events[i], trials(i)) { CarefulKeepsAll(events, past, key); }
    }
  }

  lemma HistoryStarts(events: seq<Event>, planners: nat -> Planner, trials: nat -> Trials, state: State)
    requires SameAnswers(state.memtable, state.levels, [], []) && state.held == state.levels
    ensures History(events[..0], planners, trials, Past([state], []))
  {
    forall key: Key ensures Served(state)(key) == None {
      assert Visible(ReadTree(state.memtable, state.levels, key)) == Visible(ReadTree([], [], key));
    }
    hide ReadTree;
  }

  lemma ServedIsView(tree: LsmTree)
    ensures forall key: Key :: tree.View(key) == Served(StateOf(tree))(key)
  {
    hide ReadTree;
  }

  /** A caller that went on after a failed compaction and starts again before the next commit has lost nothing. */
  lemma StartingAgainRestores(before: State, event: Event, p1: Planner, t1: Trials, course: Course, failed: State,
                              death: Event, p2: Planner, t2: Trials, after: State)
    requires Alike(Served(before), Stored(before)) && Follows(before, event, p1, t1, course, failed)
    requires Follows(failed, death, p2, t2, StartedAgain(false), after)
    ensures Alike(Served(after), Written(Written(Served(before), event), death))
  {
    hide Lacks, Lost, AnswersOf;
    var b := Written(Served(before), event);
    forall key: Key ensures Served(after)(key) == Written(b, death)(key) {
      assert Stored(after)(key) == Written(Stored(failed), death)(key);
      assert Stored(failed)(key) == b(key) by {
        assert Stored(failed)(key) == Written(if course.committed then Served(before) else Stored(before), event)(key);
        assert Served(before)(key) == Stored(before)(key);
      }
    }
  }
}
