/** A compaction that could not read its inputs: what the engine answers when the caller goes on
    (src/storage/lsm.rs). */
module Failures {
  import opened Octets
  import opened Bytes
  import opened SortedEntries
  import opened LsmTrees
  import opened Compactions
  import opened Coalescing
  import opened Disks
  import opened Commits
  import opened Installs
  import opened Planning
  import opened Fluids

  /** The levels in memory once a job's inputs are out of them and no output took their place. */
  function Lossy(levels: Levels, job: Job): Levels {
    Prune(After(levels, Selections(job)), job)
  }

  /** The record that answers the key is taken, and nothing that is left answers like it. */
  ghost predicate Forgets(levels: Levels, job: Job, key: Key) {
    || (exists i: nat :: ForgetsLast(levels, job, key, i))
    || exists i: nat, l: nat, r: nat :: FallsBack(levels, job, key, i, l, r)
  }

  /** A value is taken, and no record of the key is left. */
  ghost predicate ForgetsLast(levels: Levels, job: Job, key: Key, i: nat) {
    && FirstTaken(levels, Selections(job), i, key) && NothingLeft(levels, Selections(job), key)
    && Visible(HeldBy(levels, Selections(job)[i], key)).Some?
  }

  /** The newest record left is older than the newest taken one, and a reader can tell them apart. */
  ghost predicate FallsBack(levels: Levels, job: Job, key: Key, i: nat, l: nat, r: nat) {
    && FirstTaken(levels, Selections(job), i, key) && NewestLeft(levels, Selections(job), l, r, key)
    && Earlier(Selections(job)[i].level, Selections(job)[i].run, l, r)
    && Visible(LeftAt(levels, Selections(job), l, r, key)) != Visible(HeldBy(levels, Selections(job)[i], key))
  }

  lemma LossyReads(levels: Levels, job: Job, key: Key)
    requires SoundLevels(levels)
    ensures ReadLevels(Lossy(levels, job), key) == ReadLevels(After(levels, Selections(job)), key)
  {
    hide ReadLevels, After, Prune, SoundLevels, Selections, Alike;
    AfterIsSound(levels, Selections(job));
    PruneAlike(After(levels, Selections(job)), job);
    AlikeReads(Lossy(levels, job), After(levels, Selections(job)), 0, key);
  }

  /** For every tree and every job: the engine goes on answering a key as before exactly when it does not
      forget it. */
  lemma FailedCompactionKeepsKey(levels: Levels, job: Job, key: Key)
    requires SoundLevels(levels) && Increasing(Selections(job))
    ensures Visible(ReadLevels(Lossy(levels, job), key)) == Visible(ReadLevels(levels, key))
            <==> !Forgets(levels, job, key)
  {
    hide HeldAt, LeftAt, ReadLevels, After, Prune, SoundLevels, HeldBy, Increasing, Lossy;
    var selections := Selections(job);
    var after := After(levels, selections);
    LossyReads(levels, job, key);
    if NotTaken(levels, selections, key) {
      forall l, r ensures HeldAt(levels, l, r, key) == HeldAt(after, l, r, key) {
        NothingTakenAnywhere(levels, selections, key, l, r);
      }
      SameReads(levels, after, key);
    } else {
      var n :| 0 <= n < |selections| && HeldBy(levels, selections[n], key).Some?;
      var i := FirstTakenExists(levels, selections, n, key);
      var found, l, r := FindLeft(levels, selections, key);
      ReadsBefore(levels, job, key, i, found, l, r);
      if found {
        LeftIsHeldAfter(levels, selections, l, r, key);
        ReadAtFirst(after, l, r, key);
        HeldAtSelection(levels, selections, i, key);
        OneFallBack(levels, job, key, i, l, r);
      } else {
        ReadNothing(after, key);
        OneForgotten(levels, job, key, i);
      }
    }
  }

  lemma OneFallBack(levels: Levels, job: Job, key: Key, i: nat, l: nat, r: nat)
    requires FirstTaken(levels, Selections(job), i, key) && NewestLeft(levels, Selections(job), l, r, key)
    ensures Forgets(levels, job, key) <==> FallsBack(levels, job, key, i, l, r)
  {
    hide HeldBy, LeftAt, Selections, FirstTaken;
    assert !NothingLeft(levels, Selections(job), key);
    hide NothingLeft, NewestLeft;
    forall i': nat, l': nat, r': nat | FallsBack(levels, job, key, i', l', r') ensures i' == i && l' == l && r' == r {
      FirstTakenIsUnique(levels, Selections(job), i, i', key);
      NewestLeftIsUnique(levels, Selections(job), l, r, l', r', key);
    }
  }

  lemma OneForgotten(levels: Levels, job: Job, key: Key, i: nat)
    requires FirstTaken(levels, Selections(job), i, key) && NothingLeft(levels, Selections(job), key)
    ensures Forgets(levels, job, key) <==> ForgetsLast(levels, job, key, i)
  {
    hide HeldBy, LeftAt, Selections, FirstTaken;
    assert forall l: nat, r: nat :: !NewestLeft(levels, Selections(job), l, r, key);
    hide NothingLeft, NewestLeft;
    forall i': nat | ForgetsLast(levels, job, key, i') ensures i' == i {
      FirstTakenIsUnique(levels, Selections(job), i, i', key);
    }
  }

  /** What is left is a tree in its own right, whose tables are those not taken. */
  lemma LossyIsSound(levels: Levels, job: Job, next: nat)
    requires SoundLevels(levels) && Live(levels, next)
    ensures SoundLevels(Lossy(levels, job)) && Live(Lossy(levels, job), next)
    ensures Tables(Lossy(levels, job)) + TakenTables(Taken(levels, Selections(job))) == Tables(levels)
  {
    PrunedIsLive(levels, job, next);
    AfterIsSound(levels, Selections(job));
    PruneAlike(After(levels, Selections(job)), job);
    AfterTables(levels, Selections(job));
    hide SoundLevels, Live, After, Prune, Taken, TakenTables, Tables, Selections, AlikeAt;
  }

  lemma LossyStaysTamed(levels: Levels, job: Job, runsAt: nat -> nat)
    requires SoundLevels(levels) && Increasing(Selections(job)) && Tamed(levels, runsAt)
    ensures Tamed(Lossy(levels, job), runsAt)
  {
    hide SoundLevels, KeyDisjoint, After, Prune, Increasing, Selections;
    forall l: nat | l >= 1 && runsAt(l) <= 1 ensures KeyDisjoint(LevelAt(Lossy(levels, job), l)) {
      TakingKeepsDisjoint(levels, Selections(job), l);
      PruneThins(After(levels, Selections(job)), job, l);
    }
  }
}
