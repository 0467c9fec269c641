/** The engine with large values kept in the value log (src/storage/lsm.rs, src/storage/vlog.rs). */
module SeparatedTrees {
  import opened Octets
  import opened Bytes
  import opened SortedEntries
  import opened LsmTrees
  import opened Disks
  import opened Commits
  import opened Failures
  import opened Fluids
  import opened LsmEngines
  import Crc32s
  import opened ValueLogs
  import MemTables
  import Wals

  /** What a reader gets for a stored value. */
  function Loaded(separated: bool, file: seq<byte>, stored: Option<seq<byte>>): Result<Option<seq<byte>>> {
    if stored.None? then Ok(None)
    else
      match LoadValue(separated, file, stored.value)
      case Err => Err
      case Ok(value) => Ok(Some(value))
  }

  type Readings = Key -> Option<seq<byte>>

  /** Every key of this memtable over these levels loads as the readings say. */
  ghost predicate LoadAs(separated: bool, file: seq<byte>, memtable: seq<Entry>, levels: Levels, readings: Readings) {
    forall key: Key :: Loaded(separated, file, Visible(ReadTree(memtable, levels, key))) == Ok(readings(key))
  }

  /** A directory and a value log that open as a tree with these readings, once the log's torn tail is cut. */
  ghost predicate OpensTo(runsAt: nat -> nat, disk: Disk, separated: bool, bytes: seq<byte>, readings: Readings) {
    exists memtable: seq<Entry>, levels: Levels ::
      && Recovers(runsAt, disk, memtable, levels)
      && LoadAs(separated, bytes[..IntactFrom(bytes, 0)], memtable, levels, readings)
  }

  /** What a caller gets under each key; a stored value may fail to load. */
  type Loads = Key -> Result<Option<seq<byte>>>

  ghost function LoadsOf(separated: bool, file: seq<byte>, memtable: seq<Entry>, levels: Levels): Loads {
    (key: Key) => Loaded(separated, file, Visible(ReadTree(memtable, levels, key)))
  }

  ghost function Overwritten(loads: Loads, key: Key, value: Option<seq<byte>>): Loads {
    (k: Key) => if k == key then Ok(value) else loads(k)
  }

  /** What loaded goes on loading, as it did. */
  ghost predicate GoesOn(before: Loads, after: Loads) {
    forall key: Key :: before(key).Ok? ==> after(key) == before(key)
  }

  /** The same, but for the keys that a failed compaction forgot. */
  ghost predicate GoesOnWithout(loss: Loss, before: Loads, after: Loads) {
    forall key: Key :: before(key).Ok? && !Forgets(loss.whole, loss.job, key) ==> after(key) == before(key)
  }

  /** Everything from the start on loads. */
  ghost predicate AllLoad(start: Key, loads: Loads) {
    forall key: Key :: !Less(key, start) ==> loads(key).Ok?
  }

  /** A scan lists exactly the keys from its start on that have a value, in order, each with what it loads as. */
  ghost predicate Scans(out: seq<Entry>, start: Key, loads: Loads) {
    && Ascending(out)
    && forall key: Key :: Lookup(out, key) != Some(Tombstone)
                          && if Less(key, start) then Lookup(out, key) == None
                             else loads(key) == Ok(Visible(Lookup(out, key)))
  }

  /** Every disk from position n on, over this value log. */
  ghost predicate AllOpenTo(runsAt: nat -> nat, trace: seq<Disk>, n: nat, separated: bool, bytes: seq<byte>,
                            readings: Readings) {
    forall i :: n <= i < |trace| ==> OpensTo(runsAt, trace[i], separated, bytes, readings)
  }

  ghost predicate SameReadings(a: Readings, b: Readings) {
    forall key: Key :: a(key) == b(key)
  }

  /** The new tree answers as the old one with the key written, but for what a failed compaction forgot. */
  ghost predicate Shows(m0: seq<Entry>, l0: Levels, memtable: seq<Entry>, levels: Levels, key: Key,
                        stored: Option<seq<byte>>, written: bool, lost: Option<Loss>) {
    forall k: Key :: lost.None? || !Forgets(lost.value.whole, lost.value.job, k) ==>
      Visible(ReadTree(memtable, levels, k)) == if written && k == key then stored else Visible(ReadTree(m0, l0, k))
  }

  function Updated(readings: Readings, key: Key, value: Option<seq<byte>>): Readings {
    (k: Key) => if k == key then value else readings(k)
  }

  // ---------------------------------------------------------------------
  // A growing log
  // ---------------------------------------------------------------------

  lemma RecordStays(file: seq<byte>, later: seq<byte>, offset: nat)
    requires RecordAt(file, offset).Ok?
    ensures RecordAt(file + later, offset) == RecordAt(file, offset)
  {
    hide FromLittleEndian, Crc32s.Crc;
    var all := file + later;
    assert all[offset + 4..offset + 8] == file[offset + 4..offset + 8]
           && all[offset..offset + 4] == file[offset..offset + 4];
    var end := offset + 8 + FromLittleEndian(file[offset + 4..offset + 8]);
    assert all[offset + 8..end] == file[offset + 8..end];
  }

  /** What loads goes on loading as the log grows. */
  lemma LoadedStays(separated: bool, file: seq<byte>, later: seq<byte>, stored: Option<seq<byte>>)
    requires Loaded(separated, file, stored).Ok?
    ensures Loaded(separated, file + later, stored) == Loaded(separated, file, stored)
  {
    hide RecordAt;
    if stored.Some? && separated && |stored.value| > 0 && stored.value[0] == VALUE_SEPARATED {
      var p := DecodePointer(stored.value[1..]);
      if p.Some? && RecordAt(file, p.value.offset).Ok? { RecordStays(file, later, p.value.offset); }
    }
  }

  lemma LoadAsStays(separated: bool, file: seq<byte>, grown: seq<byte>, memtable: seq<Entry>, levels: Levels,
                    readings: Readings)
    requires LoadAs(separated, file, memtable, levels, readings) && file <= grown
    ensures LoadAs(separated, grown, memtable, levels, readings)
  {
    hide ReadTree, Loaded;
    assert grown == file + grown[|file|..];
    forall key: Key ensures Loaded(separated, grown, Visible(ReadTree(memtable, levels, key))) == Ok(readings(key)) {
      LoadedStays(separated, file, grown[|file|..], Visible(ReadTree(memtable, levels, key)));
    }
  }

  /** A log cut anywhere behind whole records keeps them. */
  lemma CutKeepsRecords(values: seq<seq<byte>>, k: nat, n: nat)
    requires AllFit(values) && k <= |values| && |LogOf(values[..k])| <= n <= |LogOf(values)|
    ensures var torn := LogOf(values)[..n]; LogOf(values[..k]) <= torn[..IntactFrom(torn, 0)]
  {
    hide LogOf, RecordOf, RecordAt, IntactFrom;
    var torn, whole := LogOf(values)[..n], WholeRecords(values, n);
    TornLogKeepsWholeRecords([], values, n);
    assert [] + torn == torn;
    WholeRecordsAreMost(values, n, k);
    WholeRecordsAreMost(values, n, whole);
    LogConcat(values[..whole], values[whole..]);
    assert values[..whole] + values[whole..] == values;
    assert torn[..IntactFrom(torn, 0)] == LogOf(values[..whole]);
    LogConcat(values[..k], values[k..whole]);
    assert values[..k] + values[k..whole] == values[..whole];
  }

  /** A log of whole records has no torn tail. */
  lemma WholeLogIsIntact(values: seq<seq<byte>>)
    requires AllFit(values)
    ensures LogOf(values)[..IntactFrom(LogOf(values), 0)] == LogOf(values)
  {
    hide LogOf, IntactFrom;
    assert values[..|values|] == values;
    assert LogOf(values)[..|LogOf(values)|] == LogOf(values);
    CutKeepsRecords(values, |values|, |LogOf(values)|);
  }

  // ---------------------------------------------------------------------
  // The engine
  // ---------------------------------------------------------------------

  class SeparatedTree {
    const threshold: Option<nat>
    const tree: LsmTree
    const log: ValueLog

    /** The tree may be one that went on after a failed compaction. */
    ghost predicate Usable()
      reads this, tree, log
    {
      tree.Usable() && log.Valid()
    }

    /** The directory stands for the tree in memory, and every stored value loads. */
    ghost predicate Valid()
      reads this, tree, log
    {
      tree.Valid() && log.Valid() && LoadAs(threshold.Some?, log.file, tree.memtable, tree.levels, Reads())
    }

    ghost function Loads(): Loads
      reads this, tree, log
    {
      LoadsOf(threshold.Some?, log.file, tree.memtable, tree.levels)
    }

    /** What a caller reads under each key. */
    ghost function Reads(): Readings
      reads this, tree, log
    {
      var separated, file, memtable, levels := threshold.Some?, log.file, tree.memtable, tree.levels;
      (key: Key) =>
        var loaded := Loaded(separated, file, Visible(ReadTree(memtable, levels, key)));
        if loaded.Ok? then loaded.value else None
    }

    /** Open a directory and a value log in whatever state a crash left them. */
    constructor Open(found: Disk, bytes: seq<byte>, config: Config, threshold: Option<nat>, ghost readings: Readings)
      requires OpensTo(config.runsAt, found, threshold.Some?, bytes, readings)
      ensures Valid() && this.threshold == threshold && tree.config == config && fresh(tree) && fresh(log)
      ensures SameReadings(Reads(), readings)
    {
      hide LsmTree.Valid, Recovers, CrashSafe, LoadAs, ValueLog.Valid, SameAnswers, IntactFrom;
      ghost var wrote: seq<Entry>, into: Levels :|
        Recovers(config.runsAt, found, wrote, into)
          && LoadAs(threshold.Some?, bytes[..IntactFrom(bytes, 0)], wrote, into, readings);
      var t := new LsmTree.Open(found, config, wrote, into);
      var l := ValueLogs.Open(bytes);
      this.threshold, tree, log := threshold, t, l;
      new;
      LoadAsCarries(threshold.Some?, l.file, wrote, into, t.memtable, t.levels, readings);
      ReadsAsLoaded(this, readings);
    }

    method Get(key: Key) returns (r: Result<Option<seq<byte>>>)
      requires Usable()
      ensures r == Loads()(key)
      ensures Valid() ==> r == Ok(Reads()(key))
    {
      hide LsmTree.Usable, LsmTree.Valid, ValueLog.Valid, ReadTree, LoadValue;
      var stored := tree.Get(key);
      r := Loaded(threshold.Some?, log.file, stored);
    }

    /** Every live key in order, with its value loaded; the scan fails exactly if a value does not load. */
    method Iter() returns (r: Result<seq<Entry>>)
      requires Usable()
      ensures r.Ok? <==> AllLoad([], Loads())
      ensures r.Ok? ==> Scans(r.value, [], Loads())
    {
      hide LsmTree.Usable, ValueLog.Valid, ReadTree, Lookup, Ascending;
      var scanned := tree.Iter();
      forall key: Key ensures Lookup(scanned, key) == Shown([], tree.View(key), key) {}
      r := LoadEach(scanned, []);
    }

    /** Live keys from a start on, with their values loaded. */
    method RangeFrom(start: Key) returns (r: Result<seq<Entry>>)
      requires Usable()
      ensures r.Ok? <==> AllLoad(start, Loads())
      ensures r.Ok? ==> Scans(r.value, start, Loads())
    {
      hide LsmTree.Usable, ValueLog.Valid, ReadTree, Lookup, Ascending, LsmTrees.Iter, From, Less;
      UsableAscends(tree);
      RangeShows(tree.memtable, tree.levels, start);
      var scanned := tree.RangeFrom(start);
      r := LoadEach(scanned, start);
    }

    /** Load the value of each entry of a scan. */
    method LoadEach(scanned: seq<Entry>, start: Key) returns (r: Result<seq<Entry>>)
      requires Usable() && Ascending(scanned)
      requires forall key: Key :: Lookup(scanned, key) == Shown(start, tree.View(key), key)
      ensures r.Ok? <==> AllLoad(start, Loads())
      ensures r.Ok? ==> Scans(r.value, start, Loads())
    {
      hide LsmTree.Usable, ValueLog.Valid, ReadTree, Lookup, Ascending, Loaded, Less;
      var out: seq<Entry> := [];
      for i := 0 to |scanned|
        invariant |out| == i
        invariant forall j :: 0 <= j < i ==>
                    out[j].key == scanned[j].key && out[j].value.Put?
                      && Loads()(out[j].key) == Ok(Some(out[j].value.bytes))
      {
        var e := scanned[i];
        LookupIsMember(scanned, e.key);
        assert Lookup(scanned, e.key) == Shown(start, tree.View(e.key), e.key);
        var loaded := Loaded(threshold.Some?, log.file, Some(e.value.bytes));
        LoadedAsValue(threshold.Some?, log.file, e.value.bytes);
        if loaded.Err? { return Err; }
        out := out + [Entry(e.key, Value.Put(loaded.value.value))];
      }
      LoadedScan(scanned, out, start, threshold.Some?, log.file, tree.memtable, tree.levels);
      return Ok(out);
    }

    /** Give the tree a record. */
    method Tell(key: Key, payload: Value, planner: Planner, trials: Trials)
      returns (accepted: bool, ok: bool, ghost lost: Option<Loss>)
      requires Usable() && SafePlanner(planner, tree.config.runsAt)
      modifies tree
      ensures Usable() && (old(tree.Valid()) && ok ==> tree.Valid()) && (ok || (accepted && lost.Some?))
      ensures Shows(old(tree.memtable), old(tree.levels), tree.memtable, tree.levels, key, Visible(Some(payload)),
                    accepted, if ok then None else lost)
      ensures !ok ==>
                Lacks(planner, trials, lost.value, tree.levels) && tree.held == lost.value.whole && tree.memtable == []
      ensures !ok ==> SameAnswers(tree.memtable, tree.held, MemTables.Insert(old(tree.memtable), Entry(key, payload)),
                                  old(tree.levels))
      ensures |old(tree.trace)| <= |tree.trace| && tree.trace[..|old(tree.trace)|] == old(tree.trace)
      ensures CrashSafe(tree.config.runsAt, tree.trace, |old(tree.trace)|,
                        MemTables.Insert(old(tree.memtable), Entry(key, payload)), old(tree.held), old(tree.levels))
    {
      hide LsmTree.Valid, LsmTree.Usable, ReadTree, SafePlanner, Wals.Fits, MemTables.Insert, CrashSafe, Lacks, Forgets,
           SameAnswers;
      ghost var m0, l0 := tree.memtable, tree.levels;
      accepted, ok, lost := tree.Write(Entry(key, payload), planner, trials);
      forall k: Key | ok || !Forgets(lost.value.whole, lost.value.job, k)
        ensures Visible(ReadTree(tree.memtable, tree.levels, k))
             == if accepted && k == key then Visible(Some(payload)) else Visible(ReadTree(m0, l0, k))
      {
        assert tree.View(k) == Visible(ReadTree(tree.memtable, tree.levels, k));
        assert old(tree.View(k)) == Visible(ReadTree(m0, l0, k));
      }
    }

    /** Write a record whose stored value loads as the value given. What loads goes on loading as it did, but for
        the key, which loads as that value, and the keys that a failed compaction forgets. */
    method Write(key: Key, payload: Value, ghost value: Option<seq<byte>>, planner: Planner, trials: Trials)
      returns (accepted: bool, ok: bool, ghost lost: Option<Loss>)
      requires Usable() && SafePlanner(planner, tree.config.runsAt)
      requires Loaded(threshold.Some?, log.file, Visible(Some(payload))) == Ok(value)
      modifies tree
      ensures Usable() && (old(Valid()) && ok ==> Valid())
      ensures !accepted ==> ok && GoesOn(old(Loads()), Loads())
      ensures accepted && ok ==> GoesOn(Overwritten(old(Loads()), key, value), Loads())
      ensures !ok ==>
                lost.Some? && Lacks(planner, trials, lost.value, tree.levels) && tree.held == lost.value.whole
                && tree.memtable == []
      ensures !ok ==> GoesOnWithout(lost.value, Overwritten(old(Loads()), key, value), Loads())
      ensures old(Valid()) && ok ==> SameReadings(Reads(), if accepted then Updated(old(Reads()), key, value)
                                                  else old(Reads()))
      ensures old(Valid()) && !ok ==> OpensTo(tree.config.runsAt, tree.disk, threshold.Some?, log.file,
                                              Updated(old(Reads()), key, value))
      ensures |old(tree.trace)| <= |tree.trace| && tree.trace[..|old(tree.trace)|] == old(tree.trace)
      ensures old(Valid()) ==>
                AllOpenTo(tree.config.runsAt, tree.trace, |old(tree.trace)|, threshold.Some?, log.file,
                          Updated(old(Reads()), key, value))
    {
      hide LsmTree.Valid, LsmTree.Usable, ReadTree, SafePlanner, MemTables.Insert, CrashSafe, Lacks, LoadValue, Loaded,
           LogOf, AllFit, OpensTo, AllOpenTo, LoadAs, Updated, GoesOn, GoesOnWithout, SameAnswers, Overwritten, LoadsOf,
           SameReadings, Shows;
      ghost var valid, readings, m0, l0, n := Valid(), Reads(), tree.memtable, tree.levels, |tree.trace|;
      UsableAscends(tree);
      if valid { ValidAscends(tree); }
      accepted, ok, lost := Tell(key, payload, planner, trials);
      ViewsGoOn(threshold.Some?, log.file, m0, l0, tree.memtable, tree.levels, key, value, Visible(Some(payload)),
                accepted, if ok then None else lost);
      if valid {
        ghost var separated, wrote, written := threshold.Some?, MemTables.Insert(m0, Entry(key, payload)),
          Updated(readings, key, value);
        WrittenLoads(separated, log.file, m0, l0, readings, key, payload, value);
        StepsOpen(tree.config.runsAt, separated, tree.trace, n, log.file, log.values, wrote, l0, written);
        if ok {
          ViewsLoad(separated, log.file, m0, l0, tree.memtable, tree.levels, readings, key, value,
                    Visible(Some(payload)), accepted);
          ReadsAsLoaded(this, if accepted then written else readings);
        } else {
          FailedOpens(tree, separated, log.file, log.values, wrote, l0, written);
        }
      }
    }

    /** Divert a large value to the log, then write. The log grows before the tree is told: a crash at any byte
        of the value, or at any step of the directory after it, leaves the readings from before or from after. */
    method Put(key: Key, value: seq<byte>, planner: Planner, trials: Trials)
      returns (stored: bool, accepted: bool, ok: bool, ghost lost: Option<Loss>)
      requires Usable() && SafePlanner(planner, tree.config.runsAt) && log.tail < U64
      modifies tree, log
      ensures Usable() && (old(Valid()) && ok ==> Valid())
      ensures stored <==> threshold.None? || |value| < threshold.value || |value| < U32
      ensures accepted ==> stored
      ensures !accepted ==> ok && GoesOn(old(Loads()), Loads())
      ensures accepted && ok ==> GoesOn(Overwritten(old(Loads()), key, Some(value)), Loads())
      ensures !ok ==>
                lost.Some? && Lacks(planner, trials, lost.value, tree.levels) && tree.held == lost.value.whole
                && tree.memtable == []
      ensures !ok ==> GoesOnWithout(lost.value, Overwritten(old(Loads()), key, Some(value)), Loads())
      ensures old(Valid()) && ok ==> SameReadings(Reads(), if accepted then Updated(old(Reads()), key, Some(value))
                                                  else old(Reads()))
      ensures old(Valid()) && !ok ==>
                OpensTo(tree.config.runsAt, tree.disk, threshold.Some?, log.file,
                        Updated(old(Reads()), key, Some(value)))
      ensures old(log.file) <= log.file && |old(tree.trace)| <= |tree.trace|
              && tree.trace[..|old(tree.trace)|] == old(tree.trace)
      ensures old(Valid()) ==> forall n :: |old(log.file)| <= n <= |log.file| ==>
                OpensTo(tree.config.runsAt, old(tree.disk), threshold.Some?, log.file[..n], old(Reads()))
      ensures old(Valid()) ==>
                AllOpenTo(tree.config.runsAt, tree.trace, |old(tree.trace)|, threshold.Some?, log.file,
                          Updated(old(Reads()), key, Some(value)))
    {
      hide LsmTree.Valid, LsmTree.Usable, ReadTree, SafePlanner, Lacks, LoadValue, Loaded, LogOf, AllFit, OpensTo,
           AllOpenTo, LoadAs, Updated, GoesOn, GoesOnWithout, Overwritten, LoadsOf, SameReadings;
      ghost var before, readings, loads, n := Valid(), Reads(), Loads(), |tree.trace|;
      var store := Store(value);
      stored := store.Ok?;
      if !stored {
        NothingOpens(tree.config.runsAt, tree.trace, threshold.Some?, log.file, Updated(readings, key, Some(value)));
        return stored, false, true, None;
      }
      StoredLoads(threshold.Some?, log.file, value, store.value);
      ghost var grown, later := Loads(), Reads();
      accepted, ok, lost := Write(key, Value.Put(store.value), Some(value), planner, trials);
      GoesOnTwice(loads, grown, Loads(), key, Some(value));
      if before {
        UpdatedAlike(later, readings, key, Some(value));
        var from, to := Updated(later, key, Some(value)), Updated(readings, key, Some(value));
        AllOpenToSame(tree.config.runsAt, tree.trace, n, threshold.Some?, log.file, from, to);
        OpensToSame(tree.config.runsAt, tree.disk, threshold.Some?, log.file, from, to);
        SameReadingsTwice(Reads(), if accepted then from else later, if accepted then to else readings);
      }
    }

    /** Store a value; the tree is not told yet. */
    method Store(value: seq<byte>) returns (r: Result<seq<byte>>)
      requires Usable() && log.tail < U64
      modifies log
      ensures Usable() && old(log.file) <= log.file && GoesOn(old(Loads()), Loads())
      ensures r.Ok? ==> forall later :: LoadValue(threshold.Some?, log.file + later, r.value) == Ok(value)
      ensures r.Err? <==> threshold.Some? && |value| >= threshold.value && |value| >= U32
      ensures old(Valid()) ==> Valid() && SameReadings(Reads(), old(Reads()))
      ensures old(Valid()) ==> forall n :: |old(log.file)| <= n <= |log.file| ==>
                OpensTo(tree.config.runsAt, tree.disk, threshold.Some?, log.file[..n], old(Reads()))
    {
      hide LsmTree.Valid, LsmTree.Usable, ReadTree, LoadValue, Loaded, LogOf, AllFit, OpensTo, LoadAs, GoesOn, LoadsOf;
      ghost var valid, readings, file, values := Valid(), Reads(), log.file, log.values;
      r := StoreValue(log, threshold, value);
      GrownLoads(threshold.Some?, file, log.file, tree.memtable, tree.levels);
      if valid {
        ValidAscends(tree);
        GrownLogOpens(tree.config.runsAt, threshold.Some?, tree.disk, tree.memtable, tree.levels, file, values,
                      log.file, log.values, readings);
        ReadsAsLoaded(this, readings);
      }
    }

    /** A delete leaves the log alone. */
    method Delete(key: Key, planner: Planner, trials: Trials)
      returns (accepted: bool, ok: bool, ghost lost: Option<Loss>)
      requires Usable() && SafePlanner(planner, tree.config.runsAt)
      modifies tree
      ensures Usable() && (old(Valid()) && ok ==> Valid())
      ensures !accepted ==> ok && GoesOn(old(Loads()), Loads())
      ensures accepted && ok ==> GoesOn(Overwritten(old(Loads()), key, None), Loads())
      ensures !ok ==>
                lost.Some? && Lacks(planner, trials, lost.value, tree.levels) && tree.held == lost.value.whole
                && tree.memtable == []
      ensures !ok ==> GoesOnWithout(lost.value, Overwritten(old(Loads()), key, None), Loads())
      ensures old(Valid()) && ok ==> SameReadings(Reads(), if accepted then Updated(old(Reads()), key, None)
                                                  else old(Reads()))
      ensures old(Valid()) && !ok ==> OpensTo(tree.config.runsAt, tree.disk, threshold.Some?, log.file,
                                              Updated(old(Reads()), key, None))
      ensures |old(tree.trace)| <= |tree.trace| && tree.trace[..|old(tree.trace)|] == old(tree.trace)
      ensures old(Valid()) ==>
                AllOpenTo(tree.config.runsAt, tree.trace, |old(tree.trace)|, threshold.Some?, log.file,
                          Updated(old(Reads()), key, None))
    {
      hide LsmTree.Valid, LsmTree.Usable, SafePlanner, Lacks, LoadValue, OpensTo, AllOpenTo, LoadAs, Updated, GoesOn,
           GoesOnWithout, Overwritten, LoadsOf, SameReadings;
      accepted, ok, lost := Write(key, Tombstone, None, planner, trials);
    }
  }

  lemma UpdatedAlike(a: Readings, b: Readings, key: Key, value: Option<seq<byte>>)
    requires SameReadings(a, b)
    ensures SameReadings(Updated(a, key, value), Updated(b, key, value))
  {}

  lemma SameReadingsTwice(a: Readings, b: Readings, c: Readings)
    ensures SameReadings(a, b) && SameReadings(b, c) ==> SameReadings(a, c)
  {}

  lemma OpensToSame(runsAt: nat -> nat, disk: Disk, separated: bool, bytes: seq<byte>, a: Readings, b: Readings)
    requires SameReadings(a, b)
    ensures OpensTo(runsAt, disk, separated, bytes, a) ==> OpensTo(runsAt, disk, separated, bytes, b)
  {
    hide Recovers, ReadTree, Loaded, IntactFrom;
    if OpensTo(runsAt, disk, separated, bytes, a) {
      var memtable: seq<Entry>, levels: Levels :|
        Recovers(runsAt, disk, memtable, levels)
          && LoadAs(separated, bytes[..IntactFrom(bytes, 0)], memtable, levels, a);
      assert LoadAs(separated, bytes[..IntactFrom(bytes, 0)], memtable, levels, b);
    }
  }

  lemma AllOpenToSame(runsAt: nat -> nat, trace: seq<Disk>, n: nat, separated: bool, bytes: seq<byte>, a: Readings,
                      b: Readings)
    requires SameReadings(a, b) && AllOpenTo(runsAt, trace, n, separated, bytes, a)
    ensures AllOpenTo(runsAt, trace, n, separated, bytes, b)
  {
    hide OpensTo, SameReadings;
    forall i | n <= i < |trace| ensures OpensTo(runsAt, trace[i], separated, bytes, b) {
      OpensToSame(runsAt, trace[i], separated, bytes, a, b);
    }
  }

  lemma NothingOpens(runsAt: nat -> nat, trace: seq<Disk>, separated: bool, bytes: seq<byte>, readings: Readings)
    ensures AllOpenTo(runsAt, trace, |trace|, separated, bytes, readings)
  {}

  /** What a scan from this start shows of a key. */
  function Shown(start: Key, view: Option<seq<byte>>, key: Key): Option<Value> {
    if Less(key, start) || view.None? then None else Some(Value.Put(view.value))
  }

  lemma RangeShows(memtable: seq<Entry>, levels: Levels, start: Key)
    requires Ascending(memtable) && SoundLevels(levels)
    ensures var scanned := From(LsmTrees.Iter(memtable, levels), start);
            && Ascending(scanned)
            && forall key: Key :: Lookup(scanned, key) == Shown(start, Visible(ReadTree(memtable, levels, key)), key)
  {
    hide ReadTree, Lookup, Ascending, LsmTrees.Iter, From, Less, SoundLevels;
    var all := LsmTrees.Iter(memtable, levels);
    IterAgreesWithGet(memtable, levels, []);
    FromAscends(all, start);
    forall key: Key
      ensures Lookup(From(all, start), key) == Shown(start, Visible(ReadTree(memtable, levels, key)), key)
    {
      IterAgreesWithGet(memtable, levels, key);
      LookupFrom(all, start, key);
      ScanHoldsVisible(Lookup(all, key), ReadTree(memtable, levels, key));
    }
  }

  lemma LoadedAsValue(separated: bool, file: seq<byte>, stored: seq<byte>)
    ensures Loaded(separated, file, Some(stored)).Ok? ==> Loaded(separated, file, Some(stored)).value.Some?
  {
    hide LoadValue;
  }

  lemma NothingLoads(separated: bool, file: seq<byte>)
    ensures Loaded(separated, file, None) == Ok(None)
  {}

  lemma LoadedScan(scanned: seq<Entry>, out: seq<Entry>, start: Key, separated: bool, file: seq<byte>,
                   memtable: seq<Entry>, levels: Levels)
    requires Ascending(scanned) && |out| == |scanned|
    requires forall key: Key :: Lookup(scanned, key) == Shown(start, Visible(ReadTree(memtable, levels, key)), key)
    requires forall j :: 0 <= j < |out| ==>
               && out[j].key == scanned[j].key && out[j].value.Put?
               && LoadsOf(separated, file, memtable, levels)(out[j].key) == Ok(Some(out[j].value.bytes))
    ensures Scans(out, start, LoadsOf(separated, file, memtable, levels))
            && AllLoad(start, LoadsOf(separated, file, memtable, levels))
  {
    hide ReadTree, Lookup, Loaded, Less;
    var loads := LoadsOf(separated, file, memtable, levels);
    forall i, j | 0 <= i < j < |out|
      ensures Less(out[i].key, out[j].key)
    {
      assert Less(scanned[i].key, scanned[j].key);
    }
    forall key: Key
      ensures Lookup(out, key) != Some(Tombstone)
      ensures if Less(key, start) then Lookup(out, key) == None else loads(key) == Ok(Visible(Lookup(out, key)))
    {
      NothingLoads(separated, file);
      LookupIsMember(scanned, key);
      LookupIsMember(out, key);
      assert HasKey(out, key) <==> HasKey(scanned, key) by { SameKeys(scanned, out, key); }
      if Lookup(out, key).Some? {
        var i :| 0 <= i < |out| && out[i].key == key;
        assert Lookup(out, key) == Some(out[i].value);
      }
    }
  }

  lemma SameKeys(a: seq<Entry>, b: seq<Entry>, key: Key)
    requires |a| == |b| && forall i :: 0 <= i < |a| ==> a[i].key == b[i].key
    ensures HasKey(a, key) <==> HasKey(b, key)
  {
    if HasKey(a, key) {
      var i :| 0 <= i < |a| && a[i].key == key;
      assert b[i].key == key;
    }
    if HasKey(b, key) {
      var i :| 0 <= i < |b| && b[i].key == key;
      assert a[i].key == key;
    }
  }

  /** What loads goes on loading as the log grows. */
  lemma GrownLoads(separated: bool, file: seq<byte>, grown: seq<byte>, memtable: seq<Entry>, levels: Levels)
    requires file <= grown
    ensures GoesOn(LoadsOf(separated, file, memtable, levels), LoadsOf(separated, grown, memtable, levels))
  {
    hide ReadTree, Loaded;
    var before := LoadsOf(separated, file, memtable, levels);
    assert grown == file + grown[|file|..];
    forall key: Key | before(key).Ok? ensures LoadsOf(separated, grown, memtable, levels)(key) == before(key) {
      LoadedStays(separated, file, grown[|file|..], Visible(ReadTree(memtable, levels, key)));
    }
  }

  lemma StoredLoads(separated: bool, file: seq<byte>, value: seq<byte>, stored: seq<byte>)
    requires forall later :: LoadValue(separated, file + later, stored) == Ok(value)
    ensures Loaded(separated, file, Some(stored)) == Ok(Some(value))
  {
    hide LoadValue;
    assert file + [] == file;
    assert LoadValue(separated, file + [], stored) == Ok(value);
  }

  /** What the tree answers decides what loads. */
  lemma ViewsGoOn(separated: bool, file: seq<byte>, m0: seq<Entry>, l0: Levels, memtable: seq<Entry>, levels: Levels,
                  key: Key, value: Option<seq<byte>>, stored: Option<seq<byte>>, accepted: bool, lost: Option<Loss>)
    requires Loaded(separated, file, stored) == Ok(value)
             && Shows(m0, l0, memtable, levels, key, stored, accepted, lost)
    ensures var before, after := LoadsOf(separated, file, m0, l0), LoadsOf(separated, file, memtable, levels);
            && (!accepted && lost.None? ==> GoesOn(before, after))
            && (accepted && lost.None? ==> GoesOn(Overwritten(before, key, value), after))
            && (accepted && lost.Some? ==> GoesOnWithout(lost.value, Overwritten(before, key, value), after))
  {
    hide ReadTree, Loaded, Forgets;
  }

  lemma GoesOnTwice(a: Loads, b: Loads, c: Loads, key: Key, value: Option<seq<byte>>)
    requires GoesOn(a, b)
    ensures GoesOn(b, c) ==> GoesOn(a, c)
    ensures GoesOn(Overwritten(b, key, value), c) ==> GoesOn(Overwritten(a, key, value), c)
    ensures forall loss: Loss ::
              GoesOnWithout(loss, Overwritten(b, key, value), c) ==> GoesOnWithout(loss, Overwritten(a, key, value), c)
  {
    hide Forgets;
    assert GoesOn(Overwritten(a, key, value), Overwritten(b, key, value));
  }

  /** A failed compaction leaves the directory with the readings from after the write. */
  lemma FailedOpens(tree: LsmTree, separated: bool, file: seq<byte>, values: seq<seq<byte>>, wrote: seq<Entry>,
                    into: Levels, readings: Readings)
    requires tree.Usable() && SameAnswers(tree.memtable, tree.held, wrote, into)
    requires LoadAs(separated, file, wrote, into, readings) && file == LogOf(values) && AllFit(values)
    ensures OpensTo(tree.config.runsAt, tree.disk, separated, file, readings)
  {
    hide LsmTree.Usable, SameAnswers, LoadAs, Recovers, LogOf, AllFit, IntactFrom;
    UsableRecovers(tree);
    WholeLogIsIntact(values);
    LoadAsCarries(separated, file, wrote, into, tree.memtable, tree.held, readings);
  }

  lemma ValidAscends(tree: LsmTree)
    requires tree.Valid()
    ensures tree.Usable() && tree.held == tree.levels && Ascending(tree.memtable)
    ensures Recovers(tree.config.runsAt, tree.disk, tree.memtable, tree.levels)
  {
    hide Holds, Ascending, Tamed, Recovers;
    ValidRecovers(tree);
  }

  /** The tree as it was, over any cut of the log behind what it was. */
  lemma GrownLogOpens(runsAt: nat -> nat, separated: bool, disk: Disk, memtable: seq<Entry>, levels: Levels,
                      file: seq<byte>, values: seq<seq<byte>>, grown: seq<byte>, later: seq<seq<byte>>,
                      readings: Readings)
    requires Recovers(runsAt, disk, memtable, levels) && LoadAs(separated, file, memtable, levels, readings)
    requires file == LogOf(values) && grown == LogOf(later) && values <= later && file <= grown && AllFit(later)
    ensures LoadAs(separated, grown, memtable, levels, readings)
    ensures forall n :: |file| <= n <= |grown| ==> OpensTo(runsAt, disk, separated, grown[..n], readings)
  {
    hide LoadAs, LogOf, AllFit, IntactFrom, Recovers;
    assert later[..|values|] == values;
    LoadAsStays(separated, file, grown, memtable, levels, readings);
    forall n | |file| <= n <= |grown| ensures OpensTo(runsAt, disk, separated, grown[..n], readings) {
      CutKeepsRecords(later, |values|, n);
      LoadAsStays(separated, file, grown[..n][..IntactFrom(grown[..n], 0)], memtable, levels, readings);
    }
  }

  /** With a record written, its key loads as the record's value. */
  lemma WrittenLoads(separated: bool, file: seq<byte>, memtable: seq<Entry>, levels: Levels, readings: Readings,
                     key: Key, payload: Value, value: Option<seq<byte>>)
    requires LoadAs(separated, file, memtable, levels, readings) && Ascending(memtable)
    requires Loaded(separated, file, Visible(Some(payload))) == Ok(value)
    ensures LoadAs(separated, file, MemTables.Insert(memtable, Entry(key, payload)), levels,
                   Updated(readings, key, value))
  {
    hide ReadTree, Loaded, MemTables.Insert, Ascending;
    WriteAnswers(memtable, levels, Entry(key, payload));
  }

  /** Every step of the write opens to the new readings. */
  lemma StepsOpen(runsAt: nat -> nat, separated: bool, trace: seq<Disk>, n: nat, file: seq<byte>,
                  values: seq<seq<byte>>, memtable: seq<Entry>, levels: Levels, readings: Readings)
    requires CrashSafe(runsAt, trace, n, memtable, levels, levels)
             && LoadAs(separated, file, memtable, levels, readings)
    requires file == LogOf(values) && AllFit(values)
    ensures AllOpenTo(runsAt, trace, n, separated, file, readings)
  {
    WholeLogIsIntact(values);
    hide LoadAs, Recovers, LogOf, AllFit, IntactFrom;
  }

  lemma ViewsLoad(separated: bool, file: seq<byte>, m0: seq<Entry>, l0: Levels, memtable: seq<Entry>, levels: Levels,
                  readings: Readings, key: Key, value: Option<seq<byte>>, stored: Option<seq<byte>>, written: bool)
    requires LoadAs(separated, file, m0, l0, readings) && Loaded(separated, file, stored) == Ok(value)
    requires Shows(m0, l0, memtable, levels, key, stored, written, None)
    ensures LoadAs(separated, file, memtable, levels, if written then Updated(readings, key, value) else readings)
  {
    hide ReadTree, Loaded, Forgets;
  }

  lemma ValidRecovers(tree: LsmTree)
    requires tree.Valid()
    ensures Recovers(tree.config.runsAt, tree.disk, tree.memtable, tree.levels)
  {
    hide Stands, Committable, Replay, Ascending, ReadTree, Tamed;
    StandsAtOnce(tree.levels, tree.memtable);
  }

  lemma UsableAscends(tree: LsmTree)
    requires tree.Usable()
    ensures Ascending(tree.memtable) && SoundLevels(tree.levels)
  {
    hide Ascending, Tamed, Replay;
    HoldsSound(tree.disk, tree.held, tree.heldNext, tree.levels, tree.nextSequence);
  }

  lemma LoadAsCarries(separated: bool, file: seq<byte>, m1: seq<Entry>, l1: Levels, m2: seq<Entry>, l2: Levels,
                      readings: Readings)
    requires LoadAs(separated, file, m1, l1, readings) && SameAnswers(m2, l2, m1, l1)
    ensures LoadAs(separated, file, m2, l2, readings)
  {
    hide ReadTree, Loaded;
  }

  lemma ReadsAsLoaded(t: SeparatedTree, readings: Readings)
    requires LoadAs(t.threshold.Some?, t.log.file, t.tree.memtable, t.tree.levels, readings)
    ensures LoadAs(t.threshold.Some?, t.log.file, t.tree.memtable, t.tree.levels, t.Reads())
    ensures SameReadings(t.Reads(), readings)
  {
    hide ReadTree, Loaded;
  }
}
