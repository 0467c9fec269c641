/** Folding runs whose key ranges are disjoint into one run (src/storage/lsm.rs). */
module Coalescing {
  import opened Octets
  import opened Bytes
  import opened SortedEntries
  import opened Sorting
  import opened LsmTrees
  import SSTables

  datatype Range = Range(min: Key, max: Key)

  predicate HasRange(run: Run) {
    |run.tables| > 0 && |run.tables[0].entries| > 0 && |run.tables[|run.tables| - 1].entries| > 0
  }

  function RangeOf(run: Run): Range
    requires HasRange(run)
  {
    Range(run.tables[0].MinKey(), run.tables[|run.tables| - 1].MaxKey())
  }

  function RangesOf(runs: seq<Run>): (r: seq<Range>)
    requires forall i :: 0 <= i < |runs| ==> HasRange(runs[i])
    ensures |r| == |runs|
  {
    seq(|runs|, i requires 0 <= i < |runs| => RangeOf(runs[i]))
  }

  predicate RangeLe(a: Range, b: Range) { AtMost(a.min, b.min) }

  /** Each range ends before the next begins. */
  predicate Separated(ranges: seq<Range>) {
    forall i :: 0 <= i < |ranges| - 1 ==> Less(ranges[i].max, ranges[i + 1].min)
  }

  function AllTables(runs: seq<Run>): seq<TableFile> {
    if |runs| == 0 then [] else runs[0].tables + AllTables(runs[1..])
  }

  function FirstKey(t: TableFile): Key {
    if |t.entries| > 0 then t.MinKey() else []
  }

  predicate TableLe(a: TableFile, b: TableFile) { AtMost(FirstKey(a), FirstKey(b)) }

  function NewestSequence(runs: seq<Run>): nat {
    if |runs| == 0 then 0
    else if runs[0].sequence > NewestSequence(runs[1..]) then runs[0].sequence else NewestSequence(runs[1..])
  }

  function TotalUnits(runs: seq<Run>): nat {
    if |runs| == 0 then 0 else runs[0].units + TotalUnits(runs[1..])
  }

  /** The runs of a level after coalescing: one run when their ranges are disjoint, else as they were. */
  function Coalesce(runs: seq<Run>): seq<Run> {
    if |runs| <= 1 || !(forall i :: 0 <= i < |runs| ==> HasRange(runs[i])) then runs
    else if !Separated(SortBy(RangesOf(runs), RangeLe)) then runs
    else
      var units := TotalUnits(runs);
      [Run(NewestSequence(runs), SortBy(AllTables(runs), TableLe), if units > 1 then units else 1)]
  }

  // ---------------------------------------------------------------------
  // Orders
  // ---------------------------------------------------------------------

  lemma AtMostIsOrder(a: Key, b: Key, c: Key)
    ensures AtMost(a, b) || AtMost(b, a)
    ensures AtMost(a, b) && AtMost(b, c) ==> AtMost(a, c)
    ensures Less(a, b) && AtMost(b, c) ==> Less(a, c)
    ensures AtMost(a, b) && Less(b, c) ==> Less(a, c)
    ensures Less(a, b) ==> !AtMost(b, a)
  {
    LessTotal(a, b);
    LessTotal(b, c);
    LessTotal(a, c);
    if Less(a, b) { LessAsymmetric(a, b); }
    if Less(c, a) && a != b && AtMost(a, b) { LessTransitive(c, a, b); }
    if Less(a, b) && b != c && AtMost(b, c) { LessTransitive(a, b, c); }
    if Less(b, c) && a != b && AtMost(a, b) { LessTransitive(a, b, c); }
  }

  lemma KeyOrders()
    ensures TotalPreorder(RangeLe) && TotalPreorder(TableLe)
  {
    hide AtMost, Less;
    forall x, y, z ensures (RangeLe(x, y) || RangeLe(y, x)) && (RangeLe(x, y) && RangeLe(y, z) ==> RangeLe(x, z)) {
      AtMostIsOrder(x.min, y.min, z.min);
    }
    forall x, y, z ensures (TableLe(x, y) || TableLe(y, x)) && (TableLe(x, y) && TableLe(y, z) ==> TableLe(x, z)) {
      AtMostIsOrder(FirstKey(x), FirstKey(y), FirstKey(z));
    }
  }

  // ---------------------------------------------------------------------
  // Ranges
  // ---------------------------------------------------------------------

  predicate RangesApart(a: Range, b: Range) {
    Less(a.max, b.min) || Less(b.max, a.min)
  }

  lemma {:induction false} SeparatedIsPairwise(ranges: seq<Range>)
    requires Separated(ranges) && forall i :: 0 <= i < |ranges| ==> AtMost(ranges[i].min, ranges[i].max)
    ensures Pairwise(ranges, RangesApart)
    ensures |ranges| > 0 ==> forall y :: y in ranges[1..] ==> Less(ranges[0].max, y.min)
  {
    hide Less, AtMost;
    if |ranges| > 1 {
      var rest := ranges[1..];
      forall i | 0 <= i < |rest| - 1 ensures Less(rest[i].max, rest[i + 1].min) {
        assert Less(ranges[i + 1].max, ranges[i + 2].min);
      }
      SeparatedIsPairwise(rest);
      forall y | y in rest ensures Less(ranges[0].max, y.min) {
        if y != rest[0] {
          AtMostIsOrder(ranges[0].max, rest[0].min, rest[0].max);
          AtMostIsOrder(ranges[0].max, rest[0].max, y.min);
          LessTransitive(ranges[0].max, rest[0].max, y.min);
        }
      }
    }
  }

  lemma RangeIsOrdered(run: Run)
    requires HasRange(run) && Sound(run.tables)
    ensures AtMost(RangeOf(run).min, RangeOf(run).max)
    ensures forall t :: t in run.tables ==>
              |t.entries| > 0 && AtMost(RangeOf(run).min, t.MinKey()) && AtMost(t.MaxKey(), RangeOf(run).max)
  {
    TablesWithin(run.tables);
    TableIsOrdered(run.tables[0]);
    assert run.tables[0] in run.tables;
    hide Less, AtMost, Sound;
    AtMostIsOrder(RangeOf(run).min, run.tables[0].MaxKey(), RangeOf(run).max);
  }

  lemma TableIsOrdered(t: TableFile)
    requires |t.entries| > 0 && Ascending(t.entries)
    ensures AtMost(t.MinKey(), t.MaxKey())
  {
    LessIrreflexive(t.MinKey());
    if |t.entries| > 1 { LessAsymmetric(t.MinKey(), t.MaxKey()); }
  }

  lemma {:induction false} TablesWithin(tables: seq<TableFile>)
    requires Sound(tables) && |tables| > 0
    ensures forall t :: t in tables ==> |t.entries| > 0 && Ascending(t.entries)
    ensures forall t :: t in tables ==>
              |t.entries| > 0 && |tables[0].entries| > 0 && AtMost(tables[0].MinKey(), t.MinKey())
    ensures forall t :: t in tables ==> |t.entries| > 0 && |tables[|tables| - 1].entries| > 0
                                        && AtMost(t.MaxKey(), tables[|tables| - 1].MaxKey())
    ensures Pairwise(tables, TablesApart)
  {
    hide Less, Ascending;
    SoundTail(tables);
    var first, rest := tables[0], tables[1..];
    LessIrreflexive(first.MinKey());
    LessIrreflexive(first.MaxKey());
    if |rest| > 0 {
      TablesWithin(rest);
      forall t | t in rest
        ensures Less(first.MaxKey(), t.MinKey()) && Less(first.MinKey(), t.MinKey()) && Less(first.MaxKey(), t.MaxKey())
      {
        FirstBelow(tables, t);
      }
      var last := tables[|tables| - 1];
      assert last == rest[|rest| - 1];
      forall t | t in tables ensures AtMost(first.MinKey(), t.MinKey()) && AtMost(t.MaxKey(), last.MaxKey()) {
        assert t == first || t in rest;
        if t == first {
          LessAsymmetric(first.MaxKey(), last.MaxKey());
        } else {
          LessAsymmetric(first.MinKey(), t.MinKey());
        }
      }
      assert forall t :: t in tables ==> t == first || t in rest;
    }
  }

  /** Every later table of a run starts after the first one ends. */
  lemma FirstBelow(tables: seq<TableFile>, t: TableFile)
    requires Sound(tables) && |tables| > 0 && t in tables[1..] && |t.entries| > 0 && |tables[0].entries| > 0
    ensures Less(tables[0].MaxKey(), t.MinKey()) && Less(tables[0].MinKey(), t.MinKey())
            && Less(tables[0].MaxKey(), t.MaxKey())
  {
    hide Less;
    SoundTail(tables);
    EntriesOfMember(tables[1..], t, t.entries[0]);
    EntriesOfMember(tables[1..], t, t.entries[|t.entries| - 1]);
    var rest := EntriesOf(tables[1..]);
    var i :| 0 <= i < |rest| && rest[i] == t.entries[0];
    var j :| 0 <= j < |rest| && rest[j] == t.entries[|t.entries| - 1];
  }

  lemma {:induction false} EntriesOfMember(tables: seq<TableFile>, t: TableFile, e: Entry)
    requires t in tables && e in t.entries
    ensures e in EntriesOf(tables)
  {
    PartsTail(tables);
    if t != tables[0] {
      assert t in tables[1..];
      EntriesOfMember(tables[1..], t, e);
    }
  }

  lemma {:induction false} EntriesOfComeFrom(tables: seq<TableFile>, e: Entry) returns (t: TableFile)
    requires e in EntriesOf(tables)
    ensures t in tables && e in t.entries
  {
    HasParts(tables, e);
    PartsTail(tables);
    if e in tables[0].entries {
      t := tables[0];
    } else {
      t := EntriesOfComeFrom(tables[1..], e);
    }
  }

  lemma HasParts(tables: seq<TableFile>, e: Entry)
    requires e in EntriesOf(tables)
    ensures |tables| > 0
  {}

  predicate TablesApart(a: TableFile, b: TableFile) {
    |a.entries| > 0 && |b.entries| > 0 && (Less(a.MaxKey(), b.MinKey()) || Less(b.MaxKey(), a.MinKey()))
  }

  // ---------------------------------------------------------------------
  // Sorting disjoint tables gives a run
  // ---------------------------------------------------------------------

  /** Every table by itself is a table. */
  ghost predicate AllProper(tables: seq<TableFile>) {
    forall t :: t in tables ==> |t.entries| > 0 && Ascending(t.entries)
  }

  lemma SortedTail(tables: seq<TableFile>)
    requires Sorted(tables, TableLe) && |tables| > 0
    ensures Sorted(tables[1..], TableLe) && forall t :: t in tables[1..] ==> TableLe(tables[0], t)
  {
    forall t | t in tables[1..] ensures TableLe(tables[0], t) {
      var i :| 0 <= i < |tables[1..]| && tables[1..][i] == t;
      assert tables[i + 1] == t;
    }
  }

  lemma {:induction false} SortedApartIsSound(tables: seq<TableFile>)
    requires Sorted(tables, TableLe) && Pairwise(tables, TablesApart) && AllProper(tables)
    ensures Sound(tables)
  {
    hide Less, AtMost, Ascending, Sound, Below, EntriesOf;
    if |tables| == 0 {
      NothingIsSound();
    } else {
      var first, rest := tables[0], tables[1..];
      SortedTail(tables);
      SortedApartIsSound(rest);
      forall t | t in rest ensures Below(first.entries, t.entries) {
        assert TablesApart(first, t) && TableLe(first, t);
        OrderedApart(first, t);
      }
      FirstBelowAll(first, rest);
      SoundCons(first, rest);
      assert tables == [first] + rest;
    }
  }

  lemma NothingIsSound()
    ensures Sound([])
  {}

  lemma OrderedApart(a: TableFile, b: TableFile)
    requires TablesApart(a, b) && TableLe(a, b) && Ascending(a.entries) && Ascending(b.entries)
    ensures Below(a.entries, b.entries)
  {
    hide Less, AtMost;
    TableIsOrdered(b);
    AtMostIsOrder(b.MaxKey(), a.MinKey(), b.MinKey());
    AtMostIsOrder(b.MinKey(), b.MaxKey(), a.MinKey());
    AtMostIsOrder(a.MinKey(), b.MinKey(), b.MaxKey());
    assert Less(a.MaxKey(), b.MinKey());
    forall i, j | 0 <= i < |a.entries| && 0 <= j < |b.entries| ensures Less(a.entries[i].key, b.entries[j].key) {
      if i < |a.entries| - 1 { LessTransitive(a.entries[i].key, a.MaxKey(), b.MinKey()); }
      if j > 0 { LessTransitive(a.entries[i].key, b.MinKey(), b.entries[j].key); }
    }
  }

  lemma FirstBelowAll(first: TableFile, rest: seq<TableFile>)
    requires forall t :: t in rest ==> Below(first.entries, t.entries)
    ensures Below(first.entries, EntriesOf(rest))
  {
    hide Less, EntriesOf;
    var all := EntriesOf(rest);
    forall i, j | 0 <= i < |first.entries| && 0 <= j < |all| ensures Less(first.entries[i].key, all[j].key) {
      var t := EntriesOfComeFrom(rest, all[j]);
      var k :| 0 <= k < |t.entries| && t.entries[k] == all[j];
      assert Below(first.entries, t.entries);
    }
  }

  lemma SoundCons(first: TableFile, rest: seq<TableFile>)
    requires Sound(rest) && |first.entries| > 0 && Ascending(first.entries) && Below(first.entries, EntriesOf(rest))
    ensures Sound([first] + rest)
  {
    hide Less, Ascending, Below;
    var tables := [first] + rest;
    PartsTail(tables);
    assert tables[1..] == rest;
    assert EntriesOf(tables) == first.entries + EntriesOf(rest);
    AscendingJoin(first.entries, EntriesOf(rest));
    forall i | 0 <= i < |tables| ensures |Parts(tables)[i]| > 0 {
      if i > 0 { assert Parts(tables)[i] == Parts(rest)[i - 1]; }
    }
  }

  // ---------------------------------------------------------------------
  // All tables of a separated level
  // ---------------------------------------------------------------------

  lemma {:induction false} AllTablesMembers(runs: seq<Run>, t: TableFile)
    ensures t in AllTables(runs) <==> exists i :: 0 <= i < |runs| && t in runs[i].tables
  {
    if |runs| != 0 {
      AllTablesMembers(runs[1..], t);
      if t in AllTables(runs[1..]) {
        var i :| 0 <= i < |runs[1..]| && t in runs[1..][i].tables;
        assert runs[i + 1] == runs[1..][i];
      }
      if i :| 0 <= i < |runs| && t in runs[i].tables {
        if i > 0 { assert runs[1..][i - 1] == runs[i]; }
      }
    }
  }

  lemma ApartRangesApartTables(a: Run, b: Run, t: TableFile, u: TableFile)
    requires HasRange(a) && HasRange(b) && Sound(a.tables) && Sound(b.tables) && RangesApart(RangeOf(a), RangeOf(b))
    requires t in a.tables && u in b.tables
    ensures TablesApart(t, u)
  {
    RangeIsOrdered(a);
    RangeIsOrdered(b);
    hide Less, AtMost, Sound, HasRange;
    var x, y := RangeOf(a), RangeOf(b);
    AtMostIsOrder(t.MaxKey(), x.max, y.min);
    AtMostIsOrder(t.MaxKey(), y.min, u.MinKey());
    AtMostIsOrder(u.MaxKey(), y.max, x.min);
    AtMostIsOrder(u.MaxKey(), x.min, t.MinKey());
    AtMostIsOrder(x.max, y.min, u.MinKey());
    AtMostIsOrder(y.max, x.min, t.MinKey());
  }

  lemma {:induction false} AllTablesApart(runs: seq<Run>)
    requires SoundRuns(runs) && (forall i :: 0 <= i < |runs| ==> HasRange(runs[i]))
             && Pairwise(RangesOf(runs), RangesApart)
    ensures Pairwise(AllTables(runs), TablesApart) && AllProper(AllTables(runs))
  {
    hide Less, AtMost, Ascending, Sound, HasRange, RangesApart, TablesApart;
    if |runs| != 0 {
      var first, rest := runs[0], runs[1..];
      assert RangesOf(runs)[1..] == RangesOf(rest);
      AllTablesApart(rest);
      FirstRun(runs);
      forall t, u | t in first.tables && u in AllTables(rest) ensures TablesApart(t, u) {
        AllTablesMembers(rest, u);
        var i :| 0 <= i < |rest| && u in rest[i].tables;
        assert RangesOf(rest)[i] in RangesOf(runs)[1..];
        assert Sound(rest[i].tables);
        ApartRangesApartTables(first, rest[i], t, u);
      }
      PairwiseConcat(first.tables, AllTables(rest), TablesApart);
      assert forall t :: t in AllTables(runs) <==> t in first.tables || t in AllTables(rest);
    }
  }

  lemma FirstRun(runs: seq<Run>)
    requires SoundRuns(runs) && |runs| > 0 && HasRange(runs[0])
    ensures Pairwise(runs[0].tables, TablesApart) && AllProper(runs[0].tables) && Sound(runs[0].tables)
  {
    assert Sound(runs[0].tables);
    hide Sound;
    TablesWithin(runs[0].tables);
  }

  /** The folded tables are one sound run over the same tables. */
  lemma FoldedIsSound(runs: seq<Run>)
    requires SoundRuns(runs) && (forall i :: 0 <= i < |runs| ==> HasRange(runs[i]))
    requires Separated(SortBy(RangesOf(runs), RangeLe))
    ensures Sound(SortBy(AllTables(runs), TableLe))
    ensures forall t :: t in SortBy(AllTables(runs), TableLe) <==> t in AllTables(runs)
  {
    hide Less, AtMost, Sound, HasRange, Separated, Pairwise, AllTables, SoundRuns, TableLe, RangeLe, TablesApart;
    var ranges, tables := RangesOf(runs), AllTables(runs);
    KeyOrders();
    RangesAreOrdered(runs);
    SortKeepsElements(ranges, RangeLe);
    SameElements(SortBy(ranges, RangeLe), ranges);
    forall i | 0 <= i < |SortBy(ranges, RangeLe)|
      ensures AtMost(SortBy(ranges, RangeLe)[i].min, SortBy(ranges, RangeLe)[i].max)
    {
      assert SortBy(ranges, RangeLe)[i] in ranges;
    }
    SeparatedIsPairwise(SortBy(ranges, RangeLe));
    SymmetricApart();
    SortKeepsPairwise(ranges, RangeLe, RangesApart);
    AllTablesApart(runs);
    SortKeepsPairwise(tables, TableLe, TablesApart);
    SortKeepsElements(tables, TableLe);
    SameElements(SortBy(tables, TableLe), tables);
    SortOrders(tables, TableLe);
    SortedApartIsSound(SortBy(tables, TableLe));
  }

  lemma SymmetricApart()
    ensures Symmetric(RangesApart) && Symmetric(TablesApart)
  {
    hide Less;
  }

  lemma RangesAreOrdered(runs: seq<Run>)
    requires SoundRuns(runs) && forall i :: 0 <= i < |runs| ==> HasRange(runs[i])
    ensures forall x :: x in RangesOf(runs) ==> AtMost(x.min, x.max)
  {
    hide AtMost, Sound, HasRange;
    forall x | x in RangesOf(runs) ensures AtMost(x.min, x.max) {
      var i :| 0 <= i < |runs| && RangesOf(runs)[i] == x;
      assert Sound(runs[i].tables);
      RangeIsOrdered(runs[i]);
    }
  }

  // ---------------------------------------------------------------------
  // Folding answers as before
  // ---------------------------------------------------------------------

  lemma {:induction false} ReadRunsFinds(runs: seq<Run>, key: Key)
    requires SoundRuns(runs)
    ensures ReadRuns(runs, key).Some? ==> exists i ::
              0 <= i < |runs| && Entry(key, ReadRuns(runs, key).value) in EntriesOf(runs[i].tables)
    ensures ReadRuns(runs, key).None? ==> forall i :: 0 <= i < |runs| ==> Lookup(EntriesOf(runs[i].tables), key).None?
  {
    hide EntriesOf, Lookup;
    if |runs| != 0 {
      var first := EntriesOf(runs[0].tables);
      ReadRunsFinds(runs[1..], key);
      if Lookup(first, key).Some? {
        FoundEntry(runs[0].tables, key);
      } else if ReadRuns(runs[1..], key).Some? {
        var i :| 0 <= i < |runs[1..]| && Entry(key, ReadRuns(runs[1..], key).value) in EntriesOf(runs[1..][i].tables);
        assert runs[i + 1] == runs[1..][i];
      } else {
        forall i | 0 <= i < |runs| ensures Lookup(EntriesOf(runs[i].tables), key).None? {
          if i > 0 { assert runs[1..][i - 1] == runs[i]; }
        }
      }
    }
  }

  lemma FoundEntry(tables: seq<TableFile>, key: Key)
    requires Sound(tables)
    ensures Lookup(EntriesOf(tables), key).Some?
            ==> Entry(key, Lookup(EntriesOf(tables), key).value) in EntriesOf(tables)
  {
    var entries := EntriesOf(tables);
    LookupIsMember(entries, key);
    if Lookup(entries, key).Some? {
      var i :| 0 <= i < |entries| && entries[i].key == key;
      assert entries[i] == Entry(key, Lookup(entries, key).value);
    }
  }

  lemma MemberIsFound(tables: seq<TableFile>, e: Entry)
    requires Sound(tables) && e in EntriesOf(tables)
    ensures Lookup(EntriesOf(tables), e.key) == Some(e.value)
  {
    var entries := EntriesOf(tables);
    var i :| 0 <= i < |entries| && entries[i] == e;
    LookupIsMember(entries, e.key);
  }

  /** Coalescing changes no answer and keeps runs sound, whether it folds or not. */
  lemma CoalesceKeepsReads(runs: seq<Run>, key: Key)
    requires SoundRuns(runs)
    ensures SoundRuns(Coalesce(runs)) && ReadRuns(Coalesce(runs), key) == ReadRuns(runs, key)
  {
    hide EntriesOf, Lookup, Sound, HasRange, Separated, SortBy, AllTables, AtMost;
    if Coalesce(runs) != runs {
      var folded := SortBy(AllTables(runs), TableLe);
      FoldedIsSound(runs);
      OneRun(Coalesce(runs), key);
      ReadRunsFinds(runs, key);
      if ReadRuns(runs, key).Some? {
        var e := Entry(key, ReadRuns(runs, key).value);
        var i :| 0 <= i < |runs| && e in EntriesOf(runs[i].tables);
        var t := EntriesOfComeFrom(runs[i].tables, e);
        AllTablesMembers(runs, t);
        EntriesOfMember(folded, t, e);
        MemberIsFound(folded, e);
      } else {
        FoundEntry(folded, key);
        if Lookup(EntriesOf(folded), key).Some? {
          var e := Entry(key, Lookup(EntriesOf(folded), key).value);
          var t := EntriesOfComeFrom(folded, e);
          AllTablesMembers(runs, t);
          var i :| 0 <= i < |runs| && t in runs[i].tables;
          EntriesOfMember(runs[i].tables, t, e);
          assert Sound(runs[i].tables);
          MemberIsFound(runs[i].tables, e);
          assert false;
        }
      }
    }
  }

  lemma OneRun(runs: seq<Run>, key: Key)
    requires |runs| == 1
    ensures ReadRuns(runs, key) == Lookup(EntriesOf(runs[0].tables), key)
  {
    hide EntriesOf, Lookup;
    assert ReadRuns(runs[1..], key) == None;
  }
}
