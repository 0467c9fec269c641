/** The in-memory write buffer (src/storage/memtable.rs). The ordered map is its ascending list of entries. */
module MemTables {
  import opened Octets
  import opened Bytes
  import opened SortedEntries

  const ENTRY_OVERHEAD_BYTES: nat := 24

  function Charge(e: Entry): nat {
    ENTRY_OVERHEAD_BYTES + |e.key| + |e.value.Payload()|
  }

  function TotalCharge(entries: seq<Entry>): nat {
    if |entries| == 0 then 0 else Charge(entries[0]) + TotalCharge(entries[1..])
  }

  /** Insert or overwrite in key order. */
  function Insert(entries: seq<Entry>, e: Entry): (r: seq<Entry>)
    ensures |r| > 0
  {
    if |entries| == 0 || Less(e.key, entries[0].key) then [e] + entries
    else if entries[0].key == e.key then [e] + entries[1..]
    else [entries[0]] + Insert(entries[1..], e)
  }

  lemma {:induction false} InsertKeepsOrder(entries: seq<Entry>, e: Entry)
    requires Ascending(entries)
    ensures Ascending(Insert(entries, e))
    ensures forall x :: x in Insert(entries, e) ==> x == e || x in entries
  {
    if |entries| == 0 {
    } else if Less(e.key, entries[0].key) {
      forall j | 0 <= j < |entries| ensures Less(e.key, entries[j].key) {
        if j > 0 { LessTransitive(e.key, entries[0].key, entries[j].key); }
      }
    } else if entries[0].key != e.key {
      InsertKeepsOrder(entries[1..], e);
      LessTotal(entries[0].key, e.key);
      var rest := Insert(entries[1..], e);
      forall j | 0 <= j < |rest| ensures Less(entries[0].key, rest[j].key) {
        assert rest[j] in rest;
        if rest[j] != e {
          var i :| 0 <= i < |entries[1..]| && entries[1..][i] == rest[j];
          assert entries[i + 1] == rest[j];
        }
      }
    }
  }

  /** An insert changes what one key maps to and nothing else. */
  lemma {:induction false} LookupInsert(entries: seq<Entry>, e: Entry, key: Key)
    requires Ascending(entries)
    ensures Lookup(Insert(entries, e), key) == if key == e.key then Some(e.value) else Lookup(entries, key)
  {
    if |entries| == 0 || Less(e.key, entries[0].key) {
      assert ([e] + entries)[1..] == entries;
    } else if entries[0].key == e.key {
      assert ([e] + entries[1..])[1..] == entries[1..];
    } else {
      LookupInsert(entries[1..], e, key);
      assert ([entries[0]] + Insert(entries[1..], e))[1..] == Insert(entries[1..], e);
    }
  }

  /** What the entry under a key is charged, if there is one. */
  function Charged(entries: seq<Entry>, key: Key): nat {
    if Lookup(entries, key).Some? then Charge(Entry(key, Lookup(entries, key).value)) else 0
  }

  /** Swapping the old charge for the new one keeps the running total exact. */
  lemma {:induction false} ChargeInsert(entries: seq<Entry>, e: Entry)
    requires Ascending(entries)
    ensures TotalCharge(Insert(entries, e)) + Charged(entries, e.key) == TotalCharge(entries) + Charge(e)
  {
    hide Charge;
    if |entries| == 0 {
      assert Insert(entries, e) == [e];
    } else if Less(e.key, entries[0].key) {
      forall i | 0 <= i < |entries| ensures entries[i].key != e.key {
        LessIrreflexive(e.key);
        if i > 0 { LessTransitive(e.key, entries[0].key, entries[i].key); }
      }
      LookupNone(entries, e.key);
      assert ([e] + entries)[1..] == entries;
    } else if entries[0].key == e.key {
      LessIrreflexive(e.key);
      assert ([e] + entries[1..])[1..] == entries[1..];
    } else {
      ChargeInsert(entries[1..], e);
      assert ([entries[0]] + Insert(entries[1..], e))[1..] == Insert(entries[1..], e);
    }
  }

  class MemTable {
    var entries: seq<Entry>
    var approxSizeBytes: nat

    /** The budget is exactly what the entries cost, however often a key was overwritten. */
    ghost predicate Valid()
      reads this
    {
      Ascending(entries) && approxSizeBytes == TotalCharge(entries)
    }

    constructor ()
      ensures Valid() && entries == []
    {
      entries, approxSizeBytes := [], 0;
    }

    /** Insert or overwrite, answering the entry replaced. */
    method InsertEntry(e: Entry) returns (previous: Option<Value>)
      requires Valid()
      modifies this
      ensures Valid() && entries == Insert(old(entries), e) && previous == Lookup(old(entries), e.key)
      ensures forall key :: Lookup(entries, key) == if key == e.key then Some(e.value) else Lookup(old(entries), key)
    {
      hide Charge, Less;
      var added := Charge(e);
      previous := Lookup(entries, e.key);
      InsertKeepsOrder(entries, e);
      ChargeInsert(entries, e);
      forall key
        ensures Lookup(Insert(entries, e), key) == if key == e.key then Some(e.value) else Lookup(entries, key)
      {
        LookupInsert(entries, e, key);
      }
      entries := Insert(entries, e);
      if previous.Some? {
        var removed := Charge(Entry(e.key, previous.value));
        approxSizeBytes := (if approxSizeBytes >= removed then approxSizeBytes - removed else 0) + added;
        NoUnderflow(old(entries), e.key);
      } else {
        approxSizeBytes := approxSizeBytes + added;
      }
    }
  }

  /** The source's saturating subtraction never saturates. */
  lemma {:induction false} NoUnderflow(entries: seq<Entry>, key: Key)
    requires Lookup(entries, key).Some?
    ensures TotalCharge(entries) >= Charge(Entry(key, Lookup(entries, key).value))
  {
    if entries[0].key != key { NoUnderflow(entries[1..], key); }
  }
}
