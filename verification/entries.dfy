/** Lists of entries in key order, and what a lookup or a range scan of one means. */
module SortedEntries {
  import opened Octets
  import opened Bytes

  /** The value recorded for a key: the first entry under it. */
  function Lookup(entries: seq<Entry>, key: Key): Option<Value> {
    if |entries| == 0 then None
    else if entries[0].key == key then Some(entries[0].value)
    else Lookup(entries[1..], key)
  }

  /** The entries at or after a key. */
  function From(entries: seq<Entry>, start: Key): seq<Entry> {
    if |entries| == 0 then []
    else (if Less(entries[0].key, start) then [] else [entries[0]]) + From(entries[1..], start)
  }

  function Concat(blocks: seq<seq<Entry>>): seq<Entry> {
    if |blocks| == 0 then [] else blocks[0] + Concat(blocks[1..])
  }

  ghost predicate HasKey(entries: seq<Entry>, key: Key) {
    exists i :: 0 <= i < |entries| && entries[i].key == key
  }

  /** In ascending entries, a lookup answers the one entry under the key. */
  lemma {:induction false} LookupIsMember(entries: seq<Entry>, key: Key)
    ensures Lookup(entries, key).Some? <==> HasKey(entries, key)
    ensures forall i :: 0 <= i < |entries| && Ascending(entries) && entries[i].key == key ==>
              Lookup(entries, key) == Some(entries[i].value)
  {
    if |entries| != 0 {
      LookupIsMember(entries[1..], key);
      if entries[0].key == key {
        forall i | 0 < i < |entries| && Ascending(entries) ensures entries[i].key != key {
          LessIrreflexive(key);
          assert Less(entries[0].key, entries[i].key);
        }
      } else {
        assert HasKey(entries, key) ==> HasKey(entries[1..], key) by {
          if HasKey(entries, key) {
            var i :| 0 <= i < |entries| && entries[i].key == key;
            assert entries[1..][i - 1].key == key;
          }
        }
        assert HasKey(entries[1..], key) ==> HasKey(entries, key) by {
          if HasKey(entries[1..], key) {
            var i :| 0 <= i < |entries[1..]| && entries[1..][i].key == key;
            assert entries[i + 1].key == key;
          }
        }
        forall i | 0 <= i < |entries| && Ascending(entries) && entries[i].key == key
          ensures Lookup(entries, key) == Some(entries[i].value)
        {
          assert Ascending(entries[1..]);
          assert entries[1..][i - 1] == entries[i];
        }
      }
    }
  }

  lemma {:induction false} LookupConcat(a: seq<Entry>, b: seq<Entry>, key: Key)
    ensures Lookup(a + b, key) == if Lookup(a, key).Some? then Lookup(a, key) else Lookup(b, key)
  {
    if |a| == 0 {
      assert a + b == b;
    } else {
      assert (a + b)[0] == a[0] && (a + b)[1..] == a[1..] + b;
      LookupConcat(a[1..], b, key);
    }
  }

  lemma {:induction false} FromConcat(a: seq<Entry>, b: seq<Entry>, start: Key)
    ensures From(a + b, start) == From(a, start) + From(b, start)
  {
    hide Less;
    if |a| == 0 {
      assert a + b == b;
    } else {
      assert (a + b)[0] == a[0] && (a + b)[1..] == a[1..] + b;
      FromConcat(a[1..], b, start);
    }
  }

  lemma {:induction false} FromNone(entries: seq<Entry>, start: Key)
    requires forall i :: 0 <= i < |entries| ==> Less(entries[i].key, start)
    ensures From(entries, start) == []
  {
    hide Less;
    if |entries| != 0 { FromNone(entries[1..], start); }
  }

  /** A key that differs from every entry's key is not found. */
  lemma {:induction false} LookupNone(entries: seq<Entry>, key: Key)
    requires forall i :: 0 <= i < |entries| ==> entries[i].key != key
    ensures Lookup(entries, key) == None
  {
    if |entries| != 0 { LookupNone(entries[1..], key); }
  }

  lemma {:induction false} ConcatSplit(blocks: seq<seq<Entry>>, i: nat)
    requires i < |blocks|
    ensures Concat(blocks) == Concat(blocks[..i]) + (blocks[i] + Concat(blocks[i + 1..]))
  {
    if i == 0 {
      assert blocks[..0] == [];
    } else {
      ConcatSplit(blocks[1..], i - 1);
      assert blocks[..i][0] == blocks[0] && blocks[..i][1..] == blocks[1..][..i - 1];
      assert blocks[1..][i..] == blocks[i + 1..];
    }
  }

  lemma {:induction false} ConcatAppend(blocks: seq<seq<Entry>>, block: seq<Entry>)
    ensures Concat(blocks + [block]) == Concat(blocks) + block
  {
    ConcatSplit(blocks + [block], |blocks|);
    assert (blocks + [block])[..|blocks|] == blocks;
  }

  /** Every key of the first list is below every key of the second. */
  ghost predicate Below(a: seq<Entry>, b: seq<Entry>) {
    forall i, j :: 0 <= i < |a| && 0 <= j < |b| ==> Less(a[i].key, b[j].key)
  }

  lemma AscendingParts(a: seq<Entry>, b: seq<Entry>)
    requires Ascending(a + b)
    ensures Ascending(a) && Ascending(b) && Below(a, b)
  {
    hide Less;
    var ab := a + b;
    forall i, j | 0 <= i < j < |a| ensures Less(a[i].key, a[j].key) { assert ab[i] == a[i] && ab[j] == a[j]; }
    forall i, j | 0 <= i < j < |b| ensures Less(b[i].key, b[j].key) {
      assert ab[|a| + i] == b[i] && ab[|a| + j] == b[j];
    }
    forall i, j | 0 <= i < |a| && 0 <= j < |b| ensures Less(a[i].key, b[j].key) {
      assert ab[i] == a[i] && ab[|a| + j] == b[j];
    }
  }

  lemma AscendingJoin(a: seq<Entry>, b: seq<Entry>)
    requires Ascending(a) && Ascending(b) && Below(a, b)
    ensures Ascending(a + b)
  {
    hide Less;
  }
}
