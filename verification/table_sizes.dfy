/** The tables that the engine cuts its runs into are small enough to be read back
    (src/storage/lsm.rs, src/storage/sstable.rs, src/storage/wal.rs). */
module TableSizes {
  import opened Octets
  import opened Bytes
  import opened SortedEntries
  import opened SSTableFormat
  import opened SSTableWriters
  import Wals

  /** A file size up to which every table fits the format, the entry that takes a file past it included. */
  const MAX_TARGET: nat := 64 * 1024 * 1024

  /** What the engine counts when it decides to start a new file. */
  function DataBytes(entries: seq<Entry>): nat {
    if |entries| == 0 then 0
    else
      var last := entries[|entries| - 1];
      DataBytes(entries[..|entries| - 1]) + |last.key| + |last.value.Payload()|
  }

  /** The file was under its target until its last entry. */
  predicate CutAt(entries: seq<Entry>, target: nat) {
    |entries| > 0 && DataBytes(entries[..|entries| - 1]) <= target
  }

  /** What the log accepts, a table reads back. */
  lemma LoggedIsReadable(e: Entry)
    requires Wals.Fits(e)
    ensures Readable(e)
  {}

  lemma {:induction false} EncodedBytes(entries: seq<Entry>)
    ensures |EncodeBlock(entries)| == 9 * |entries| + DataBytes(entries)
  {
    hide EncodeEntry;
    if |entries| == 0 {
    } else {
      var init, last := entries[..|entries| - 1], entries[|entries| - 1];
      EncodedBytes(init);
      assert entries == init + [last];
      hide EncodeBlock;
      EncodeBlockConcat(init, [last]);
      EncodeBlockOfOne(last);
    }
  }

  lemma NothingBeforeEmpty(key: Key)
    ensures !Less(key, [])
  {}

  /** Of ascending keys only the first can be empty. */
  lemma {:induction false} EntriesTakeBytes(entries: seq<Entry>)
    requires Ascending(entries)
    ensures |entries| <= DataBytes(entries) + 1
  {
    hide Less;
    if |entries| > 1 {
      var last := entries[|entries| - 1];
      EntriesTakeBytes(entries[..|entries| - 1]);
      if last.key == [] { NothingBeforeEmpty(entries[0].key); }
    }
  }

  /** A table cut at a target within the bound is small. */
  lemma CutIsSmall(entries: seq<Entry>, target: nat)
    requires Ascending(entries) && AllReadable(entries) && CutAt(entries, target) && target <= MAX_TARGET
    ensures Small(entries)
  {
    assert Readable(entries[|entries| - 1]);
    hide Ascending, AllReadable, EncodeBlock;
    EncodedBytes(entries);
    EntriesTakeBytes(entries);
  }
}
