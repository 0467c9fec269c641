/** Building a sorted string table entry by entry (src/storage/sstable.rs). */
module SSTableWriters {
  import opened Octets
  import opened Bytes
  import opened Crc32s
  import opened SortedEntries
  import opened SSTableFormat
  import opened SSTables
  import Blooms

  lemma {:induction false} BlockAppended(blocks: seq<seq<Entry>>, block: seq<Entry>, offset: nat)
    requires NonEmpty(blocks) && |block| > 0
    ensures DataOf(blocks + [block]) == DataOf(blocks) + Checked(EncodeBlock(block))
    ensures OffsetAfter(blocks + [block], offset)
            == OffsetAfter(blocks, offset) + Truncated(|Checked(EncodeBlock(block))|)
    ensures IndexOf(blocks + [block], offset)
         == IndexOf(blocks, offset)
            + [IndexEntry(block[0].key, OffsetAfter(blocks, offset), Truncated(|Checked(EncodeBlock(block))|))]
    decreases |blocks|
  {
    hide EncodeBlock, Checked, Truncated;
    if |blocks| == 0 {
      assert blocks + [block] == [block];
    } else {
      assert (blocks + [block])[0] == blocks[0] && (blocks + [block])[1..] == blocks[1..] + [block];
      BlockAppended(blocks[1..], block, offset + Truncated(|Checked(EncodeBlock(blocks[0]))|));
    }
  }

  /** The block reached the target with its last entry and not before. */
  ghost predicate Closed(block: seq<Entry>, target: nat) {
    |block| > 0 && |EncodeBlock(block)| >= target && |EncodeBlock(block[..|block| - 1])| < target
  }

  ghost predicate AllClosed(blocks: seq<seq<Entry>>, target: nat) {
    forall i :: 0 <= i < |blocks| ==> Closed(blocks[i], target)
  }

  function Hashes(entries: seq<Entry>): (r: seq<nat>)
    ensures |r| == |entries|
  {
    seq(|entries|, i requires 0 <= i < |entries| => Blooms.HashKey(entries[i].key))
  }

  lemma HashesAppended(entries: seq<Entry>, e: Entry)
    ensures Hashes(entries + [e]) == Hashes(entries) + [Blooms.HashKey(e.key)]
  {
    hide Blooms.HashKey;
  }

  /** The fields of a writer that speak of the block being filled. */
  ghost predicate Fills(block: seq<byte>, firstKey: Option<Key>, pending: seq<Entry>, target: nat) {
    && block == EncodeBlock(pending) && |block| < target
    && firstKey == if |pending| == 0 then None else Some(pending[0].key)
  }

  /** The same once an entry has gone in, before the target is looked at. */
  ghost predicate Filled(block: seq<byte>, firstKey: Option<Key>, pending: seq<Entry>, target: nat) {
    && |pending| > 0 && block == EncodeBlock(pending) && firstKey == Some(pending[0].key)
    && |EncodeBlock(pending[..|pending| - 1])| < target
  }

  lemma FillOne(block: seq<byte>, firstKey: Option<Key>, pending: seq<Entry>, target: nat, e: Entry)
    requires Fills(block, firstKey, pending, target)
    ensures Filled(block + EncodeEntry(e), if firstKey.None? then Some(e.key) else firstKey, pending + [e], target)
  {
    hide EncodeBlock, EncodeEntry;
    BlockGrows(pending, e);
  }

  lemma FilledDecides(block: seq<byte>, firstKey: Option<Key>, pending: seq<Entry>, target: nat)
    requires Filled(block, firstKey, pending, target)
    ensures if |block| >= target then Closed(pending, target) else Fills(block, firstKey, pending, target)
    ensures |pending| > 0 && block == EncodeBlock(pending) && firstKey == Some(pending[0].key)
  {}

  /** The fields that speak of everything written so far. */
  ghost predicate Counts(written: seq<Entry>, entryCount: nat, lastKey: Option<Key>) {
    && Ascending(written) && entryCount == |written|
    && lastKey == if |written| == 0 then None else Some(written[|written| - 1].key)
  }

  /** The fields that speak of the blocks already out. */
  ghost predicate Wrote(file: seq<byte>, offset: nat, index: seq<IndexEntry>, blocks: seq<seq<Entry>>) {
    && NonEmpty(blocks) && file == DataOf(blocks) && offset == OffsetAfter(blocks, 0) && index == IndexOf(blocks, 0)
  }

  lemma AscendingAppend(entries: seq<Entry>, e: Entry)
    requires Ascending(entries) && (|entries| == 0 || Less(entries[|entries| - 1].key, e.key))
    ensures Ascending(entries + [e])
  {
    var all := entries + [e];
    forall i, j | 0 <= i < j < |all| ensures Less(all[i].key, all[j].key) {
      if j == |entries| && i < |entries| - 1 { LessTransitive(entries[i].key, entries[|entries| - 1].key, e.key); }
    }
  }

  lemma CountOne(written: seq<Entry>, entryCount: nat, lastKey: Option<Key>, e: Entry)
    requires Counts(written, entryCount, lastKey) && (|written| == 0 || Less(written[|written| - 1].key, e.key))
    ensures Counts(written + [e], entryCount + 1, Some(e.key))
  {
    hide Ascending, Less;
    AscendingAppend(written, e);
  }

  lemma LastKeyDecides(written: seq<Entry>, entryCount: nat, lastKey: Option<Key>, e: Entry)
    requires Counts(written, entryCount, lastKey)
    ensures (lastKey.None? || Less(lastKey.value, e.key))
            <==> (|written| == 0 || Less(written[|written| - 1].key, e.key))
  {
    hide Ascending, Less;
  }

  lemma BlockGrows(pending: seq<Entry>, e: Entry)
    ensures EncodeBlock(pending + [e]) == EncodeBlock(pending) + EncodeEntry(e)
    ensures (pending + [e])[..|pending|] == pending
  {
    hide EncodeEntry, EncodeBlock;
    EncodeBlockConcat(pending, [e]);
    EncodeBlockOfOne(e);
  }

  class SSTableWriter {
    const target: nat
    const bloomEnabled: bool
    var file: seq<byte>
    var offset: nat
    var block: seq<byte>
    var blockFirstKey: Option<Key>
    var index: seq<IndexEntry>
    var entryCount: nat
    var lastKey: Option<Key>
    var keyHashes: seq<nat>
    ghost var blocks: seq<seq<Entry>>
    ghost var pending: seq<Entry>

    /** Everything appended so far, in order. */
    ghost function Written(): seq<Entry>
      reads this
    {
      Concat(blocks) + pending
    }

    ghost predicate Valid()
      reads this
    {
      && Wrote(file, offset, index, blocks) && AllClosed(blocks, target)
      && Fills(block, blockFirstKey, pending, target) && Counts(Written(), entryCount, lastKey)
      && keyHashes == (if bloomEnabled then Hashes(Written()) else [])
    }

    constructor (target: nat, bloomEnabled: bool)
      requires target > 0
      ensures Valid() && Written() == [] && this.target == target && this.bloomEnabled == bloomEnabled
    {
      this.target, this.bloomEnabled := target, bloomEnabled;
      file, offset, block, blockFirstKey, index := [], 0, [], None, [];
      entryCount, lastKey, keyHashes := 0, None, [];
      blocks, pending := [], [];
    }

    /** Move the block being filled to the file, followed by its checksum, and give it an index entry. */
    method FlushBlock()
      requires Wrote(file, offset, index, blocks) && block == EncodeBlock(pending)
      requires blockFirstKey == if |pending| == 0 then None else Some(pending[0].key)
      modifies this`file, this`offset, this`block, this`blockFirstKey, this`index, this`blocks, this`pending
      ensures Wrote(file, offset, index, blocks) && block == [] && blockFirstKey == None && pending == []
      ensures blocks == old(blocks) + (if |old(pending)| == 0 then [] else [old(pending)])
    {
      hide EncodeEntry, Crc, IndexOf, DataOf, OffsetAfter;
      if |block| == 0 { return; }
      BlockAppended(blocks, pending, 0);
      hide EncodeBlock;
      var checksum := Crc(block);
      var length := Truncated(|block| + BLOCK_CRC_BYTES);
      assert Checked(block) == block + U32Bytes(checksum);
      file := file + (block + U32Bytes(checksum));
      index := index + [IndexEntry(blockFirstKey.value, offset, length)];
      offset := offset + length;
      block, blockFirstKey := [], None;
      blocks, pending := blocks + [pending], [];
    }

    /** Keys must strictly ascend and lengths must fit; otherwise nothing changes. */
    method Append(e: Entry) returns (ok: bool)
      requires Valid()
      modifies this
      ensures Valid()
      ensures ok <==> (|old(Written())| == 0 || Less(old(Written())[|old(Written())| - 1].key, e.key))
                      && |e.key| < U32 && |e.value.Payload()| < U32
      ensures Written() == if ok then old(Written()) + [e] else old(Written())
    {
      hide EncodeEntry, Less, Closed, Wrote, Hashes, Counts, Fills, Concat;
      LastKeyDecides(Written(), entryCount, lastKey, e);
      if lastKey.Some? && !Less(lastKey.value, e.key) { return false; }
      if |e.key| >= U32 || |e.value.Payload()| >= U32 { return false; }
      Push(e);
      FilledDecides(block, blockFirstKey, pending, target);
      if |block| >= target {
        ConcatAppend(blocks, pending);
        ghost var written := Written();
        FlushBlock();
        assert Written() == written;
        EmptyBlockFills(target);
      }
      return true;
    }

    /** Add an entry to the block being filled, which may take the block past its target. */
    method Push(e: Entry)
      requires Valid()
      requires |Written()| == 0 || Less(Written()[|Written()| - 1].key, e.key)
      modifies this`block, this`blockFirstKey, this`entryCount, this`lastKey, this`keyHashes, this`pending
      ensures Filled(block, blockFirstKey, pending, target) && Written() == old(Written()) + [e]
      ensures Counts(Written(), entryCount, lastKey) && keyHashes == if bloomEnabled then Hashes(Written()) else []
    {
      hide Concat, Less, Wrote, EncodeEntry, Hashes, AllClosed, Counts, Fills, Filled;
      ghost var before := Written();
      FillOne(block, blockFirstKey, pending, target, e);
      CountOne(before, entryCount, lastKey, e);
      HashesAppended(before, e);
      assert Concat(blocks) + (pending + [e]) == before + [e];
      if blockFirstKey.None? { blockFirstKey := Some(e.key); }
      block, pending := block + EncodeEntry(e), pending + [e];
      entryCount, lastKey := entryCount + 1, Some(e.key);
      if bloomEnabled { keyHashes := keyHashes + [Blooms.HashKey(e.key)]; }
    }

    /** Flush the last block, then the index, the filter over every key, and the footer. */
    method Finish(bytes: nat, numHashes: nat) returns (result: seq<byte>, ghost layout: Layout)
      requires Valid() && 0 < bytes && bytes * 8 < U32 && 1 <= numHashes <= Blooms.MAX_HASHES
      modifies this
      ensures NonEmpty(layout.blocks) && result == FileOf(layout)
      ensures Concat(layout.blocks) == old(Written())
      ensures (layout.filter.Some? <==> bloomEnabled) && FilterCovers(layout)
      ensures layout.filter.Some? ==> |layout.filter.value.bits| == bytes
      ensures |layout.blocks| > 0 ==> AllClosed(layout.blocks[..|layout.blocks| - 1], target)
    {
      hide AllClosed, Concat, Covers, Hashes, FileOf, Wrote, Fills, Counts, NonEmpty;
      ghost var written := Written();
      FlushLast();
      var filter: Option<Blooms.Filter> := None;
      if bloomEnabled {
        filter := BuildFilter(keyHashes, bytes, numHashes, written);
      }
      layout := Layout(blocks, filter);
      result := Assemble(filter);
    }

    method FlushLast()
      requires Valid()
      modifies this`file, this`offset, this`block, this`blockFirstKey, this`index, this`blocks, this`pending
      ensures Wrote(file, offset, index, blocks) && Concat(blocks) == old(Written()) && entryCount == |Concat(blocks)|
      ensures |blocks| > 0 ==> AllClosed(blocks[..|blocks| - 1], target)
    {
      hide EncodeBlock, Closed, Hashes, Wrote, Concat, AllClosed;
      if |pending| > 0 { ConcatAppend(blocks, pending); }
      ButLast(blocks, pending, target);
      assert (blocks + [pending])[..|blocks|] == blocks == blocks + [];
      assert |pending| == 0 ==> Written() == Concat(blocks);
      FlushBlock();
    }

    /** Put the sections after the data: index, filter, footer. */
    method Assemble(filter: Option<Blooms.Filter>) returns (result: seq<byte>)
      requires Wrote(file, offset, index, blocks) && entryCount == |Concat(blocks)|
      ensures NonEmpty(blocks) && result == FileOf(Layout(blocks, filter))
    {
      hide EncodeIndex, IndexOf, DataOf, OffsetAfter, Concat, Checked, Footer.Encode, FilterBytes;
      var indexBytes := IndexSection();
      var filterBytes := FilterBytes(filter);
      var bloomOffset := if filter.None? then 0 else offset + Truncated(|indexBytes|);
      var footer := Footer(offset, Truncated(|indexBytes|), bloomOffset, Truncated(|filterBytes|), entryCount);
      assert footer == FooterOf(Layout(blocks, filter));
      result := file + (indexBytes + (filterBytes + footer.Encode()));
    }

    method IndexSection() returns (bytes: seq<byte>)
      requires Wrote(file, offset, index, blocks)
      ensures bytes == Checked(EncodeIndex(index))
    {
      hide Wrote, Checked;
      var encoded := [];
      for i := 0 to |index|
        invariant encoded == EncodeIndex(index[..i])
      {
        hide EncodeIndexEntry, EncodeIndex;
        assert index[..i + 1] == index[..i] + [index[i]];
        EncodeIndexConcat(index[..i], [index[i]]);
        EncodeIndexOfOne(index[i]);
        encoded := encoded + EncodeIndexEntry(index[i]);
      }
      assert index[..|index|] == index;
      bytes := Checked(encoded);
    }
  }

  lemma ButLast(blocks: seq<seq<Entry>>, last: seq<Entry>, target: nat)
    requires AllClosed(blocks, target)
    ensures |blocks| > 0 ==> AllClosed(blocks[..|blocks| - 1], target)
    ensures AllClosed((blocks + [last])[..|blocks|], target)
  {
    hide Closed;
  }

  lemma EmptyBlockFills(target: nat)
    requires target > 0
    ensures Fills([], None, [], target)
  {}

  /** A filter over every key of the table. */
  method BuildFilter(keyHashes: seq<nat>, bytes: nat, numHashes: nat, ghost written: seq<Entry>)
    returns (filter: Option<Blooms.Filter>)
    requires 0 < bytes && bytes * 8 < U32 && 1 <= numHashes <= Blooms.MAX_HASHES && keyHashes == Hashes(written)
    ensures filter.Some? && Covers(filter.value, written) && |filter.value.bits| == bytes
  {
    hide Blooms.HashKey, Blooms.Filter.MayContainHash, Blooms.Filter.Holds;
    var bloom := new Blooms.BloomFilter(bytes, numHashes);
    for i := 0 to |keyHashes|
      invariant fresh(bloom) && bloom.Valid() && bloom.numBits == bytes * 8
      invariant forall j :: 0 <= j < i ==> keyHashes[j] in bloom.hashes
    {
      bloom.InsertHash(keyHashes[i]);
    }
    var f := bloom.View();
    forall key | HasKey(written, key) ensures f.MayContain(key) {
      var i :| 0 <= i < |written| && written[i].key == key;
      assert keyHashes[i] == Blooms.HashKey(key);
      f.HeldMeansContained(bloom.hashes, Blooms.HashKey(key));
    }
    filter := Some(f);
  }

  lemma NextAscends(entries: seq<Entry>, i: nat)
    requires Ascending(entries) && i < |entries|
    ensures entries[..i + 1] == entries[..i] + [entries[i]]
    ensures i > 0 ==> Less(entries[..i][i - 1].key, entries[i].key)
  {}

  /** A lookup in the table can be made and gives this answer. */
  ghost predicate Answers(t: Table, key: Key, answer: Option<Value>) {
    (t.bloom.Some? ==> t.bloom.value.Valid()) && GetFrom(t, key) == Ok(answer)
  }

  lemma OpenedAnswers(l: Layout)
    requires Fits(l) && Ascending(Concat(l.blocks)) && FilterCovers(l)
    ensures Open(FileOf(l)).Ok? && Represents(Open(FileOf(l)).value, l.blocks)
    ensures forall key :: Answers(Open(FileOf(l)).value, key, Lookup(Concat(l.blocks), key))
  {
    OpensAsWritten(l);
    hide Open, FileOf, Concat, Lookup, Fits, FilterCovers, Ascending, Represents, GetFrom;
    var t := Open(FileOf(l)).value;
    forall key ensures Answers(t, key, Lookup(Concat(l.blocks), key)) { GetIsLookup(t, l.blocks, key); }
  }

  // ---------------------------------------------------------------------
  // Lists small enough for the format
  // ---------------------------------------------------------------------

  /** Whatever the blocks and the filter, no length field of the table overflows. */
  ghost predicate Small(entries: seq<Entry>) {
    AllReadable(entries) && |EncodeBlock(entries)| + 7 * |entries| + BLOCK_CRC_BYTES < U32
  }

  /** Blocks take the entries' bytes and a checksum each; the index repeats one key a block. */
  lemma {:induction false} SizesAddUp(blocks: seq<seq<Entry>>, offset: nat)
    requires NonEmpty(blocks)
    ensures |DataOf(blocks)| == |EncodeBlock(Concat(blocks))| + BLOCK_CRC_BYTES * |blocks|
    ensures |EncodeIndex(IndexOf(blocks, offset))| <= |EncodeBlock(Concat(blocks))| + 7 * |blocks|
    ensures |blocks| <= |Concat(blocks)|
    decreases |blocks|
  {
    hide EncodeBlock, EncodeEntry, Truncated;
    if |blocks| == 0 {
      assert EncodeBlock([]) == [] by { NothingEncoded(); }
    } else {
      var length := Truncated(|Checked(EncodeBlock(blocks[0]))|);
      SizesAddUp(blocks[1..], offset + length);
      EncodeBlockConcat(blocks[0], Concat(blocks[1..]));
      FirstEntryEncoded(blocks[0]);
      assert IndexOf(blocks, offset)[1..] == IndexOf(blocks[1..], offset + length);
    }
  }

  lemma NothingEncoded()
    ensures EncodeBlock([]) == []
  {}

  lemma FirstEntryEncoded(block: seq<Entry>)
    requires |block| > 0
    ensures |EncodeBlock(block)| >= 9 + |block[0].key|
  {}

  lemma {:induction false} PartsAreSmall(blocks: seq<seq<Entry>>, i: nat)
    requires i < |blocks| && AllReadable(Concat(blocks))
    ensures AllReadable(blocks[i]) && |EncodeBlock(blocks[i])| <= |EncodeBlock(Concat(blocks))|
  {
    hide EncodeBlock, Readable;
    var rest := Concat(blocks[1..]);
    EncodeBlockConcat(blocks[0], rest);
    assert Concat(blocks) == blocks[0] + rest;
    if i == 0 {
      forall j | 0 <= j < |blocks[0]| ensures Readable(blocks[0][j]) { assert Concat(blocks)[j] == blocks[0][j]; }
    } else {
      forall j | 0 <= j < |rest| ensures Readable(rest[j]) { assert Concat(blocks)[|blocks[0]| + j] == rest[j]; }
      PartsAreSmall(blocks[1..], i - 1);
    }
  }

  /** However a small list is cut into blocks, and with or without a filter, it fits the format. */
  lemma SmallFits(l: Layout)
    requires NonEmpty(l.blocks) && Small(Concat(l.blocks)) && FilterCovers(l)
    requires l.filter.Some? ==> |l.filter.value.bits| * 8 < U32
    ensures Fits(l)
  {
    hide EncodeBlock, AllReadable, Concat, EncodeIndex, IndexOf, DataOf, Crc;
    SizesAddUp(l.blocks, 0);
    forall i | 0 <= i < |l.blocks| ensures AllReadable(l.blocks[i]) && |Checked(EncodeBlock(l.blocks[i]))| < U32 {
      PartsAreSmall(l.blocks, i);
    }
  }

  /** What a table is for: any strictly ascending list can be written, and the file of a small one opens as a
      table whose lookups and scans are those of the list. */
  method WriteTable(entries: seq<Entry>, target: nat, bloomEnabled: bool, bytes: nat, numHashes: nat)
    returns (file: seq<byte>, ghost layout: Layout)
    requires Ascending(entries) && target > 0
    requires forall i :: 0 <= i < |entries| ==> |entries[i].key| < U32 && |entries[i].value.Payload()| < U32
    requires 0 < bytes && bytes * 8 < U32 && 1 <= numHashes <= Blooms.MAX_HASHES
    ensures NonEmpty(layout.blocks) && file == FileOf(layout) && Concat(layout.blocks) == entries
    ensures Small(entries) ==> Open(file).Ok? && Represents(Open(file).value, layout.blocks)
    ensures Small(entries) ==> forall key :: Answers(Open(file).value, key, Lookup(entries, key))
  {
    hide Concat, Less, FilterCovers, Represents, Open, FileOf, AllClosed, Answers, Lookup, Small;
    var writer := new SSTableWriter(target, bloomEnabled);
    for i := 0 to |entries|
      invariant fresh(writer) && writer.Valid() && writer.Written() == entries[..i]
    {
      hide SSTableWriter.Valid, SSTableWriter.Written, Ascending;
      NextAscends(entries, i);
      var ok := writer.Append(entries[i]);
    }
    assert entries[..|entries|] == entries;
    file, layout := writer.Finish(bytes, numHashes);
    if Small(entries) { SmallOpens(layout); }
  }

  lemma SmallOpens(l: Layout)
    requires NonEmpty(l.blocks) && Small(Concat(l.blocks)) && Ascending(Concat(l.blocks)) && FilterCovers(l)
    requires l.filter.Some? ==> |l.filter.value.bits| * 8 < U32
    ensures Open(FileOf(l)).Ok? && Represents(Open(FileOf(l)).value, l.blocks)
    ensures forall key :: Answers(Open(FileOf(l)).value, key, Lookup(Concat(l.blocks), key))
  {
    hide Open, FileOf, Concat, Lookup, Fits, FilterCovers, Ascending, Represents, Small, Answers;
    SmallFits(l);
    OpenedAnswers(l);
  }
}
