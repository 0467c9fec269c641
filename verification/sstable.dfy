/** Sorted string tables: the writer, the reader and its iterator (src/storage/sstable.rs). */
module SSTables {
  import opened Octets
  import opened Bytes
  import opened Crc32s
  import opened SortedEntries
  import opened SSTableFormat
  import Blooms

  // ---------------------------------------------------------------------
  // The bytes of a finished table
  // ---------------------------------------------------------------------

  /** What a file holds: its data blocks in order, and the filter unless it was switched off. */
  datatype Layout = Layout(blocks: seq<seq<Entry>>, filter: Option<Blooms.Filter>)

  function DataOf(blocks: seq<seq<Entry>>): seq<byte> {
    if |blocks| == 0 then [] else Checked(EncodeBlock(blocks[0])) + DataOf(blocks[1..])
  }

  /** `as u32` truncates. */
  function Truncated(n: nat): nat {
    n % U32
  }

  function IndexOf(blocks: seq<seq<Entry>>, offset: nat): (r: seq<IndexEntry>)
    requires NonEmpty(blocks)
    ensures |r| == |blocks|
  {
    if |blocks| == 0 then []
    else
      [IndexEntry(blocks[0][0].key, offset, Truncated(|Checked(EncodeBlock(blocks[0]))|))]
      + IndexOf(blocks[1..], offset + Truncated(|Checked(EncodeBlock(blocks[0]))|))
  }

  /** The writer's offset once the blocks are out. */
  function OffsetAfter(blocks: seq<seq<Entry>>, offset: nat): nat {
    if |blocks| == 0 then offset else OffsetAfter(blocks[1..], offset + Truncated(|Checked(EncodeBlock(blocks[0]))|))
  }

  ghost predicate BlocksFit(blocks: seq<seq<Entry>>) {
    forall i :: 0 <= i < |blocks| ==> |Checked(EncodeBlock(blocks[i]))| < U32
  }

  predicate NonEmpty(blocks: seq<seq<Entry>>) {
    forall i :: 0 <= i < |blocks| ==> |blocks[i]| > 0
  }

  function IndexBytes(l: Layout): seq<byte>
    requires NonEmpty(l.blocks)
  {
    Checked(EncodeIndex(IndexOf(l.blocks, 0)))
  }

  function FilterBytes(filter: Option<Blooms.Filter>): seq<byte> {
    if filter.None? then [] else Checked(filter.value.Encode())
  }

  function FooterOf(l: Layout): Footer
    requires NonEmpty(l.blocks)
  {
    var dataEnd := OffsetAfter(l.blocks, 0);
    Footer(dataEnd, Truncated(|IndexBytes(l)|),
           if l.filter.None? then 0 else dataEnd + Truncated(|IndexBytes(l)|), Truncated(|FilterBytes(l.filter)|),
           |Concat(l.blocks)|)
  }

  function FileOf(l: Layout): (r: seq<byte>)
    requires NonEmpty(l.blocks)
    ensures |r| >= FOOTER_BYTES
  {
    DataOf(l.blocks) + (IndexBytes(l) + (FilterBytes(l.filter) + FooterOf(l).Encode()))
  }

  /** Nothing outgrows its field and every entry is within the reader's limit. */
  ghost predicate Fits(l: Layout) {
    && NonEmpty(l.blocks)
    && (forall i :: 0 <= i < |l.blocks| ==> AllReadable(l.blocks[i]))
    && BlocksFit(l.blocks) && |IndexBytes(l)| < U32 && |FilterBytes(l.filter)| < U32
    && |FileOf(l)| < U64 && |Concat(l.blocks)| < U64
    && (l.filter.Some? ==> l.filter.value.Valid())
  }

  // ---------------------------------------------------------------------
  // Opening
  // ---------------------------------------------------------------------

  /** A read handle: everything but the data blocks is in memory. */
  datatype Table = Table(file: seq<byte>, index: seq<IndexEntry>, entryCount: nat, maxKey: Option<Key>,
                         bloom: Option<Blooms.Filter>) {
    function ReadBlock(i: nat): Result<seq<Entry>>
      requires i < |index|
    {
      match ReadChecked(file, index[i].offset, index[i].length)
      case Err => Err
      case Ok(bytes) => DecodeBlock(bytes)
    }

    function MinKey(): Option<Key> {
      if |index| == 0 then None else Some(index[0].firstKey)
    }
  }

  function ReadFilter(file: seq<byte>, f: Footer): Result<Option<Blooms.Filter>> {
    if f.bloomLength == 0 then Ok(None)
    else
      match ReadChecked(file, f.bloomOffset, f.bloomLength)
      case Err => Err
      case Ok(bytes) =>
        match Blooms.Decode(bytes)
        case Err => Err
        case Ok(filter) => Ok(Some(filter))
  }

  function ReadIndex(file: seq<byte>, f: Footer): Result<seq<IndexEntry>> {
    match ReadChecked(file, f.indexOffset, f.indexLength)
    case Err => Err
    case Ok(bytes) => DecodeIndex(bytes)
  }

  /** The largest key is found by reading the last block. */
  function WithMaxKey(t: Table): Result<Table> {
    if |t.index| == 0 then Ok(t.(maxKey := None))
    else
      match t.ReadBlock(|t.index| - 1)
      case Err => Err
      case Ok(entries) => Ok(t.(maxKey := if |entries| == 0 then None else Some(entries[|entries| - 1].key)))
  }

  function Open(file: seq<byte>): Result<Table> {
    if |file| < FOOTER_BYTES then Err
    else
      match DecodeFooter(file[|file| - FOOTER_BYTES..])
      case Err => Err
      case Ok(footer) =>
        match ReadIndex(file, footer)
        case Err => Err
        case Ok(index) =>
          match ReadFilter(file, footer)
          case Err => Err
          case Ok(bloom) => WithMaxKey(Table(file, index, footer.entryCount, None, bloom))
  }

  // ---------------------------------------------------------------------
  // A finished table opens as what was written
  // ---------------------------------------------------------------------

  lemma {:induction false} IndexPlaces(blocks: seq<seq<Entry>>, offset: nat, i: nat)
    requires NonEmpty(blocks) && BlocksFit(blocks) && i < |blocks|
    ensures IndexOf(blocks, offset)[i]
         == IndexEntry(blocks[i][0].key, offset + |DataOf(blocks[..i])|, |Checked(EncodeBlock(blocks[i]))|)
    decreases |blocks|
  {
    hide EncodeBlock, Checked;
    if i == 0 {
      assert blocks[..0] == [];
    } else {
      IndexPlaces(blocks[1..], offset + |Checked(EncodeBlock(blocks[0]))|, i - 1);
      assert blocks[..i][0] == blocks[0] && blocks[..i][1..] == blocks[1..][..i - 1];
    }
  }

  lemma {:induction false} OffsetIsLength(blocks: seq<seq<Entry>>, offset: nat)
    requires BlocksFit(blocks)
    ensures OffsetAfter(blocks, offset) == offset + |DataOf(blocks)|
    decreases |blocks|
  {
    hide EncodeBlock, Checked;
    if |blocks| != 0 { OffsetIsLength(blocks[1..], offset + |Checked(EncodeBlock(blocks[0]))|); }
  }

  lemma {:induction false} DataSplit(blocks: seq<seq<Entry>>, i: nat)
    requires i < |blocks|
    ensures DataOf(blocks) == DataOf(blocks[..i]) + (Checked(EncodeBlock(blocks[i])) + DataOf(blocks[i + 1..]))
    decreases |blocks|
  {
    hide EncodeBlock, Checked;
    if i == 0 {
      assert blocks[..0] == [];
    } else {
      DataSplit(blocks[1..], i - 1);
      assert blocks[..i][0] == blocks[0] && blocks[..i][1..] == blocks[1..][..i - 1];
      assert blocks[1..][i..] == blocks[i + 1..];
    }
  }

  /** What follows block i in the file. */
  function After(l: Layout, i: nat): seq<byte>
    requires NonEmpty(l.blocks) && i < |l.blocks|
  {
    DataOf(l.blocks[i + 1..]) + (IndexBytes(l) + (FilterBytes(l.filter) + FooterOf(l).Encode()))
  }

  lemma FileAround(l: Layout, i: nat)
    requires NonEmpty(l.blocks) && i < |l.blocks|
    ensures FileOf(l) == DataOf(l.blocks[..i]) + (Checked(EncodeBlock(l.blocks[i])) + After(l, i))
  {
    hide EncodeBlock, Checked, DataOf, IndexBytes, FilterBytes, FooterOf, Footer.Encode;
    DataSplit(l.blocks, i);
    Reassociate(DataOf(l.blocks[..i]), Checked(EncodeBlock(l.blocks[i])), DataOf(l.blocks[i + 1..]),
                IndexBytes(l) + (FilterBytes(l.filter) + FooterOf(l).Encode()));
  }

  lemma Reassociate(a: seq<byte>, b: seq<byte>, c: seq<byte>, rest: seq<byte>)
    ensures (a + (b + c)) + rest == a + (b + (c + rest))
  {}

  lemma ReadsBlock(l: Layout, t: Table, i: nat)
    requires Fits(l) && i < |l.blocks| && t.file == FileOf(l) && t.index == IndexOf(l.blocks, 0)
    ensures t.ReadBlock(i) == Ok(l.blocks[i])
  {
    hide EncodeBlock, DecodeBlock, Checked, DataOf, IndexOf, ReadChecked, FileOf, After, IndexBytes, FilterBytes;
    IndexPlaces(l.blocks, 0, i);
    FileAround(l, i);
    ReadsChecked(DataOf(l.blocks[..i]), EncodeBlock(l.blocks[i]), After(l, i));
    DecodesBlock(l.blocks[i]);
  }

  lemma FooterFits(l: Layout)
    requires Fits(l)
    ensures FooterOf(l).Fits()
    ensures FooterOf(l).indexOffset == |DataOf(l.blocks)| && FooterOf(l).indexLength == |IndexBytes(l)|
    ensures FooterOf(l).bloomLength == |FilterBytes(l.filter)|
    ensures l.filter.Some? ==> FooterOf(l).bloomOffset == |DataOf(l.blocks)| + |IndexBytes(l)|
  {
    hide DataOf, IndexBytes, FilterBytes, OffsetAfter, BlocksFit, Fits, FileOf, Concat;
    SizesFit(l);
    OffsetIsLength(l.blocks, 0);
  }

  lemma SizesFit(l: Layout)
    requires Fits(l)
    ensures NonEmpty(l.blocks) && BlocksFit(l.blocks) && |IndexBytes(l)| < U32 && |FilterBytes(l.filter)| < U32
    ensures |DataOf(l.blocks)| + |IndexBytes(l)| < U64 && |Concat(l.blocks)| < U64
  {
    hide DataOf, IndexBytes, FilterBytes, BlocksFit, AllReadable, Concat;
    FileLength(l);
  }

  lemma FileLength(l: Layout)
    requires NonEmpty(l.blocks)
    ensures |FileOf(l)| == |DataOf(l.blocks)| + |IndexBytes(l)| + |FilterBytes(l.filter)| + FOOTER_BYTES
  {}

  lemma ReadsFooter(l: Layout)
    requires Fits(l)
    ensures DecodeFooter(FileOf(l)[|FileOf(l)| - FOOTER_BYTES..]) == Ok(FooterOf(l))
  {
    hide DataOf, IndexBytes, FilterBytes, FooterOf, DecodeFooter, Footer.Encode, Fits, Footer.Fits;
    FooterFits(l);
    NoEmptyBlocks(l);
    FileEnd(l);
    DecodesFooter(FooterOf(l));
  }

  lemma FileEnd(l: Layout)
    requires NonEmpty(l.blocks)
    ensures FileOf(l)[|FileOf(l)| - FOOTER_BYTES..] == FooterOf(l).Encode()
  {
    hide DataOf, IndexBytes, FilterBytes, FooterOf, Footer.Encode;
    LastPart(DataOf(l.blocks) + (IndexBytes(l) + FilterBytes(l.filter)), FooterOf(l).Encode());
    assert FileOf(l) == DataOf(l.blocks) + (IndexBytes(l) + FilterBytes(l.filter)) + FooterOf(l).Encode();
  }

  lemma LastPart(a: seq<byte>, b: seq<byte>)
    ensures (a + b)[|a + b| - |b|..] == b
  {}

  lemma IndexFits(l: Layout)
    requires Fits(l)
    ensures forall i :: 0 <= i < |l.blocks| ==> FitsIndex(IndexOf(l.blocks, 0)[i])
  {
    hide EncodeBlock, DataOf, IndexBytes, FilterBytes, IndexOf, FooterOf, AllReadable;
    forall i | 0 <= i < |l.blocks| ensures FitsIndex(IndexOf(l.blocks, 0)[i]) {
      IndexPlaces(l.blocks, 0, i);
      DataSplit(l.blocks, i);
      FileLength(l);
      FirstKeyIsShort(l.blocks[i]);
    }
  }

  lemma FirstKeyIsShort(entries: seq<Entry>)
    requires |entries| > 0 && AllReadable(entries)
    ensures |entries[0].key| < U32
  {}

  lemma ReadsIndex(l: Layout)
    requires Fits(l)
    ensures ReadIndex(FileOf(l), FooterOf(l)) == Ok(IndexOf(l.blocks, 0))
  {
    FooterFits(l);
    IndexFits(l);
    hide Fits, DataOf, Checked, FilterBytes, FooterOf, IndexOf, EncodeIndex, DecodeIndex, ReadChecked, Footer.Encode,
         FitsIndex;
    DecodesIndex(IndexOf(l.blocks, 0));
    ReadsChecked(DataOf(l.blocks), EncodeIndex(IndexOf(l.blocks, 0)), FilterBytes(l.filter) + FooterOf(l).Encode());
  }

  lemma FileAroundFilter(l: Layout)
    requires NonEmpty(l.blocks)
    ensures FileOf(l) == DataOf(l.blocks) + IndexBytes(l) + (FilterBytes(l.filter) + FooterOf(l).Encode())
  {
    hide DataOf, IndexBytes, FilterBytes, FooterOf;
  }

  lemma ReadsFilter(l: Layout)
    requires Fits(l)
    ensures ReadFilter(FileOf(l), FooterOf(l)) == Ok(l.filter)
  {
    FilterIsValid(l);
    hide Fits, DataOf, Checked, FooterOf, FileOf, IndexBytes, ReadChecked, Footer.Encode, Blooms.Decode,
         Blooms.Filter.Encode, Blooms.Filter.Valid;
    FooterFits(l);
    if l.filter.Some? {
      Blooms.DecodesEncoding(l.filter.value);
      ReadsFilterBytes(l);
    }
  }

  lemma FilterIsValid(l: Layout)
    requires Fits(l)
    ensures NonEmpty(l.blocks) && (l.filter.Some? ==> l.filter.value.Valid())
  {}

  lemma ReadsFilterBytes(l: Layout)
    requires Fits(l) && NonEmpty(l.blocks) && l.filter.Some?
    ensures FooterOf(l).bloomLength == |Checked(l.filter.value.Encode())|
    ensures ReadChecked(FileOf(l), FooterOf(l).bloomOffset, FooterOf(l).bloomLength) == Ok(l.filter.value.Encode())
  {
    hide Fits, DataOf, Checked, FooterOf, FileOf, IndexBytes, ReadChecked, Footer.Encode, Blooms.Filter.Encode;
    FooterFits(l);
    FileAroundFilter(l);
    ReadsChecked(DataOf(l.blocks) + IndexBytes(l), l.filter.value.Encode(), FooterOf(l).Encode());
  }

  /** The filter passes every key among the entries. */
  ghost predicate Covers(filter: Blooms.Filter, entries: seq<Entry>) {
    filter.Valid() && forall key :: HasKey(entries, key) ==> filter.MayContain(key)
  }

  /** The table stands for these blocks: their first keys are its index, they read back, and the filter,
      if any, was built from all their keys. */
  ghost predicate Represents(t: Table, blocks: seq<seq<Entry>>) {
    && NonEmpty(blocks) && |t.index| == |blocks| && Ascending(Concat(blocks))
    && (forall i :: 0 <= i < |blocks| ==> t.index[i].firstKey == blocks[i][0].key && t.ReadBlock(i) == Ok(blocks[i]))
    && t.entryCount == |Concat(blocks)|
    && (t.bloom.Some? ==> Covers(t.bloom.value, Concat(blocks)))
    && t.maxKey == (if |blocks| == 0 then None else Some(Concat(blocks)[|Concat(blocks)| - 1].key))
  }

  ghost predicate FilterCovers(l: Layout) {
    l.filter.Some? ==> Covers(l.filter.value, Concat(l.blocks))
  }

  lemma LastOfConcat(blocks: seq<seq<Entry>>)
    requires NonEmpty(blocks) && |blocks| > 0
    ensures |Concat(blocks)| > 0
    ensures var last := blocks[|blocks| - 1]; Concat(blocks)[|Concat(blocks)| - 1] == last[|last| - 1]
  {
    ConcatSplit(blocks, |blocks| - 1);
  }

  /** Writing then opening: the table opens, and stands for exactly the blocks written. */
  lemma OpensAsWritten(l: Layout)
    requires Fits(l) && Ascending(Concat(l.blocks)) && FilterCovers(l)
    ensures Open(FileOf(l)).Ok? && Represents(Open(FileOf(l)).value, l.blocks)
  {
    hide Fits, ReadIndex, ReadFilter, FileOf, IndexOf, DecodeFooter, Table.ReadBlock, Represents, FilterCovers;
    NoEmptyBlocks(l);
    ReadsFooter(l);
    ReadsIndex(l);
    ReadsFilter(l);
    var t := Table(FileOf(l), IndexOf(l.blocks, 0), |Concat(l.blocks)|, None, l.filter);
    if |l.blocks| > 0 {
      ReadsBlock(l, t, |l.blocks| - 1);
      LastOfConcat(l.blocks);
    }
    assert Open(FileOf(l)) == WithMaxKey(t);
    OpenedRepresents(l, WithMaxKey(t).value);
  }

  lemma NoEmptyBlocks(l: Layout)
    requires Fits(l)
    ensures NonEmpty(l.blocks)
  {}

  lemma OpenedRepresents(l: Layout, t: Table)
    requires Fits(l) && Ascending(Concat(l.blocks)) && FilterCovers(l)
    requires t.file == FileOf(l) && t.index == IndexOf(l.blocks, 0) && t.entryCount == |Concat(l.blocks)|
             && t.bloom == l.filter
    requires t.maxKey == if |l.blocks| == 0 then None
                         else Some(l.blocks[|l.blocks| - 1][|l.blocks[|l.blocks| - 1]| - 1].key)
    ensures Represents(t, l.blocks)
  {
    hide Fits, FileOf, IndexOf, Table.ReadBlock, Ascending, Covers, Concat, NonEmpty;
    NoEmptyBlocks(l);
    OpenedBlocks(l, t);
    if |l.blocks| > 0 { LastOfConcat(l.blocks); }
  }

  lemma OpenedBlocks(l: Layout, t: Table)
    requires Fits(l) && NonEmpty(l.blocks) && t.file == FileOf(l) && t.index == IndexOf(l.blocks, 0)
    ensures forall i :: 0 <= i < |l.blocks| ==>
              |l.blocks[i]| > 0 && t.index[i].firstKey == l.blocks[i][0].key && t.ReadBlock(i) == Ok(l.blocks[i])
  {
    hide Fits, FileOf, IndexOf, Table.ReadBlock, Concat, NonEmpty;
    forall i | 0 <= i < |l.blocks|
      ensures |l.blocks[i]| > 0 && t.index[i].firstKey == l.blocks[i][0].key && t.ReadBlock(i) == Ok(l.blocks[i])
    {
      OpenedBlock(l, t, i);
    }
  }

  lemma OpenedBlock(l: Layout, t: Table, i: nat)
    requires Fits(l) && NonEmpty(l.blocks) && i < |l.blocks| && t.file == FileOf(l) && t.index == IndexOf(l.blocks, 0)
    ensures |l.blocks[i]| > 0 && t.index[i].firstKey == l.blocks[i][0].key && t.ReadBlock(i) == Ok(l.blocks[i])
  {
    hide Fits, FileOf, IndexOf, Table.ReadBlock, Concat, BlocksFit, IndexBytes, FilterBytes, DataOf, EncodeBlock,
         Checked;
    SizesFit(l);
    IndexPlaces(l.blocks, 0, i);
    ReadsBlock(l, t, i);
  }

  // ---------------------------------------------------------------------
  // Lookups
  // ---------------------------------------------------------------------

  /** How many leading index entries start at or before the key. */
  function CountAtMost(index: seq<IndexEntry>, key: Key): (n: nat)
    ensures n <= |index|
    ensures forall i :: 0 <= i < n ==> !Less(key, index[i].firstKey)
    ensures n < |index| ==> Less(key, index[n].firstKey)
  {
    if |index| == 0 || Less(key, index[0].firstKey) then 0 else 1 + CountAtMost(index[1..], key)
  }

  /** The only block that could hold the key: the last one that starts at or before it. */
  function BlockForKey(t: Table, key: Key): (r: Option<nat>)
    ensures r.Some? ==> r.value < |t.index|
  {
    var past := CountAtMost(t.index, key);
    if past == 0 then None else Some(past - 1)
  }

  /** Scan a block's entries; passing the key means it is absent. */
  function Scan(entries: seq<Entry>, key: Key): Option<Value> {
    if |entries| == 0 then None
    else if Less(entries[0].key, key) then Scan(entries[1..], key)
    else if entries[0].key == key then Some(entries[0].value)
    else None
  }

  function GetFrom(t: Table, key: Key): Result<Option<Value>>
    requires t.bloom.Some? ==> t.bloom.value.Valid()
  {
    if t.bloom.Some? && !t.bloom.value.MayContain(key) then Ok(None)
    else
      match BlockForKey(t, key)
      case None => Ok(None)
      case Some(i) =>
        match t.ReadBlock(i)
        case Err => Err
        case Ok(entries) => Ok(Scan(entries, key))
  }

  lemma {:induction false} ScanIsLookup(entries: seq<Entry>, key: Key)
    requires Ascending(entries)
    ensures Scan(entries, key) == Lookup(entries, key)
  {
    if |entries| != 0 {
      LessTotal(entries[0].key, key);
      LessIrreflexive(key);
      if Less(entries[0].key, key) {
        ScanIsLookup(entries[1..], key);
      } else if entries[0].key != key {
        forall i | 0 <= i < |entries| ensures entries[i].key != key {
          if i > 0 { LessTransitive(key, entries[0].key, entries[i].key); }
        }
        LookupNone(entries, key);
      }
    }
  }

  /** Block i of ascending blocks lies above the blocks before it and below those after it. */
  lemma BlockBounds(blocks: seq<seq<Entry>>, i: nat)
    requires Ascending(Concat(blocks)) && i < |blocks|
    ensures Ascending(blocks[i]) && Below(Concat(blocks[..i]), blocks[i]) && Below(blocks[i], Concat(blocks[i + 1..]))
  {
    hide Less, Concat, Ascending;
    ConcatSplit(blocks, i);
    AscendingParts(Concat(blocks[..i]), blocks[i] + Concat(blocks[i + 1..]));
    AscendingParts(blocks[i], Concat(blocks[i + 1..]));
    var before, block, after := Concat(blocks[..i]), blocks[i], blocks[i] + Concat(blocks[i + 1..]);
    forall a, b | 0 <= a < |before| && 0 <= b < |block| ensures Less(before[a].key, block[b].key) {
      assert after[b] == block[b];
    }
    assert Below(before, block);
  }

  /** Blocks that start above the key hold nothing at or below it. */
  lemma {:induction false} BlocksAbove(blocks: seq<seq<Entry>>, key: Key)
    requires NonEmpty(blocks) && Ascending(Concat(blocks)) && |blocks| > 0 && Less(key, blocks[0][0].key)
    ensures forall c :: 0 <= c < |Concat(blocks)| ==> Less(key, Concat(blocks)[c].key)
  {
    assert Concat(blocks)[0] == blocks[0][0];
    AllAbove(Concat(blocks), key);
  }

  lemma AllAbove(entries: seq<Entry>, key: Key)
    requires Ascending(entries) && |entries| > 0 && Less(key, entries[0].key)
    ensures forall c :: 0 <= c < |entries| ==> Less(key, entries[c].key)
  {
    forall c | 0 <= c < |entries| ensures Less(key, entries[c].key) {
      if c > 0 { LessTransitive(key, entries[0].key, entries[c].key); }
    }
  }

  /** The sparse index leads every lookup to the one block that matters. */
  lemma BlockDecidesLookup(blocks: seq<seq<Entry>>, n: nat, key: Key)
    requires NonEmpty(blocks) && Ascending(Concat(blocks)) && n <= |blocks|
    requires forall i :: 0 <= i < n ==> !Less(key, blocks[i][0].key)
    requires n < |blocks| ==> Less(key, blocks[n][0].key)
    ensures Lookup(Concat(blocks), key) == if n == 0 then None else Lookup(blocks[n - 1], key)
  {
    if n == 0 {
      hide Less;
      if |blocks| > 0 { BlocksAbove(blocks, key); }
      forall c | 0 <= c < |Concat(blocks)| ensures Concat(blocks)[c].key != key { LessIrreflexive(key); }
      LookupNone(Concat(blocks), key);
    } else {
      var before, block, after := Concat(blocks[..n - 1]), blocks[n - 1], Concat(blocks[n..]);
      ConcatSplit(blocks, n - 1);
      BlockBounds(blocks, n - 1);
      if n < |blocks| {
        AscendingParts(before, block + after);
        AscendingParts(block, after);
        BlocksAbove(blocks[n..], key);
      }
      hide Less, Concat, Ascending;
      KeysElsewhereDiffer(before, block, after, key, n < |blocks|);
      LookupNone(before, key);
      LookupNone(after, key);
      LookupConcat(before, block + after, key);
      LookupConcat(block, after, key);
    }
  }

  lemma KeysElsewhereDiffer(before: seq<Entry>, block: seq<Entry>, after: seq<Entry>, key: Key, more: bool)
    requires |block| > 0 && !Less(key, block[0].key)
    requires Below(before, block)
    requires forall c :: 0 <= c < |after| ==> Less(key, after[c].key)
    ensures forall a :: 0 <= a < |before| ==> before[a].key != key
    ensures forall c :: 0 <= c < |after| ==> after[c].key != key
  {
    hide Less;
    LessIrreflexive(key);
    forall a | 0 <= a < |before| ensures before[a].key != key {
      assert Less(before[a].key, block[0].key);
    }
  }

  /** `get` is the lookup in the list that was written: block splitting, the sparse index, the early
      end of the scan and the filter's rejections change nothing. */
  lemma GetIsLookup(t: Table, blocks: seq<seq<Entry>>, key: Key)
    requires Represents(t, blocks)
    ensures GetFrom(t, key) == Ok(Lookup(Concat(blocks), key))
  {
    hide Table.ReadBlock, Blooms.Filter.MayContain, Less, Lookup, Scan, HasKey, Ascending, Concat;
    LookupIsMember(Concat(blocks), key);
    var n := CountAtMost(t.index, key);
    forall i | 0 <= i < n ensures !Less(key, blocks[i][0].key) { assert t.index[i].firstKey == blocks[i][0].key; }
    if n < |blocks| { assert t.index[n].firstKey == blocks[n][0].key; }
    BlockDecidesLookup(blocks, n, key);
    if n > 0 {
      BlockBounds(blocks, n - 1);
      ScanIsLookup(blocks[n - 1], key);
    }
  }

  // ---------------------------------------------------------------------
  // Iteration
  // ---------------------------------------------------------------------

  function AtOrAfter(entries: seq<Entry>, start: Option<Key>): seq<Entry> {
    if start.None? then entries else From(entries, start.value)
  }

  function Oks(entries: seq<Entry>): (r: seq<Result<Entry>>)
    ensures |r| == |entries|
  {
    seq(|entries|, i requires 0 <= i < |entries| => Ok(entries[i]))
  }

  /** What iterating from block i yields: a block that cannot be read gives one error and is skipped. */
  function Stream(t: Table, i: nat, start: Option<Key>): seq<Result<Entry>>
    requires i <= |t.index|
    decreases |t.index| - i
  {
    if i == |t.index| then []
    else
      match t.ReadBlock(i)
      case Err => [Err] + Stream(t, i + 1, start)
      case Ok(entries) => Oks(AtOrAfter(entries, start)) + Stream(t, i + 1, start)
  }

  lemma NothingBuffered(table: Table, first: nat, start: Option<Key>)
    requires first <= |table.index|
    ensures Oks(AtOrAfter([], start)) + Stream(table, first, start) == Stream(table, first, start)
  {
    hide Stream, Less;
    assert AtOrAfter([], start) == [] && Oks([]) == [];
  }

  class SSTableIter {
    const table: Table
    const start: Option<Key>
    var nextBlock: nat
    var buffered: seq<Entry>

    ghost predicate Valid()
      reads this
    {
      nextBlock <= |table.index|
    }

    /** Everything the iterator has yet to yield. */
    ghost function Remaining(): seq<Result<Entry>>
      requires Valid()
      reads this
    {
      Oks(AtOrAfter(buffered, start)) + Stream(table, nextBlock, start)
    }

    constructor (table: Table, first: nat, start: Option<Key>)
      requires first <= |table.index|
      ensures Valid() && this.table == table && this.start == start
      ensures Remaining() == Stream(table, first, start)
    {
      this.table, this.start, nextBlock, buffered := table, start, first, [];
      new;
      hide Oks, AtOrAfter, Stream;
      NothingBuffered(table, first, start);
    }

    method Next() returns (r: Option<Result<Entry>>)
      requires Valid()
      modifies this
      ensures Valid()
      ensures r.None? <==> old(Remaining()) == []
      ensures r.None? ==> Remaining() == []
      ensures r.Some? ==> old(Remaining()) == [r.value] + Remaining()
    {
      hide Table.ReadBlock, Less, Oks, AtOrAfter, Stream;
      while true
        invariant Valid() && Remaining() == old(Remaining())
        decreases |table.index| - nextBlock, |buffered|
      {
        if |buffered| > 0 {
          var entry := buffered[0];
          TakeFirst(buffered, start, Stream(table, nextBlock, start));
          buffered := buffered[1..];
          if start.Some? && Less(entry.key, start.value) { continue; }
          return Some(Ok(entry));
        }
        NextStream(table, nextBlock, start);
        if nextBlock >= |table.index| { return None; }
        var read := table.ReadBlock(nextBlock);
        nextBlock := nextBlock + 1;
        if read.Err? { return Some(Err); }
        buffered := read.value;
      }
    }
  }

  lemma TakeFirst(entries: seq<Entry>, start: Option<Key>, later: seq<Result<Entry>>)
    requires |entries| > 0
    ensures Oks(AtOrAfter(entries, start)) + later
         == (if start.Some? && Less(entries[0].key, start.value) then [] else [Ok(entries[0])])
            + (Oks(AtOrAfter(entries[1..], start)) + later)
  {
    hide Less, Oks;
    var rest := AtOrAfter(entries[1..], start);
    if start.Some? && Less(entries[0].key, start.value) {
      assert AtOrAfter(entries, start) == rest;
    } else {
      assert AtOrAfter(entries, start) == [entries[0]] + rest;
      OksStep(entries[0], rest);
    }
  }

  lemma OksStep(entry: Entry, rest: seq<Entry>)
    ensures Oks([entry] + rest) == [Ok(entry)] + Oks(rest)
  {}

  lemma NextStream(t: Table, i: nat, start: Option<Key>)
    requires i <= |t.index|
    ensures Oks(AtOrAfter([], start)) == []
    ensures i == |t.index| ==> Stream(t, i, start) == []
    ensures i < |t.index| && t.ReadBlock(i).Err? ==>
              Stream(t, i, start) == [Err] + (Oks(AtOrAfter([], start)) + Stream(t, i + 1, start))
    ensures i < |t.index| && t.ReadBlock(i).Ok? ==>
              Stream(t, i, start) == Oks(AtOrAfter(t.ReadBlock(i).value, start)) + Stream(t, i + 1, start)
  {
    hide Table.ReadBlock, Less;
    assert AtOrAfter([], start) == [];
  }

  /** The block a range scan starts with; a key below every block starts at the first. */
  function RangeStart(t: Table, start: Key): (i: nat)
    ensures i <= |t.index|
  {
    var block := BlockForKey(t, start);
    if block.Some? then block.value else 0
  }

  lemma {:induction false} StreamIsConcat(t: Table, blocks: seq<seq<Entry>>, i: nat, start: Option<Key>)
    requires |t.index| == |blocks| && i <= |blocks|
    requires forall j :: 0 <= j < |blocks| ==> t.ReadBlock(j) == Ok(blocks[j])
    ensures Stream(t, i, start) == Oks(AtOrAfter(Concat(blocks[i..]), start))
    decreases |blocks| - i
  {
    hide Table.ReadBlock, Less;
    if i < |blocks| {
      StreamIsConcat(t, blocks, i + 1, start);
      assert blocks[i..][0] == blocks[i] && blocks[i..][1..] == blocks[i + 1..];
      if start.Some? { FromConcat(blocks[i], Concat(blocks[i + 1..]), start.value); }
    } else {
      assert blocks[i..] == [];
    }
  }

  /** Iterating a table yields the list that was written; a range scan yields its tail from the key on. */
  lemma IterationIsTheList(t: Table, blocks: seq<seq<Entry>>, start: Key)
    requires Represents(t, blocks)
    ensures Stream(t, 0, None) == Oks(Concat(blocks))
    ensures Stream(t, RangeStart(t, start), Some(start)) == Oks(From(Concat(blocks), start))
  {
    hide Table.ReadBlock, Less, Concat, From, Oks, Blooms.Filter.MayContain, HasKey, CountAtMost, Ascending;
    StreamIsConcat(t, blocks, 0, None);
    assert blocks[0..] == blocks;
    var i := RangeStart(t, start);
    StreamIsConcat(t, blocks, i, Some(start));
    if i > 0 {
      assert t.index[i].firstKey == blocks[i][0].key;
      SkippedBlocksLieBelow(blocks, i, start);
    }
  }

  lemma SkippedBlocksLieBelow(blocks: seq<seq<Entry>>, i: nat, start: Key)
    requires NonEmpty(blocks) && Ascending(Concat(blocks)) && 0 < i < |blocks| && !Less(start, blocks[i][0].key)
    ensures From(Concat(blocks), start) == From(Concat(blocks[i..]), start)
  {
    BlockBounds(blocks, i);
    ConcatSplit(blocks, i);
    assert blocks[i..][0] == blocks[i] && blocks[i..][1..] == blocks[i + 1..];
    var before := Concat(blocks[..i]);
    assert Concat(blocks[i..]) == blocks[i] + Concat(blocks[i + 1..]);
    hide Less, Concat, From, Ascending;
    forall a | 0 <= a < |before| ensures Less(before[a].key, start) {
      LessTotal(blocks[i][0].key, start);
      assert Less(before[a].key, blocks[i][0].key);
      if blocks[i][0].key != start { LessTransitive(before[a].key, blocks[i][0].key, start); }
    }
    FromNone(before, start);
    FromConcat(before, Concat(blocks[i..]), start);
  }
}
