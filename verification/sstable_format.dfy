/** The file format of a sorted string table: blocks, sparse index, filter and footer (src/storage/sstable.rs). */
module SSTableFormat {
  import opened Octets
  import opened Bytes
  import opened Crc32s
  import Blooms

  const BLOCK_CRC_BYTES: nat := 4
  const FOOTER_BYTES: nat := 44
  const MAGIC: nat := 0x5353_5442_4456_0001
  const TAG_PUT: byte := 0
  const TAG_TOMBSTONE: byte := 1
  const MAX_ENTRY_BYTES: nat := 64 * 1024 * 1024

  /** The first key of a block and where the block lies; the length includes its checksum. */
  datatype IndexEntry = IndexEntry(firstKey: Key, offset: nat, length: nat)

  // ---------------------------------------------------------------------
  // Entries
  // ---------------------------------------------------------------------

  function EncodeEntry(e: Entry): (r: seq<byte>)
    ensures |r| == 9 + |e.key| + |e.value.Payload()|
  {
    [if e.value.Put? then TAG_PUT else TAG_TOMBSTONE] + U32Bytes(|e.key|) + U32Bytes(|e.value.Payload()|)
    + e.key + e.value.Payload()
  }

  function EncodeBlock(entries: seq<Entry>): seq<byte> {
    if |entries| == 0 then [] else EncodeEntry(entries[0]) + EncodeBlock(entries[1..])
  }

  /** Entries short enough for the reader. */
  predicate Readable(e: Entry) {
    |e.key| <= MAX_ENTRY_BYTES && |e.value.Payload()| <= MAX_ENTRY_BYTES
  }

  ghost predicate AllReadable(entries: seq<Entry>) {
    forall i :: 0 <= i < |entries| ==> Readable(entries[i])
  }

  /** One entry off the front of a block, and how many bytes it took. */
  function DecodeEntry(bytes: seq<byte>): (r: Result<(Entry, nat)>)
    ensures r.Ok? ==> 9 <= r.value.1 <= |bytes|
  {
    if |bytes| < 9 then Err
    else
      var keyLen, valueLen := FromLittleEndian(bytes[1..5]), FromLittleEndian(bytes[5..9]);
      if keyLen > MAX_ENTRY_BYTES || valueLen > MAX_ENTRY_BYTES then Err
      else
        var keyEnd, valueEnd := 9 + keyLen, 9 + keyLen + valueLen;
        if valueEnd > |bytes| then Err
        else if bytes[0] == TAG_PUT then Ok((Entry(bytes[9..keyEnd], Put(bytes[keyEnd..valueEnd])), valueEnd))
        else if bytes[0] == TAG_TOMBSTONE && valueLen == 0 then Ok((Entry(bytes[9..keyEnd], Tombstone), valueEnd))
        else Err
  }

  function DecodeBlock(bytes: seq<byte>): Result<seq<Entry>>
    decreases |bytes|
  {
    if |bytes| == 0 then Ok([])
    else
      match DecodeEntry(bytes)
      case Err => Err
      case Ok((entry, n)) =>
        match DecodeBlock(bytes[n..])
        case Err => Err
        case Ok(later) => Ok([entry] + later)
  }

  lemma DecodesEntry(e: Entry, rest: seq<byte>)
    requires Readable(e)
    ensures DecodeEntry(EncodeEntry(e) + rest) == Ok((e, |EncodeEntry(e)|))
  {
    U32RoundTrip(|e.key|);
    U32RoundTrip(|e.value.Payload()|);
    hide LittleEndian, FromLittleEndian, U32Bytes, EncodeEntry, DecodeEntry;
    EntryParts(e, rest);
    DecodesParts(EncodeEntry(e) + rest, e);
  }

  lemma DecodesParts(b: seq<byte>, e: Entry)
    requires Readable(e) && |b| >= 9 + |e.key| + |e.value.Payload()|
    requires b[0] == if e.value.Put? then TAG_PUT else TAG_TOMBSTONE
    requires FromLittleEndian(b[1..5]) == |e.key| && FromLittleEndian(b[5..9]) == |e.value.Payload()|
    requires b[9..9 + |e.key|] == e.key && b[9 + |e.key|..9 + |e.key| + |e.value.Payload()|] == e.value.Payload()
    ensures DecodeEntry(b) == Ok((e, 9 + |e.key| + |e.value.Payload()|))
  {
    hide FromLittleEndian;
  }

  lemma EntryParts(e: Entry, rest: seq<byte>)
    ensures var b := EncodeEntry(e) + rest;
            && b[0] == (if e.value.Put? then TAG_PUT else TAG_TOMBSTONE)
            && b[1..5] == U32Bytes(|e.key|) && b[5..9] == U32Bytes(|e.value.Payload()|)
            && b[9..9 + |e.key|] == e.key && b[9 + |e.key|..9 + |e.key| + |e.value.Payload()|] == e.value.Payload()
  {
    hide LittleEndian, U32Bytes;
    FiveParts(if e.value.Put? then TAG_PUT else TAG_TOMBSTONE, U32Bytes(|e.key|), U32Bytes(|e.value.Payload()|), e.key,
              e.value.Payload(), rest);
  }

  lemma FiveParts(tag: byte, a: seq<byte>, b: seq<byte>, key: seq<byte>, value: seq<byte>, rest: seq<byte>)
    requires |a| == |b| == 4
    ensures var all := [tag] + a + b + key + value + rest;
            && all[0] == tag && all[1..5] == a && all[5..9] == b && all[9..9 + |key|] == key
            && all[9 + |key|..9 + |key| + |value|] == value
  {
    var all := [tag] + a + b + key + value + rest;
    assert all[1..5] == a;
    assert all[5..9] == b;
    assert all[9..9 + |key|] == key;
    assert all[9 + |key|..9 + |key| + |value|] == value;
  }

  lemma {:induction false} DecodesBlock(entries: seq<Entry>)
    requires AllReadable(entries)
    ensures DecodeBlock(EncodeBlock(entries)) == Ok(entries)
  {
    hide DecodeEntry, EncodeEntry, Readable;
    if |entries| != 0 {
      var rest := EncodeBlock(entries[1..]);
      DecodesEntry(entries[0], rest);
      assert EncodeBlock(entries)[|EncodeEntry(entries[0])|..] == rest;
      DecodesBlock(entries[1..]);
      assert entries == [entries[0]] + entries[1..];
    }
  }

  lemma {:induction false} EncodeBlockConcat(a: seq<Entry>, b: seq<Entry>)
    ensures EncodeBlock(a + b) == EncodeBlock(a) + EncodeBlock(b)
  {
    hide EncodeEntry;
    if |a| == 0 {
      assert a + b == b;
    } else {
      assert (a + b)[0] == a[0] && (a + b)[1..] == a[1..] + b;
      EncodeBlockConcat(a[1..], b);
    }
  }

  lemma EncodeBlockOfOne(e: Entry)
    ensures EncodeBlock([e]) == EncodeEntry(e)
  {
    hide EncodeEntry;
    assert EncodeBlock([e]) == EncodeEntry(e) + EncodeBlock([]);
  }

  /** The reader's limit is not the writer's: an entry whose key or value is longer than the limit, but
      short enough for the length field, is written and never read back. */
  lemma OversizedEntryIsUnreadable(e: Entry, rest: seq<byte>)
    requires |e.key| < U32 && |e.value.Payload()| < U32
    ensures DecodeEntry(EncodeEntry(e) + rest).Ok? <==> Readable(e)
  {
    if Readable(e) {
      DecodesEntry(e, rest);
    } else {
      U32RoundTrip(|e.key|);
      U32RoundTrip(|e.value.Payload()|);
      hide LittleEndian, FromLittleEndian;
      var b := EncodeEntry(e) + rest;
      assert b[1..5] == U32Bytes(|e.key|) && b[5..9] == U32Bytes(|e.value.Payload()|);
    }
  }

  /** A key of one byte more than the reader takes. */
  const OVERSIZED: Entry := Entry(seq(MAX_ENTRY_BYTES + 1, i => 0), Tombstone)

  /** The writer accepts it, and nothing that its encoding may be followed by makes it decode. */
  lemma OneByteTooMany(rest: seq<byte>)
    ensures |OVERSIZED.key| < U32 && |OVERSIZED.value.Payload()| < U32
    ensures DecodeEntry(EncodeEntry(OVERSIZED) + rest).Err?
    ensures DecodeEntry(EncodeEntry(Entry(OVERSIZED.key[1..], Tombstone)) + rest).Ok?
  {
    hide EncodeEntry, DecodeEntry;
    OversizedEntryIsUnreadable(OVERSIZED, rest);
    OversizedEntryIsUnreadable(Entry(OVERSIZED.key[1..], Tombstone), rest);
  }

  // ---------------------------------------------------------------------
  // Checksummed sections
  // ---------------------------------------------------------------------

  function Checked(payload: seq<byte>): (r: seq<byte>)
    ensures |r| == |payload| + BLOCK_CRC_BYTES
  {
    payload + U32Bytes(Crc(payload))
  }

  function ReadChecked(file: seq<byte>, offset: nat, length: nat): Result<seq<byte>> {
    if length < BLOCK_CRC_BYTES || offset + length > |file| then Err
    else
      var split := offset + length - BLOCK_CRC_BYTES;
      if Crc(file[offset..split]) != FromLittleEndian(file[split..offset + length]) then Err
      else Ok(file[offset..split])
  }

  lemma ReadsChecked(before: seq<byte>, payload: seq<byte>, after: seq<byte>)
    ensures ReadChecked(before + (Checked(payload) + after), |before|, |Checked(payload)|) == Ok(payload)
  {
    U32RoundTrip(Crc(payload));
    hide LittleEndian, FromLittleEndian, Crc;
    var file := before + (Checked(payload) + after);
    assert file[|before|..|before| + |payload|] == payload;
    assert file[|before| + |payload|..|before| + |payload| + 4] == U32Bytes(Crc(payload));
  }

  // ---------------------------------------------------------------------
  // The sparse index
  // ---------------------------------------------------------------------

  function EncodeIndexEntry(x: IndexEntry): (r: seq<byte>)
    ensures |r| == 16 + |x.firstKey|
  {
    U32Bytes(|x.firstKey|) + x.firstKey + U64Bytes(x.offset) + U32Bytes(x.length)
  }

  function EncodeIndex(index: seq<IndexEntry>): seq<byte> {
    if |index| == 0 then [] else EncodeIndexEntry(index[0]) + EncodeIndex(index[1..])
  }

  function DecodeIndexEntry(bytes: seq<byte>): (r: Result<(IndexEntry, nat)>)
    ensures r.Ok? ==> 16 <= r.value.1 <= |bytes|
  {
    if |bytes| < 4 then Err
    else
      var keyEnd := 4 + FromLittleEndian(bytes[..4]);
      if keyEnd + 12 > |bytes| then Err
      else Ok((IndexEntry(bytes[4..keyEnd], FromLittleEndian(bytes[keyEnd..keyEnd + 8]),
                          FromLittleEndian(bytes[keyEnd + 8..keyEnd + 12])), keyEnd + 12))
  }

  function DecodeIndex(bytes: seq<byte>): Result<seq<IndexEntry>>
    decreases |bytes|
  {
    if |bytes| == 0 then Ok([])
    else
      match DecodeIndexEntry(bytes)
      case Err => Err
      case Ok((entry, n)) =>
        match DecodeIndex(bytes[n..])
        case Err => Err
        case Ok(later) => Ok([entry] + later)
  }

  predicate FitsIndex(x: IndexEntry) {
    |x.firstKey| < U32 && x.offset < U64 && x.length < U32
  }

  lemma DecodesIndexEntry(x: IndexEntry, rest: seq<byte>)
    requires FitsIndex(x)
    ensures DecodeIndexEntry(EncodeIndexEntry(x) + rest) == Ok((x, |EncodeIndexEntry(x)|))
  {
    U32RoundTrip(|x.firstKey|);
    U64RoundTrip(x.offset);
    U32RoundTrip(x.length);
    hide LittleEndian, FromLittleEndian;
    var b, n := EncodeIndexEntry(x) + rest, 4 + |x.firstKey|;
    assert b[..4] == U32Bytes(|x.firstKey|) && b[4..n] == x.firstKey;
    assert b[n..n + 8] == U64Bytes(x.offset) && b[n + 8..n + 12] == U32Bytes(x.length);
  }

  lemma {:induction false} DecodesIndex(index: seq<IndexEntry>)
    requires forall i :: 0 <= i < |index| ==> FitsIndex(index[i])
    ensures DecodeIndex(EncodeIndex(index)) == Ok(index)
  {
    hide DecodeIndexEntry, EncodeIndexEntry, FitsIndex;
    if |index| != 0 {
      var rest := EncodeIndex(index[1..]);
      DecodesIndexEntry(index[0], rest);
      assert EncodeIndex(index)[|EncodeIndexEntry(index[0])|..] == rest;
      DecodesIndex(index[1..]);
      assert index == [index[0]] + index[1..];
    }
  }

  lemma {:induction false} EncodeIndexConcat(a: seq<IndexEntry>, b: seq<IndexEntry>)
    ensures EncodeIndex(a + b) == EncodeIndex(a) + EncodeIndex(b)
  {
    hide EncodeIndexEntry;
    if |a| == 0 {
      assert a + b == b;
    } else {
      assert (a + b)[0] == a[0] && (a + b)[1..] == a[1..] + b;
      EncodeIndexConcat(a[1..], b);
    }
  }

  lemma EncodeIndexOfOne(x: IndexEntry)
    ensures EncodeIndex([x]) == EncodeIndexEntry(x)
  {
    hide EncodeIndexEntry;
    assert EncodeIndex([x]) == EncodeIndexEntry(x) + EncodeIndex([]);
  }

  // ---------------------------------------------------------------------
  // The footer
  // ---------------------------------------------------------------------

  datatype Footer = Footer(indexOffset: nat, indexLength: nat, bloomOffset: nat, bloomLength: nat, entryCount: nat) {
    predicate Fits() {
      indexOffset < U64 && indexLength < U32 && bloomOffset < U64 && bloomLength < U32 && entryCount < U64
    }

    function Fields(): (r: seq<byte>)
      ensures |r| == 32
    {
      U64Bytes(indexOffset) + U32Bytes(indexLength) + U64Bytes(bloomOffset) + U32Bytes(bloomLength)
        + U64Bytes(entryCount)
    }

    function Encode(): (r: seq<byte>)
      ensures |r| == FOOTER_BYTES
    {
      Fields() + U32Bytes(Crc(Fields())) + U64Bytes(MAGIC)
    }
  }

  function DecodeFooter(bytes: seq<byte>): Result<Footer>
    requires |bytes| == FOOTER_BYTES
  {
    if FromLittleEndian(bytes[36..44]) != MAGIC then Err
    else if Crc(bytes[..32]) != FromLittleEndian(bytes[32..36]) then Err
    else Ok(DecodeFields(bytes[..32]))
  }

  function DecodeFields(bytes: seq<byte>): Footer
    requires |bytes| == 32
  {
    Footer(FromLittleEndian(bytes[0..8]), FromLittleEndian(bytes[8..12]), FromLittleEndian(bytes[12..20]),
           FromLittleEndian(bytes[20..24]), FromLittleEndian(bytes[24..32]))
  }

  lemma DecodesFields(f: Footer)
    requires f.Fits()
    ensures DecodeFields(f.Fields()) == f
  {
    U64RoundTrip(f.indexOffset);
    U32RoundTrip(f.indexLength);
    U64RoundTrip(f.bloomOffset);
    U32RoundTrip(f.bloomLength);
    U64RoundTrip(f.entryCount);
    hide LittleEndian, FromLittleEndian;
    var b := f.Fields();
    assert b[0..8] == U64Bytes(f.indexOffset) && b[8..12] == U32Bytes(f.indexLength);
    assert b[12..20] == U64Bytes(f.bloomOffset) && b[20..24] == U32Bytes(f.bloomLength);
    assert b[24..32] == U64Bytes(f.entryCount);
  }

  lemma DecodesFooter(f: Footer)
    requires f.Fits()
    ensures DecodeFooter(f.Encode()) == Ok(f)
  {
    U32RoundTrip(Crc(f.Fields()));
    U64RoundTrip(MAGIC);
    hide LittleEndian, FromLittleEndian, Crc, U32Bytes, U64Bytes;
    hide DecodeFields, Footer.Fields, Footer.Fits, Footer.Encode;
    DecodesFields(f);
    FooterParts(f);
  }

  lemma FooterParts(f: Footer)
    ensures var b := f.Encode();
            b[..32] == f.Fields() && b[32..36] == U32Bytes(Crc(f.Fields())) && b[36..44] == U64Bytes(MAGIC)
  {
    hide LittleEndian, Crc, U32Bytes, U64Bytes, Footer.Fields;
    ThreeParts(f.Fields(), U32Bytes(Crc(f.Fields())), U64Bytes(MAGIC));
  }

  lemma ThreeParts(a: seq<byte>, b: seq<byte>, c: seq<byte>)
    ensures var all := a + b + c;
            all[..|a|] == a && all[|a|..|a| + |b|] == b && all[|a| + |b|..|a| + |b| + |c|] == c
  {}
}
