/** The write-ahead log (src/storage/wal.rs). */
module Wals {
  import opened Octets
  import opened Bytes
  import opened Crc32s

  const HEADER_BYTES: nat := 8
  const TAG_PUT: byte := 0
  const TAG_TOMBSTONE: byte := 1
  const MAX_PAYLOAD_BYTES: nat := 64 * 1024 * 1024

  // ---------------------------------------------------------------------
  // The record format
  // ---------------------------------------------------------------------

  function Tag(v: Value): byte {
    if v.Put? then TAG_PUT else TAG_TOMBSTONE
  }

  function Payload(e: Entry): (r: seq<byte>)
    ensures |r| == 5 + |e.key| + |e.value.Payload()|
  {
    [Tag(e.value)] + U32Bytes(|e.key|) + e.key + e.value.Payload()
  }

  /** Records the log accepts. */
  predicate Fits(e: Entry) {
    |Payload(e)| <= MAX_PAYLOAD_BYTES
  }

  function Framed(payload: seq<byte>): (r: seq<byte>)
    ensures |r| == HEADER_BYTES + |payload|
  {
    U32Bytes(|payload|) + U32Bytes(Crc(payload)) + payload
  }

  function Record(e: Entry): seq<byte> {
    Framed(Payload(e))
  }

  function Log(entries: seq<Entry>): seq<byte> {
    if |entries| == 0 then [] else Record(entries[0]) + Log(entries[1..])
  }

  // ---------------------------------------------------------------------
  // Reading
  // ---------------------------------------------------------------------

  datatype RecordRead = Read(entry: Entry, bytes: nat) | CleanEnd | Unverifiable

  function DecodePayload(payload: seq<byte>): Option<Entry>
    requires |payload| >= 5
  {
    var keyEnd := 5 + FromLittleEndian(payload[1..5]);
    if keyEnd > |payload| then None
    else if payload[0] == TAG_PUT then Some(Entry(payload[5..keyEnd], Put(payload[keyEnd..])))
    else if payload[0] == TAG_TOMBSTONE && keyEnd == |payload| then Some(Entry(payload[5..keyEnd], Tombstone))
    else None
  }

  /** One record off the front of what is left to read. */
  function ReadRecord(rest: seq<byte>): RecordRead {
    if |rest| == 0 then CleanEnd
    else if |rest| < HEADER_BYTES then Unverifiable
    else
      var length := FromLittleEndian(rest[..4]);
      if length > MAX_PAYLOAD_BYTES || length < 5 || |rest| - HEADER_BYTES < length then Unverifiable
      else
        var payload := rest[8..8 + length];
        if Crc(payload) != FromLittleEndian(rest[4..8]) then Unverifiable
        else
          match DecodePayload(payload)
          case None => Unverifiable
          case Some(entry) => Read(entry, HEADER_BYTES + length)
  }

  datatype Replayed = Replayed(records: seq<Entry>, verified: nat)

  function ReplayOf(rest: seq<byte>): (r: Replayed)
    ensures r.verified <= |rest|
    decreases |rest|
  {
    match ReadRecord(rest)
    case Read(entry, n) =>
      ReadIsBounded(rest);
      var later := ReplayOf(rest[n..]);
      Replayed([entry] + later.records, n + later.verified)
    case _ => Replayed([], 0)
  }

  lemma ReadIsBounded(rest: seq<byte>)
    requires ReadRecord(rest).Read?
    ensures 8 < ReadRecord(rest).bytes <= |rest|
  {
    hide Crc, DecodePayload;
  }

  // ---------------------------------------------------------------------
  // The format reads back, and nothing else does
  // ---------------------------------------------------------------------

  lemma DecodesPayload(e: Entry)
    requires Fits(e)
    ensures DecodePayload(Payload(e)) == Some(e)
  {
    U32RoundTrip(|e.key|);
    hide LittleEndian, FromLittleEndian;
    var p := Payload(e);
    assert p[1..5] == U32Bytes(|e.key|);
    assert p[5..5 + |e.key|] == e.key;
    assert p[5 + |e.key|..] == e.value.Payload();
  }

  lemma EncodesPayload(payload: seq<byte>)
    requires |payload| >= 5 && DecodePayload(payload).Some?
    ensures Payload(DecodePayload(payload).value) == payload
  {
    EncodesDecoded(payload[1..5]);
    var e := DecodePayload(payload).value;
    DecodedParts(payload);
    hide LittleEndian, FromLittleEndian, DecodePayload;
    assert payload == [payload[0]] + payload[1..5] + payload[5..5 + |e.key|] + payload[5 + |e.key|..];
  }

  lemma DecodedParts(payload: seq<byte>)
    requires |payload| >= 5 && DecodePayload(payload).Some?
    ensures var e := DecodePayload(payload).value;
            && |e.key| == FromLittleEndian(payload[1..5]) && 5 + |e.key| <= |payload|
            && e.key == payload[5..5 + |e.key|] && e.value.Payload() == payload[5 + |e.key|..]
               && Tag(e.value) == payload[0]
  {
    hide FromLittleEndian;
  }

  lemma ReadsFramed(payload: seq<byte>, rest: seq<byte>)
    requires |payload| < U32
    ensures FromLittleEndian((Framed(payload) + rest)[..4]) == |payload|
    ensures FromLittleEndian((Framed(payload) + rest)[4..8]) == Crc(payload)
    ensures (Framed(payload) + rest)[8..8 + |payload|] == payload
  {
    U32RoundTrip(|payload|);
    U32RoundTrip(Crc(payload));
    hide LittleEndian, FromLittleEndian, Crc;
    var b := Framed(payload) + rest;
    assert b[..4] == U32Bytes(|payload|);
    assert b[4..8] == U32Bytes(Crc(payload));
  }

  /** An appended record reads back, whatever follows it. */
  lemma ReadsRecord(e: Entry, rest: seq<byte>)
    requires Fits(e)
    ensures ReadRecord(Record(e) + rest) == Read(e, |Record(e)|)
  {
    hide Payload, Crc, FromLittleEndian, Framed;
    ReadsFramed(Payload(e), rest);
    DecodesPayload(e);
    hide DecodePayload;
  }

  /** Whatever reads as a record is the encoding of that record. */
  lemma ReadBytesAreRecord(rest: seq<byte>)
    requires ReadRecord(rest).Read?
    ensures var r := ReadRecord(rest);
            && r.bytes <= |rest| && Fits(r.entry) && rest[..r.bytes] == Record(r.entry)
  {
    hide LittleEndian, FromLittleEndian, Crc, DecodePayload, Payload, U32Bytes;
    var length := FromLittleEndian(rest[..4]);
    var payload := rest[8..8 + length];
    EncodesPayload(payload);
    U32Encodes(rest[..4]);
    U32Encodes(rest[4..8]);
    assert rest[..8 + length] == rest[..4] + rest[4..8] + payload;
  }

  /** No record is a proper prefix of another. */
  lemma PrefixFree(e: Entry, f: Entry)
    requires Fits(e) && Fits(f) && Record(e) <= Record(f)
    ensures e == f
  {
    var rest := Record(f)[|Record(e)|..];
    assert Record(f) == Record(e) + rest;
    assert Record(f) == Record(f) + [];
    hide Record, ReadRecord, Fits;
    ReadsRecord(e, rest);
    ReadsRecord(f, []);
  }

  // ---------------------------------------------------------------------
  // Replay
  // ---------------------------------------------------------------------

  ghost predicate AllFit(entries: seq<Entry>) {
    forall i :: 0 <= i < |entries| ==> Fits(entries[i])
  }

  /** For any bytes: the verified part is exactly the log of the replayed records, and what follows
      does not start with a record. */
  lemma {:induction false} ReplayIsLongestLog(bytes: seq<byte>)
    ensures var r := ReplayOf(bytes);
            && AllFit(r.records) && bytes[..r.verified] == Log(r.records)
            && !ReadRecord(bytes[r.verified..]).Read?
    decreases |bytes|
  {
    hide ReadRecord, Record, Fits;
    match ReadRecord(bytes)
    case Read(entry, n) =>
      ReadBytesAreRecord(bytes);
      ReadIsBounded(bytes);
      ReplayIsLongestLog(bytes[n..]);
      var later := ReplayOf(bytes[n..]);
      assert bytes[..n + later.verified] == bytes[..n] + bytes[n..][..later.verified];
      assert bytes[n + later.verified..] == bytes[n..][later.verified..];
      assert ReplayOf(bytes).records[1..] == later.records;
    case _ => assert bytes[0..] == bytes;
  }

  /** A log followed by anything that is not a record replays as that log. */
  lemma {:induction false} ReplaysLog(entries: seq<Entry>, tail: seq<byte>)
    requires AllFit(entries) && !ReadRecord(tail).Read?
    ensures ReplayOf(Log(entries) + tail) == Replayed(entries, |Log(entries)|)
  {
    hide ReadRecord, Record, Fits;
    if |entries| == 0 {
      assert Log(entries) + tail == tail;
    } else {
      var rest := Log(entries[1..]) + tail;
      assert Log(entries) + tail == Record(entries[0]) + rest;
      ReadsRecord(entries[0], rest);
      assert (Log(entries) + tail)[|Record(entries[0])|..] == rest;
      ReplaysLog(entries[1..], tail);
    }
  }

  lemma {:induction false} LogConcat(a: seq<Entry>, b: seq<Entry>)
    ensures Log(a + b) == Log(a) + Log(b)
  {
    hide Record;
    if |a| == 0 {
      assert a + b == b;
    } else {
      assert (a + b)[0] == a[0] && (a + b)[1..] == a[1..] + b;
      LogConcat(a[1..], b);
    }
  }

  lemma NothingReadsFromNothing()
    ensures !ReadRecord([]).Read?
  {}

  /** A record cut short does not read. */
  lemma CutRecordDoesNotRead(e: Entry, n: nat)
    requires Fits(e) && n < |Record(e)|
    ensures !ReadRecord(Record(e)[..n]).Read?
  {
    hide ReadRecord, Record, Fits;
    var cut := Record(e)[..n];
    if ReadRecord(cut).Read? {
      ReadBytesAreRecord(cut);
      var f := ReadRecord(cut);
      assert Record(f.entry) == Record(e)[..f.bytes];
      PrefixFree(f.entry, e);
      assert false;
    }
  }

  /** How many records lie wholly inside the first n bytes. */
  function WholeRecords(entries: seq<Entry>, n: nat): (k: nat)
    ensures k <= |entries|
  {
    if |entries| == 0 || n < |Record(entries[0])| then 0
    else 1 + WholeRecords(entries[1..], n - |Record(entries[0])|)
  }

  lemma {:induction false} WholeRecordsAreMost(entries: seq<Entry>, n: nat, k: nat)
    requires k <= |entries|
    ensures k <= WholeRecords(entries, n) <==> |Log(entries[..k])| <= n
  {
    hide Record;
    if k != 0 {
      assert entries[..k][1..] == entries[1..][..k - 1];
      if n >= |Record(entries[0])| {
        WholeRecordsAreMost(entries[1..], n - |Record(entries[0])|, k - 1);
      }
    }
  }

  /** Torn tails: after any byte prefix, exactly the records wholly inside it are replayed. */
  lemma {:induction false} TornLogReplaysWholeRecords(entries: seq<Entry>, n: nat)
    requires AllFit(entries) && n <= |Log(entries)|
    ensures var k := WholeRecords(entries, n);
            ReplayOf(Log(entries)[..n]) == Replayed(entries[..k], |Log(entries[..k])|)
  {
    hide Record, ReadRecord, Fits;
    if |entries| == 0 {
      NothingReadsFromNothing();
    } else {
      var first := Record(entries[0]);
      if n < |first| {
        assert Log(entries)[..n] == first[..n];
        CutRecordDoesNotRead(entries[0], n);
      } else {
        var rest := Log(entries[1..])[..n - |first|];
        assert Log(entries)[..n] == first + rest;
        ReadsRecord(entries[0], rest);
        assert Log(entries)[..n][|first|..] == rest;
        TornLogReplaysWholeRecords(entries[1..], n - |first|);
        var k := WholeRecords(entries[1..], n - |first|);
        assert entries[..k + 1][1..] == entries[1..][..k] && entries[..k + 1][0] == entries[0];
      }
    }
  }

  /** What `recover` leaves behind, for any bytes, is a log to which further records can be added. */
  lemma RecoveredLogGrows(bytes: seq<byte>, later: seq<Entry>)
    requires AllFit(later)
    ensures ReplayOf(bytes[..ReplayOf(bytes).verified] + Log(later)).records == ReplayOf(bytes).records + later
    ensures ReplayOf(bytes[..ReplayOf(bytes).verified] + Log(later)).verified
         == ReplayOf(bytes).verified + |Log(later)|
  {
    hide Log, ReplayOf, ReadRecord, Fits;
    var r := ReplayOf(bytes);
    ReplayIsLongestLog(bytes);
    LogConcat(r.records, later);
    NothingReadsFromNothing();
    ReplaysLog(r.records + later, []);
    assert Log(r.records + later) + [] == Log(r.records + later);
  }

  // ---------------------------------------------------------------------
  // Damage
  // ---------------------------------------------------------------------

  /** A payload changed within four consecutive bytes fails its checksum, and replay stops right there. */
  lemma DamagedPayloadStopsReplay(before: seq<Entry>, e: Entry, damaged: seq<byte>, i: nat, rest: seq<byte>)
    requires AllFit(before) && Fits(e) && |damaged| == |Payload(e)| && damaged != Payload(e)
    requires forall p :: 0 <= p < |damaged| && damaged[p] != Payload(e)[p] ==> i <= p < i + 4
    ensures ReplayOf(Log(before) + (U32Bytes(|damaged|) + U32Bytes(Crc(Payload(e))) + damaged + rest))
         == Replayed(before, |Log(before)|)
  {
    var tail := U32Bytes(|damaged|) + U32Bytes(Crc(Payload(e))) + damaged + rest;
    U32RoundTrip(|damaged|);
    U32RoundTrip(Crc(Payload(e)));
    hide LittleEndian, FromLittleEndian, Checksum;
    BurstIsDetected(Payload(e), damaged, i);
    if Crc(Payload(e)) == Crc(damaged) { CrcInjective(Payload(e), damaged); }
    hide Crc, Payload, DecodePayload;
    assert tail[..4] == U32Bytes(|damaged|) && tail[4..8] == U32Bytes(Crc(Payload(e)));
    assert tail[8..8 + |damaged|] == damaged;
    assert !ReadRecord(tail).Read?;
    hide ReadRecord;
    ReplaysLog(before, tail);
  }

  // ---------------------------------------------------------------------
  // The log as the engine holds it
  // ---------------------------------------------------------------------

  method Replay(bytes: seq<byte>) returns (records: seq<Entry>, discarded: nat)
    ensures records == ReplayOf(bytes).records && discarded == |bytes| - ReplayOf(bytes).verified
  {
    hide ReadRecord;
    var verified := 0;
    records := [];
    while true
      invariant verified <= |bytes|
      invariant records + ReplayOf(bytes[verified..]).records == ReplayOf(bytes).records
      invariant verified + ReplayOf(bytes[verified..]).verified == ReplayOf(bytes).verified
      decreases |bytes| - verified
    {
      var read := ReadRecord(bytes[verified..]);
      if !read.Read? { break; }
      ReadIsBounded(bytes[verified..]);
      assert bytes[verified..][read.bytes..] == bytes[verified + read.bytes..];
      records := records + [read.entry];
      verified := verified + read.bytes;
    }
    discarded := |bytes| - verified;
  }

  /** `file` is what the operating system holds, `buffer` what is still in user space. */
  class Wal {
    const everyWrite: bool
    var file: seq<byte>
    var buffer: seq<byte>
    var bytesWritten: nat
    ghost var records: seq<Entry>

    ghost predicate Valid()
      reads this
    {
      && AllFit(records) && file + buffer == Log(records) && bytesWritten == |Log(records)|
      && (everyWrite ==> buffer == [])
    }

    constructor Over(file: seq<byte>, everyWrite: bool, ghost records: seq<Entry>)
      requires AllFit(records) && file == Log(records)
      ensures Valid() && this.records == records && this.file == file && this.everyWrite == everyWrite
    {
      this.everyWrite, this.file, buffer := everyWrite, file, [];
      bytesWritten := |file|;
      this.records := records;
    }

    /** A buffered write: any part of the buffer, in order, may reach the operating system. */
    method WriteAll(bytes: seq<byte>)
      modifies this`file, this`buffer
      ensures file + buffer == old(file + buffer) + bytes && old(file) <= file
    {
      buffer := buffer + bytes;
      var spilled: nat :| spilled <= |buffer|;
      file, buffer := file + buffer[..spilled], buffer[spilled..];
    }

    method Sync()
      requires file + buffer == Log(records)
      modifies this`file, this`buffer
      ensures buffer == [] && file == Log(records)
    {
      file, buffer := file + buffer, [];
    }

    /** Either the record is refused and nothing changes, or it is the log's next record. */
    method Append(e: Entry) returns (ok: bool)
      requires Valid()
      modifies this
      ensures Valid() && ok == Fits(e)
      ensures records == if ok then old(records) + [e] else old(records)
      ensures old(file) <= file && (!ok ==> file == old(file) && buffer == old(buffer))
      ensures ok && everyWrite ==> file == Log(records)
    {
      RecordParts(e);
      hide Tag, LittleEndian, Crc, Log, Payload, U32Bytes, Record;
      if 1 + 4 + |e.key| + |e.value.Payload()| > MAX_PAYLOAD_BYTES { return false; }
      var crc := PayloadChecksum(e);
      ghost var before := file + buffer;
      WriteAll(U32Bytes(1 + 4 + |e.key| + |e.value.Payload()|));
      WriteAll(U32Bytes(crc));
      WriteAll([Tag(e.value)]);
      WriteAll(U32Bytes(|e.key|));
      WriteAll(e.key);
      WriteAll(e.value.Payload());
      assert file + buffer == before + Record(e);
      bytesWritten := bytesWritten + (HEADER_BYTES + 1 + 4 + |e.key| + |e.value.Payload()|);
      LogConcat(records, [e]);
      LogOfOne(e);
      records := records + [e];
      if everyWrite { Sync(); }
      return true;
    }

    method PayloadChecksum(e: Entry) returns (crc: nat)
      ensures crc == Crc(Payload(e))
    {
      PayloadParts(e);
      hide Checksum, LittleEndian, Payload, U32Bytes, Tag;
      var checksum := new Crc32();
      checksum.Add([Tag(e.value)]);
      checksum.Add(U32Bytes(|e.key|));
      checksum.Add(e.key);
      checksum.Add(e.value.Payload());
      assert checksum.seen == Payload(e);
      var finished := checksum.Finish();
      crc := finished as nat;
    }
  }

  lemma PayloadParts(e: Entry)
    ensures [] + [Tag(e.value)] + U32Bytes(|e.key|) + e.key + e.value.Payload() == Payload(e)
  {
    hide LittleEndian, U32Bytes, Tag;
  }

  lemma RecordParts(e: Entry)
    ensures |Payload(e)| == 1 + 4 + |e.key| + |e.value.Payload()|
    ensures forall before: seq<byte> ::
              before + U32Bytes(|Payload(e)|) + U32Bytes(Crc(Payload(e))) + [Tag(e.value)] + U32Bytes(|e.key|) + e.key
              + e.value.Payload() == before + Record(e)
  {
    hide LittleEndian, U32Bytes, Tag, Crc;
  }

  lemma LogOfOne(e: Entry)
    ensures Log([e]) == Record(e)
  {
    hide Record;
    assert Log([e]) == Record(e) + Log([]);
  }

  /** A process crash at any moment leaves some prefix of the log that contains the whole file. What was
      written before the last sync is replayed in full, and nothing is replayed out of order. */
  lemma CrashKeepsSyncedRecords(records: seq<Entry>, synced: nat, n: nat)
    requires AllFit(records) && synced <= |records| && |Log(records[..synced])| <= n <= |Log(records)|
    ensures records[..synced] <= ReplayOf(Log(records)[..n]).records <= records
  {
    hide Log, Fits, ReplayOf, Record;
    TornLogReplaysWholeRecords(records, n);
    WholeRecordsAreMost(records, n, synced);
    assert records[..WholeRecords(records, n)][..synced] == records[..synced];
  }

  /** Open a log, whatever a crash left in its file; a missing file is an empty log. The torn tail is cut
      off, and what is appended from then on follows the survivors. */
  method Recover(stored: Option<seq<byte>>, everyWrite: bool) returns (wal: Wal, replayed: seq<Entry>)
    ensures wal.Valid() && fresh(wal) && wal.everyWrite == everyWrite
    ensures replayed == ReplayOf(if stored.Some? then stored.value else []).records
    ensures wal.records == replayed && wal.file == Log(replayed)
    ensures stored.Some? ==> wal.file <= stored.value
  {
    hide ReplayOf, Log, Fits;
    var bytes := if stored.Some? then stored.value else [];
    var discarded;
    replayed, discarded := Replay(bytes);
    ReplayIsLongestLog(bytes);
    if discarded > 0 { bytes := bytes[..|bytes| - discarded]; }
    wal := new Wal.Over(bytes, everyWrite, replayed);
  }
}
