/** The append-only value log and the tagging of stored values (src/storage/vlog.rs, src/storage/lsm.rs). */
module ValueLogs {
  import opened Octets
  import opened Bytes
  import opened Crc32s

  const HEADER_BYTES: nat := 8
  const ENCODED_BYTES: nat := 12
  const VALUE_INLINE: byte := 0
  const VALUE_SEPARATED: byte := 1

  datatype ValuePointer = ValuePointer(offset: nat, len: nat) {
    predicate Valid() { offset < U64 && len < U32 }

    function Encode(): (r: seq<byte>)
      ensures |r| == ENCODED_BYTES
    {
      U64Bytes(offset) + U32Bytes(len)
    }
  }

  function DecodePointer(bytes: seq<byte>): Option<ValuePointer> {
    if |bytes| != ENCODED_BYTES then None
    else Some(ValuePointer(FromLittleEndian(bytes[..8]), FromLittleEndian(bytes[8..])))
  }

  lemma PointerRoundTrip(p: ValuePointer)
    requires p.Valid()
    ensures DecodePointer(p.Encode()) == Some(p)
  {
    U64RoundTrip(p.offset);
    U32RoundTrip(p.len);
    hide LittleEndian, FromLittleEndian;
    assert p.Encode()[..8] == U64Bytes(p.offset) && p.Encode()[8..] == U32Bytes(p.len);
  }

  // ---------------------------------------------------------------------
  // Records
  // ---------------------------------------------------------------------

  /** The checksum covers the length and the payload. */
  function RecordOf(value: seq<byte>): (r: seq<byte>)
    ensures |r| == HEADER_BYTES + |value|
  {
    U32Bytes(Crc(U32Bytes(|value|) + value)) + U32Bytes(|value|) + value
  }

  function LogOf(values: seq<seq<byte>>): seq<byte> {
    if |values| == 0 then [] else RecordOf(values[0]) + LogOf(values[1..])
  }

  ghost predicate AllFit(values: seq<seq<byte>>) {
    forall i :: 0 <= i < |values| ==> |values[i]| < U32
  }

  /** Read the record at an offset; the stated length is the record's own. */
  function RecordAt(file: seq<byte>, offset: nat): Result<seq<byte>> {
    if offset + HEADER_BYTES > |file| then Err
    else
      var len := FromLittleEndian(file[offset + 4..offset + 8]);
      var end := offset + HEADER_BYTES + len;
      if end > |file| then Err
      else
        var payload := file[offset + 8..end];
        if Crc(file[offset + 4..offset + 8] + payload) != FromLittleEndian(file[offset..offset + 4]) then Err
        else Ok(payload)
  }

  function ReadPointer(file: seq<byte>, p: ValuePointer): Result<seq<byte>> {
    match RecordAt(file, p.offset)
    case Err => Err
    case Ok(payload) => if |payload| != p.len then Err else Ok(payload)
  }

  lemma RecordFields(value: seq<byte>, rest: seq<byte>)
    requires |value| < U32
    ensures var b := RecordOf(value) + rest;
            && b[4..8] == U32Bytes(|value|) && FromLittleEndian(b[4..8]) == |value| && b[8..8 + |value|] == value
            && FromLittleEndian(b[..4]) == Crc(U32Bytes(|value|) + value)
  {
    U32RoundTrip(|value|);
    U32RoundTrip(Crc(U32Bytes(|value|) + value));
    hide LittleEndian, FromLittleEndian, Crc;
    var b := RecordOf(value) + rest;
    assert b[..4] == U32Bytes(Crc(U32Bytes(|value|) + value));
    assert b[4..8] == U32Bytes(|value|);
  }

  /** A record reads back wherever it sits and whatever surrounds it. */
  lemma RecordReadsBack(before: seq<byte>, value: seq<byte>, after: seq<byte>)
    requires |value| < U32
    ensures RecordAt(before + (RecordOf(value) + after), |before|) == Ok(value)
  {
    hide LittleEndian, FromLittleEndian, Crc, U32Bytes;
    RecordFields(value, after);
    var b, file := RecordOf(value) + after, before + (RecordOf(value) + after);
    var at := |before|;
    assert file[at + 4..at + 8] == b[4..8] && file[at..at + 4] == b[..4];
    assert file[at + 8..at + 8 + |value|] == b[8..8 + |value|];
  }

  /** Whatever reads at an offset is an encoded record. */
  lemma ReadIsRecord(file: seq<byte>, offset: nat)
    requires RecordAt(file, offset).Ok?
    ensures var v := RecordAt(file, offset).value;
            && |v| < U32 && offset + HEADER_BYTES + |v| <= |file|
            && file[offset..offset + HEADER_BYTES + |v|] == RecordOf(v)
  {
    hide LittleEndian, FromLittleEndian, Crc, U32Bytes;
    var v := RecordAt(file, offset).value;
    var end := offset + HEADER_BYTES + |v|;
    U32Encodes(file[offset..offset + 4]);
    U32Encodes(file[offset + 4..offset + 8]);
    U32Fits(file[offset + 4..offset + 8]);
    assert file[offset..end] == file[offset..offset + 4] + file[offset + 4..offset + 8] + file[offset + 8..end];
  }

  // ---------------------------------------------------------------------
  // The intact prefix
  // ---------------------------------------------------------------------

  /** The longest run of whole records from an offset on. */
  function IntactFrom(file: seq<byte>, offset: nat): (end: nat)
    requires offset <= |file|
    ensures offset <= end <= |file|
    decreases |file| - offset
  {
    match RecordAt(file, offset)
    case Err => offset
    case Ok(payload) => IntactFrom(file, offset + HEADER_BYTES + |payload|)
  }

  lemma {:induction false} IntactIsLog(file: seq<byte>, offset: nat) returns (values: seq<seq<byte>>)
    requires offset <= |file|
    ensures AllFit(values) && file[offset..IntactFrom(file, offset)] == LogOf(values)
    decreases |file| - offset
  {
    hide RecordOf;
    if RecordAt(file, offset).Ok? {
      ReadIsRecord(file, offset);
      hide RecordAt;
      var v := RecordAt(file, offset).value;
      var next := offset + HEADER_BYTES + |v|;
      var later := IntactIsLog(file, next);
      values := [v] + later;
      assert values[1..] == later;
      assert file[offset..IntactFrom(file, offset)] == file[offset..next] + file[next..IntactFrom(file, next)];
    } else {
      values := [];
      assert file[offset..offset] == [];
    }
  }

  lemma {:induction false} LogConcat(a: seq<seq<byte>>, b: seq<seq<byte>>)
    ensures LogOf(a + b) == LogOf(a) + LogOf(b)
  {
    hide RecordOf;
    if |a| == 0 {
      assert a + b == b;
    } else {
      assert (a + b)[0] == a[0] && (a + b)[1..] == a[1..] + b;
      LogConcat(a[1..], b);
    }
  }

  /** Where the i-th value sits. */
  function PointerTo(values: seq<seq<byte>>, i: nat): ValuePointer
    requires i < |values|
  {
    ValuePointer(|LogOf(values[..i])|, |values[i]|)
  }

  /** Every pointer reads its value, however much is appended later. */
  lemma PointersStayReadable(values: seq<seq<byte>>, i: nat, later: seq<byte>)
    requires AllFit(values) && i < |values|
    ensures ReadPointer(LogOf(values) + later, PointerTo(values, i)) == Ok(values[i])
  {
    hide RecordOf, RecordAt, LogOf, AllFit;
    SplitLog(values, i);
    Fits(values, i);
    var before, record, after := LogOf(values[..i]), RecordOf(values[i]), LogOf(values[i + 1..]);
    assert before + (record + after) + later == before + (record + (after + later));
    RecordReadsBack(before, values[i], after + later);
  }

  lemma Fits(values: seq<seq<byte>>, i: nat)
    requires AllFit(values) && i < |values|
    ensures |values[i]| < U32
  {}

  lemma SplitLog(values: seq<seq<byte>>, i: nat)
    requires i < |values|
    ensures LogOf(values) == LogOf(values[..i]) + (RecordOf(values[i]) + LogOf(values[i + 1..]))
  {
    hide RecordOf, LogOf;
    FirstRecord(values[i..]);
    assert values == values[..i] + values[i..];
    assert values[i..][0] == values[i] && values[i..][1..] == values[i + 1..];
    LogConcat(values[..i], values[i..]);
  }

  lemma FirstRecord(values: seq<seq<byte>>)
    requires |values| > 0
    ensures LogOf(values) == RecordOf(values[0]) + LogOf(values[1..])
  {}

  lemma LogOfOne(v: seq<byte>)
    ensures LogOf([v]) == RecordOf(v)
  {
    hide RecordOf;
    assert LogOf([v]) == RecordOf(v) + LogOf([]);
  }

  function WholeRecords(values: seq<seq<byte>>, n: nat): (k: nat)
    ensures k <= |values|
  {
    if |values| == 0 || n < |RecordOf(values[0])| then 0
    else 1 + WholeRecords(values[1..], n - |RecordOf(values[0])|)
  }

  lemma {:induction false} WholeRecordsAreMost(values: seq<seq<byte>>, n: nat, k: nat)
    requires k <= |values|
    ensures k <= WholeRecords(values, n) <==> |LogOf(values[..k])| <= n
  {
    hide RecordOf;
    if k != 0 {
      assert values[..k][1..] == values[1..][..k - 1];
      if n >= |RecordOf(values[0])| {
        WholeRecordsAreMost(values[1..], n - |RecordOf(values[0])|, k - 1);
      }
    }
  }

  /** A record cut short does not read. */
  lemma CutRecordFails(before: seq<byte>, value: seq<byte>, n: nat)
    requires |value| < U32 && n < |RecordOf(value)|
    ensures RecordAt(before + RecordOf(value)[..n], |before|) == Err
  {
    hide LittleEndian, FromLittleEndian, Crc, U32Bytes;
    var at, file := |before|, before + RecordOf(value)[..n];
    if n >= HEADER_BYTES {
      RecordFields(value, []);
      var whole := RecordOf(value) + [];
      assert whole[4..8] == file[at + 4..at + 8];
    }
  }

  /** Reopening any prefix of the log cuts it back to the records wholly inside the prefix. */
  lemma {:induction false} TornLogKeepsWholeRecords(before: seq<byte>, values: seq<seq<byte>>, n: nat)
    requires AllFit(values) && n <= |LogOf(values)|
    ensures IntactFrom(before + LogOf(values)[..n], |before|)
         == |before| + |LogOf(values[..WholeRecords(values, n)])|
    decreases |values|
  {
    hide RecordOf, RecordAt;
    var file := before + LogOf(values)[..n];
    if |values| == 0 {
      EndOfFile(file);
    } else {
      var first := RecordOf(values[0]);
      if n < |first| {
        assert LogOf(values)[..n] == first[..n];
        CutRecordFails(before, values[0], n);
      } else {
        var rest := LogOf(values[1..])[..n - |first|];
        assert LogOf(values)[..n] == first + rest;
        RecordReadsBack(before, values[0], rest);
        assert file == before + first + rest;
        TornLogKeepsWholeRecords(before + first, values[1..], n - |first|);
        var k := WholeRecords(values[1..], n - |first|);
        assert values[..k + 1][1..] == values[1..][..k] && values[..k + 1][0] == values[0];
      }
    }
  }

  lemma EndOfFile(file: seq<byte>)
    ensures RecordAt(file, |file|) == Err
  {}

  // ---------------------------------------------------------------------
  // The log as the engine holds it
  // ---------------------------------------------------------------------

  class ValueLog {
    var file: seq<byte>
    var tail: nat
    var payloadWritten: nat
    ghost var values: seq<seq<byte>>

    ghost predicate Valid()
      reads this
    {
      AllFit(values) && file == LogOf(values) && tail == |file|
    }

    constructor Over(file: seq<byte>, ghost values: seq<seq<byte>>)
      requires AllFit(values) && file == LogOf(values)
      ensures Valid() && this.file == file && this.values == values
    {
      this.file, tail, payloadWritten := file, |file|, 0;
      this.values := values;
    }

    /** Append a value and say where it landed. A value too long for the length field is refused. */
    method Append(value: seq<byte>) returns (r: Result<ValuePointer>)
      requires Valid()
      modifies this
      ensures Valid() && (r.Ok? <==> |value| < U32)
      ensures r.Ok? ==> values == old(values) + [value] && r.value == PointerTo(values, |old(values)|)
      ensures r.Ok? ==> file == old(file) + RecordOf(value) && r.value.offset == |old(file)|
      ensures r.Ok? ==> payloadWritten == old(payloadWritten) + |value|
      ensures r.Err? ==> file == old(file) && values == old(values)
    {
      hide RecordOf, LogOf;
      if |value| >= U32 { return Err; }
      LogConcat(values, [value]);
      LogOfOne(value);
      r := Ok(ValuePointer(tail, |value|));
      file := file + RecordOf(value);
      tail := tail + (HEADER_BYTES + |value|);
      payloadWritten := payloadWritten + |value|;
      assert (values + [value])[..|values|] == values;
      values := values + [value];
    }
  }

  /** Scan forward, validating each record, and stop at the first that does not verify. */
  method ScanIntactPrefix(file: seq<byte>) returns (offset: nat)
    ensures offset == IntactFrom(file, 0)
  {
    hide RecordAt;
    offset := 0;
    while true
      invariant offset <= |file| && IntactFrom(file, offset) == IntactFrom(file, 0)
      decreases |file| - offset
    {
      ghost var end := IntactFrom(file, offset);
      var record := RecordAt(file, offset);
      if record.Err? { return; }
      offset := offset + (HEADER_BYTES + |record.value|);
    }
  }

  /** Open over whatever bytes a crash left: the torn tail goes before anything is appended. */
  method Open(bytes: seq<byte>) returns (log: ValueLog)
    ensures fresh(log) && log.Valid() && log.file == bytes[..IntactFrom(bytes, 0)]
  {
    hide RecordAt, RecordOf;
    var intact := ScanIntactPrefix(bytes);
    ghost var values := IntactIsLog(bytes, 0);
    assert bytes[0..intact] == bytes[..intact];
    log := new ValueLog.Over(bytes[..intact], values);
  }

  /** After any crash and reopening, the values wholly on disk keep their pointers, and appends to the
      reopened log do not disturb them. */
  lemma PointersSurviveCrash(values: seq<seq<byte>>, n: nat, later: seq<seq<byte>>, i: nat)
    requires AllFit(values) && AllFit(later) && n <= |LogOf(values)| && i < |values|
    requires |LogOf(values[..i + 1])| <= n
    ensures var torn := LogOf(values)[..n];
            ReadPointer(torn[..IntactFrom(torn, 0)] + LogOf(later), PointerTo(values, i)) == Ok(values[i])
  {
    hide LogOf, RecordOf, RecordAt, IntactFrom;
    var torn, k := LogOf(values)[..n], WholeRecords(values, n);
    TornLogKeepsWholeRecords([], values, n);
    assert [] + torn == torn;
    WholeRecordsAreMost(values, n, i + 1);
    WholeRecordsAreMost(values, n, k);
    LogConcat(values[..k], values[k..]);
    assert values[..k] + values[k..] == values;
    assert torn[..IntactFrom(torn, 0)] == LogOf(values[..k]);
    PointersStayReadable(values[..k], i, LogOf(later));
    assert values[..k][..i] == values[..i];
  }

  // ---------------------------------------------------------------------
  // Stored values
  // ---------------------------------------------------------------------

  /** Recover the caller's value from what the tree stored; `separated` says a threshold is configured. */
  function LoadValue(separated: bool, file: seq<byte>, stored: seq<byte>): Result<seq<byte>> {
    if !separated then Ok(stored)
    else if |stored| > 0 && stored[0] == VALUE_INLINE then Ok(stored[1..])
    else if |stored| > 0 && stored[0] == VALUE_SEPARATED then
      match DecodePointer(stored[1..])
      case None => Err
      case Some(p) => ReadPointer(file, p)
    else Err
  }

  /** Store a value, diverting a large one to the log: it loads back, now and after any further appends. */
  method StoreValue(log: ValueLog, threshold: Option<nat>, value: seq<byte>) returns (r: Result<seq<byte>>)
    requires log.Valid() && log.tail < U64
    modifies log
    ensures log.Valid() && old(log.file) <= log.file && old(log.values) <= log.values
    ensures r.Ok? ==> forall later :: LoadValue(threshold.Some?, log.file + later, r.value) == Ok(value)
    ensures r.Err? <==> threshold.Some? && |value| >= threshold.value && |value| >= U32
    ensures r.Err? || threshold.None? || |value| < threshold.value ==> log.file == old(log.file)
  {
    hide LogOf, RecordOf, RecordAt, DecodePointer, ValuePointer.Encode;
    if threshold.None? { return Ok(value); }
    if |value| < threshold.value {
      var stored := [VALUE_INLINE] + value;
      assert stored[1..] == value;
      return Ok(stored);
    }
    var appended := log.Append(value);
    if appended.Err? { return Err; }
    var pointer := appended.value;
    var stored := [VALUE_SEPARATED] + pointer.Encode();
    assert stored[1..] == pointer.Encode();
    PointerRoundTrip(pointer);
    forall later ensures LoadValue(true, log.file + later, stored) == Ok(value) {
      PointersStayReadable(log.values, |log.values| - 1, later);
    }
    return Ok(stored);
  }
}
