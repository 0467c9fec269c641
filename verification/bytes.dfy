/** Bytes as numbers and as bit vectors. */
module Octets {
  newtype byte = x: int | 0 <= x < 256

  lemma ByteBack(z: bv8)
    ensures (z as byte) as bv8 == z
  {}

  lemma Successor(z: bv8)
    requires z != 255
    ensures (z + 1) as nat == z as nat + 1
  {}

  /** Counting up reaches every byte. */
  lemma {:induction false} Reaches(n: nat) returns (z: bv8)
    requires n < 256
    ensures z as nat == n
  {
    if n == 0 {
      z := 0;
    } else {
      var y := Reaches(n - 1);
      Successor(y);
      z := y + 1;
    }
  }

  lemma ByteSurvives(b: byte)
    ensures (b as bv8) as nat == b as nat
  {
    var z := Reaches(b as nat);
    ByteBack(z);
    assert b == z as byte;
    assert b as bv8 == (z as byte) as bv8;
  }
}

/** Little-endian integers and the order of keys. */
module Bytes {
  import opened Octets

  const U32: nat := 0x1_0000_0000
  const U64: nat := 0x1_0000_0000_0000_0000

  /** `n` as `width` bytes, least significant first; what does not fit is dropped. */
  function LittleEndian(n: nat, width: nat): (r: seq<byte>)
    ensures |r| == width
  {
    if width == 0 then [] else [(n % 256) as byte] + LittleEndian(n / 256, width - 1)
  }

  function FromLittleEndian(bytes: seq<byte>): nat {
    if |bytes| == 0 then 0 else bytes[0] as nat + 256 * FromLittleEndian(bytes[1..])
  }

  function Power256(width: nat): nat {
    if width == 0 then 1 else 256 * Power256(width - 1)
  }

  lemma Powers()
    ensures Power256(4) == U32 && Power256(8) == U64
  {
    assert Power256(1) == 256 && Power256(2) == 65536 && Power256(3) == 16777216;
    assert Power256(4) == 4294967296 && Power256(5) == 1099511627776;
    assert Power256(6) == 281474976710656 && Power256(7) == 72057594037927936;
  }

  lemma {:induction false} DecodesEncoded(n: nat, width: nat)
    requires n < Power256(width)
    ensures FromLittleEndian(LittleEndian(n, width)) == n
  {
    if width != 0 {
      DecodesEncoded(n / 256, width - 1);
      assert LittleEndian(n, width)[1..] == LittleEndian(n / 256, width - 1);
    }
  }

  lemma {:induction false} DecodedFits(bytes: seq<byte>)
    ensures FromLittleEndian(bytes) < Power256(|bytes|)
  {
    if |bytes| != 0 { DecodedFits(bytes[1..]); }
  }

  lemma {:induction false} EncodesDecoded(bytes: seq<byte>)
    ensures LittleEndian(FromLittleEndian(bytes), |bytes|) == bytes
  {
    if |bytes| != 0 {
      EncodesDecoded(bytes[1..]);
      var rest := FromLittleEndian(bytes[1..]);
      assert (bytes[0] as nat + 256 * rest) / 256 == rest && (bytes[0] as nat + 256 * rest) % 256 == bytes[0] as nat;
      assert bytes == [bytes[0]] + bytes[1..];
    }
  }

  function U32Bytes(n: nat): (r: seq<byte>)
    ensures |r| == 4
  {
    LittleEndian(n, 4)
  }

  function U64Bytes(n: nat): (r: seq<byte>)
    ensures |r| == 8
  {
    LittleEndian(n, 8)
  }

  lemma U32RoundTrip(n: nat)
    requires n < U32
    ensures FromLittleEndian(U32Bytes(n)) == n
  {
    Powers();
    DecodesEncoded(n, 4);
  }

  lemma U64RoundTrip(n: nat)
    requires n < U64
    ensures FromLittleEndian(U64Bytes(n)) == n
  {
    Powers();
    DecodesEncoded(n, 8);
  }

  lemma U32Encodes(field: seq<byte>)
    requires |field| == 4
    ensures U32Bytes(FromLittleEndian(field)) == field
  {
    EncodesDecoded(field);
  }

  lemma U32Fits(bytes: seq<byte>)
    requires |bytes| == 4
    ensures FromLittleEndian(bytes) < U32
  {
    Powers();
    DecodedFits(bytes);
  }

  // ---------------------------------------------------------------------
  // Keys
  // ---------------------------------------------------------------------

  type Key = seq<byte>

  /** Lexicographic order, a proper prefix first. */
  predicate Less(a: Key, b: Key) {
    |b| > 0 && (|a| == 0 || a[0] < b[0] || (a[0] == b[0] && Less(a[1..], b[1..])))
  }

  predicate AtMost(a: Key, b: Key) {
    !Less(b, a)
  }

  lemma {:induction false} LessIrreflexive(a: Key)
    ensures !Less(a, a)
  {
    if |a| != 0 { LessIrreflexive(a[1..]); }
  }

  lemma {:induction false} LessTransitive(a: Key, b: Key, c: Key)
    requires Less(a, b) && Less(b, c)
    ensures Less(a, c)
  {
    if |a| != 0 && a[0] == b[0] == c[0] { LessTransitive(a[1..], b[1..], c[1..]); }
  }

  lemma {:induction false} LessTotal(a: Key, b: Key)
    ensures Less(a, b) || a == b || Less(b, a)
  {
    if |a| != 0 && |b| != 0 && a[0] == b[0] {
      LessTotal(a[1..], b[1..]);
      assert a == [a[0]] + a[1..] && b == [b[0]] + b[1..];
    }
  }

  lemma LessAsymmetric(a: Key, b: Key)
    requires Less(a, b)
    ensures !Less(b, a) && a != b
  {
    if Less(b, a) { LessTransitive(a, b, a); }
    LessIrreflexive(a);
  }

  // ---------------------------------------------------------------------
  // What a key maps to
  // ---------------------------------------------------------------------

  /** A live value, or a positive record that the key is deleted. */
  datatype Value = Put(bytes: seq<byte>) | Tombstone {
    function Payload(): seq<byte> {
      if Put? then bytes else []
    }
  }

  datatype Entry = Entry(key: Key, value: Value)

  datatype Option<T> = None | Some(value: T)

  datatype Result<T> = Ok(value: T) | Err

  ghost predicate Ascending(entries: seq<Entry>) {
    forall i, j :: 0 <= i < j < |entries| ==> Less(entries[i].key, entries[j].key)
  }
}
