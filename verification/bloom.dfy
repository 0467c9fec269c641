/** Bloom filters over hashed keys (src/storage/bloom.rs). The floating-point sizing is a parameter. */
module Blooms {
  import opened Octets
  import opened Bytes

  const MAX_HASHES: nat := 30
  const ENCODED_HEADER_BYTES: nat := 8
  const FNV_OFFSET_BASIS: bv64 := 0xcbf2_9ce4_8422_2325
  const FNV_PRIME: bv64 := 0x0000_0100_0000_01b3

  // ---------------------------------------------------------------------
  // Hashing
  // ---------------------------------------------------------------------

  function Fnv(hash: bv64, key: Key): bv64
    decreases |key|
  {
    if |key| == 0 then hash else Fnv((hash ^ (key[0] as bv64)) * FNV_PRIME, key[1..])
  }

  function Mix(value: bv64): bv64 {
    var a := (value ^ (value >> 33)) * 0xff51_afd7_ed55_8ccd;
    var b := (a ^ (a >> 33)) * 0xc4ce_b9fe_1a85_ec53;
    b ^ (b >> 33)
  }

  function HashKey(key: Key): (hash: nat)
    ensures hash < U64
  {
    Mix(Fnv(FNV_OFFSET_BASIS, key)) as nat
  }

  // ---------------------------------------------------------------------
  // Bits of a byte
  // ---------------------------------------------------------------------

  function Power2(width: nat): nat {
    if width == 0 then 1 else 2 * Power2(width - 1)
  }

  predicate BitOf(n: nat, k: nat) {
    if k == 0 then n % 2 == 1 else BitOf(n / 2, k - 1)
  }

  function WithBit(n: nat, k: nat): nat {
    if k == 0 then n / 2 * 2 + 1 else WithBit(n / 2, k - 1) * 2 + n % 2
  }

  lemma {:induction false} WithBitSetsOne(n: nat, k: nat, j: nat)
    ensures BitOf(WithBit(n, k), j) <==> j == k || BitOf(n, j)
  {
    if k != 0 && j != 0 { WithBitSetsOne(n / 2, k - 1, j - 1); }
  }

  lemma {:induction false} WithBitFits(n: nat, k: nat, width: nat)
    requires n < Power2(width) && k < width
    ensures WithBit(n, k) < Power2(width)
  {
    var half := Power2(width - 1);
    assert Power2(width) == 2 * half && n / 2 < half;
    if k == 0 {
      assert WithBit(n, k) == n / 2 * 2 + 1;
    } else {
      WithBitFits(n / 2, k - 1, width - 1);
      assert WithBit(n, k) == WithBit(n / 2, k - 1) * 2 + n % 2;
    }
    hide WithBit, Power2;
  }

  lemma ByteIsEightBits()
    ensures Power2(8) == 256
  {
    assert Power2(4) == 16;
  }

  /** `b |= 1 << k` */
  function SetBit(b: byte, k: nat): byte
    requires k < 8
  {
    ByteIsEightBits();
    WithBitFits(b as nat, k, 8);
    WithBit(b as nat, k) as byte
  }

  // ---------------------------------------------------------------------
  // The filter
  // ---------------------------------------------------------------------

  datatype Filter = Filter(bits: seq<byte>, numBits: nat, numHashes: nat) {
    predicate Valid() {
      0 < numBits < U32 && 0 < numHashes < U32 && numBits == |bits| * 8
    }

    predicate Bit(position: nat)
      requires Valid() && position < numBits
    {
      BitOf(bits[position / 8] as nat, position % 8)
    }

    /** The i-th probe, in wrapping 32-bit arithmetic; the step is forced odd. */
    function Position(hash: nat, i: nat): (p: nat)
      requires Valid()
      ensures p < numBits
    {
      var h1 := hash % U32;
      var h2 := hash / U32 % U32;
      var odd := if h2 % 2 == 0 then h2 + 1 else h2;
      (h1 + i * odd % U32) % U32 % numBits
    }

    predicate MayContainHash(hash: nat)
      requires Valid()
    {
      forall i :: 0 <= i < numHashes ==> Bit(Position(hash, i))
    }

    predicate MayContain(key: Key)
      requires Valid()
    {
      MayContainHash(HashKey(key))
    }

    ghost predicate Probes(hash: nat, position: nat, count: nat)
      requires Valid()
    {
      exists i :: 0 <= i < count && Position(hash, i) == position
    }

    /** Exactly the positions that some inserted hash probes are set. */
    ghost predicate Holds(hashes: set<nat>)
      requires Valid()
    {
      forall position :: 0 <= position < numBits ==>
        (Bit(position) <==> exists hash :: hash in hashes && Probes(hash, position, numHashes))
    }

    function Encode(): seq<byte> {
      U32Bytes(numBits) + U32Bytes(numHashes) + bits
    }

    /** No false negatives. */
    lemma HeldMeansContained(hashes: set<nat>, hash: nat)
      requires Valid() && Holds(hashes) && hash in hashes
      ensures MayContainHash(hash)
    {
      hide Position, Bit;
      forall i | 0 <= i < numHashes ensures Bit(Position(hash, i)) {
        assert Probes(hash, Position(hash, i), numHashes);
      }
    }

    /** A positive answer is accounted for, probe by probe, by inserted hashes. */
    lemma ContainedIsAccountedFor(hashes: set<nat>, hash: nat, i: nat)
      requires Valid() && Holds(hashes) && MayContainHash(hash) && i < numHashes
      ensures exists h :: h in hashes && Probes(h, Position(hash, i), numHashes)
    {
      hide Position, Bit, Probes;
      assert Bit(Position(hash, i));
    }
  }

  function Decode(bytes: seq<byte>): Result<Filter> {
    if |bytes| < ENCODED_HEADER_BYTES then Err
    else
      var numBits, numHashes := FromLittleEndian(bytes[..4]), FromLittleEndian(bytes[4..8]);
      var bits := bytes[ENCODED_HEADER_BYTES..];
      if numBits == 0 || numHashes == 0 then Err
      else if numBits != |bits| * 8 then Err
      else Ok(Filter(bits, numBits, numHashes))
  }

  /** Decoding accepts exactly the encodings of well-formed filters. */
  lemma DecodesExactlyEncodings(bytes: seq<byte>, f: Filter)
    ensures f.Valid() ==> Decode(f.Encode()) == Ok(f)
    ensures Decode(bytes).Ok? ==> Decode(bytes).value.Valid() && Decode(bytes).value.Encode() == bytes
  {
    if f.Valid() { DecodesEncoding(f); }
    if Decode(bytes).Ok? { EncodesDecoding(bytes); }
  }

  lemma DecodesEncoding(f: Filter)
    requires f.Valid()
    ensures Decode(f.Encode()) == Ok(f)
  {
    U32RoundTrip(f.numBits);
    U32RoundTrip(f.numHashes);
    hide LittleEndian, FromLittleEndian;
    var bytes := f.Encode();
    assert bytes[..4] == U32Bytes(f.numBits) && bytes[4..8] == U32Bytes(f.numHashes) && bytes[8..] == f.bits;
  }

  lemma EncodesDecoding(bytes: seq<byte>)
    requires Decode(bytes).Ok?
    ensures Decode(bytes).value.Valid() && Decode(bytes).value.Encode() == bytes
  {
    U32Fits(bytes[..4]);
    U32Fits(bytes[4..8]);
    EncodesDecoded(bytes[..4]);
    EncodesDecoded(bytes[4..8]);
    hide LittleEndian, FromLittleEndian;
    assert bytes == bytes[..4] + bytes[4..8] + bytes[8..];
  }

  function SetAt(f: Filter, position: nat): (r: Filter)
    requires f.Valid() && position < f.numBits
    ensures r.Valid() && r.numBits == f.numBits && r.numHashes == f.numHashes
  {
    f.(bits := f.bits[position / 8 := SetBit(f.bits[position / 8], position % 8)])
  }

  lemma SetAtSetsOne(f: Filter, position: nat, other: nat)
    requires f.Valid() && position < f.numBits && other < f.numBits
    ensures SetAt(f, position).Bit(other) <==> other == position || f.Bit(other)
  {
    WithBitSetsOne(f.bits[position / 8] as nat, position % 8, other % 8);
    hide WithBit, BitOf;
    assert position == position / 8 * 8 + position % 8 && other == other / 8 * 8 + other % 8;
  }

  /** The filter while it is being built. */
  class BloomFilter {
    var bits: seq<byte>
    const numBits: nat
    const numHashes: nat
    ghost var hashes: set<nat>

    function View(): Filter
      reads this
    {
      Filter(bits, numBits, numHashes)
    }

    ghost predicate Valid()
      reads this
    {
      View().Valid() && View().Holds(hashes)
    }

    /** Sized to whole bytes, at least one, with between 1 and MAX_HASHES probes. */
    constructor (bytes: nat, numHashes: nat)
      requires 0 < bytes && bytes * 8 < U32 && 1 <= numHashes <= MAX_HASHES
      ensures Valid() && hashes == {} && numBits == bytes * 8 && this.numHashes == numHashes
    {
      bits := seq(bytes, i => 0 as byte);
      numBits := bytes * 8;
      this.numHashes := numHashes;
      hashes := {};
      new;
      forall position | 0 <= position < numBits ensures !View().Bit(position) {
        NoBits(position % 8);
      }
    }

    method InsertHash(hash: nat)
      requires Valid()
      modifies this
      ensures Valid() && hashes == old(hashes) + {hash}
    {
      hide Filter.Position, Filter.Bit, SetAt;
      ghost var before := View();
      for i := 0 to numHashes
        invariant View().Valid() && unchanged(`hashes)
        invariant forall position :: 0 <= position < numBits ==>
          (View().Bit(position) <==> before.Bit(position) || before.Probes(hash, position, i))
      {
        ghost var now := View();
        var position := View().Position(hash, i);
        SamePosition(now, before, hash, i);
        bits := SetAt(View(), position).bits;
        ghost var after := View();
        assert after == SetAt(now, position) by { SetAtKeepsShape(now, position); }
        forall other | 0 <= other < numBits
          ensures after.Bit(other) <==> before.Bit(other) || before.Probes(hash, other, i + 1)
        {
          SetAtSetsOne(now, position, other);
          OneMoreProbe(before, hash, other, i);
        }
      }
      hashes := hashes + {hash};
      HoldsOneMore(before, View(), old(hashes), hash);
    }

    method Insert(key: Key)
      requires Valid()
      modifies this
      ensures Valid() && hashes == old(hashes) + {HashKey(key)}
    {
      InsertHash(HashKey(key));
    }
  }

  lemma {:induction false} NoBits(k: nat)
    ensures !BitOf(0, k)
  {
    if k != 0 { NoBits(k - 1); }
  }

  lemma SetAtKeepsShape(f: Filter, position: nat)
    requires f.Valid() && position < f.numBits
    ensures SetAt(f, position) == f.(bits := SetAt(f, position).bits)
  {}

  lemma SamePosition(f: Filter, g: Filter, hash: nat, i: nat)
    requires f.Valid() && g.Valid() && f.numBits == g.numBits
    ensures f.Position(hash, i) == g.Position(hash, i)
  {}

  lemma OneMoreProbe(f: Filter, hash: nat, position: nat, i: nat)
    requires f.Valid()
    ensures f.Probes(hash, position, i + 1) <==> f.Probes(hash, position, i) || f.Position(hash, i) == position
  {
    hide Filter.Position;
  }

  lemma SameProbes(f: Filter, g: Filter, hash: nat, position: nat, count: nat)
    requires f.Valid() && g.Valid() && f.numBits == g.numBits
    ensures f.Probes(hash, position, count) <==> g.Probes(hash, position, count)
  {
    hide Filter.Position;
    forall i | 0 <= i < count ensures f.Position(hash, i) == g.Position(hash, i) { SamePosition(f, g, hash, i); }
  }

  lemma HoldsOneMore(before: Filter, after: Filter, hashes: set<nat>, hash: nat)
    requires before.Valid() && after.Valid() && before.Holds(hashes)
    requires after.numBits == before.numBits && after.numHashes == before.numHashes
    requires forall position :: 0 <= position < before.numBits ==>
      (after.Bit(position) <==> before.Bit(position) || before.Probes(hash, position, before.numHashes))
    ensures after.Holds(hashes + {hash})
  {
    hide Filter.Position, Filter.Bit, Filter.Probes;
    forall position | 0 <= position < after.numBits
      ensures after.Bit(position) <==> exists h :: h in hashes + {hash} && after.Probes(h, position, after.numHashes)
    {
      forall h ensures after.Probes(h, position, after.numHashes) <==> before.Probes(h, position, before.numHashes) {
        SameProbes(after, before, h, position, after.numHashes);
      }
      assert hash in hashes + {hash};
    }
  }
}
