/** CRC-32 (src/storage/crc32.rs): the table-driven form, checked against the shift register that
    section 8 of RFC 1952 describes. */
module Crc32s {
  import opened Bytes
  import opened Octets

  const POLYNOMIAL: bv32 := 0xEDB8_8320
  const INITIAL: bv32 := 0xFFFF_FFFF

  // ---------------------------------------------------------------------
  // The shift register, one message bit at a time
  // ---------------------------------------------------------------------

  function Shift(s: bv32): bv32 {
    Reduce(Low(s), Half(s))
  }

  function Low(s: bv32): bv32 {
    s & 1
  }

  function Half(s: bv32): bv32 {
    s >> 1
  }

  /** The bit that fell out decides whether the polynomial is added. */
  function Reduce(bit: bv32, half: bv32): bv32 {
    if bit == 1 then Xor(half, POLYNOMIAL) else half
  }

  /** Addition of register contents. */
  function Xor(x: bv32, y: bv32): bv32 {
    x ^ y
  }

  /** The eight bits of a byte, least significant first. */
  function BitsOf(w: bv32, n: nat): seq<bv32> {
    if n == 0 then [] else [Low(w)] + BitsOf(Half(w), n - 1)
  }

  function AllBits(data: seq<byte>): seq<bv32> {
    if |data| == 0 then [] else BitsOf(Word(data[0]), 8) + AllBits(data[1..])
  }

  /** Shift a whole message through the register bit by bit. */
  function Feed(s: bv32, bits: seq<bv32>): bv32
    decreases |bits|
  {
    if |bits| == 0 then s else Feed(Shift(Xor(s, bits[0])), bits[1..])
  }

  /** Section 8 of RFC 1952: register preset to ones, result complemented. */
  function Checksum(data: seq<byte>): bv32 {
    Xor(Feed(INITIAL, AllBits(data)), 0xFFFF_FFFF)
  }

  // ---------------------------------------------------------------------
  // Words
  // ---------------------------------------------------------------------

  function Word(b: byte): bv32 {
    (b as bv8) as bv32
  }

  lemma WordIsSmall(b: byte)
    ensures Word(b) <= 0xFF
  {}

  lemma WordInjective(a: byte, b: byte)
    requires Word(a) == Word(b)
    ensures a == b
  {
    assert a as bv8 == b as bv8 by { Widened(a as bv8, b as bv8); }
    ByteSurvives(a);
    ByteSurvives(b);
  }

  lemma Widened(x: bv8, y: bv8)
    requires x as bv32 == y as bv32
    ensures x == y
  {}

  // ---------------------------------------------------------------------
  // Algebra of the register
  // ---------------------------------------------------------------------

  function Shifts(s: bv32, n: nat): bv32
    decreases n
  {
    if n == 0 then s else Shifts(Shift(s), n - 1)
  }

  lemma LowBit(x: bv32)
    ensures Low(x) == 0 || Low(x) == 1
  {}

  lemma XorParts(x: bv32, y: bv32)
    ensures Low(Xor(x, y)) == Xor(Low(x), Low(y)) && Half(Xor(x, y)) == Xor(Half(x), Half(y))
  {}

  lemma XorRight(a: bv32, b: bv32, p: bv32)
    ensures Xor(a, Xor(b, p)) == Xor(Xor(a, b), p)
  {}

  lemma XorLeft(a: bv32, b: bv32, p: bv32)
    ensures Xor(Xor(a, p), b) == Xor(Xor(a, b), p)
  {
    XorRight(a, p, b);
    XorRight(a, b, p);
    XorCommutes(p, b);
    hide Xor;
  }

  lemma XorBoth(a: bv32, b: bv32, p: bv32)
    ensures Xor(Xor(a, p), Xor(b, p)) == Xor(a, b)
  {
    hide Xor;
    XorRight(Xor(a, p), b, p);
    XorLeft(a, b, p);
    XorTwice(Xor(a, b), p);
  }

  lemma XorOnes()
    ensures Xor(0, 0) == 0 && Xor(1, 0) == 1 && Xor(0, 1) == 1 && Xor(1, 1) == 0
  {}

  lemma XorUnit(a: bv32)
    ensures Xor(a, 0) == a && Xor(0, a) == a && Xor(a, a) == 0
  {}

  lemma XorCommutes(a: bv32, b: bv32)
    ensures Xor(a, b) == Xor(b, a)
  {}

  lemma ShiftLinear(x: bv32, y: bv32)
    ensures Shift(Xor(x, y)) == Xor(Shift(x), Shift(y))
  {
    hide Low, Half, Xor;
    LowBit(x);
    LowBit(y);
    XorParts(x, y);
    XorOnes();
    XorLeft(Half(x), Half(y), POLYNOMIAL);
    XorRight(Half(x), Half(y), POLYNOMIAL);
    XorBoth(Half(x), Half(y), POLYNOMIAL);
  }

  lemma {:induction false} ShiftsLinear(x: bv32, y: bv32, n: nat)
    ensures Shifts(Xor(x, y), n) == Xor(Shifts(x, n), Shifts(y, n))
    decreases n
  {
    hide Shift, Xor;
    if n != 0 {
      ShiftLinear(x, y);
      ShiftsLinear(Shift(x), Shift(y), n - 1);
    }
  }

  /** Undo one shift: the polynomial's top bit tells whether it was added. */
  function Unshift(s: bv32): bv32 {
    if s >> 31 == 1 then Double(Xor(s, POLYNOMIAL), 1) else Double(s, 0)
  }

  function Double(half: bv32, bit: bv32): bv32 {
    (half << 1) ^ bit
  }

  lemma HalfIsSmall(s: bv32)
    ensures Half(s) >> 31 == 0 && Xor(Half(s), POLYNOMIAL) >> 31 == 1
  {}

  lemma XorTwice(a: bv32, p: bv32)
    ensures Xor(Xor(a, p), p) == a
  {}

  lemma DoubleHalf(s: bv32)
    ensures Double(Half(s), Low(s)) == s
  {}

  lemma UnshiftUndoes(s: bv32)
    ensures Unshift(Shift(s)) == s
  {
    hide Low, Half, Xor, Double;
    LowBit(s);
    HalfIsSmall(s);
    XorTwice(Half(s), POLYNOMIAL);
    DoubleHalf(s);
  }

  lemma {:induction false} ShiftsInjective(x: bv32, y: bv32, n: nat)
    requires Shifts(x, n) == Shifts(y, n)
    ensures x == y
    decreases n
  {
    if n != 0 {
      UnshiftUndoes(x);
      UnshiftUndoes(y);
      hide Shift, Unshift;
      ShiftsInjective(Shift(x), Shift(y), n - 1);
    }
  }

  /** With a zero low byte, eight shifts only shift. */
  lemma ShiftsOfHigh(z: bv32)
    requires z & 0xFF == 0
    ensures Shifts(z, 8) == z >> 8
  {
    LowBitsClear(z);
    EightShifts(z, z >> 1, z >> 2, z >> 3, z >> 4, z >> 5, z >> 6, z >> 7, z >> 8);
  }

  lemma EightShifts(z: bv32, z1: bv32, z2: bv32, z3: bv32, z4: bv32, z5: bv32, z6: bv32, z7: bv32, z8: bv32)
    requires Shift(z) == z1 && Shift(z1) == z2 && Shift(z2) == z3 && Shift(z3) == z4
    requires Shift(z4) == z5 && Shift(z5) == z6 && Shift(z6) == z7 && Shift(z7) == z8
    ensures Shifts(z, 8) == z8
  {
    hide Shift;
    assert Shifts(z, 8) == Shifts(z1, 7) == Shifts(z2, 6) == Shifts(z3, 5);
    assert Shifts(z3, 5) == Shifts(z4, 4) == Shifts(z5, 3) == Shifts(z6, 2);
    assert Shifts(z6, 2) == Shifts(z7, 1) == Shifts(z8, 0);
  }

  lemma LowBitsClear(z: bv32)
    requires z & 0xFF == 0
    ensures Shift(z) == z >> 1 && Shift(z >> 1) == z >> 2 && Shift(z >> 2) == z >> 3 && Shift(z >> 3) == z >> 4
    ensures Shift(z >> 4) == z >> 5 && Shift(z >> 5) == z >> 6 && Shift(z >> 6) == z >> 7 && Shift(z >> 7) == z >> 8
  {
    assert z & 1 == 0 && (z >> 1) & 1 == 0 && (z >> 2) & 1 == 0 && (z >> 3) & 1 == 0;
    assert (z >> 4) & 1 == 0 && (z >> 5) & 1 == 0 && (z >> 6) & 1 == 0 && (z >> 7) & 1 == 0;
  }

  // ---------------------------------------------------------------------
  // The table form computes the same register
  // ---------------------------------------------------------------------

  function Halved(w: bv32, n: nat): bv32
    decreases n
  {
    if n == 0 then w else Halved(Half(w), n - 1)
  }

  lemma FirstBit(s: bv32, w: bv32)
    ensures Shift(Xor(s, w)) == Xor(Shift(Xor(s, Low(w))), Half(w))
  {
    hide Xor, Reduce;
    SplitLow(s, w);
    ShiftLinear(Xor(s, Low(w)), High(w));
    ShiftOfHigh(w);
  }

  function High(w: bv32): bv32 {
    w & 0xFFFF_FFFE
  }

  lemma SplitLow(s: bv32, w: bv32)
    ensures Xor(s, w) == Xor(Xor(s, Low(w)), High(w))
  {}

  lemma ShiftOfHigh(w: bv32)
    ensures Shift(High(w)) == Half(w)
  {
    hide Xor, Low, Half, High;
    HighParts(w);
  }

  lemma HighParts(w: bv32)
    ensures Low(High(w)) == 0 && Half(High(w)) == Half(w)
  {}

  /** Adding the whole word first and shifting is the same as shifting its bits in one by one. */
  lemma {:induction false} BitsOneByOne(s: bv32, w: bv32, n: nat)
    ensures Shifts(Xor(s, w), n) == Xor(Feed(s, BitsOf(w, n)), Halved(w, n))
    decreases n
  {
    hide Shift, Xor, Half, Low;
    if n != 0 {
      FirstBit(s, w);
      BitsOneByOne(Shift(Xor(s, Low(w))), Half(w), n - 1);
      assert BitsOf(w, n)[1..] == BitsOf(Half(w), n - 1);
    }
  }

  lemma ByteIsGone(w: bv32)
    requires w <= 0xFF
    ensures Halved(w, 8) == 0
  {
    var w4 := w >> 4;
    assert Halved(w, 8) == Halved(w >> 1, 7) == Halved((w >> 1) >> 1, 6) == Halved(((w >> 1) >> 1) >> 1, 5);
    assert (((w >> 1) >> 1) >> 1) >> 1 == w4;
    assert Halved(w4, 4) == Halved(w4 >> 1, 3) == Halved((w4 >> 1) >> 1, 2) == Halved(((w4 >> 1) >> 1) >> 1, 1);
    assert (((w4 >> 1) >> 1) >> 1) >> 1 == 0;
  }

  /** One byte through the register. */
  function Step(s: bv32, b: byte): bv32 {
    Shifts(Xor(s, Word(b)), 8)
  }

  lemma StepFeedsByte(s: bv32, b: byte)
    ensures Step(s, b) == Feed(s, BitsOf(Word(b), 8))
  {
    hide Shift, Xor, Half, Word;
    WordIsSmall(b);
    BitsOneByOne(s, Word(b), 8);
    ByteIsGone(Word(b));
    XorUnit(Feed(s, BitsOf(Word(b), 8)));
  }

  function Update(s: bv32, data: seq<byte>): bv32
    decreases |data|
  {
    if |data| == 0 then s else Update(Step(s, data[0]), data[1..])
  }

  lemma {:induction false} FeedConcat(s: bv32, xs: seq<bv32>, ys: seq<bv32>)
    ensures Feed(s, xs + ys) == Feed(Feed(s, xs), ys)
    decreases |xs|
  {
    hide Shift, Xor;
    if |xs| == 0 {
      assert xs + ys == ys;
    } else {
      assert (xs + ys)[1..] == xs[1..] + ys;
      FeedConcat(Shift(Xor(s, xs[0])), xs[1..], ys);
    }
  }

  /** Byte at a time computes what bit at a time does. */
  lemma {:induction false} UpdateIsFeed(s: bv32, data: seq<byte>)
    ensures Update(s, data) == Feed(s, AllBits(data))
    decreases |data|
  {
    hide Step, BitsOf;
    if |data| != 0 {
      StepFeedsByte(s, data[0]);
      FeedConcat(s, BitsOf(Word(data[0]), 8), AllBits(data[1..]));
      UpdateIsFeed(Step(s, data[0]), data[1..]);
    }
  }

  /** Hashing in pieces is hashing the whole. */
  lemma {:induction false} UpdateConcat(s: bv32, xs: seq<byte>, ys: seq<byte>)
    ensures Update(s, xs + ys) == Update(Update(s, xs), ys)
    decreases |xs|
  {
    hide Step;
    if |xs| == 0 {
      assert xs + ys == ys;
    } else {
      assert (xs + ys)[1..] == xs[1..] + ys;
      UpdateConcat(Step(s, xs[0]), xs[1..], ys);
    }
  }

  /** The state after any message, and what `finish` makes of it. */
  lemma ChecksumIsFinished(data: seq<byte>)
    ensures Checksum(data) == Xor(Update(INITIAL, data), 0xFFFF_FFFF)
  {
    UpdateIsFeed(INITIAL, data);
  }

  function Index(s: bv32, b: byte): byte {
    ((Xor(s, Word(b)) & 0xFF) as bv8) as byte
  }

  lemma IndexIsLowByte(s: bv32, b: byte)
    ensures Word(Index(s, b)) == Xor(s, Word(b)) & 0xFF
  {
    hide Xor;
    var x := Xor(s, Word(b));
    NarrowLowByte(x);
    ByteBack((x & 0xFF) as bv8);
  }

  lemma NarrowLowByte(x: bv32)
    ensures ((x & 0xFF) as bv8) as bv32 == x & 0xFF
  {}

  function Bottom(x: bv32): bv32 { x & 0xFF }

  function Top(x: bv32): bv32 { x & 0xFFFF_FF00 }

  function Dropped(x: bv32): bv32 { x >> 8 }

  lemma SplitByte(s: bv32, w: bv32)
    requires w <= 0xFF
    ensures Xor(s, w) == Xor(Bottom(Xor(s, w)), Top(Xor(s, w)))
    ensures Dropped(Top(Xor(s, w))) == Dropped(s) && Bottom(Top(Xor(s, w))) == 0
  {
    DropsByte(s, w);
    hide Xor, Bottom, Top, Dropped;
    TwoParts(Xor(s, w));
    DropsBottom(Xor(s, w));
  }

  lemma TwoParts(x: bv32)
    ensures x == Xor(Bottom(x), Top(x)) && Bottom(Top(x)) == 0
  {}

  lemma DropsBottom(x: bv32)
    ensures Dropped(Top(x)) == Dropped(x)
  {}

  lemma DropsByte(s: bv32, w: bv32)
    requires w <= 0xFF
    ensures Dropped(Xor(s, w)) == Dropped(s)
  {}

  lemma ShiftsOfTop(z: bv32)
    requires Bottom(z) == 0
    ensures Shifts(z, 8) == Dropped(z)
  {
    hide Shifts, Shift;
    ShiftsOfHigh(z);
  }

  lemma IndexIsBottom(s: bv32, b: byte)
    ensures Word(Index(s, b)) == Bottom(Xor(s, Word(b)))
  {
    hide Xor, Word, Index;
    IndexIsLowByte(s, b);
  }

  lemma StepByParts(s: bv32, b: byte)
    ensures Step(s, b) == Xor(Shifts(Word(Index(s, b)), 8), Dropped(s))
  {
    hide Xor, Word, Shift, Shifts, Index, Bottom, Top, Dropped;
    WordIsSmall(b);
    IndexIsBottom(s, b);
    SplitByte(s, Word(b));
    ShiftsOfTop(Top(Xor(s, Word(b))));
    ShiftsLinear(Bottom(Xor(s, Word(b))), Top(Xor(s, Word(b))), 8);
  }

  /** One table lookup and one shift replace eight register shifts. */
  lemma TableStep(s: bv32, b: byte)
    ensures Step(s, b) == Xor(Shifts(Word(Index(s, b)), 8), s >> 8)
  {
    hide Xor, Word, Shift, Shifts, Index, Step;
    StepByParts(s, b);
  }

  ghost predicate IsTable(table: seq<bv32>) {
    |table| == 256 && forall i: nat :: i < 256 ==> table[i] == Shifts(Word(i as byte), 8)
  }

  method BuildTable() returns (table: array<bv32>)
    ensures fresh(table) && IsTable(table[..])
  {
    hide Shift, Word;
    table := new bv32[256];
    var b := 0;
    while b < 256
      invariant 0 <= b <= 256
      invariant forall i: nat :: i < b ==> table[i] == Shifts(Word(i as byte), 8)
    {
      var crc := Word(b as byte);
      var bit := 0;
      while bit < 8
        invariant 0 <= bit <= 8 && Shifts(crc, 8 - bit) == Shifts(Word(b as byte), 8)
      {
        crc := Shift(crc);
        bit := bit + 1;
      }
      table[b] := crc;
      b := b + 1;
    }
  }

  method UpdateWithTable(table: seq<bv32>, start: bv32, data: seq<byte>) returns (state: bv32)
    requires IsTable(table)
    ensures state == Update(start, data)
  {
    hide Xor, Word, Step;
    state := start;
    for i := 0 to |data|
      invariant state == Update(start, data[..i])
    {
      TableStep(state, data[i]);
      UpdateConcat(start, data[..i], [data[i]]);
      assert data[..i + 1] == data[..i] + [data[i]];
      assert Update(state, [data[i]]) == Update(Step(state, data[i]), []);
      hide Index;
      var index := Index(state, data[i]) as int;
      assert Shifts(Word(index as byte), 8) == table[index];
      state := Xor(table[index], state >> 8);
    }
    assert data[..|data|] == data;
  }

  /** A checksum built up from pieces. */
  class Crc32 {
    const table: seq<bv32>
    var state: bv32
    ghost var seen: seq<byte>

    ghost predicate Valid()
      reads this
    {
      IsTable(table) && state == Update(INITIAL, seen)
    }

    constructor ()
      ensures Valid() && seen == []
    {
      var built := BuildTable();
      table := built[..];
      state := INITIAL;
      seen := [];
    }

    method Add(data: seq<byte>)
      requires Valid()
      modifies this
      ensures Valid() && seen == old(seen) + data
    {
      UpdateConcat(INITIAL, seen, data);
      state := UpdateWithTable(table, state, data);
      seen := seen + data;
    }

    method Finish() returns (crc: bv32)
      requires Valid()
      ensures crc == Checksum(seen)
    {
      ChecksumIsFinished(seen);
      crc := Xor(state, 0xFFFF_FFFF);
    }
  }

  // ---------------------------------------------------------------------
  // Damage confined to four consecutive bytes is always noticed
  // ---------------------------------------------------------------------

  function Up(p: bv32): bv32 {
    p << 8
  }

  /** The register difference that a window of differing bytes would have to cancel. */
  function Pack(d: seq<byte>, e: seq<byte>): bv32
    requires |d| == |e|
  {
    if |d| == 0 then 0 else Xor(Xor(Word(d[0]), Word(e[0])), Up(Pack(d[1..], e[1..])))
  }

  function Limit(k: nat): bv32 {
    if k == 0 then 0 else if k == 1 then 0xFF else if k == 2 then 0xFFFF else if k == 3 then 0xFF_FFFF else 0xFFFF_FFFF
  }

  lemma PackStepFits(w: bv32, p: bv32, k: nat)
    requires w <= 0xFF && p <= Limit(k) && k <= 3
    ensures Xor(w, Up(p)) <= Limit(k + 1)
  {
    if k == 0 {
      assert p == 0;
    } else if k == 1 {
    } else if k == 2 {
    }
  }

  lemma LimitOfNone()
    ensures 0 <= Limit(0)
  {}

  lemma XorOfWords(a: byte, b: byte)
    ensures Xor(Word(a), Word(b)) <= 0xFF
  {}

  lemma {:induction false} PackFits(d: seq<byte>, e: seq<byte>)
    requires |d| == |e| <= 4
    ensures Pack(d, e) <= Limit(|d|)
  {
    hide Xor, Word, Up, Limit;
    if |d| == 0 {
      LimitOfNone();
    } else {
      PackFits(d[1..], e[1..]);
      XorOfWords(d[0], e[0]);
      PackStepFits(Xor(Word(d[0]), Word(e[0])), Pack(d[1..], e[1..]), |d| - 1);
    }
  }

  lemma UpParts(p: bv32)
    requires p <= 0xFF_FFFF
    ensures Up(p) & 0xFF == 0 && Up(p) >> 8 == p
  {}

  lemma Rearrange(x: bv32, a: bv32, y: bv32, b: bv32, q: bv32)
    requires Xor(Xor(x, a), Xor(y, b)) == q
    ensures Xor(x, y) == Xor(Xor(a, b), q)
  {
    hide Xor;
    XorLeft(x, Xor(y, b), a);
    XorRight(x, y, b);
    calc {
      Xor(Xor(a, b), q);
      Xor(Xor(a, b), Xor(Xor(Xor(x, y), b), a));
      { XorRight(Xor(a, b), Xor(Xor(x, y), b), a); }
      Xor(Xor(Xor(a, b), Xor(Xor(x, y), b)), a);
      { XorRight(Xor(a, b), Xor(x, y), b); }
      Xor(Xor(Xor(Xor(a, b), Xor(x, y)), b), a);
      { XorLeft(a, Xor(x, y), b); }
      Xor(Xor(Xor(Xor(a, Xor(x, y)), b), b), a);
      { XorTwice(Xor(a, Xor(x, y)), b); XorCommutes(a, Xor(x, y)); }
      Xor(Xor(Xor(x, y), a), a);
      { XorTwice(Xor(x, y), a); }
      Xor(x, y);
    }
  }

  /** Two registers that agree after their windows differed by exactly the windows' pack before. */
  lemma {:induction false} Backward(x: bv32, y: bv32, d: seq<byte>, e: seq<byte>)
    requires |d| == |e| <= 4 && Update(x, d) == Update(y, e)
    ensures Xor(x, y) == Pack(d, e)
    decreases |d|
  {
    hide Xor, Word, Up, Shifts;
    if |d| == 0 {
      XorUnit(x);
    } else {
      var a, b, p := Word(d[0]), Word(e[0]), Pack(d[1..], e[1..]);
      PackReturns(d[1..], e[1..]);
      Backward(Step(x, d[0]), Step(y, e[0]), d[1..], e[1..]);
      ShiftsLinear(Xor(x, a), Xor(y, b), 8);
      ShiftsInjective(Xor(Xor(x, a), Xor(y, b)), Up(p), 8);
      Rearrange(x, a, y, b, Up(p));
    }
  }

  /** A pack of at most three bytes, moved up, shifts back to itself. */
  lemma PackReturns(d: seq<byte>, e: seq<byte>)
    requires |d| == |e| <= 3
    ensures Shifts(Up(Pack(d, e)), 8) == Pack(d, e)
  {
    hide Pack, Up, Shifts, Limit;
    PackFits(d, e);
    LimitGrows(|d|, Pack(d, e));
    UpReturns(Pack(d, e));
  }

  lemma UpReturns(p: bv32)
    requires p <= 0xFF_FFFF
    ensures Shifts(Up(p), 8) == p
  {
    hide Shifts, Shift, Up;
    UpParts(p);
    ShiftsOfHigh(Up(p));
  }

  lemma LimitGrows(k: nat, p: bv32)
    requires k <= 3 && p <= Limit(k)
    ensures p <= 0xFF_FFFF
  {
    if k == 0 {} else if k == 1 {} else if k == 2 {}
  }

  lemma DisjointParts(w: bv32, p: bv32)
    requires w <= 0xFF && p <= 0xFF_FFFF && Xor(w, Up(p)) == 0
    ensures w == 0 && p == 0
  {}

  lemma XorZeroIsEqual(a: bv32, b: bv32)
    requires Xor(a, b) == 0
    ensures a == b
  {}

  lemma {:induction false} PackZero(d: seq<byte>, e: seq<byte>)
    requires |d| == |e| <= 4 && Pack(d, e) == 0
    ensures d == e
  {
    if |d| != 0 {
      PackFits(d[1..], e[1..]);
      LimitGrows(|d| - 1, Pack(d[1..], e[1..]));
      XorOfWords(d[0], e[0]);
      DisjointParts(Xor(Word(d[0]), Word(e[0])), Pack(d[1..], e[1..]));
      XorZeroIsEqual(Word(d[0]), Word(e[0]));
      WordInjective(d[0], e[0]);
      hide Xor, Word, Up, Limit;
      PackZero(d[1..], e[1..]);
      assert d == [d[0]] + d[1..] && e == [e[0]] + e[1..];
    }
  }

  lemma {:induction false} UpdateInjective(x: bv32, y: bv32, data: seq<byte>)
    requires Update(x, data) == Update(y, data)
    ensures x == y
    decreases |data|
  {
    if |data| != 0 {
      var w := Word(data[0]);
      hide Xor, Word, Shift, Shifts;
      UpdateInjective(Step(x, data[0]), Step(y, data[0]), data[1..]);
      ShiftsInjective(Xor(x, w), Xor(y, w), 8);
      XorTwice(x, w);
      XorTwice(y, w);
    }
  }

  /** Any change confined to four consecutive bytes changes the checksum. */
  lemma BurstIsDetected(m: seq<byte>, damaged: seq<byte>, i: nat)
    requires |m| == |damaged| && m != damaged
    requires forall p :: 0 <= p < |m| && m[p] != damaged[p] ==> i <= p < i + 4
    ensures Checksum(m) != Checksum(damaged)
  {
    hide Update, Checksum, Xor;
    var end := if i + 4 <= |m| then i + 4 else |m|;
    var p :| 0 <= p < |m| && m[p] != damaged[p];
    var head, tail, d, e := m[..i], m[end..], m[i..end], damaged[i..end];
    assert damaged[..i] == head && damaged[end..] == tail;
    assert d[p - i] != e[p - i];
    StateAfterWindow(m, i, end);
    StateAfterWindow(damaged, i, end);
    if Checksum(m) == Checksum(damaged) {
      XorTwice(Update(INITIAL, m), 0xFFFF_FFFF);
      XorTwice(Update(INITIAL, damaged), 0xFFFF_FFFF);
      var s := Update(INITIAL, head);
      UpdateInjective(Update(s, d), Update(s, e), tail);
      WindowsAgree(s, d, e);
      assert false;
    }
  }

  lemma StateAfterWindow(m: seq<byte>, i: nat, end: nat)
    requires i <= end <= |m|
    ensures Update(INITIAL, m) == Update(Update(Update(INITIAL, m[..i]), m[i..end]), m[end..])
    ensures Checksum(m) == Xor(Update(INITIAL, m), 0xFFFF_FFFF)
  {
    hide Update, Checksum, Xor;
    assert m == m[..i] + (m[i..end] + m[end..]);
    UpdateConcat(INITIAL, m[..i], m[i..end] + m[end..]);
    UpdateConcat(Update(INITIAL, m[..i]), m[i..end], m[end..]);
    ChecksumIsFinished(m);
  }

  lemma WindowsAgree(s: bv32, d: seq<byte>, e: seq<byte>)
    requires |d| == |e| <= 4 && Update(s, d) == Update(s, e)
    ensures d == e
  {
    Backward(s, s, d, e);
    XorUnit(s);
    PackZero(d, e);
  }

  /** The checksum as the number stored in a record. */
  function Crc(data: seq<byte>): (n: nat)
    ensures n < U32
  {
    Checksum(data) as nat
  }

  lemma CrcInjective(x: seq<byte>, y: seq<byte>)
    requires Crc(x) == Crc(y)
    ensures Checksum(x) == Checksum(y)
  {
    hide Checksum;
    NumberBack(Checksum(x));
    NumberBack(Checksum(y));
  }

  lemma NumberBack(w: bv32)
    ensures (w as nat) as bv32 == w
  {}
}
