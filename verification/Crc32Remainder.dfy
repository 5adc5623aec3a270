/** CRC-32/ISO-HDLC as the standard defines it (section 4 of docs/protocols/uart-flash-v1.md): bytes taken
    lowest bit first, the first 32 bits complemented, the complement of the remainder modulo the
    polynomial of Ethernet, and the check value that identifies the variant. */
module Crc32Remainder {
  import opened BitDivision
  import opened Crc32

  function Generator(): (g: seq<bool>)
    ensures |g| == 33 && g[0]
  {
    Polynomial(32, {32, 26, 23, 22, 16, 12, 11, 10, 8, 7, 5, 4, 2, 1, 0})
  }

  function Xor(a: bv32, b: bv32): bv32 { a ^ b }

  function Half(w: bv32): bv32 { w >> 1 }

  predicate Low(w: bv32) { w & 1 != 0 }

  function LowBits(n: nat, w: bv32): (bits: seq<bool>)
    ensures |bits| == n
  {
    if n == 0 then [] else [Low(w)] + LowBits(n - 1, Half(w))
  }

  function HalvedBy(n: nat, w: bv32): bv32 {
    if n == 0 then w else HalvedBy(n - 1, Half(w))
  }

  /** The bits of a 32-bit word, lowest first. */
  function WordBits(w: bv32): (bits: seq<bool>)
    ensures |bits| == 32
  {
    LowBits(32, w)
  }

  /** The bits of a byte, lowest first. */
  function ByteBits(b: bv8): (bits: seq<bool>)
    ensures |bits| == 8
  {
    [b & 0x01 != 0, b & 0x02 != 0, b & 0x04 != 0, b & 0x08 != 0,
     b & 0x10 != 0, b & 0x20 != 0, b & 0x40 != 0, b & 0x80 != 0]
  }

  function Bits(bytes: seq<bv8>): (bits: seq<bool>)
    ensures |bits| == 8 * |bytes|
  {
    if bytes == [] then [] else ByteBits(bytes[0]) + Bits(bytes[1..])
  }

  // ----- words as bit strings ----------------------------------------------------------------

  lemma UnfoldLowBits(n: nat, w: bv32)
    ensures LowBits(0, w) == [] && HalvedBy(0, w) == w
    ensures LowBits(n + 1, w) == [Low(w)] + LowBits(n, Half(w)) && HalvedBy(n + 1, w) == HalvedBy(n, Half(w))
  {
    hide Low, Half;
  }

  lemma FourLowBits(w: bv32, w1: bv32, w2: bv32, w3: bv32, w4: bv32, n: nat)
    requires w1 == Half(w) && w2 == Half(w1) && w3 == Half(w2) && w4 == Half(w3)
    ensures LowBits(n + 4, w) == [Low(w), Low(w1), Low(w2), Low(w3)] + LowBits(n, w4)
    ensures HalvedBy(n + 4, w) == HalvedBy(n, w4)
    ensures LowBits(0, w4) == [] && HalvedBy(0, w4) == w4
  {
    hide *;
    UnfoldLowBits(n + 3, w);
    UnfoldLowBits(n + 2, w1);
    UnfoldLowBits(n + 1, w2);
    UnfoldLowBits(n, w3);
    UnfoldLowBits(0, w4);
  }

  lemma XorHalves(a: bv32, b: bv32)
    ensures Low(Xor(a, b)) == (Low(a) != Low(b)) && Half(Xor(a, b)) == Xor(Half(a), Half(b))
  {}

  lemma XoredCons(p: bool, a: seq<bool>, q: bool, b: seq<bool>)
    requires |a| == |b|
    ensures Xored([p] + a, [q] + b) == [p != q] + Xored(a, b)
  {}

  lemma {:induction false} LowBitsXored(n: nat, a: bv32, b: bv32)
    ensures LowBits(n, Xor(a, b)) == Xored(LowBits(n, a), LowBits(n, b))
  {
    hide Low, Half, Xor, Xored;
    if n == 0 {
      assert Xored([], []) == [];
    } else {
      XorHalves(a, b);
      LowBitsXored(n - 1, Half(a), Half(b));
      XoredCons(Low(a), LowBits(n - 1, Half(a)), Low(b), LowBits(n - 1, Half(b)));
    }
  }

  lemma {:induction false} LowBitsSplit(m: nat, n: nat, w: bv32)
    ensures LowBits(m + n, w) == LowBits(m, w) + LowBits(n, HalvedBy(m, w))
    decreases m
  {
    hide Low, Half;
    if m > 0 {
      LowBitsSplit(m - 1, n, Half(w));
    }
  }

  lemma {:induction false} NoBits(n: nat)
    ensures LowBits(n, 0) == Zeros(n)
  {
    if n > 0 {
      NoBits(n - 1);
    }
  }

  lemma FourHalves(w: bv32)
    ensures Half(Half(Half(Half(w)))) == w >> 4
  {}

  lemma FourHalved(n: nat, w: bv32)
    ensures HalvedBy(n + 4, w) == HalvedBy(n, w >> 4) && HalvedBy(0, w) == w
  {
    hide Half, Low, LowBits;
    FourLowBits(w, Half(w), Half(Half(w)), Half(Half(Half(w))), w >> 4, n) by {
      FourHalves(w);
    }
  }

  lemma EightHalved(n: nat, w: bv32)
    ensures HalvedBy(n + 8, w) == HalvedBy(n, w >> 8)
  {
    hide *;
    FourHalved(n + 4, w);
    FourHalved(n, w >> 4);
    assert w >> 4 >> 4 == w >> 8;
  }

  lemma SixteenHalved(n: nat, w: bv32)
    ensures HalvedBy(n + 16, w) == HalvedBy(n, w >> 16)
  {
    hide *;
    EightHalved(n + 8, w);
    EightHalved(n, w >> 8);
    assert w >> 8 >> 8 == w >> 16;
  }

  /** The four lowest bits of a word, and the rest. */
  lemma Nibble(w: bv32, n: nat)
    ensures LowBits(n + 4, w) == [w & 1 != 0, w & 2 != 0, w & 4 != 0, w & 8 != 0] + LowBits(n, w >> 4)
    ensures LowBits(0, w >> 4) == []
  {
    NibbleLows(w);
    FourHalves(w);
    hide Low, Half;
    FourLowBits(w, Half(w), Half(Half(w)), Half(Half(Half(w))), w >> 4, n);
  }

  lemma NibbleLows(w: bv32)
    ensures Low(w) == (w & 1 != 0) && Low(Half(w)) == (w & 2 != 0)
    ensures Low(Half(Half(w))) == (w & 4 != 0) && Low(Half(Half(Half(w)))) == (w & 8 != 0)
  {}

  lemma HalvedOut(w: bv32)
    ensures HalvedBy(32, w) == 0
  {
    hide *;
    SixteenHalved(16, w);
    SixteenHalved(0, w >> 16);
    FourHalved(0, w >> 16 >> 16);
    assert w >> 16 >> 16 == 0;
  }

  lemma WordBitsAre(w: bv32)
    ensures WordBits(w) == LowBits(32, w)
  {}

  lemma PolynomialBits()
    ensures WordBits(REFLECTED_POLYNOMIAL) == Generator()[1..]
  {
    hide LowBits, Low, Half;
    Nibble(0xEDB88320, 28);
    Nibble(0x0EDB8832, 24);
    Nibble(0x00EDB883, 20);
    Nibble(0x000EDB88, 16);
    Nibble(0x0000EDB8, 12);
    Nibble(0x00000EDB, 8);
    Nibble(0x000000ED, 4);
    Nibble(0x0000000E, 0);
    var bits := [false, false, false, false] + ([false, true, false, false] + ([true, true, false, false] + ([false, false, false, true] + ([false, false, false, true] + ([true, true, false, true] + ([true, false, true, true] + ([false, true, true, true] + [])))))));
    assert WordBits(REFLECTED_POLYNOMIAL) == bits by {
      WordBitsAre(REFLECTED_POLYNOMIAL);
    }
    forall i | 0 <= i < 32 ensures bits[i] == Generator()[1..][i] {}
  }

  lemma InitialBits()
    ensures WordBits(INITIAL) == Ones(32)
  {
    hide LowBits, Low, Half;
    Nibble(0xFFFFFFFF, 28);
    Nibble(0x0FFFFFFF, 24);
    Nibble(0x00FFFFFF, 20);
    Nibble(0x000FFFFF, 16);
    Nibble(0x0000FFFF, 12);
    Nibble(0x00000FFF, 8);
    Nibble(0x000000FF, 4);
    Nibble(0x0000000F, 0);
  }

  lemma NothingFurther()
    ensures LowBits(1, 0) == [false]
  {}

  lemma WordAndNought(w: bv32)
    ensures WordBits(w) + [false] == [Low(w)] + WordBits(Half(w))
  {
    hide *;
    WordBitsAre(w);
    WordBitsAre(Half(w));
    UnfoldLowBits(32, w);
    LowBitsSplit(32, 1, w);
    HalvedOut(w);
    NothingFurther();
  }

  // ----- the register divides ----------------------------------------------------------------

  lemma ShiftIsXor(w: bv32)
    ensures ShiftRight(w) == if Low(w) then Xor(Half(w), REFLECTED_POLYNOMIAL) else Half(w)
  {}

  lemma XoredFirst(bits: seq<bool>, g: seq<bool>)
    requires |g| == |bits| + 1 && g[0]
    ensures Xored([true] + bits, g) == [false] + Xored(bits, g[1..])
  {}

  /** One shift of the register is one step of long division. */
  lemma ShiftReduces(w: bv32)
    ensures var one := WordBits(w) + [false];
      [false] + WordBits(ShiftRight(w)) == if one[0] then Xored(one, Generator()) else one
  {
    WordAndNought(w);
    ShiftIsXor(w);
    LowBitsXored(32, Half(w), REFLECTED_POLYNOMIAL);
    PolynomialBits();
    var half := WordBits(Half(w));
    assert Low(w) ==> WordBits(ShiftRight(w)) == Xored(half, WordBits(REFLECTED_POLYNOMIAL));
    hide *;
    XoredFirst(half, Generator());
  }

  lemma {:induction false} ShiftsFront(n: nat, w: bv32)
    ensures ShiftsRight(n + 1, w) == ShiftsRight(n, ShiftRight(w))
  {
    hide ShiftRight;
    if n > 0 {
      ShiftsFront(n - 1, w);
    }
  }

  lemma {:induction false} ShiftsReduce(n: nat, w: bv32, more: nat)
    ensures ReducedBy(n, WordBits(w) + Zeros(n + more), Generator()) == WordBits(ShiftsRight(n, w)) + Zeros(more)
  {
    hide ShiftRight, WordBits, Generator;
    if n > 0 {
      ShiftReduces(w);
      ReducedRegister(WordBits(w), WordBits(ShiftRight(w)), n + more, Generator());
      ShiftsFront(n - 1, w);
      ShiftsReduce(n - 1, ShiftRight(w), more);
    }
  }

  lemma LowsOfByte(b: bv8, w: bv32)
    requires w == b as bv32
    ensures Low(w) == (b & 0x01 != 0) && Low(Half(w)) == (b & 0x02 != 0)
    ensures Low(Half(Half(w))) == (b & 0x04 != 0) && Low(Half(Half(Half(w)))) == (b & 0x08 != 0)
    ensures Low(w >> 4) == (b & 0x10 != 0) && Low(Half(w >> 4)) == (b & 0x20 != 0)
    ensures Low(Half(Half(w >> 4))) == (b & 0x40 != 0) && Low(Half(Half(Half(w >> 4)))) == (b & 0x80 != 0)
    ensures w >> 4 >> 4 == 0
  {}

  lemma ByteBitsAre(b: bv8, w: bv32, v: bv32)
    requires w == b as bv32 && v == w >> 4
    ensures ByteBits(b) == [Low(w), Low(Half(w)), Low(Half(Half(w))), Low(Half(Half(Half(w))))]
      + [Low(v), Low(Half(v)), Low(Half(Half(v))), Low(Half(Half(Half(v))))]
    ensures v >> 4 == 0
  {
    LowsOfByte(b, w);
    hide Low, Half;
  }

  lemma BitsOfByteWord(b: bv8, w: bv32)
    requires w == b as bv32
    ensures WordBits(w) == ByteBits(b) + Zeros(24)
  {
    var v := w >> 4;
    ByteBitsAre(b, w, v);
    hide *;
    WordBitsAre(w);
    FourHalves(w);
    FourHalves(v);
    FourLowBits(w, Half(w), Half(Half(w)), Half(Half(Half(w))), v, 28);
    FourLowBits(v, Half(v), Half(Half(v)), Half(Half(Half(v))), 0, 24);
    NoBits(24);
  }

  lemma ByteTaken(crc: bv32, b: bv8)
    ensures WordBits(crc ^ (b as bv32)) == Xored(WordBits(crc), ByteBits(b) + Zeros(24))
  {
    hide ByteBits, LowBits;
    var w := b as bv32;
    assert Xor(crc, w) == crc ^ w;
    LowBitsXored(32, crc, w);
    BitsOfByteWord(b, w);
  }

  lemma ByteReduces(crc: bv32, b: bv8, rest: seq<bool>)
    ensures ReducedBy(8, Mixed(WordBits(crc), ByteBits(b) + rest), Generator()) == Mixed(WordBits(AbsorbRight(crc, b)), rest)
  {
    hide WordBits, Generator, ByteBits, ReducedBy, Mixed, ShiftsRight;
    var mixed := crc ^ (b as bv32);
    ByteTaken(crc, b);
    ShiftsReduce(8, mixed, |rest|);
    MixedStep(WordBits(crc), ByteBits(b), rest, WordBits(mixed), WordBits(AbsorbRight(crc, b)), Generator());
  }

  lemma {:induction false} UpdateFront(crc: bv32, b: bv8, rest: seq<bv8>)
    ensures UpdateRight(crc, [b] + rest) == UpdateRight(AbsorbRight(crc, b), rest)
    decreases |rest|
  {
    hide AbsorbRight;
    var all := [b] + rest;
    if rest == [] {
      assert all[..0] == [];
    } else {
      var n := |rest| - 1;
      assert all[..n + 1] == [b] + rest[..n];
      UpdateFront(crc, b, rest[..n]);
    }
  }

  lemma NoUpdate(crc: bv32)
    ensures UpdateRight(crc, []) == crc
  {}

  lemma ReducedByNone(dividend: seq<bool>, divisor: seq<bool>)
    requires divisor != [] && |dividend| >= |divisor| - 1
    ensures ReducedBy(0, dividend, divisor) == dividend
  {}

  lemma {:induction false} UpdateReduces(crc: bv32, bytes: seq<bv8>)
    ensures ReducedBy(8 * |bytes|, Mixed(WordBits(crc), Bits(bytes)), Generator()) == WordBits(UpdateRight(crc, bytes))
    decreases bytes
  {
    hide WordBits, Generator, AbsorbRight, ByteBits, ReducedBy, Mixed, UpdateRight;
    if bytes == [] {
      NoUpdate(crc);
      MixedNothing(WordBits(crc));
      ReducedByNone(Mixed(WordBits(crc), Bits(bytes)), Generator());
    } else {
      var (b, rest) := (bytes[0], Bits(bytes[1..]));
      assert bytes == [b] + bytes[1..];
      UpdateFront(crc, b, bytes[1..]);
      ByteReduces(crc, b, rest);
      ReducedTwice(8, 8 * |bytes[1..]|, Mixed(WordBits(crc), Bits(bytes)), Generator());
      UpdateReduces(AbsorbRight(crc, b), bytes[1..]);
    }
  }

  // ----- the checksum ------------------------------------------------------------------------

  /** A mask of the `n` lowest bits. */
  function LowMask(n: nat): bv32 {
    if n == 0 then 0 else (LowMask(n - 1) << 1) | 1
  }

  lemma NoLow(d: bv32, mask: bv32)
    requires !Low(d) && Half(d) & mask == 0
    ensures d & ((mask << 1) | 1) == 0
  {}

  lemma {:induction false} NoLows(n: nat, d: bv32)
    requires LowBits(n, d) == Zeros(n)
    ensures d & LowMask(n) == 0
  {
    hide Low, Half;
    if n > 0 {
      assert LowBits(n - 1, Half(d)) == LowBits(n, d)[1..] == Zeros(n - 1);
      assert !LowBits(n, d)[0];
      NoLows(n - 1, Half(d));
      NoLow(d, LowMask(n - 1));
    }
  }

  lemma FullMask()
    ensures LowMask(32) == 0xFFFFFFFF
  {
    assert LowMask(4) == 0xF;
    assert LowMask(8) == 0xFF;
    assert LowMask(12) == 0xFFF;
    assert LowMask(16) == 0xFFFF;
    assert LowMask(20) == 0xFFFFF;
    assert LowMask(24) == 0xFFFFFF;
    assert LowMask(28) == 0xFFFFFFF;
  }

  lemma XorZero(x: bv32, y: bv32)
    ensures Xor(x, y) & 0xFFFFFFFF == 0 <==> x == y
  {}

  lemma SameBitsSameWord(x: bv32, y: bv32)
    requires WordBits(x) == WordBits(y)
    ensures x == y
  {
    hide LowBits, LowMask, Xor;
    LowBitsXored(32, x, y);
    assert Xored(WordBits(x), WordBits(y)) == Zeros(32);
    NoLows(32, Xor(x, y));
    FullMask();
    XorZero(x, y);
  }

  lemma ComplementBits(w: bv32)
    ensures Xored(WordBits(Xor(w, 0xFFFFFFFF)), Ones(32)) == WordBits(w)
  {
    hide LowBits, Xor;
    LowBitsXored(32, w, 0xFFFFFFFF);
    InitialBits();
  }

  lemma FinalXor(bytes: seq<bv8>)
    ensures Crc32.Crc32(bytes) == Xor(UpdateRight(INITIAL, bytes), 0xFFFFFFFF)
  {
    hide UpdateRight;
  }

  /** The complement of the checksum, lowest bit first, is the remainder of the primed message, and no
      other word is. */
  lemma ChecksumIsRemainder(bytes: seq<bv8>, w: bv32)
    ensures IsRemainder(Primed(32, Bits(bytes)), Generator(), Xored(WordBits(w), Ones(32))) <==> w == Crc32.Crc32(bytes)
  {
    hide WordBits, Generator, UpdateRight, Leaves, ReducedBy, Bits, Xor, Xored, Crc32.Crc32;
    var message := Primed(32, Bits(bytes));
    var register := UpdateRight(INITIAL, bytes);
    InitialBits();
    PrimedIsMixed(32, Bits(bytes));
    UpdateReduces(INITIAL, bytes);
    FinalXor(bytes);
    ComplementBits(register);
    ReducingDivides(8 * |bytes|, message, Generator());
    if IsRemainder(message, Generator(), Xored(WordBits(w), Ones(32))) {
      var q1 :| Leaves(message, Generator(), q1, Xored(WordBits(w), Ones(32)));
      var q2 :| Leaves(message, Generator(), q2, Xored(WordBits(Crc32.Crc32(bytes)), Ones(32)));
      RemainderUnique(message, Generator(), q1, Xored(WordBits(w), Ones(32)), q2, Xored(WordBits(Crc32.Crc32(bytes)), Ones(32)));
      ComplementsSame(WordBits(w), WordBits(Crc32.Crc32(bytes)));
      SameBitsSameWord(w, Crc32.Crc32(bytes));
    }
  }

  lemma ComplementsSame(a: seq<bool>, b: seq<bool>)
    requires |a| == |b| == 32 && Xored(a, Ones(32)) == Xored(b, Ones(32))
    ensures a == b
  {
    forall i | 0 <= i < 32 ensures a[i] == b[i] {
      assert Xored(a, Ones(32))[i] == Xored(b, Ones(32))[i];
    }
  }

  // ----- check value -------------------------------------------------------------------------

  lemma EightShifts(crc: bv32)
    ensures ShiftsRight(8, crc) ==
      ShiftRight(ShiftRight(ShiftRight(ShiftRight(ShiftRight(ShiftRight(ShiftRight(ShiftRight(crc))))))))
  {
    hide *;
    ShiftsRightStep(7, crc);
    ShiftsRightStep(6, crc);
    ShiftsRightStep(5, crc);
    ShiftsRightStep(4, crc);
    ShiftsRightStep(3, crc);
    ShiftsRightStep(2, crc);
    ShiftsRightStep(1, crc);
    ShiftsRightStep(0, crc);
  }

  /** The register after the i-th byte of a message, by its eight shifts. */
  lemma Takes(crc: bv32, s: seq<bv8>, i: nat, next: bv32)
    requires i < |s|
    requires next ==
      ShiftRight(ShiftRight(ShiftRight(ShiftRight(ShiftRight(ShiftRight(ShiftRight(ShiftRight(crc ^ (s[i] as bv32)))))))))
    ensures UpdateRight(crc, s[i..]) == UpdateRight(next, s[i + 1..])
  {
    hide ShiftRight, ShiftsRight, UpdateRight;
    EightShifts(crc ^ (s[i] as bv32));
    assert s[i..] == [s[i]] + s[i + 1..];
    UpdateFront(crc, s[i], s[i + 1..]);
  }

  /** The check value of CRC-32/ISO-HDLC: the ASCII text "123456789". */
  lemma CheckValue()
    ensures Crc32.Crc32([0x31, 0x32, 0x33, 0x34, 0x35, 0x36, 0x37, 0x38, 0x39]) == 0xCBF43926
  {
    hide UpdateRight;
    var s: seq<bv8> := [0x31, 0x32, 0x33, 0x34, 0x35, 0x36, 0x37, 0x38, 0x39];
    assert s[0..] == s && s[9..] == [];
    Takes(0xFFFFFFFF, s, 0, 0x7C231048);
    Takes(0x7C231048, s, 1, 0xB0ACBB32);
    Takes(0xB0ACBB32, s, 2, 0x77B79C2D);
    Takes(0x77B79C2D, s, 3, 0x641C1F5C);
    Takes(0x641C1F5C, s, 4, 0x340AC5E3);
    Takes(0x340AC5E3, s, 5, 0xF68D2C9E);
    Takes(0xF68D2C9E, s, 6, 0xAFFC9660);
    Takes(0xAFFC9660, s, 7, 0x651F2550);
    Takes(0x651F2550, s, 8, 0x340BC6D9);
    NoUpdate(0x340BC6D9);
  }
}
