/** The frame checksum of the UART flash protocol: CRC-16/CCITT-FALSE
    (src/integration/FlashFrame.cpp). `Crc16` follows the code byte by byte; `Absorb` is an
    independent bit-serial register, and the error-detection theorem is proved on the bits. */
module Crc16 {

  const POLYNOMIAL: bv16 := 0x1021
  const INITIAL: bv16 := 0xFFFF
  const TOP: bv16 := 0x8000

  /** One shift of the register: the inner loop body of the source. */
  function Shift(crc: bv16): bv16 {
    if crc & TOP != 0 then (crc << 1) ^ POLYNOMIAL else crc << 1
  }

  function Shifts(n: nat, crc: bv16): bv16 {
    if n == 0 then crc else Shifts(n - 1, Shift(crc))
  }

  function AbsorbByte(crc: bv16, b: bv8): bv16 {
    Shifts(8, crc ^ ((b as bv16) << 8))
  }

  function Update(crc: bv16, bytes: seq<bv8>): bv16
    decreases bytes
  {
    if bytes == [] then crc else Update(AbsorbByte(crc, bytes[0]), bytes[1..])
  }

  function Crc16(bytes: seq<bv8>): bv16 {
    Update(INITIAL, bytes)
  }

  lemma {:induction false} UpdateSnoc(crc: bv16, bytes: seq<bv8>, b: bv8)
    ensures Update(crc, bytes + [b]) == AbsorbByte(Update(crc, bytes), b)
    decreases bytes
  {
    if bytes == [] {
    } else {
      assert (bytes + [b])[1..] == bytes[1..] + [b];
      UpdateSnoc(AbsorbByte(crc, bytes[0]), bytes[1..], b);
    }
  }

  lemma ShiftsSnoc(n: nat, crc: bv16)
    ensures Shifts(n + 1, crc) == Shift(Shifts(n, crc))
    decreases n
  {
    if n > 0 {
      ShiftsSnoc(n - 1, Shift(crc));
    }
  }

  lemma UpdateNothing(crc: bv16)
    ensures Update(crc, []) == crc
    ensures Shifts(0, crc) == crc
  {}

  lemma ByteDone(crc: bv16, b: bv8, mixed: bv16)
    requires mixed == crc ^ ((b as bv16) << 8)
    ensures AbsorbByte(crc, b) == Shifts(8, mixed)
  {}

  lemma ShiftDone(crc: bv16, next: bv16)
    requires next == if crc & TOP != 0 then (crc << 1) ^ POLYNOMIAL else crc << 1
    ensures next == Shift(crc)
  {}

  method Crc16CcittFalse(bytes: seq<bv8>) returns (crc: bv16)
    ensures crc == Crc16(bytes)
  {
    hide Update, AbsorbByte, Shifts, Shift;
    crc := INITIAL;
    UpdateNothing(crc);
    for i := 0 to |bytes|
      invariant crc == Update(INITIAL, bytes[..i])
    {
      ghost var before := crc;
      crc := crc ^ ((bytes[i] as bv16) << 8);
      ghost var mixed := crc;
      UpdateNothing(crc);
      for bit := 0 to 8
        invariant crc == Shifts(bit, mixed)
      {
        ShiftsSnoc(bit, mixed);
        ghost var last := crc;
        crc := if crc & TOP != 0 then (crc << 1) ^ POLYNOMIAL else crc << 1;
        ShiftDone(last, crc);
      }
      ByteDone(before, bytes[i], mixed);
      UpdateSnoc(INITIAL, bytes[..i], bytes[i]);
      assert bytes[..i + 1] == bytes[..i] + [bytes[i]];
    }
    assert bytes[..|bytes|] == bytes;
  }

  // ----- the bit-serial view -----------------------------------------------------------------

  /** The bits of a byte in transmission order of the register: highest first. */
  function BitsOfByte(b: bv8): (bits: seq<bool>)
    ensures |bits| == 8
  {
    [b & 0x80 != 0, b & 0x40 != 0, b & 0x20 != 0, b & 0x10 != 0,
     b & 0x08 != 0, b & 0x04 != 0, b & 0x02 != 0, b & 0x01 != 0]
  }

  function Bits(bytes: seq<bv8>): (bits: seq<bool>)
    ensures |bits| == 8 * |bytes|
  {
    if bytes == [] then [] else BitsOfByte(bytes[0]) + Bits(bytes[1..])
  }

  function AbsorbBit(crc: bv16, bit: bool): bv16 {
    if bit then Shift(crc ^ TOP) else Shift(crc)
  }

  /** Polynomial division, one message bit at a time. */
  function Absorb(crc: bv16, bits: seq<bool>): bv16
    decreases bits
  {
    if bits == [] then crc else Absorb(AbsorbBit(crc, bits[0]), bits[1..])
  }

  lemma {:induction false} AbsorbConcat(crc: bv16, a: seq<bool>, b: seq<bool>)
    ensures Absorb(crc, a + b) == Absorb(Absorb(crc, a), b)
    decreases a
  {
    if a == [] {
      assert a + b == b;
    } else {
      assert (a + b)[1..] == a[1..] + b;
      AbsorbConcat(AbsorbBit(crc, a[0]), a[1..], b);
    }
  }

  function Xor(a: bv16, b: bv16): bv16 { a ^ b }

  function Twice(w: bv16): bv16 { w << 1 }

  predicate Top(w: bv16) { w & TOP != 0 }

  function TopBits(n: nat, w: bv16): seq<bool> {
    if n == 0 then [] else [Top(w)] + TopBits(n - 1, Twice(w))
  }

  function ShiftedLeft(n: nat, w: bv16): bv16 {
    if n == 0 then w else ShiftedLeft(n - 1, Twice(w))
  }

  lemma MixedClearClear(crc: bv16, w: bv16)
    requires crc & TOP == 0 && w & TOP == 0
    ensures Shift(crc ^ w) == Shift(crc) ^ (w << 1)
  {}

  lemma MixedClearSet(crc: bv16, w: bv16)
    requires crc & TOP == 0 && w & TOP != 0
    ensures Shift(crc ^ w) == Shift(crc ^ TOP) ^ (w << 1)
  {}

  lemma MixedSetClear(crc: bv16, w: bv16)
    requires crc & TOP != 0 && w & TOP == 0
    ensures Shift(crc ^ w) == Shift(crc) ^ (w << 1)
  {}

  lemma MixedSetSet(crc: bv16, w: bv16)
    requires crc & TOP != 0 && w & TOP != 0
    ensures Shift(crc ^ w) == Shift(crc ^ TOP) ^ (w << 1)
  {}

  // The same of the named operations, case by case.

  lemma NamedClearClear(crc: bv16, w: bv16)
    requires !Top(crc) && !Top(w)
    ensures Shift(Xor(crc, w)) == Xor(AbsorbBit(crc, false), Twice(w))
  {
    hide Shift;
    MixedClearClear(crc, w);
  }

  lemma NamedClearSet(crc: bv16, w: bv16)
    requires !Top(crc) && Top(w)
    ensures Shift(Xor(crc, w)) == Xor(AbsorbBit(crc, true), Twice(w))
  {
    hide Shift;
    MixedClearSet(crc, w);
  }

  lemma NamedSetClear(crc: bv16, w: bv16)
    requires Top(crc) && !Top(w)
    ensures Shift(Xor(crc, w)) == Xor(AbsorbBit(crc, false), Twice(w))
  {
    hide Shift;
    MixedSetClear(crc, w);
  }

  lemma NamedSetSet(crc: bv16, w: bv16)
    requires Top(crc) && Top(w)
    ensures Shift(Xor(crc, w)) == Xor(AbsorbBit(crc, true), Twice(w))
  {
    hide Shift;
    MixedSetSet(crc, w);
  }

  /** Mixing a whole word in before shifting is mixing its top bit in and carrying the rest along. */
  lemma ShiftMixed(crc: bv16, w: bv16)
    ensures Shift(Xor(crc, w)) == Xor(AbsorbBit(crc, Top(w)), Twice(w))
  {
    hide *;
    if Top(crc) && Top(w) {
      NamedSetSet(crc, w);
    } else if Top(crc) {
      NamedSetClear(crc, w);
    } else if Top(w) {
      NamedClearSet(crc, w);
    } else {
      NamedClearClear(crc, w);
    }
  }

  lemma UnfoldShifts(n: nat, crc: bv16)
    ensures Shifts(0, crc) == crc
    ensures Shifts(n + 1, crc) == Shifts(n, Shift(crc))
  {}

  lemma UnfoldBits(n: nat, crc: bv16, w: bv16)
    ensures Absorb(crc, TopBits(0, w)) == crc && ShiftedLeft(0, w) == w
    ensures Absorb(crc, TopBits(n + 1, w)) == Absorb(AbsorbBit(crc, Top(w)), TopBits(n, Twice(w)))
    ensures ShiftedLeft(n + 1, w) == ShiftedLeft(n, Twice(w))
  {
    hide AbsorbBit, Top, Twice;
    assert TopBits(n + 1, w)[1..] == TopBits(n, Twice(w));
  }

  lemma {:induction false} ShiftsMixed(n: nat, crc: bv16, w: bv16)
    ensures Shifts(n, Xor(crc, w)) == Xor(Absorb(crc, TopBits(n, w)), ShiftedLeft(n, w))
    decreases n
  {
    hide *;
    var k := if n == 0 then 0 else n - 1;
    UnfoldShifts(k, Xor(crc, w));
    UnfoldBits(k, crc, w);
    if n > 0 {
      ShiftMixed(crc, w);
      ShiftsMixed(n - 1, AbsorbBit(crc, Top(w)), Twice(w));
    }
  }

  lemma ByteIsItsBits(crc: bv16, b: bv8)
    ensures AbsorbByte(crc, b) == Absorb(crc, BitsOfByte(b))
  {
    var w := (b as bv16) << 8;
    assert Xor(crc, w) == crc ^ w;
    ShiftsMixed(8, crc, w);
    TopBitsOfByte(b, w);
    assert Xor(Absorb(crc, BitsOfByte(b)), 0) == Absorb(crc, BitsOfByte(b));
  }

  lemma TopsOfByte(b: bv8, w: bv16)
    requires w == (b as bv16) << 8
    ensures Top(w) == (b & 0x80 != 0)
    ensures Top(Twice(w)) == (b & 0x40 != 0)
    ensures Top(Twice(Twice(w))) == (b & 0x20 != 0)
    ensures Top(Twice(Twice(Twice(w)))) == (b & 0x10 != 0)
    ensures Top(Twice(Twice(Twice(Twice(w))))) == (b & 0x08 != 0)
    ensures Top(Twice(Twice(Twice(Twice(Twice(w)))))) == (b & 0x04 != 0)
    ensures Top(Twice(Twice(Twice(Twice(Twice(Twice(w))))))) == (b & 0x02 != 0)
    ensures Top(Twice(Twice(Twice(Twice(Twice(Twice(Twice(w)))))))) == (b & 0x01 != 0)
    ensures Twice(Twice(Twice(Twice(Twice(Twice(Twice(Twice(w)))))))) == 0
  {}

  lemma UnfoldTopBits(n: nat, w: bv16)
    ensures TopBits(0, w) == [] && ShiftedLeft(0, w) == w
    ensures TopBits(n + 1, w) == [Top(w)] + TopBits(n, Twice(w))
    ensures ShiftedLeft(n + 1, w) == ShiftedLeft(n, Twice(w))
  {}

  lemma TopBitsOfByte(b: bv8, w: bv16)
    requires w == (b as bv16) << 8
    ensures TopBits(8, w) == BitsOfByte(b)
    ensures ShiftedLeft(8, w) == 0
  {
    hide TopBits, ShiftedLeft, Top, Twice;
    var w1 := Twice(w);
    var w2 := Twice(w1);
    var w3 := Twice(w2);
    var w4 := Twice(w3);
    var w5 := Twice(w4);
    var w6 := Twice(w5);
    var w7 := Twice(w6);
    FourTopBits(w, w1, w2, w3, w4, 4);
    FourTopBits(w4, w5, w6, w7, Twice(w7), 0);
    TopsOfByte(b, w);
    hide BitsOfByte;
    BitsListed(b, Top(w), Top(w1), Top(w2), Top(w3), Top(w4), Top(w5), Top(w6), Top(w7));
  }

  lemma BitsListed(b: bv8, t0: bool, t1: bool, t2: bool, t3: bool, t4: bool, t5: bool, t6: bool, t7: bool)
    requires t0 == (b & 0x80 != 0) && t1 == (b & 0x40 != 0) && t2 == (b & 0x20 != 0) && t3 == (b & 0x10 != 0)
    requires t4 == (b & 0x08 != 0) && t5 == (b & 0x04 != 0) && t6 == (b & 0x02 != 0) && t7 == (b & 0x01 != 0)
    ensures [t0, t1, t2, t3] + ([t4, t5, t6, t7] + []) == BitsOfByte(b)
  {}

  lemma FourTopBits(w: bv16, w1: bv16, w2: bv16, w3: bv16, w4: bv16, n: nat)
    requires w1 == Twice(w) && w2 == Twice(w1) && w3 == Twice(w2) && w4 == Twice(w3)
    ensures TopBits(n + 4, w) == [Top(w), Top(w1), Top(w2), Top(w3)] + TopBits(n, w4)
    ensures ShiftedLeft(n + 4, w) == ShiftedLeft(n, w4)
    ensures TopBits(0, w4) == [] && ShiftedLeft(0, w4) == w4
  {
    hide *;
    UnfoldTopBits(n + 3, w);
    UnfoldTopBits(n + 2, w1);
    UnfoldTopBits(n + 1, w2);
    UnfoldTopBits(n, w3);
    UnfoldTopBits(0, w4);
  }

  /** The byte-wise loop is division of the whole bit string. */
  lemma {:induction false} UpdateIsAbsorb(crc: bv16, bytes: seq<bv8>)
    ensures Update(crc, bytes) == Absorb(crc, Bits(bytes))
    decreases bytes
  {
    if bytes == [] {
    } else {
      ByteIsItsBits(crc, bytes[0]);
      AbsorbConcat(crc, BitsOfByte(bytes[0]), Bits(bytes[1..]));
      UpdateIsAbsorb(AbsorbByte(crc, bytes[0]), bytes[1..]);
    }
  }

  // ----- error detection ---------------------------------------------------------------------

  /** Two registers are equal in every position the mask sets. */
  predicate AgreeOn(mask: bv16, x: bv16, y: bv16) { (x ^ y) & mask == 0 }

  function Odd(mask: bv16): bv16 { (mask << 1) | 1 }

  /** A word whose `n` lowest bits are set. */
  function LowMask(n: nat): bv16 {
    if n == 0 then 0 else Odd(LowMask(n - 1))
  }

  lemma ShiftBackClear(x: bv16, y: bv16, mask: bv16)
    requires x & TOP == 0 && y & TOP == 0
    requires (Shift(x) ^ Shift(y)) & ((mask << 1) | 1) == 0
    ensures (x ^ y) & mask == 0
  {}

  lemma ShiftBackSet(x: bv16, y: bv16, mask: bv16)
    requires x & TOP != 0 && y & TOP != 0
    requires (Shift(x) ^ Shift(y)) & ((mask << 1) | 1) == 0
    ensures (x ^ y) & mask == 0
  {}

  lemma ShiftBackMixed(x: bv16, y: bv16, mask: bv16)
    requires x & TOP == 0 && y & TOP != 0
    ensures (Shift(x) ^ Shift(y)) & ((mask << 1) | 1) != 0
    ensures (Shift(y) ^ Shift(x)) & ((mask << 1) | 1) != 0
  {}

  /** Shifts are undone on the low bits: the odd polynomial betrays which top bit was lost. */
  lemma ShiftBack(x: bv16, y: bv16, mask: bv16)
    requires AgreeOn(Odd(mask), Shift(x), Shift(y))
    ensures (x & TOP != 0) == (y & TOP != 0)
    ensures AgreeOn(mask, x, y)
  {
    hide Shift;
    if x & TOP != 0 {
      if y & TOP != 0 { ShiftBackSet(x, y, mask); } else { ShiftBackMixed(y, x, mask); }
    } else {
      if y & TOP != 0 { ShiftBackMixed(x, y, mask); } else { ShiftBackClear(x, y, mask); }
    }
  }

  lemma UnmixSet(r1: bv16, r2: bv16, mask: bv16)
    requires mask & TOP == 0 && AgreeOn(mask, r1 ^ TOP, r2 ^ TOP)
    requires ((r1 ^ TOP) & TOP != 0) == ((r2 ^ TOP) & TOP != 0)
    ensures AgreeOn(mask, r1, r2)
  {}

  lemma UnmixOne(r1: bv16, r2: bv16, mask: bv16)
    requires mask & TOP == 0
    requires ((r1 ^ TOP) & TOP != 0) == (r2 & TOP != 0)
    ensures AgreeOn(mask, r1 ^ TOP, r2) ==> AgreeOn(mask, r1, r2)
    ensures AgreeOn(mask, r2, r1 ^ TOP) ==> AgreeOn(mask, r2, r1)
    ensures r1 != r2
  {}

  lemma UnabsorbBit(r1: bv16, r2: bv16, bit1: bool, bit2: bool, mask: bv16)
    requires mask & TOP == 0
    requires AgreeOn(Odd(mask), AbsorbBit(r1, bit1), AbsorbBit(r2, bit2))
    ensures AgreeOn(mask, r1, r2)
    ensures r1 == r2 ==> bit1 == bit2
  {
    hide Shift, AgreeOn, Odd;
    if bit1 {
      if bit2 {
        ShiftBack(r1 ^ TOP, r2 ^ TOP, mask);
        UnmixSet(r1, r2, mask);
      } else {
        ShiftBack(r1 ^ TOP, r2, mask);
        UnmixOne(r1, r2, mask);
      }
    } else {
      if bit2 {
        ShiftBack(r1, r2 ^ TOP, mask);
        UnmixOne(r2, r1, mask);
      } else {
        ShiftBack(r1, r2, mask);
      }
    }
  }

  lemma LowMaskStep(n: nat)
    ensures LowMask(n + 1) == Odd(LowMask(n))
  {
    hide Odd;
  }

  lemma LowMaskShort(n: nat)
    requires n < 16
    ensures LowMask(n) & TOP == 0
  {
    assert LowMask(3) == 7;
    assert LowMask(6) == 0x3F;
    assert LowMask(9) == 0x1FF;
    assert LowMask(12) == 0xFFF;
    assert LowMask(15) == 0x7FFF;
  }

  lemma AgreeOnBasics(x: bv16, y: bv16)
    ensures AgreeOn(LowMask(16), x, x)
    ensures AgreeOn(0xFFFF, x, y) ==> x == y
  {}

  /** Registers that `n` further bits can bring together agree on their `16 - n` low bits. */
  lemma {:induction false} LowBitsAgree(r1: bv16, r2: bv16, a: seq<bool>, b: seq<bool>)
    requires |a| == |b| <= 16 && Absorb(r1, a) == Absorb(r2, b)
    ensures AgreeOn(LowMask(16 - |a|), r1, r2)
    decreases |a|
  {
    hide AbsorbBit, LowMask, AgreeOn;
    if a == [] {
      AgreeOnBasics(r1, r2);
    } else {
      var m := 16 - |a|;
      LowBitsAgree(AbsorbBit(r1, a[0]), AbsorbBit(r2, b[0]), a[1..], b[1..]);
      LowMaskStep(m);
      LowMaskShort(m);
      UnabsorbBit(r1, r2, a[0], b[0], LowMask(m));
    }
  }

  /** No two bit strings of at most 16 bits lead from one register to one register. */
  lemma {:induction false} ShortBitsRecovered(r: bv16, a: seq<bool>, b: seq<bool>)
    requires |a| == |b| <= 16 && Absorb(r, a) == Absorb(r, b)
    ensures a == b
    decreases |a|
  {
    hide AbsorbBit, LowMask, AgreeOn;
    if a == [] {
    } else {
      var m := 16 - |a|;
      LowBitsAgree(AbsorbBit(r, a[0]), AbsorbBit(r, b[0]), a[1..], b[1..]);
      LowMaskStep(m);
      LowMaskShort(m);
      UnabsorbBit(r, r, a[0], b[0], LowMask(m));
      ShortBitsRecovered(AbsorbBit(r, a[0]), a[1..], b[1..]);
      assert a == [a[0]] + a[1..] && b == [b[0]] + b[1..];
    }
  }

  lemma ShiftInjective(x: bv16, y: bv16)
    requires Shift(x) == Shift(y)
    ensures x == y
  {
    hide LowMask, Shift;
    ShiftBack(x, y, 0x7FFF);
  }

  /** Equal bits keep different registers different, however many follow. */
  lemma {:induction false} SameBitsInjective(r1: bv16, r2: bv16, bits: seq<bool>)
    requires Absorb(r1, bits) == Absorb(r2, bits)
    ensures r1 == r2
    decreases |bits|
  {
    hide Shift, AgreeOn;
    if bits == [] {
    } else {
      SameBitsInjective(AbsorbBit(r1, bits[0]), AbsorbBit(r2, bits[0]), bits[1..]);
      if bits[0] {
        ShiftInjective(r1 ^ TOP, r2 ^ TOP);
        assert r1 == (r1 ^ TOP) ^ TOP && r2 == (r2 ^ TOP) ^ TOP;
      } else {
        ShiftInjective(r1, r2);
      }
    }
  }

  lemma BitsOfByteInjective(a: bv8, b: bv8)
    requires BitsOfByte(a) == BitsOfByte(b)
    ensures a == b
  {
    var x, y := BitsOfByte(a), BitsOfByte(b);
    assert x[0] == y[0] && x[1] == y[1] && x[2] == y[2] && x[3] == y[3];
    assert x[4] == y[4] && x[5] == y[5] && x[6] == y[6] && x[7] == y[7];
  }

  lemma {:induction false} BitsInjective(a: seq<bv8>, b: seq<bv8>)
    requires |a| == |b| && Bits(a) == Bits(b)
    ensures a == b
  {
    hide BitsOfByte;
    if a == [] {
    } else {
      assert BitsOfByte(a[0]) == Bits(a)[..8] == Bits(b)[..8] == BitsOfByte(b[0]);
      assert Bits(a[1..]) == Bits(a)[8..] == Bits(b)[8..] == Bits(b[1..]);
      BitsOfByteInjective(a[0], b[0]);
      BitsInjective(a[1..], b[1..]);
    }
  }

  /** Two messages of one length whose bits differ only inside positions `at` to `at + 15`. */
  predicate DifferOnlyInWindow(a: seq<bv8>, b: seq<bv8>, at: nat) {
    && |a| == |b|
    && forall i :: 0 <= i < 8 * |a| && !(at <= i < at + 16) ==> Bits(a)[i] == Bits(b)[i]
  }

  lemma AbsorbThree(r: bv16, bits: seq<bool>, lo: nat, hi: nat)
    requires lo <= hi <= |bits|
    ensures Absorb(r, bits) == Absorb(Absorb(Absorb(r, bits[..lo]), bits[lo..hi]), bits[hi..])
  {
    hide Absorb;
    assert bits == bits[..hi] + bits[hi..] && bits[..hi] == bits[..lo] + bits[lo..hi];
    AbsorbConcat(r, bits[..hi], bits[hi..]);
    AbsorbConcat(r, bits[..lo], bits[lo..hi]);
  }

  /** Bit strings that agree before `lo` and from `hi` on, at most 16 bits later, and that leave
      the same register, are equal. */
  lemma WindowRecovered(r: bv16, x: seq<bool>, y: seq<bool>, lo: nat, hi: nat)
    requires |x| == |y| && lo <= hi <= |x| && hi <= lo + 16
    requires x[..lo] == y[..lo] && x[hi..] == y[hi..] && Absorb(r, x) == Absorb(r, y)
    ensures x == y
  {
    hide *;
    var before := Absorb(r, x[..lo]);
    AbsorbThree(r, x, lo, hi);
    AbsorbThree(r, y, lo, hi);
    SameBitsInjective(Absorb(before, x[lo..hi]), Absorb(before, y[lo..hi]), x[hi..]);
    ShortBitsRecovered(before, x[lo..hi], y[lo..hi]);
    assert x == x[..lo] + x[lo..hi] + x[hi..] && y == y[..lo] + y[lo..hi] + y[hi..];
  }

  /** Error detection: damage confined to 16 consecutive bits always changes the checksum,
      whatever the length of the message and wherever the window starts. */
  lemma BurstDetected(a: seq<bv8>, b: seq<bv8>, at: nat)
    requires DifferOnlyInWindow(a, b, at) && a != b
    ensures Crc16(a) != Crc16(b)
  {
    if Crc16(a) == Crc16(b) {
      hide Absorb, Bits, Update;
      UpdateIsAbsorb(INITIAL, a);
      UpdateIsAbsorb(INITIAL, b);
      var x, y := Bits(a), Bits(b);
      var lo := if at <= |x| then at else |x|;
      var hi := if at + 16 <= |x| then at + 16 else |x|;
      assert x[..lo] == y[..lo] && x[hi..] == y[hi..];
      WindowRecovered(INITIAL, x, y, lo, hi);
      BitsInjective(a, b);
    }
  }
}
