/** CRC-16/CCITT-FALSE as the standard defines it (section 3 of docs/protocols/uart-flash-v1.md): the
    remainder of the message's bits, the first sixteen complemented, modulo x^16 + x^12 + x^5 + 1, and
    the check value that identifies the variant. */
module Crc16Remainder {
  import opened BitDivision
  import opened Crc16

  function Generator(): (g: seq<bool>)
    ensures |g| == 17 && g[0]
  {
    Polynomial(16, {16, 12, 5, 0})
  }

  /** The bits of a 16-bit word, highest first. */
  function WordBits(w: bv16): (bits: seq<bool>)
    ensures |bits| == 16
  {
    TopBitsLength(16, w);
    TopBits(16, w)
  }

  lemma {:induction false} TopBitsLength(n: nat, w: bv16)
    ensures |TopBits(n, w)| == n
  {
    hide Top, Twice;
    if n > 0 {
      TopBitsLength(n - 1, Twice(w));
    }
  }

  lemma XorDoubles(a: bv16, b: bv16)
    ensures Top(Xor(a, b)) == (Top(a) != Top(b)) && Twice(Xor(a, b)) == Xor(Twice(a), Twice(b))
  {}

  lemma {:induction false} TopBitsXored(n: nat, a: bv16, b: bv16)
    ensures |TopBits(n, a)| == |TopBits(n, b)| == n
    ensures TopBits(n, Xor(a, b)) == Xored(TopBits(n, a), TopBits(n, b))
  {
    hide Top, Twice, Xor, Xored;
    TopBitsLength(n, a);
    TopBitsLength(n, b);
    if n == 0 {
      assert Xored([], []) == [];
    } else {
      XorDoubles(a, b);
      TopBitsXored(n - 1, Twice(a), Twice(b));
      XoredCons(Top(a), TopBits(n - 1, Twice(a)), Top(b), TopBits(n - 1, Twice(b)));
    }
  }

  lemma XoredCons(p: bool, a: seq<bool>, q: bool, b: seq<bool>)
    requires |a| == |b|
    ensures Xored([p] + a, [q] + b) == [p != q] + Xored(a, b)
  {}

  lemma {:induction false} TopBitsSplit(m: nat, n: nat, w: bv16)
    ensures TopBits(m + n, w) == TopBits(m, w) + TopBits(n, ShiftedLeft(m, w))
    decreases m
  {
    hide Top, Twice;
    if m > 0 {
      TopBitsSplit(m - 1, n, Twice(w));
    }
  }

  lemma {:induction false} NoBits(n: nat)
    ensures TopBits(n, 0) == Zeros(n)
  {
    if n > 0 {
      NoBits(n - 1);
    }
  }

  lemma FourTwice(w: bv16)
    ensures Twice(Twice(Twice(Twice(w)))) == w << 4
  {}

  lemma FourShifted(n: nat, w: bv16)
    ensures ShiftedLeft(n + 4, w) == ShiftedLeft(n, w << 4) && ShiftedLeft(0, w) == w
  {
    hide Twice, Top, TopBits;
    FourTopBits(w, Twice(w), Twice(Twice(w)), Twice(Twice(Twice(w))), w << 4, n) by {
      FourTwice(w);
    }
  }

  lemma EightShifted(w: bv16)
    ensures ShiftedLeft(8, w) == w << 8
  {
    hide *;
    FourShifted(4, w);
    FourShifted(0, w << 4);
    FourShifted(0, w << 4 << 4);
    assert w << 4 << 4 == w << 8;
  }

  lemma ShiftedOut(w: bv16)
    ensures ShiftedLeft(16, w) == 0
  {
    hide *;
    FourShifted(12, w);
    FourShifted(8, w << 4);
    EightShifted(w << 4 << 4);
    assert w << 4 << 4 << 8 == 0;
  }

  /** The four highest bits of a word, and the rest. */
  lemma Nibble(w: bv16, n: nat)
    ensures TopBits(n + 4, w) == [w & 0x8000 != 0, w & 0x4000 != 0, w & 0x2000 != 0, w & 0x1000 != 0] + TopBits(n, w << 4)
    ensures TopBits(0, w << 4) == []
  {
    NibbleTops(w);
    FourTwice(w);
    hide Top, Twice;
    FourTopBits(w, Twice(w), Twice(Twice(w)), Twice(Twice(Twice(w))), w << 4, n);
  }

  lemma NibbleTops(w: bv16)
    ensures Top(w) == (w & 0x8000 != 0) && Top(Twice(w)) == (w & 0x4000 != 0)
    ensures Top(Twice(Twice(w))) == (w & 0x2000 != 0) && Top(Twice(Twice(Twice(w)))) == (w & 0x1000 != 0)
  {}

  lemma WordBitsAre(w: bv16)
    ensures WordBits(w) == TopBits(16, w)
  {}

  lemma PolynomialBits()
    ensures WordBits(POLYNOMIAL) == Generator()[1..]
  {
    WordBitsAre(POLYNOMIAL);
    hide TopBits, ShiftedLeft, WordBits, Top, Twice;
    Nibble(0x1021, 12);
    Nibble(0x0210, 8);
    Nibble(0x2100, 4);
    Nibble(0x1000, 0);
    var bits := [false, false, false, true] + ([false, false, false, false] + ([false, false, true, false] + ([false, false, false, true] + [])));
    assert TopBits(16, 0x1021) == bits;
    forall i | 0 <= i < 16 ensures bits[i] == Generator()[1..][i] {}
  }

  lemma InitialBits()
    ensures WordBits(INITIAL) == Ones(16)
  {
    WordBitsAre(INITIAL);
    hide TopBits, ShiftedLeft, WordBits, Top, Twice;
    Nibble(0xFFFF, 12);
    Nibble(0xFFF0, 8);
    Nibble(0xFF00, 4);
    Nibble(0xF000, 0);
  }

  lemma ShiftIsXor(w: bv16)
    ensures Shift(w) == if Top(w) then Xor(Twice(w), POLYNOMIAL) else Twice(w)
  {}

  lemma NothingFurther()
    ensures TopBits(1, 0) == [false]
  {}

  lemma WordAndNought(w: bv16)
    ensures WordBits(w) + [false] == [Top(w)] + WordBits(Twice(w))
  {
    hide *;
    WordBitsAre(w);
    WordBitsAre(Twice(w));
    UnfoldTopBits(16, w);
    TopBitsSplit(16, 1, w);
    ShiftedOut(w);
    NothingFurther();
  }

  /** One shift of the register is one step of long division. */
  lemma ShiftReduces(w: bv16)
    ensures var one := WordBits(w) + [false];
      [false] + WordBits(Shift(w)) == if one[0] then Xored(one, Generator()) else one
  {
    WordAndNought(w);
    ShiftIsXor(w);
    TopBitsXored(16, Twice(w), POLYNOMIAL);
    PolynomialBits();
    var twice := WordBits(Twice(w));
    assert Top(w) ==> WordBits(Shift(w)) == Xored(twice, WordBits(POLYNOMIAL));
    hide *;
    XoredFirst(twice, Generator());
  }

  lemma XoredFirst(bits: seq<bool>, g: seq<bool>)
    requires |g| == |bits| + 1 && g[0]
    ensures Xored([true] + bits, g) == [false] + Xored(bits, g[1..])
  {}

  lemma {:induction false} ShiftsReduce(n: nat, w: bv16, more: nat)
    ensures ReducedBy(n, WordBits(w) + Zeros(n + more), Generator()) == WordBits(Shifts(n, w)) + Zeros(more)
  {
    hide Shift, WordBits, Generator;
    if n > 0 {
      ShiftReduces(w);
      ReducedRegister(WordBits(w), WordBits(Shift(w)), n + more, Generator());
      ShiftsReduce(n - 1, Shift(w), more);
    }
  }

  lemma ByteTaken(crc: bv16, b: bv8)
    ensures WordBits(crc ^ ((b as bv16) << 8)) == Xored(WordBits(crc), BitsOfByte(b) + Zeros(8))
  {
    hide BitsOfByte, TopBits;
    var w := (b as bv16) << 8;
    assert Xor(crc, w) == crc ^ w;
    TopBitsXored(16, crc, w);
    TopBitsOfByte(b, w);
    TopBitsSplit(8, 8, w);
    NoBits(8);
  }

  lemma {:induction false} UpdateReduces(crc: bv16, bytes: seq<bv8>)
    ensures ReducedBy(8 * |bytes|, Mixed(WordBits(crc), Bits(bytes)), Generator()) == WordBits(Update(crc, bytes))
    decreases bytes
  {
    hide WordBits, Generator, AbsorbByte, BitsOfByte, ReducedBy, Mixed;
    if bytes == [] {
      MixedNothing(WordBits(crc));
      ReducedByNone(Mixed(WordBits(crc), Bits(bytes)), Generator());
    } else {
      var (b, rest) := (bytes[0], Bits(bytes[1..]));
      var next := AbsorbByte(crc, b);
      ByteReduces(crc, b, rest);
      ReducedTwice(8, 8 * |bytes[1..]|, Mixed(WordBits(crc), Bits(bytes)), Generator());
      UpdateReduces(next, bytes[1..]);
    }
  }

  lemma ReducedByNone(dividend: seq<bool>, divisor: seq<bool>)
    requires divisor != [] && |dividend| >= |divisor| - 1
    ensures ReducedBy(0, dividend, divisor) == dividend
  {}

  lemma ByteReduces(crc: bv16, b: bv8, rest: seq<bool>)
    ensures ReducedBy(8, Mixed(WordBits(crc), BitsOfByte(b) + rest), Generator()) == Mixed(WordBits(AbsorbByte(crc, b)), rest)
  {
    hide WordBits, Generator, BitsOfByte, ReducedBy, Mixed, Shifts;
    var mixed := crc ^ ((b as bv16) << 8);
    ByteTaken(crc, b);
    ShiftsReduce(8, mixed, |rest|);
    MixedStep(WordBits(crc), BitsOfByte(b), rest, WordBits(mixed), WordBits(AbsorbByte(crc, b)), Generator());
  }

  /** A mask of the `n` highest bits. */
  function HighMask(n: nat): bv16 {
    if n == 0 then 0 else (HighMask(n - 1) >> 1) | TOP
  }

  lemma NoTop(d: bv16, mask: bv16)
    requires !Top(d) && Twice(d) & mask == 0
    ensures d & ((mask >> 1) | TOP) == 0
  {}

  lemma {:induction false} NoTops(n: nat, d: bv16)
    requires TopBits(n, d) == Zeros(n)
    ensures d & HighMask(n) == 0
  {
    hide Top, Twice;
    if n > 0 {
      assert TopBits(n - 1, Twice(d)) == TopBits(n, d)[1..] == Zeros(n - 1);
      assert !TopBits(n, d)[0];
      NoTops(n - 1, Twice(d));
      NoTop(d, HighMask(n - 1));
    }
  }

  lemma FullMask()
    ensures HighMask(16) == 0xFFFF
  {
    assert HighMask(4) == 0xF000;
    assert HighMask(8) == 0xFF00;
    assert HighMask(12) == 0xFFF0;
  }

  lemma XorZero(x: bv16, y: bv16)
    ensures Xor(x, y) & 0xFFFF == 0 <==> x == y
  {}

  lemma SameBitsSameWord(x: bv16, y: bv16)
    requires WordBits(x) == WordBits(y)
    ensures x == y
  {
    hide TopBits, HighMask, Xor;
    TopBitsXored(16, x, y);
    assert Xored(WordBits(x), WordBits(y)) == Zeros(16);
    NoTops(16, Xor(x, y));
    FullMask();
    XorZero(x, y);
  }

  /** The checksum is the remainder of the primed message, and no other word is. */
  lemma ChecksumIsRemainder(bytes: seq<bv8>, w: bv16)
    ensures IsRemainder(Primed(16, Bits(bytes)), Generator(), WordBits(w)) <==> w == Crc16.Crc16(bytes)
  {
    hide WordBits, Generator, Update, Leaves, ReducedBy, Bits;
    var message := Primed(16, Bits(bytes));
    InitialBits();
    PrimedIsMixed(16, Bits(bytes));
    UpdateReduces(INITIAL, bytes);
    ReducingDivides(8 * |bytes|, message, Generator());
    if IsRemainder(message, Generator(), WordBits(w)) {
      var q1 :| Leaves(message, Generator(), q1, WordBits(w));
      var q2 :| Leaves(message, Generator(), q2, WordBits(Crc16.Crc16(bytes)));
      RemainderUnique(message, Generator(), q1, WordBits(w), q2, WordBits(Crc16.Crc16(bytes)));
      SameBitsSameWord(w, Crc16.Crc16(bytes));
    }
  }

  // ----- check values ------------------------------------------------------------------------

  lemma EightShifts(crc: bv16)
    ensures Shifts(8, crc) == Shift(Shift(Shift(Shift(Shift(Shift(Shift(Shift(crc))))))))
  {
    hide *;
    var (a, b, c) := (Shift(crc), Shift(Shift(crc)), Shift(Shift(Shift(crc))));
    var (d, e, f) := (Shift(c), Shift(Shift(c)), Shift(Shift(Shift(c))));
    UnfoldShifts(7, crc);
    UnfoldShifts(6, a);
    UnfoldShifts(5, b);
    UnfoldShifts(4, c);
    UnfoldShifts(3, d);
    UnfoldShifts(2, e);
    UnfoldShifts(1, f);
    UnfoldShifts(0, Shift(f));
    UnfoldShifts(0, Shift(Shift(f)));
  }

  /** The register after the i-th byte of a message, by its eight shifts. */
  lemma Takes(crc: bv16, s: seq<bv8>, i: nat, next: bv16)
    requires i < |s|
    requires next == Shift(Shift(Shift(Shift(Shift(Shift(Shift(Shift(crc ^ ((s[i] as bv16) << 8)))))))))
    ensures Update(crc, s[i..]) == Update(next, s[i + 1..])
  {
    hide Shift, Shifts;
    EightShifts(crc ^ ((s[i] as bv16) << 8));
    assert s[i..][1..] == s[i + 1..];
  }

  /** The check value of CRC-16/CCITT-FALSE: the ASCII text "123456789". */
  lemma CheckValue()
    ensures Crc16.Crc16([0x31, 0x32, 0x33, 0x34, 0x35, 0x36, 0x37, 0x38, 0x39]) == 0x29B1
  {
    hide Update;
    var s: seq<bv8> := [0x31, 0x32, 0x33, 0x34, 0x35, 0x36, 0x37, 0x38, 0x39];
    assert s[0..] == s && s[9..] == [];
    Takes(0xFFFF, s, 0, 0xC782);
    Takes(0xC782, s, 1, 0x3DBA);
    Takes(0x3DBA, s, 2, 0x5BCE);
    Takes(0x5BCE, s, 3, 0x5349);
    Takes(0x5349, s, 4, 0x4560);
    Takes(0x4560, s, 5, 0x2EF4);
    Takes(0x2EF4, s, 6, 0x7718);
    Takes(0x7718, s, 7, 0xA12B);
    Takes(0xA12B, s, 8, 0x29B1);
    UpdateNothing(0x29B1);
  }
}
