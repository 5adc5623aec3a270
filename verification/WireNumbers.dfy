/** The wire in numbers (sections 3 and 4 of docs/protocols/uart-flash-v1.md): which number every field of a
    frame stands for, low byte first, and the protocol's own example frames byte by byte. */
module WireNumbers {
  import opened FlashFrame
  import opened Crc16
  import opened Crc16Remainder
  import opened OtaTable

  function Power256(k: nat): (p: nat)
    ensures p > 0
  {
    if k == 0 then 1 else 256 * Power256(k - 1)
  }

  /** The k-th digit of a number to the base 256, the lowest first. */
  function Digit(n: nat, k: nat): (d: nat) {
    n / Power256(k) % 256
  }

  predicate LittleEndian(bytes: seq<bv8>, n: nat) {
    forall k :: 0 <= k < |bytes| ==> bytes[k] as int == Digit(n, k)
  }

  lemma LowDigits(n: nat)
    ensures Digit(n, 0) == n % 256 && Digit(n, 1) == n / 256 % 256
    ensures Digit(n, 2) == n / 65536 % 256
    ensures n < 65536 ==> Digit(n, 1) == n / 256
    ensures n < TWO_32 ==> Digit(n, 3) == n / 16777216
  {
    assert Power256(1) == 256 && Power256(2) == 65536 && Power256(3) == 16777216;
  }

  lemma TwoBytes(bytes: seq<bv8>, n: nat)
    requires |bytes| == 2 && n < 65536
    ensures LittleEndian(bytes, n) <==> bytes[0] as int == n % 256 && bytes[1] as int == n / 256
  {
    hide Digit;
    LowDigits(n);
  }

  lemma FourBytes(bytes: seq<bv8>, n: u32)
    requires |bytes| == 4
    ensures LittleEndian(bytes, n) <==>
      && bytes[0] as int == n % 256 && bytes[1] as int == n / 256 % 256
      && bytes[2] as int == n / 65536 % 256 && bytes[3] as int == n / 16777216
  {
    hide Digit;
    LowDigits(n);
  }

  /** A 32-bit number is written lowest byte first. */
  lemma WrittenLittleEndian(n: u32)
    ensures LittleEndian(Little32(n), n)
  {
    hide ByteOf, LittleEndian;
    FourBytes(Little32(n), n);
  }

  /** And read so. */
  lemma ReadLittleEndian(bytes: seq<bv8>, n: u32)
    requires |bytes| == 4
    ensures LittleEndian(bytes, n) <==> ReadLittle32(bytes) == n
  {
    hide LittleEndian;
    FourBytes(bytes, n);
    var (a, b, c, d) := (bytes[0] as int, bytes[1] as int, bytes[2] as int, bytes[3] as int);
    BytesOfU32(n);
    DigitsOf(a, b, c, d);
  }

  lemma DigitsOf(a: int, b: int, c: int, d: int)
    requires 0 <= a < 256 && 0 <= b < 256 && 0 <= c < 256 && 0 <= d < 256
    ensures var n := FromBytes(a, b, c, d);
      n % 256 == a && n / 256 % 256 == b && n / 65536 % 256 == c && n / 16777216 == d
  {
    var n := a + 256 * b + 65536 * c + 16777216 * d;
    assert n == a + 256 * (b + 256 * (c + 256 * d));
    assert n / 256 == b + 256 * (c + 256 * d);
    assert n / 65536 == n / 256 / 256 == c + 256 * d;
    assert n / 16777216 == n / 65536 / 256;
  }

  lemma HalvesOfWord(v: bv16)
    ensures ((v & 0xFF) as bv8) as int == v as int % 256 && ((v >> 8) as bv8) as int == v as int / 256
  {}

  lemma WordLittleEndian(v: bv16)
    ensures LittleEndian(Little16(v), v as int)
  {
    HalvesOfWord(v);
    assert Little16(v)[0] as int == v as int % 256 && Little16(v)[1] as int == v as int / 256;
    hide Little16, LittleEndian;
    TwoBytes(Little16(v), v as int);
  }

  /** Every field of an encoded frame, in numbers. */
  lemma WireFields(f: Frame)
    requires |f.payload| <= MAX_PAYLOAD
    ensures var (w, n) := (Wire(f), |f.payload|);
      && n <= 260 && |w| == 8 + n
      && w[0] == 0xA5 && w[1] == f.kind
      && LittleEndian(w[2..4], f.seqNo as int)
      && LittleEndian(w[4..6], n)
      && w[6..6 + n] == f.payload
      && LittleEndian(w[6 + n..], Crc16.Crc16(w[1..6 + n]) as int)
  {
    var (w, n) := (Wire(f), |f.payload|);
    WordLittleEndian(f.seqNo);
    WordLittleEndian(Crc16.Crc16(Covered(f)));
    assert LengthBytes(n)[0] as int == n % 256 && LengthBytes(n)[1] as int == n / 256;
    hide Little16, LengthBytes, LittleEndian, Crc16.Crc16;
    TwoBytes(LengthBytes(n), n);
    assert w[1..6 + n] == Covered(f);
    assert w[2..4] == Little16(f.seqNo) && w[4..6] == LengthBytes(n);
    assert w[6 + n..] == Little16(Crc16.Crc16(Covered(f)));
  }

  // ----- message numbers ---------------------------------------------------------------------

  lemma ByteAfter(b: bv8)
    ensures b == 0xFF ==> b as int == 255 && (b + 1) as int == 0
    ensures b != 0xFF ==> (b + 1) as int == b as int + 1
  {}

  lemma HalvesAfter(v: bv16, n: bv16)
    requires n == v + 1
    ensures var (low, high) := ((v & 0xFF) as bv8, (v >> 8) as bv8);
      (n & 0xFF) as bv8 == low + 1 && (n >> 8) as bv8 == if low == 0xFF then high + 1 else high
  {}

  /** The number after the last one is 0. */
  lemma NextNumber(v: bv16)
    ensures NextSeq(v) as int == (v as int + 1) % 65536
  {
    var n := NextSeq(v);
    var (low, high) := ((v & 0xFF) as bv8, (v >> 8) as bv8);
    HalvesOfWord(v);
    HalvesOfWord(n);
    ByteAfter(low);
    ByteAfter(high);
    HalvesAfter(v, n);
    Carry(low as int, high as int, ((n & 0xFF) as bv8) as int, ((n >> 8) as bv8) as int, v as int, n as int);
  }

  lemma Carry(low: int, high: int, low': int, high': int, v: int, n: int)
    requires 0 <= v < 65536 && low == v % 256 && high == v / 256 && low' == n % 256 && high' == n / 256
    requires low != 255 ==> low' == low + 1 && high' == high
    requires low == 255 ==> low' == 0 && high' == if high != 255 then high + 1 else 0
    ensures n == (v + 1) % 65536
  {}

  // ----- the protocol's own examples ---------------------------------------------------------

  lemma LowBytes(n: nat)
    requires n < 256
    ensures n == 0 ==> LengthBytes(n) == [0, 0]
    ensures n == 6 ==> LengthBytes(n) == [6, 0]
  {}

  lemma Spelled(f: Frame, covered: seq<bv8>, crc: bv16, tail: seq<bv8>)
    requires |f.payload| <= MAX_PAYLOAD
    requires covered == [f.kind] + Little16(f.seqNo) + LengthBytes(|f.payload|) + f.payload
    requires Crc16.Crc16(covered) == crc && Little16(crc) == tail
    ensures Wire(f) == [0xA5] + covered + tail
  {}

  lemma AskingChecksum()
    ensures Crc16.Crc16([0x01, 0x01, 0x00, 0x00, 0x00]) == 0xCDE9
  {
    hide Update, AbsorbByte;
    var s: seq<bv8> := [0x01, 0x01, 0x00, 0x00, 0x00];
    assert s[0..] == s && s[5..] == [];
    Takes(0xFFFF, s, 0, 0xF1D1);
    Takes(0xF1D1, s, 1, 0x3E1F);
    Takes(0x3E1F, s, 2, 0xC89D);
    Takes(0xC89D, s, 3, 0xC544);
    Takes(0xC544, s, 4, 0xCDE9);
    UpdateNothing(0xCDE9);
  }

  /** Section 3: the host asks what the board is running, as message number 1. */
  lemma AskingExample()
    ensures Wire(Frame(INFO_REQ, 1, [])) == [0xA5, 0x01, 0x01, 0x00, 0x00, 0x00, 0xE9, 0xCD]
  {
    hide Wire, Covered, Update, LengthBytes, Crc16.Crc16;
    LowBytes(0);
    AskingChecksum();
    Spelled(Frame(INFO_REQ, 1, []), [0x01, 0x01, 0x00, 0x00, 0x00], 0xCDE9, [0xE9, 0xCD]);
  }

  lemma AckChecksum()
    ensures Crc16.Crc16([0x82, 0x01, 0x00, 0x00, 0x00]) == 0x01EB
  {
    hide Update, AbsorbByte;
    var s: seq<bv8> := [0x82, 0x01, 0x00, 0x00, 0x00];
    assert s[0..] == s && s[5..] == [];
    Takes(0xFFFF, s, 0, 0x503A);
    Takes(0x503A, s, 1, 0x70D4);
    Takes(0x70D4, s, 2, 0xAA97);
    Takes(0xAA97, s, 3, 0x83A0);
    Takes(0x83A0, s, 4, 0x01EB);
    UpdateNothing(0x01EB);
  }

  /** Section 3: the board acknowledges message number 1. */
  lemma AckExample()
    ensures Wire(Frame(ACK, 1, [])) == [0xA5, 0x82, 0x01, 0x00, 0x00, 0x00, 0xEB, 0x01]
  {
    hide Wire, Covered, Update, LengthBytes, Crc16.Crc16;
    LowBytes(0);
    AckChecksum();
    Spelled(Frame(ACK, 1, []), [0x82, 0x01, 0x00, 0x00, 0x00], 0x01EB, [0xEB, 0x01]);
  }

  lemma InfoChecksum()
    ensures Crc16.Crc16([0x81, 0x01, 0x00, 0x06, 0x00, 0x01, 0x00, 0x00, 0x00, 0x01, 0x00]) == 0x1CF3
  {
    hide Update, AbsorbByte;
    var s: seq<bv8> := [0x81, 0x01, 0x00, 0x06, 0x00, 0x01, 0x00, 0x00, 0x00, 0x01, 0x00];
    assert s[0..] == s && s[11..] == [];
    Takes(0xFFFF, s, 0, 0x6059);
    Takes(0x6059, s, 1, 0x2587);
    Takes(0x2587, s, 2, 0xF3C7);
    Takes(0xF3C7, s, 3, 0x78BA);
    Takes(0x78BA, s, 4, 0x459F);
    Takes(0x459F, s, 5, 0x9740);
    Takes(0x9740, s, 6, 0xB35E);
    Takes(0xB35E, s, 7, 0xC9B8);
    Takes(0xC9B8, s, 8, 0xF065);
    Takes(0xF065, s, 9, 0x9A3E);
    Takes(0x9A3E, s, 10, 0x1CF3);
    UpdateNothing(0x1CF3);
  }

  /** Section 4: the board answers that it runs version 1 from bank 1, confirmed. */
  lemma InfoExample()
    ensures Wire(Frame(INFO, 1, [1, 0, 0, 0, 1, 0])) == [0xA5, 0x81, 0x01, 0x00, 0x06, 0x00, 0x01, 0x00, 0x00, 0x00, 0x01, 0x00, 0xF3, 0x1C]
  {
    hide Wire, Covered, Update, LengthBytes, Crc16.Crc16;
    LowBytes(6);
    InfoChecksum();
    Spelled(Frame(INFO, 1, [1, 0, 0, 0, 1, 0]), [0x81, 0x01, 0x00, 0x06, 0x00, 0x01, 0x00, 0x00, 0x00, 0x01, 0x00], 0x1CF3, [0xF3, 0x1C]);
  }
}
