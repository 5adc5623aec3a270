/** One message of the UART flash protocol and its bytes on the wire
    (src/integration/FlashFrame.cpp, FlashFrame.h). */
module FlashFrame {
  import opened Wrappers
  import Crc16

  const START: bv8 := 0xA5
  const MAX_PAYLOAD: nat := 260
  const HEADER: nat := 6
  const TRAILER: nat := 2

  datatype Frame = Frame(kind: bv8, seqNo: bv16, payload: seq<bv8>)

  datatype EncodeError = PayloadTooLong

  /** A 16-bit register, low byte first. */
  function Little16(v: bv16): (bytes: seq<bv8>)
    ensures |bytes| == 2 && ReadLittle16(bytes[0], bytes[1]) == v
  {
    [(v & 0xFF) as bv8, (v >> 8) as bv8]
  }

  function ReadLittle16(low: bv8, high: bv8): bv16 {
    (low as bv16) | ((high as bv16) << 8)
  }

  lemma ReadThenLittle16(low: bv8, high: bv8)
    ensures Little16(ReadLittle16(low, high)) == [low, high]
  {}

  lemma AppendBit(b: bv8, bit: bv8)
    requires b as int < 128 && bit < 2
    ensures ((b << 1) | bit) as int == 2 * (b as int) + bit as int
  {
    assert b < 128;
  }

  /** A number below 256 as a byte, built from its binary digits. */
  function ByteOf(n: nat): (b: bv8)
    requires n < 256
    ensures b as int == n
  {
    if n == 0 then 0
    else
      var half := ByteOf(n / 2);
      var bit := if n % 2 == 0 then 0 else 1;
      AppendBit(half, bit);
      (half << 1) | bit
  }

  lemma ByteOfInt(b: bv8)
    ensures ByteOf(b as int) == b
  {
    var c := ByteOf(b as int);
    assert (c as int) as bv8 == c && (b as int) as bv8 == b;
  }

  /** LEN: the payload size as a 16-bit number, low byte first. */
  function LengthBytes(n: nat): (bytes: seq<bv8>)
    requires n < 0x10000
    ensures |bytes| == 2 && ReadLength(bytes[0], bytes[1]) == n
  {
    [ByteOf(n % 256), ByteOf(n / 256)]
  }

  function ReadLength(low: bv8, high: bv8): (n: nat)
    ensures n < 0x10000 && n % 256 == low as int && n / 256 == high as int
  {
    var l: int, h: int := low as int, high as int;
    l + 256 * h
  }

  lemma ReadThenLength(low: bv8, high: bv8)
    ensures LengthBytes(ReadLength(low, high)) == [low, high]
  {
    hide ByteOf, ReadLength;
    ByteOfInt(low);
    ByteOfInt(high);
  }

  /** What the CRC covers: everything between the start byte and the CRC itself. */
  function Covered(f: Frame): (bytes: seq<bv8>)
    requires |f.payload| <= MAX_PAYLOAD
    ensures |bytes| == HEADER - 1 + |f.payload|
  {
    [f.kind] + Little16(f.seqNo) + LengthBytes(|f.payload|) + f.payload
  }

  /** A5 | TYPE | SEQ | LEN | PAYLOAD | CRC16. */
  function Wire(f: Frame): (bytes: seq<bv8>)
    requires |f.payload| <= MAX_PAYLOAD
    ensures |bytes| == HEADER + |f.payload| + TRAILER
  {
    [START] + Covered(f) + Little16(Crc16.Crc16(Covered(f)))
  }

  method EncodeFlashFrame(frame: Frame) returns (out: Result<seq<bv8>, EncodeError>)
    ensures |frame.payload| > 260 <==> out == Err(PayloadTooLong)
    ensures |frame.payload| <= 260 ==> out == Ok(Wire(frame))
  {
    if |frame.payload| > MAX_PAYLOAD {
      return Err(PayloadTooLong);
    }
    hide Little16, LengthBytes;
    var bytes := [START];
    bytes := bytes + [frame.kind];
    bytes := bytes + Little16(frame.seqNo);
    bytes := bytes + LengthBytes(|frame.payload|);
    bytes := bytes + frame.payload;
    assert bytes[1..] == Covered(frame);
    assert bytes == [START] + Covered(frame);
    var crc := Crc16.Crc16CcittFalse(bytes[1..]);
    bytes := bytes + Little16(crc);
    return Ok(bytes);
  }
}
