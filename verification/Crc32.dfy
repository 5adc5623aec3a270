/** The image checksum of the UART flash protocol: CRC-32/ISO-HDLC
    (src/integration/FlashFrame.cpp). `Crc32` follows the right-shifting loop of the code;
    `Reflected` is the left-shifting division by 0x04C11DB7 that the code's comment says it
    amounts to. `ReflectionCorrect` proves the two equal on every byte string. */
module Crc32 {

  const REFLECTED_POLYNOMIAL: bv32 := 0xEDB88320
  const POLYNOMIAL: bv32 := 0x04C11DB7
  const INITIAL: bv32 := 0xFFFFFFFF
  const FINAL_XOR: bv32 := 0xFFFFFFFF
  const TOP: bv32 := 0x80000000

  // ----- the code's loop ---------------------------------------------------------------------

  function ShiftRight(crc: bv32): bv32 {
    if crc & 1 != 0 then (crc >> 1) ^ REFLECTED_POLYNOMIAL else crc >> 1
  }

  function ShiftsRight(n: nat, crc: bv32): bv32 {
    if n == 0 then crc else ShiftRight(ShiftsRight(n - 1, crc))
  }

  function AbsorbRight(crc: bv32, b: bv8): bv32 {
    ShiftsRight(8, crc ^ (b as bv32))
  }

  function UpdateRight(crc: bv32, bytes: seq<bv8>): bv32
    decreases |bytes|
  {
    if bytes == [] then crc else AbsorbRight(UpdateRight(crc, bytes[..|bytes| - 1]), bytes[|bytes| - 1])
  }

  function Crc32(bytes: seq<bv8>): bv32 {
    UpdateRight(INITIAL, bytes) ^ FINAL_XOR
  }

  lemma ShiftRightDone(crc: bv32, half: bv32, next: bv32)
    requires half == crc >> 1
    requires next == if crc & 1 != 0 then half ^ REFLECTED_POLYNOMIAL else half
    ensures next == ShiftRight(crc)
  {}

  lemma ShiftsRightStep(n: nat, crc: bv32)
    ensures ShiftsRight(0, crc) == crc
    ensures ShiftsRight(n + 1, crc) == ShiftRight(ShiftsRight(n, crc))
  {
    hide ShiftRight;
  }

  lemma AbsorbRightDone(crc: bv32, b: bv8, mixed: bv32)
    requires mixed == crc ^ (b as bv32)
    ensures AbsorbRight(crc, b) == ShiftsRight(8, mixed)
  {}

  lemma UpdateRightStep(crc: bv32, bytes: seq<bv8>, b: bv8)
    ensures UpdateRight(crc, []) == crc
    ensures UpdateRight(crc, bytes + [b]) == AbsorbRight(UpdateRight(crc, bytes), b)
  {
    hide AbsorbRight;
    assert (bytes + [b])[..|bytes|] == bytes;
  }

  method Crc32IsoHdlc(bytes: seq<bv8>) returns (crc: bv32)
    ensures crc == Crc32(bytes)
  {
    hide ShiftRight, ShiftsRight, AbsorbRight, UpdateRight;
    crc := INITIAL;
    UpdateRightStep(INITIAL, [], 0);
    for i := 0 to |bytes|
      invariant crc == UpdateRight(INITIAL, bytes[..i])
    {
      ghost var before := crc;
      crc := crc ^ (bytes[i] as bv32);
      ghost var mixed := crc;
      ShiftsRightStep(0, mixed);
      for bit := 0 to 8
        invariant crc == ShiftsRight(bit, mixed)
      {
        ghost var last := crc;
        var lowBitSet := crc & 1;
        crc := crc >> 1;
        ghost var half := crc;
        if lowBitSet != 0 {
          crc := crc ^ REFLECTED_POLYNOMIAL;
        }
        ShiftRightDone(last, half, crc);
        ShiftsRightStep(bit, mixed);
      }
      AbsorbRightDone(before, bytes[i], mixed);
      UpdateRightStep(INITIAL, bytes[..i], bytes[i]);
      assert bytes[..i + 1] == bytes[..i] + [bytes[i]];
    }
    assert bytes[..|bytes|] == bytes;
    crc := crc ^ FINAL_XOR;
  }

  // ----- the textbook division ---------------------------------------------------------------

  function ShiftLeft(crc: bv32): bv32 {
    if crc & TOP != 0 then (crc << 1) ^ POLYNOMIAL else crc << 1
  }

  function ShiftsLeft(n: nat, crc: bv32): bv32 {
    if n == 0 then crc else ShiftLeft(ShiftsLeft(n - 1, crc))
  }

  /** The register of the unreflected algorithm takes a byte in at its top end. */
  function AbsorbLeft(crc: bv32, b: bv8): bv32 {
    ShiftsLeft(8, crc ^ ((b as bv32) << 24))
  }

  function UpdateLeft(crc: bv32, bytes: seq<bv8>): bv32
    decreases |bytes|
  {
    if bytes == [] then crc else AbsorbLeft(UpdateLeft(crc, bytes[..|bytes| - 1]), bytes[|bytes| - 1])
  }

  /** Bit reversal of a byte: halves, then pairs, then neighbours change places. */
  function Reverse8(b: bv8): bv8 {
    var h := ((b >> 4) & 0x0F) | ((b & 0x0F) << 4);
    var q := ((h >> 2) & 0x33) | ((h & 0x33) << 2);
    ((q >> 1) & 0x55) | ((q & 0x55) << 1)
  }

  function Reverse32(w: bv32): bv32 {
    var a := (w >> 16) | (w << 16);
    var b := ((a >> 8) & 0x00FF00FF) | ((a & 0x00FF00FF) << 8);
    var h := ((b >> 4) & 0x0F0F0F0F) | ((b & 0x0F0F0F0F) << 4);
    var q := ((h >> 2) & 0x33333333) | ((h & 0x33333333) << 2);
    ((q >> 1) & 0x55555555) | ((q & 0x55555555) << 1)
  }

  function ReverseAll(bytes: seq<bv8>): (r: seq<bv8>)
    ensures |r| == |bytes| && forall i :: 0 <= i < |bytes| ==> r[i] == Reverse8(bytes[i])
  {
    seq(|bytes|, i requires 0 <= i < |bytes| => Reverse8(bytes[i]))
  }

  /** Every input byte reversed, divided by 0x04C11DB7, the register reversed at the end. */
  function Reflected(bytes: seq<bv8>): bv32 {
    Reverse32(UpdateLeft(INITIAL, ReverseAll(bytes))) ^ FINAL_XOR
  }

  /** The reversals are what their names say: each bit moves to the mirrored position. */
  lemma ReverseMovesBits(b: bv8, i: bv8, w: bv32, j: bv32)
    requires i < 8 && j < 32
    ensures (Reverse8(b) >> i) & 1 == (b >> (7 - i)) & 1
    ensures (Reverse32(w) >> j) & 1 == (w >> (31 - j)) & 1
  {}

  lemma ReversePlainShift(crc: bv32)
    ensures Reverse32(crc << 1) == Reverse32(crc) >> 1
  {}

  lemma ReverseEnds(crc: bv32)
    ensures Reverse32(crc) & 1 == crc >> 31
  {}

  lemma ReverseReducedShift(crc: bv32)
    ensures Reverse32((crc << 1) ^ POLYNOMIAL) == (Reverse32(crc) >> 1) ^ REFLECTED_POLYNOMIAL
  {}

  lemma TopBit(crc: bv32)
    ensures crc & TOP != 0 <==> crc >> 31 != 0
  {}

  lemma ReverseShift(crc: bv32)
    ensures Reverse32(ShiftLeft(crc)) == ShiftRight(Reverse32(crc))
  {
    hide Reverse32;
    ReverseEnds(crc);
    TopBit(crc);
    if crc & TOP != 0 { ReverseReducedShift(crc); } else { ReversePlainShift(crc); }
  }

  lemma ReverseMixed(crc: bv32, b: bv8)
    ensures Reverse32(crc ^ ((Reverse8(b) as bv32) << 24)) == Reverse32(crc) ^ (b as bv32)
  {}

  lemma {:induction false} ReverseShifts(n: nat, crc: bv32)
    ensures Reverse32(ShiftsLeft(n, crc)) == ShiftsRight(n, Reverse32(crc))
  {
    hide Reverse32, ShiftLeft, ShiftRight;
    if n > 0 {
      ReverseShifts(n - 1, crc);
      ReverseShift(ShiftsLeft(n - 1, crc));
    }
  }

  lemma ReverseAbsorb(crc: bv32, b: bv8)
    ensures Reverse32(AbsorbLeft(crc, Reverse8(b))) == AbsorbRight(Reverse32(crc), b)
  {
    hide Reverse32, ShiftsLeft, ShiftsRight, Reverse8;
    ReverseShifts(8, crc ^ ((Reverse8(b) as bv32) << 24));
    ReverseMixed(crc, b);
  }

  lemma {:induction false} ReverseUpdate(crc: bv32, bytes: seq<bv8>)
    ensures Reverse32(UpdateLeft(crc, ReverseAll(bytes))) == UpdateRight(Reverse32(crc), bytes)
    decreases |bytes|
  {
    hide Reverse32, AbsorbLeft, AbsorbRight, Reverse8;
    if bytes == [] {
    } else {
      var n := |bytes| - 1;
      var mirrored := ReverseAll(bytes);
      assert mirrored[..n] == ReverseAll(bytes[..n]);
      ReverseUpdate(crc, bytes[..n]);
      ReverseAbsorb(UpdateLeft(crc, mirrored[..n]), bytes[n]);
    }
  }

  /** The right-shifting loop with 0xEDB88320 is the left-shifting division by 0x04C11DB7 with
      every input byte and the final register bit-reversed. */
  lemma ReflectionCorrect(bytes: seq<bv8>)
    ensures Crc32(bytes) == Reflected(bytes)
  {
    hide UpdateLeft, UpdateRight;
    ReverseUpdate(INITIAL, bytes);
    assert Reverse32(INITIAL) == INITIAL;
  }
}
