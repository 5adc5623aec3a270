/** The host side of one firmware update as values (src/integration/OtaSession.cpp): the guards,
    actions and transition table, and the effect of each public call. */
module OtaTable {
  import opened Wrappers
  import opened FlashFrame
  import Crc32

  const INFO_REQ: bv8 := 0x01
  const BEGIN: bv8 := 0x02
  const DATA: bv8 := 0x03
  const COMMIT: bv8 := 0x04
  const CONFIRM: bv8 := 0x05
  const INFO: bv8 := 0x81
  const ACK: bv8 := 0x82
  const NAK: bv8 := 0x83

  const NAK_BAD_CRC: bv8 := 0x01
  const INFO_PAYLOAD: nat := 6
  const STATE_CONFIRMED: bv8 := 0
  const STATE_TRIAL: bv8 := 1
  const DATA_CHUNK: nat := 256
  const FLASH_WORD: nat := 8
  const ERASED: bv8 := 0xFF
  const TWO_32: nat := 0x1_0000_0000

  type u32 = n: nat | n < TWO_32

  /** A 32-bit number, low byte first. */
  function Little32(v: u32): (bytes: seq<bv8>)
    ensures |bytes| == 4
  {
    [ByteOf(v % 256), ByteOf(v / 256 % 256), ByteOf(v / 65536 % 256), ByteOf(v / 16777216)]
  }

  function ReadLittle32(bytes: seq<bv8>): u32
    requires |bytes| == 4
  {
    FromBytes(bytes[0] as int, bytes[1] as int, bytes[2] as int, bytes[3] as int)
  }

  function FromBytes(b0: int, b1: int, b2: int, b3: int): (v: u32)
    requires 0 <= b0 < 256 && 0 <= b1 < 256 && 0 <= b2 < 256 && 0 <= b3 < 256
  {
    b0 + 256 * b1 + 65536 * b2 + 16777216 * b3
  }

  lemma BytesOfU32(v: u32)
    ensures FromBytes(v % 256, v / 256 % 256, v / 65536 % 256, v / 16777216) == v
  {
    var q := v / 256;
    var r := v / 65536;
    assert q / 256 == r && r / 256 == v / 16777216;
    assert v == v % 256 + 256 * q && q == q % 256 + 256 * r && r == r % 256 + 256 * (r / 256);
  }

  lemma Little32RoundTrip(v: u32)
    ensures ReadLittle32(Little32(v)) == v
  {
    hide ByteOf, FromBytes;
    BytesOfU32(v);
  }

  // ----- the session as a value --------------------------------------------------------------

  datatype Stage = Idle | Probing | Beginning | Sending | Committing | Rebooting | Rechecking | Confirming | Done | Failed

  datatype Failure = NoFailure | BoardRefused | NoAnswer | ProtocolError | WrongVersion

  /** Milliseconds, and the resend budget of one frame. */
  datatype Timing = Timing(answer: int, beginAnswer: int, reboot: int, resends: int)

  datatype Event = EvStart | EvAck | EvInfo(version: u32, state: bv8) | EvNak(code: bv8) | EvTimeout | EvRebootDone

  datatype Context = Context(
    image: seq<bv8>, version: u32, timing: Timing,
    state: Stage, now: int, outbox: seq<bv8>, inFlight: seq<bv8>, seqNo: bv16, resends: int,
    waitFor: int, deadline: int, waitingOut: bool, chunkBytes: nat, sentBytes: nat,
    boardVersion: u32, boardState: bv8, alreadyUpToDate: bool, failure: Failure, nakCode: bv8)

  function Fresh(image: seq<bv8>, version: u32, timing: Timing): Context {
    Context(image, version, timing, Idle, 0, [], [], 0, 0, 0, 0, false, 0, 0, 0, STATE_CONFIRMED, false,
            NoFailure, 0)
  }

  /** What the session reports: a recorded failure wins over the table's state. */
  function StageOf(c: Context): Stage {
    if c.failure != NoFailure then Failed else c.state
  }

  predicate Terminal(c: Context) {
    StageOf(c) == Done || StageOf(c) == Failed
  }

  /** The states in which one frame is in flight and unanswered. */
  predicate Awaiting(s: Stage) {
    s in {Probing, Beginning, Sending, Committing, Rechecking, Confirming}
  }

  /** The chunk in flight lies inside the image. */
  predicate InImage(c: Context) {
    c.sentBytes + c.chunkBytes <= |c.image|
  }

  /** 16-bit message numbers wrap. */
  function NextSeq(n: bv16): bv16 { n + 1 }

  function SendFrame(c: Context, kind: bv8, payload: seq<bv8>, within: int): Context
    requires |payload| <= MAX_PAYLOAD
  {
    var bytes := Wire(Frame(kind, NextSeq(c.seqNo), payload));
    c.(seqNo := NextSeq(c.seqNo), inFlight := bytes, resends := 0, waitFor := within, deadline := c.now + within,
       waitingOut := false, outbox := bytes)
  }

  function Resend(c: Context): Context {
    c.(resends := c.resends + 1, deadline := c.now + c.waitFor, outbox := c.inFlight)
  }

  function StopWith(c: Context, why: Failure, code: bv8): Context {
    c.(failure := why, nakCode := code, inFlight := [], outbox := [])
  }

  function ChunkLength(image: seq<bv8>, at: nat): (n: nat)
    requires at <= |image|
    ensures at + n <= |image| && n <= DATA_CHUNK
  {
    if |image| - at < DATA_CHUNK then |image| - at else DATA_CHUNK
  }

  /** Erased-flash bytes up to the next whole flash word. */
  function Padding(n: nat): (pad: seq<bv8>)
    ensures |pad| < FLASH_WORD && (n + |pad|) % FLASH_WORD == 0
  {
    seq((FLASH_WORD - n % FLASH_WORD) % FLASH_WORD, _ => ERASED)
  }

  function DataPayload(image: seq<bv8>, at: nat): (payload: seq<bv8>)
    requires at <= |image|
    ensures 4 <= |payload| <= MAX_PAYLOAD && (|payload| - 4) % FLASH_WORD == 0
  {
    var n := ChunkLength(image, at);
    Little32(at % TWO_32) + image[at..at + n] + Padding(n)
  }

  function BeginPayload(image: seq<bv8>, version: u32): (payload: seq<bv8>)
    ensures |payload| == 12
  {
    Little32(|image| % TWO_32) + Little32(Crc32.Crc32(image) as int) + Little32(version)
  }

  function SendDataChunk(c: Context): Context
    requires c.sentBytes <= |c.image|
  {
    SendFrame(c.(chunkBytes := ChunkLength(c.image, c.sentBytes)), DATA, DataPayload(c.image, c.sentBytes),
              c.timing.answer)
  }

  function Quiet(c: Context): Context {
    c.(inFlight := [], outbox := [])
  }

  // The actions of the table.

  function SendInfoReq(c: Context): Context {
    SendFrame(c, INFO_REQ, [], c.timing.answer)
  }

  function Told(c: Context, version: u32, state: bv8): Context {
    c.(boardVersion := version, boardState := state)
  }

  function SendBegin(c: Context, version: u32, state: bv8): Context {
    SendFrame(Told(c, version, state), BEGIN, BeginPayload(c.image, c.version), c.timing.beginAnswer)
  }

  function SendFirstChunk(c: Context): Context {
    SendDataChunk(c.(sentBytes := 0, chunkBytes := 0))
  }

  function AckChunkAndSendNext(c: Context): Context
    requires InImage(c)
  {
    SendDataChunk(c.(sentBytes := c.sentBytes + c.chunkBytes))
  }

  function AckChunkAndCommit(c: Context): Context {
    SendFrame(c.(sentBytes := c.sentBytes + c.chunkBytes, chunkBytes := 0), COMMIT, [], c.timing.answer)
  }

  function WaitOutReboot(c: Context): Context {
    Quiet(c).(waitingOut := true, deadline := c.now + c.timing.reboot)
  }

  function SendConfirm(c: Context, version: u32, state: bv8): Context {
    SendFrame(Told(c, version, state), CONFIRM, [], c.timing.answer)
  }

  function FinishUpToDate(c: Context, version: u32, state: bv8): Context {
    Quiet(Told(c, version, state).(alreadyUpToDate := true))
  }

  function FailWrongVersion(c: Context, version: u32): Context {
    StopWith(c.(boardVersion := version), WrongVersion, 0)
  }

  function Go(c: Context, s: Stage): Option<Context> {
    Some(c.(state := s))
  }

  /** The transition table: what an event does in a state, `None` where no row matches. */
  function Process(c: Context, e: Event): Option<Context>
    requires InImage(c)
  {
    match e
    case EvStart =>
      if c.state != Idle then None
      else if c.image != [] then Go(SendInfoReq(c), Probing)
      else Go(StopWith(c, ProtocolError, 0), Failed)
    case EvAck => (
      match c.state
      case Beginning => Go(SendFirstChunk(c), Sending)
      case Sending =>
        if c.sentBytes + c.chunkBytes < |c.image| then Go(AckChunkAndSendNext(c), Sending)
        else Go(AckChunkAndCommit(c), Committing)
      case Committing => Go(WaitOutReboot(c), Rebooting)
      case Confirming => Go(Quiet(c), Done)
      case _ => None)
    case EvInfo(version, state) => (
      match c.state
      case Probing =>
        if version == c.version && state == STATE_CONFIRMED then Go(FinishUpToDate(c, version, state), Done)
        else if version == c.version && state == STATE_TRIAL then Go(SendConfirm(c, version, state), Confirming)
        else if version != c.version then Go(SendBegin(c, version, state), Beginning)
        else None
      case Rechecking =>
        if version == c.version then Go(SendConfirm(c, version, state), Confirming)
        else Go(FailWrongVersion(c, version), Failed)
      case _ => None)
    case EvNak(code) =>
      if !Awaiting(c.state) then None
      else if code == NAK_BAD_CRC && c.resends < c.timing.resends then Some(Resend(c))
      else Go(StopWith(c, BoardRefused, code), Failed)
    case EvTimeout =>
      if !Awaiting(c.state) then None
      else if c.resends < c.timing.resends then Some(Resend(c))
      else Go(StopWith(c, NoAnswer, 0), Failed)
    case EvRebootDone =>
      if c.state == Rebooting then Go(SendInfoReq(c), Rechecking) else None
  }

  /** Whether a row matched, and the state after its action. */
  ghost predicate Handled(before: Context, e: Event, handled: bool, after: Context) {
    InImage(before) ==>
    && handled == Process(before, e).Some?
    && after == if handled then Process(before, e).value else before
  }

  /** One dispatch: an event no row handles is a protocol error. The bytes to send are left in
      the outbox. */
  function Dispatch(c: Context, e: Event, now: int): Context
    requires InImage(c)
  {
    var ready := c.(now := now, outbox := []);
    match Process(ready, e)
    case Some(next) => next
    case None => StopWith(ready, ProtocolError, 0)
  }

  /** A public call: the next state and the bytes handed back. */
  datatype Outcome = Outcome(next: Context, out: seq<bv8>)

  function Ignored(c: Context): Outcome { Outcome(c, []) }

  function Acted(c: Context, e: Event, now: int): Outcome
    requires InImage(c)
  {
    Outcome(Dispatch(c, e, now), Dispatch(c, e, now).outbox)
  }

  function Rejected(c: Context): Outcome { Outcome(StopWith(c, ProtocolError, 0), []) }

  function OnStart(c: Context, now: int): Outcome
    requires InImage(c)
  {
    if StageOf(c) != Idle then Ignored(c) else Acted(c, EvStart, now)
  }

  function OnFrame(c: Context, f: Frame, now: int): Outcome
    requires InImage(c)
  {
    if StageOf(c) == Idle || Terminal(c) then Ignored(c)
    else if f.kind != INFO && f.seqNo != c.seqNo then Ignored(c)
    else if f.kind == ACK then Acted(c, EvAck, now)
    else if f.kind == NAK then
      if f.payload == [] then Rejected(c) else Acted(c, EvNak(f.payload[0]), now)
    else if f.kind == INFO then
      if |f.payload| != INFO_PAYLOAD then Rejected(c)
      else Acted(c, EvInfo(ReadLittle32(f.payload[..4]), f.payload[5]), now)
    else Rejected(c)
  }

  function OnTick(c: Context, now: int): Outcome
    requires InImage(c)
  {
    if StageOf(c) == Idle || Terminal(c) || now < c.deadline then Ignored(c)
    else if c.waitingOut then Acted(c.(waitingOut := false), EvRebootDone, now)
    else Acted(c, EvTimeout, now)
  }
}
