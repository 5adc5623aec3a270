/** What every public call of an update session keeps true, and the schedule of frames it
    follows. */
module OtaInvariant {
  import opened FlashFrame
  import opened OtaTable

  // ----- the schedule ------------------------------------------------------------------------

  /** DATA frames an image takes. */
  function Chunks(image: seq<bv8>): nat {
    (|image| + DATA_CHUNK - 1) / DATA_CHUNK
  }

  /** The number carried by the n-th message: a 16-bit count that wraps. */
  function SeqAt(n: nat): bv16 {
    if n == 0 then 0 else NextSeq(SeqAt(n - 1))
  }

  /** The n-th message of an update, counting from 1: INFO_REQ, BEGIN, the DATA frames in offset
      order, COMMIT, INFO_REQ, CONFIRM. */
  function ScheduledKind(image: seq<bv8>, n: nat): bv8 {
    if n == 2 then BEGIN
    else if 3 <= n < 3 + Chunks(image) then DATA
    else if n == 3 + Chunks(image) then COMMIT
    else if n == 5 + Chunks(image) then CONFIRM
    else INFO_REQ
  }

  function Scheduled(image: seq<bv8>, version: u32, n: nat): (f: Frame)
    ensures |f.payload| <= MAX_PAYLOAD
  {
    var kind := ScheduledKind(image, n);
    Frame(kind, SeqAt(n),
          if kind == BEGIN then BeginPayload(image, version)
          else if kind == DATA then DataPayload(image, DATA_CHUNK * (n - 3))
          else [])
  }

  /** The short path: the board already runs the target on trial, so it is only confirmed. */
  function TrialFrame(n: nat): (f: Frame)
    ensures |f.payload| <= MAX_PAYLOAD
  {
    Frame(if n == 2 then CONFIRM else INFO_REQ, SeqAt(n), [])
  }

  /** Confirming with nothing acknowledged is the short path. */
  predicate OnTrialPath(state: Stage, sentBytes: nat) {
    state == Confirming && sentBytes == 0
  }

  /** How many distinct messages a session in this state has sent. */
  function MessageCount(image: seq<bv8>, state: Stage, sentBytes: nat): nat {
    match state
    case Idle => 0
    case Probing => 1
    case Beginning => 2
    case Sending => 3 + sentBytes / DATA_CHUNK
    case Committing => 3 + Chunks(image)
    case Rebooting => 3 + Chunks(image)
    case Rechecking => 4 + Chunks(image)
    case Confirming => if sentBytes == 0 then 2 else 5 + Chunks(image)
    case _ => 0
  }

  function CountOf(c: Context): nat {
    MessageCount(c.image, c.state, c.sentBytes)
  }

  /** The message the schedule puts in flight in this state. */
  function InFlightFrame(image: seq<bv8>, version: u32, state: Stage, sentBytes: nat): (f: Frame)
    ensures |f.payload| <= MAX_PAYLOAD
  {
    if OnTrialPath(state, sentBytes) then TrialFrame(2)
    else Scheduled(image, version, MessageCount(image, state, sentBytes))
  }

  // ----- the invariant -----------------------------------------------------------------------

  function Budget(c: Context): nat {
    if c.timing.resends > 0 then c.timing.resends else 0
  }

  predicate ProgressOk(image: seq<bv8>, state: Stage, sentBytes: nat, chunkBytes: nat, onTarget: bool) {
    match state
    case Sending =>
      sentBytes < |image| && sentBytes % DATA_CHUNK == 0 && chunkBytes == ChunkLength(image, sentBytes)
    case Confirming => chunkBytes == 0 && (sentBytes == 0 || sentBytes == |image|) && onTarget
    case Done => chunkBytes == 0 && (sentBytes == 0 || sentBytes == |image|)
    case Failed => true
    case _ =>
      && chunkBytes == 0
      && sentBytes == if state in {Committing, Rebooting, Rechecking} then |image| else 0
  }

  predicate RunningOk(c: Context) {
    && (c.state != Idle ==> c.image != [])
    && ProgressOk(c.image, c.state, c.sentBytes, c.chunkBytes, c.boardVersion == c.version)
    && (c.state != Done ==> c.seqNo == SeqAt(CountOf(c)))
    && (Awaiting(c.state) ==> c.inFlight == Wire(InFlightFrame(c.image, c.version, c.state, c.sentBytes)))
  }

  predicate Inv(c: Context) {
    && InImage(c)
    && 0 <= c.resends <= Budget(c)
    && (c.waitingOut <==> c.state == Rebooting)
    && (c.state == Failed ==> c.failure != NoFailure)
    && (c.state == Idle ==> c.failure == NoFailure)
    && (c.failure == NoFailure ==> RunningOk(c))
  }

  lemma FreshInv(image: seq<bv8>, version: u32, timing: Timing)
    ensures Inv(Fresh(image, version, timing))
  {}

  /** Sending the message the schedule has for the next state. */
  lemma SendKeeps(c: Context, kind: bv8, payload: seq<bv8>, within: int, s: Stage)
    requires |payload| <= MAX_PAYLOAD && InImage(c) && c.failure == NoFailure && Awaiting(s) && c.image != []
    requires ProgressOk(c.image, s, c.sentBytes, c.chunkBytes, c.boardVersion == c.version)
    requires var n := MessageCount(c.image, s, c.sentBytes);
      && n > 0 && c.seqNo == SeqAt(n - 1)
      && InFlightFrame(c.image, c.version, s, c.sentBytes) == Frame(kind, SeqAt(n), payload)
    ensures Inv(SendFrame(c, kind, payload, within).(state := s))
  {
    hide Wire, NextSeq, InFlightFrame, MessageCount, ProgressOk;
  }

  lemma StopKeeps(c: Context, why: Failure, code: bv8)
    requires Inv(c) && why != NoFailure && c.state != Idle
    ensures Inv(StopWith(c, why, code))
  {
    hide RunningOk;
  }

  lemma FailKeeps(c: Context, why: Failure, code: bv8)
    requires Inv(c) && why != NoFailure && c.state != Rebooting
    ensures Inv(StopWith(c, why, code).(state := Failed))
  {
    hide RunningOk;
  }

  lemma ResendKeeps(c: Context)
    requires Inv(c) && Awaiting(c.state) && c.resends < c.timing.resends
    ensures Inv(Resend(c))
  {
    hide Wire, SeqAt, InFlightFrame, MessageCount, ProgressOk;
  }

  /** The number of DATA frames moves by one for every acknowledged full chunk. */
  lemma ChunkArithmetic(image: seq<bv8>, at: nat)
    requires at < |image| && at % DATA_CHUNK == 0
    ensures at / DATA_CHUNK < Chunks(image)
    ensures DATA_CHUNK * (at / DATA_CHUNK) == at
    ensures at + ChunkLength(image, at) < |image| ==>
      (at + ChunkLength(image, at)) / DATA_CHUNK == at / DATA_CHUNK + 1 && (at + ChunkLength(image, at)) % DATA_CHUNK == 0
    ensures at + ChunkLength(image, at) >= |image| ==> at / DATA_CHUNK + 1 == Chunks(image)
  {}

  lemma FirstChunkKeeps(c: Context)
    requires Inv(c) && c.failure == NoFailure && c.state == Beginning
    ensures Inv(SendFirstChunk(c).(state := Sending))
  {
    hide SendFrame, Wire, NextSeq, SeqAt, DataPayload, Chunks;
    ChunkArithmetic(c.image, 0);
    SendKeeps(c.(sentBytes := 0, chunkBytes := ChunkLength(c.image, 0)), DATA, DataPayload(c.image, 0),
              c.timing.answer, Sending);
  }

  lemma NextChunkKeeps(c: Context)
    requires Inv(c) && c.failure == NoFailure && c.state == Sending && c.sentBytes + c.chunkBytes < |c.image|
    ensures Inv(AckChunkAndSendNext(c).(state := Sending))
  {
    hide SendFrame, Wire, NextSeq, SeqAt, DataPayload, Chunks;
    var at := c.sentBytes + c.chunkBytes;
    ChunkArithmetic(c.image, c.sentBytes);
    ChunkArithmetic(c.image, at);
    SendKeeps(c.(sentBytes := at, chunkBytes := ChunkLength(c.image, at)), DATA, DataPayload(c.image, at),
              c.timing.answer, Sending);
  }

  lemma CommitKeeps(c: Context)
    requires Inv(c) && c.failure == NoFailure && c.state == Sending && c.sentBytes + c.chunkBytes >= |c.image|
    ensures Inv(AckChunkAndCommit(c).(state := Committing))
  {
    hide SendFrame, Wire, NextSeq, SeqAt, DataPayload, Chunks;
    ChunkArithmetic(c.image, c.sentBytes);
    SendKeeps(c.(sentBytes := c.sentBytes + c.chunkBytes, chunkBytes := 0), COMMIT, [], c.timing.answer, Committing);
  }

  lemma AckKeeps(c: Context)
    requires Inv(c) && c.failure == NoFailure && c.state != Idle && Process(c, EvAck).Some?
    ensures Inv(Process(c, EvAck).value)
  {
    hide SendFirstChunk, AckChunkAndSendNext, AckChunkAndCommit, Wire, SeqAt;
    match c.state {
      case Beginning => FirstChunkKeeps(c);
      case Sending =>
        if c.sentBytes + c.chunkBytes < |c.image| { NextChunkKeeps(c); } else { CommitKeeps(c); }
      case Committing =>
      case Confirming =>
    }
  }

  lemma ConfirmKeeps(c: Context, state: bv8)
    requires Inv(c) && c.failure == NoFailure && c.state in {Probing, Rechecking}
    ensures Inv(SendConfirm(c, c.version, state).(state := Confirming))
  {
    hide SendFrame, Wire, NextSeq, SeqAt, Chunks;
    SendKeeps(Told(c, c.version, state), CONFIRM, [], c.timing.answer, Confirming);
  }

  lemma BeginKeeps(c: Context, version: u32, state: bv8)
    requires Inv(c) && c.failure == NoFailure && c.state == Probing
    ensures Inv(SendBegin(c, version, state).(state := Beginning))
  {
    hide SendFrame, Wire, NextSeq, SeqAt, BeginPayload, Chunks;
    SendKeeps(Told(c, version, state), BEGIN, BeginPayload(c.image, c.version), c.timing.beginAnswer, Beginning);
  }

  lemma InfoKeeps(c: Context, version: u32, state: bv8)
    requires Inv(c) && c.failure == NoFailure && Process(c, EvInfo(version, state)).Some?
    ensures Inv(Process(c, EvInfo(version, state)).value)
  {
    hide SendConfirm, SendBegin, Wire, SeqAt;
    if c.state == Probing {
      ConfirmKeeps(c, state);
      BeginKeeps(c, version, state);
    } else if version == c.version {
      ConfirmKeeps(c, state);
    }
  }

  /** INFO_REQ goes out at the start and, once, when the reboot wait is over. */
  lemma AskKeeps(c: Context, now: int)
    requires Inv(c) && c.failure == NoFailure && (c.state == Rebooting || (c.state == Idle && c.image != []))
    ensures var s := if c.state == Idle then Probing else Rechecking;
      forall w: bool :: Inv(SendInfoReq(c.(now := now, outbox := [], waitingOut := w)).(state := s))
  {
    hide SendFrame, Wire, NextSeq, SeqAt, Chunks;
    var s := if c.state == Idle then Probing else Rechecking;
    forall w: bool ensures Inv(SendInfoReq(c.(now := now, outbox := [], waitingOut := w)).(state := s)) {
      SendKeeps(c.(now := now, outbox := [], waitingOut := w), INFO_REQ, [], c.timing.answer, s);
    }
  }

  /** Every dispatch of a board answer, or of a late answer, keeps the invariant. */
  lemma DispatchKeeps(c: Context, e: Event, now: int)
    requires Inv(c) && !Terminal(c) && c.state != Idle && e != EvStart && e != EvRebootDone
    ensures Inv(Dispatch(c, e, now))
  {
    hide SendFrame, Wire, SeqAt, RunningOk;
    var ready := c.(now := now, outbox := []);
    assert Inv(ready) by { assert RunningOk(ready) by { ReadyKeeps(c, now); } }
    match e {
      case EvAck => if Process(ready, e).Some? { AckKeeps(ready); } else { StopKeeps(ready, ProtocolError, 0); }
      case EvInfo(version, state) =>
        if Process(ready, e).Some? { InfoKeeps(ready, version, state); } else { StopKeeps(ready, ProtocolError, 0); }
      case EvNak(code) =>
        if !Awaiting(c.state) { StopKeeps(ready, ProtocolError, 0); }
        else if code == NAK_BAD_CRC && c.resends < c.timing.resends { ResendKeeps(ready); }
        else { FailKeeps(ready, BoardRefused, code); }
      case EvTimeout =>
        if !Awaiting(c.state) { StopKeeps(ready, ProtocolError, 0); }
        else if c.resends < c.timing.resends { ResendKeeps(ready); }
        else { FailKeeps(ready, NoAnswer, 0); }
    }
  }

  lemma ReadyKeeps(c: Context, now: int)
    requires RunningOk(c)
    ensures RunningOk(c.(now := now, outbox := []))
  {
    hide Wire, SeqAt, InFlightFrame, MessageCount, ProgressOk;
  }

  /** The public calls keep the invariant, whatever frame arrives and whatever the clock says. */
  lemma StartKeeps(c: Context, now: int)
    requires Inv(c)
    ensures Inv(OnStart(c, now).next)
  {
    hide SendInfoReq, RunningOk;
    if StageOf(c) == Idle {
      var ready := c.(now := now, outbox := []);
      assert Inv(ready) by { ReadyKeeps(c, now); }
      if c.image == [] {
        FailKeeps(ready, ProtocolError, 0);
      } else {
        assert c.state == Idle && c.failure == NoFailure;
        AskKeeps(c, now);
        assert ready == c.(now := now, outbox := [], waitingOut := false);
      }
    }
  }

  lemma FrameKeeps(c: Context, f: Frame, now: int)
    requires Inv(c)
    ensures Inv(OnFrame(c, f, now).next)
  {
    hide Dispatch, RunningOk, ReadLittle32;
    if StageOf(c) == Idle || Terminal(c) || (f.kind != INFO && f.seqNo != c.seqNo) {
    } else if f.kind == ACK {
      DispatchKeeps(c, EvAck, now);
    } else if f.kind == NAK && f.payload != [] {
      DispatchKeeps(c, EvNak(f.payload[0]), now);
    } else if f.kind == INFO && |f.payload| == INFO_PAYLOAD {
      DispatchKeeps(c, EvInfo(ReadLittle32(f.payload[..4]), f.payload[5]), now);
    } else {
      StopKeeps(c, ProtocolError, 0);
    }
  }

  lemma TickKeeps(c: Context, now: int)
    requires Inv(c)
    ensures Inv(OnTick(c, now).next)
  {
    hide RunningOk, SendInfoReq;
    if StageOf(c) == Idle || Terminal(c) || now < c.deadline {
    } else if c.waitingOut {
      AskKeeps(c, now);
      assert c.(waitingOut := false).(now := now, outbox := []) == c.(now := now, outbox := [], waitingOut := false);
    } else {
      DispatchKeeps(c, EvTimeout, now);
    }
  }
}
