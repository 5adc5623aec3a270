/** The update session as the code runs it: fields updated step by step, each action, event
    handler and public call proved to do what the transition table says. */
module OtaSession {
  import opened FlashFrame
  import opened OtaTable
  import opened OtaInvariant
  import Crc32

  /** The padding loop: erased-flash bytes until the image part is whole flash words. */
  method Padded(payload: seq<bv8>, n: nat) returns (padded: seq<bv8>)
    requires |payload| == 4 + n
    ensures padded == payload + Padding(n)
  {
    padded := payload;
    ghost var pad := 0;
    while (|padded| - 4) % FLASH_WORD != 0
      invariant pad <= |Padding(n)|
      invariant padded == payload + Padding(n)[..pad]
      decreases |Padding(n)| - pad
    {
      padded := padded + [ERASED];
      pad := pad + 1;
    }
    assert pad == |Padding(n)|;
  }

  /** Encoding a payload the protocol allows: the encoder's error cannot arise. */
  method EncodedWithinLimit(frame: Frame) returns (bytes: seq<bv8>)
    requires |frame.payload| <= MAX_PAYLOAD
    ensures bytes == Wire(frame)
  {
    hide Wire;
    var encoded := EncodeFlashFrame(frame);
    bytes := encoded.value;
  }

  class Session {
    const image: seq<bv8>
    const version: u32
    const timing: Timing
    var state: Stage
    var now: int
    var outbox: seq<bv8>
    var inFlight: seq<bv8>
    var seqNo: bv16
    var resends: int
    var waitFor: int
    var deadline: int
    var waitingOut: bool
    var chunkBytes: nat
    var sentBytes: nat
    var boardVersion: u32
    var boardState: bv8
    var alreadyUpToDate: bool
    var failure: Failure
    var nakCode: bv8

    function Value(): Context
      reads this
    {
      Context(image, version, timing, state, now, outbox, inFlight, seqNo, resends, waitFor, deadline, waitingOut,
              chunkBytes, sentBytes, boardVersion, boardState, alreadyUpToDate, failure, nakCode)
    }

    /** The session invariant: the frame in flight, the counters and the progress agree with
        the state. */
    ghost predicate Valid()
      reads this
    {
      Inv(Value())
    }

    constructor (image: seq<bv8>, version: u32, timing: Timing)
      ensures Valid() && Value() == Fresh(image, version, timing)
    {
      this.image, this.version, this.timing := image, version, timing;
      state, now, outbox, inFlight, seqNo, resends := Idle, 0, [], [], 0, 0;
      waitFor, deadline, waitingOut, chunkBytes, sentBytes := 0, 0, false, 0, 0;
      boardVersion, boardState, alreadyUpToDate, failure, nakCode := 0, STATE_CONFIRMED, false, NoFailure, 0;
    }

    method Send(kind: bv8, payload: seq<bv8>, within: int)
      requires |payload| <= MAX_PAYLOAD
      modifies this
      ensures Value() == SendFrame(old(Value()), kind, payload, within)
    {
      hide Wire, NextSeq;
      seqNo := NextSeq(seqNo);
      var bytes := EncodedWithinLimit(Frame(kind, seqNo, payload));
      inFlight := bytes;
      ArmWait(within);
      outbox := inFlight;
    }

    /** The bookkeeping of a first send: a full resend budget and a deadline. */
    method ArmWait(within: int)
      modifies this
      ensures Value() == old(Value()).(resends := 0, waitFor := within, deadline := old(now) + within, waitingOut := false)
    {
      resends := 0;
      waitFor := within;
      deadline := now + within;
      waitingOut := false;
    }

    method SendAgain()
      modifies this
      ensures Value() == Resend(old(Value()))
    {
      resends := resends + 1;
      deadline := now + waitFor;
      outbox := inFlight;
    }

    method SendChunk()
      requires sentBytes <= |image|
      modifies this
      ensures Value() == SendDataChunk(old(Value()))
    {
      hide Little32, Padding, SendFrame;
      var remaining := |image| - sentBytes;
      chunkBytes := if DATA_CHUNK < remaining then DATA_CHUNK else remaining;
      var payload := Little32(sentBytes % TWO_32);
      payload := payload + image[sentBytes..sentBytes + chunkBytes];
      payload := Padded(payload, chunkBytes);
      Send(DATA, payload, timing.answer);
    }

    method Stop(why: Failure, code: bv8)
      modifies this
      ensures Value() == StopWith(old(Value()), why, code)
    {
      failure := why;
      nakCode := code;
      inFlight := [];
      outbox := [];
    }

    method ClearBytes()
      modifies this
      ensures Value() == Quiet(old(Value()))
    {
      inFlight := [];
      outbox := [];
    }

    // The actions.

    method AskInfo()
      modifies this
      ensures Value() == SendInfoReq(old(Value()))
    {
      hide SendFrame;
      Send(INFO_REQ, [], timing.answer);
    }

    method Announce(version: u32, boardState: bv8)
      modifies this
      ensures Value() == SendBegin(old(Value()), version, boardState)
    {
      hide SendFrame, Little32;
      this.boardVersion := version;
      this.boardState := boardState;
      var payload := Little32(|image| % TWO_32);
      var crc := Crc32.Crc32IsoHdlc(image);
      payload := payload + Little32(crc as int);
      payload := payload + Little32(this.version);
      Send(BEGIN, payload, timing.beginAnswer);
    }

    method FirstChunk()
      modifies this
      ensures Value() == SendFirstChunk(old(Value()))
    {
      hide SendDataChunk;
      sentBytes := 0;
      chunkBytes := 0;
      SendChunk();
    }

    method AckAndSendNext()
      requires InImage(Value())
      modifies this
      ensures Value() == AckChunkAndSendNext(old(Value()))
    {
      hide SendDataChunk;
      sentBytes := sentBytes + chunkBytes;
      SendChunk();
    }

    method AckAndCommit()
      modifies this
      ensures Value() == AckChunkAndCommit(old(Value()))
    {
      hide SendFrame;
      sentBytes := sentBytes + chunkBytes;
      chunkBytes := 0;
      Send(COMMIT, [], timing.answer);
    }

    method WaitOut()
      modifies this
      ensures Value() == WaitOutReboot(old(Value()))
    {
      ClearBytes();
      waitingOut := true;
      deadline := now + timing.reboot;
    }

    method Confirm(version: u32, boardState: bv8)
      modifies this
      ensures Value() == SendConfirm(old(Value()), version, boardState)
    {
      hide SendFrame;
      this.boardVersion := version;
      this.boardState := boardState;
      Send(CONFIRM, [], timing.answer);
    }

    method UpToDate(version: u32, boardState: bv8)
      modifies this
      ensures Value() == FinishUpToDate(old(Value()), version, boardState)
    {
      this.boardVersion := version;
      this.boardState := boardState;
      alreadyUpToDate := true;
      ClearBytes();
    }

    method RefuseVersion(version: u32)
      modifies this
      ensures Value() == FailWrongVersion(old(Value()), version)
    {
      hide StopWith;
      this.boardVersion := version;
      Stop(WrongVersion, 0);
    }

    // One method per event: the guards of its rows. Each returns whether a row matched.

    method HandleStart() returns (handled: bool)
      modifies this
      ensures Handled(old(Value()), EvStart, handled, Value())
    {
      hide SendInfoReq, StopWith;
      if state != Idle {
        return false;
      }
      if image != [] {
        AskInfo();
        state := Probing;
      } else {
        Stop(ProtocolError, 0);
        state := Failed;
      }
      return true;
    }

    method HandleAck() returns (handled: bool)
      requires InImage(Value())
      modifies this
      ensures Handled(old(Value()), EvAck, handled, Value())
    {
      hide SendFirstChunk, AckChunkAndSendNext, AckChunkAndCommit, WaitOutReboot, Quiet;
      match state {
        case Beginning =>
          FirstChunk();
          state := Sending;
        case Sending =>
          if sentBytes + chunkBytes < |image| {
            AckAndSendNext();
            state := Sending;
          } else {
            AckAndCommit();
            state := Committing;
          }
        case Committing =>
          WaitOut();
          state := Rebooting;
        case Confirming =>
          ClearBytes();
          state := Done;
        case _ =>
          return false;
      }
      return true;
    }

    method HandleInfo(version: u32, boardState: bv8) returns (handled: bool)
      modifies this
      ensures Handled(old(Value()), EvInfo(version, boardState), handled, Value())
    {
      hide FinishUpToDate, SendConfirm, SendBegin, FailWrongVersion;
      match state {
        case Probing =>
          if version == this.version && boardState == STATE_CONFIRMED {
            UpToDate(version, boardState);
            state := Done;
          } else if version == this.version && boardState == STATE_TRIAL {
            Confirm(version, boardState);
            state := Confirming;
          } else if version != this.version {
            Announce(version, boardState);
            state := Beginning;
          } else {
            return false;
          }
        case Rechecking =>
          if version == this.version {
            Confirm(version, boardState);
            state := Confirming;
          } else {
            RefuseVersion(version);
            state := Failed;
          }
        case _ =>
          return false;
      }
      return true;
    }

    method HandleNak(code: bv8) returns (handled: bool)
      modifies this
      ensures Handled(old(Value()), EvNak(code), handled, Value())
    {
      if !Awaiting(state) {
        return false;
      }
      if code == NAK_BAD_CRC && resends < timing.resends {
        SendAgain();
      } else {
        Stop(BoardRefused, code);
        state := Failed;
      }
      return true;
    }

    method HandleTimeout() returns (handled: bool)
      modifies this
      ensures Handled(old(Value()), EvTimeout, handled, Value())
    {
      if !Awaiting(state) {
        return false;
      }
      if resends < timing.resends {
        SendAgain();
      } else {
        Stop(NoAnswer, 0);
        state := Failed;
      }
      return true;
    }

    method HandleRebootDone() returns (handled: bool)
      modifies this
      ensures Handled(old(Value()), EvRebootDone, handled, Value())
    {
      hide SendInfoReq;
      if state != Rebooting {
        return false;
      }
      AskInfo();
      state := Rechecking;
      return true;
    }

    method DispatchEvent(e: Event, at: int) returns (out: seq<bv8>)
      requires InImage(Value())
      modifies this
      ensures Value() == Dispatch(old(Value()), e, at) && out == outbox
    {
      hide Process;
      now := at;
      outbox := [];
      ghost var ready := Value();
      var handled;
      match e {
        case EvStart => handled := HandleStart();
        case EvAck => handled := HandleAck();
        case EvInfo(version, boardState) => handled := HandleInfo(version, boardState);
        case EvNak(code) => handled := HandleNak(code);
        case EvTimeout => handled := HandleTimeout();
        case EvRebootDone => handled := HandleRebootDone();
      }
      if !handled {
        Stop(ProtocolError, 0);
        return [];
      }
      return outbox;
    }

    /** Begin: returns the INFO_REQ to send. */
    method Start(at: int) returns (out: seq<bv8>)
      requires Valid()
      modifies this
      ensures Valid()
      ensures Outcome(Value(), out) == OnStart(old(Value()), at)
    {
      StartKeeps(old(Value()), at);
      hide Dispatch, Inv;
      if StageOf(Value()) != Idle {
        return [];
      }
      out := DispatchEvent(EvStart, at);
    }

    /** Feed one decoded frame from the board. */
    method Receive(frame: Frame, at: int) returns (out: seq<bv8>)
      requires Valid()
      modifies this
      ensures Valid()
      ensures Outcome(Value(), out) == OnFrame(old(Value()), frame, at)
    {
      FrameKeeps(old(Value()), frame, at);
      hide Dispatch, ReadLittle32, Inv;
      if StageOf(Value()) == Idle || Terminal(Value()) {
        return [];
      }
      if frame.kind != INFO && frame.seqNo != seqNo {
        return [];
      }
      if frame.kind == ACK {
        out := DispatchEvent(EvAck, at);
      } else if frame.kind == NAK {
        if frame.payload == [] {
          Stop(ProtocolError, 0);
          return [];
        }
        out := DispatchEvent(EvNak(frame.payload[0]), at);
      } else if frame.kind == INFO {
        if |frame.payload| != INFO_PAYLOAD {
          Stop(ProtocolError, 0);
          return [];
        }
        out := DispatchEvent(EvInfo(ReadLittle32(frame.payload[..4]), frame.payload[5]), at);
      } else {
        Stop(ProtocolError, 0);
        return [];
      }
    }

    /** Feed the current time: a resend when an answer is late, the next step after a wait. */
    method Tick(at: int) returns (out: seq<bv8>)
      requires Valid()
      modifies this
      ensures Valid()
      ensures Outcome(Value(), out) == OnTick(old(Value()), at)
    {
      TickKeeps(old(Value()), at);
      hide Dispatch, Inv;
      if StageOf(Value()) == Idle || Terminal(Value()) {
        return [];
      }
      if at < deadline {
        return [];
      }
      if waitingOut {
        waitingOut := false;
        out := DispatchEvent(EvRebootDone, at);
      } else {
        out := DispatchEvent(EvTimeout, at);
      }
    }
  }
}
