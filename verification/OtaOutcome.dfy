/** What the end of an update means: Done only on the target version, and every failure with the
    event that caused it. */
module OtaOutcome {
  import opened FlashFrame
  import opened OtaTable
  import opened OtaInvariant
  import opened OtaRuns
  import opened OtaTranscript

  /** Done, or one ACK away from it, the board has reported the target version; "already up to
      date" is claimed only of a board that said so itself and was sent nothing but the question. */
  predicate OnTarget(c: Context) {
    && (c.state == Confirming || c.state == Done ==> c.boardVersion == c.version)
    && (c.alreadyUpToDate ==> c.state == Done && c.boardState == STATE_CONFIRMED && c.sentBytes == 0)
  }

  lemma DispatchKeepsTarget(c: Context, e: Event, now: int)
    requires InImage(c) && OnTarget(c) && !Terminal(c)
    requires c.state == Probing ==> c.sentBytes == 0
    ensures OnTarget(Dispatch(c, e, now))
  {
    hide Wire, DataPayload, BeginPayload, NextSeq;
  }

  lemma StepKeepsTarget(c: Context, i: Input)
    requires Inv(c) && OnTarget(c)
    ensures OnTarget(Stepped(c, i).next)
  {
    hide Dispatch, ReadLittle32, MessageCount, InFlightFrame;
    if !Terminal(c) {
      match i {
        case Start(at) => DispatchKeepsTarget(c, EvStart, at);
        case Tick(at) =>
          DispatchKeepsTarget(c.(waitingOut := false), EvRebootDone, at);
          DispatchKeepsTarget(c, EvTimeout, at);
        case Receive(f, at) =>
          if f.kind == ACK {
            DispatchKeepsTarget(c, EvAck, at);
          } else if f.kind == NAK && f.payload != [] {
            DispatchKeepsTarget(c, EvNak(f.payload[0]), at);
          } else if f.kind == INFO && |f.payload| == INFO_PAYLOAD {
            DispatchKeepsTarget(c, EvInfo(ReadLittle32(f.payload[..4]), f.payload[5]), at);
          }
      }
    }
  }

  /** Over every run: an update that reports Done has a board that reported the target version. */
  lemma {:induction false} DoneMeansTarget(image: seq<bv8>, version: u32, timing: Timing, inputs: seq<Input>)
    ensures var c := Fresh(image, version, timing);
      Inv(c) && var end := Run(c, inputs);
      && OnTarget(end)
      && (StageOf(end) == Done ==> end.boardVersion == version)
    decreases |inputs|
  {
    hide Inv, OnTarget, Stepped;
    var c := Fresh(image, version, timing);
    FreshInv(image, version, timing);
    if inputs == [] {
      FreshOnTarget(image, version, timing);
    } else {
      DoneMeansTarget(image, version, timing, inputs[..|inputs| - 1]);
      StepKeepsTarget(Run(c, inputs[..|inputs| - 1]), inputs[|inputs| - 1]);
    }
    var end := Run(c, inputs);
    var _, _ := TranscriptIsScheduled(image, version, timing, inputs);
    TargetVersion(end);
  }

  lemma TargetVersion(c: Context)
    requires OnTarget(c)
    ensures StageOf(c) == Done ==> c.boardVersion == c.version
  {}

  lemma FreshOnTarget(image: seq<bv8>, version: u32, timing: Timing)
    ensures OnTarget(Fresh(image, version, timing))
  {}

  /** Done is reached in two ways: a board that says it runs the target version for good, or one
      that acknowledges the CONFIRM. */
  lemma DoneBy(c: Context, i: Input)
    requires Inv(c) && StageOf(c) != Done && StageOf(Stepped(c, i).next) == Done
    ensures i.Receive?
    ensures StageOf(c) == Confirming ==> i.frame.kind == ACK && i.frame.seqNo == c.seqNo
    ensures StageOf(c) != Confirming ==>
      && StageOf(c) == Probing && i.frame.kind == INFO && |i.frame.payload| == INFO_PAYLOAD
      && ReadLittle32(i.frame.payload[..4]) == c.version && i.frame.payload[5] == STATE_CONFIRMED
  {
    hide Wire, DataPayload, BeginPayload, NextSeq, ReadLittle32, MessageCount, InFlightFrame, ChunkLength;
  }

  // ----- already up to date ------------------------------------------------------------------

  /** Nothing but the question has been asked. */
  predicate Early(c: Context) {
    c.state == Idle || c.state == Probing || c.alreadyUpToDate
  }

  lemma AckMarks(c: Context, now: int)
    requires InImage(c)
    ensures Dispatch(c, EvAck, now).alreadyUpToDate == c.alreadyUpToDate
  {
    hide Wire, DataPayload, NextSeq, ChunkLength;
  }

  lemma InfoMarks(c: Context, version: u32, state: bv8, now: int)
    requires InImage(c)
    ensures Dispatch(c, EvInfo(version, state), now).alreadyUpToDate ==> c.alreadyUpToDate || c.state == Probing
  {
    hide Wire, BeginPayload, NextSeq;
  }

  lemma OtherMarks(c: Context, e: Event, now: int)
    requires InImage(c) && !e.EvAck? && !e.EvInfo?
    ensures Dispatch(c, e, now).alreadyUpToDate == c.alreadyUpToDate
  {
    hide Wire, NextSeq;
  }

  lemma StepMarks(c: Context, i: Input)
    requires InImage(c)
    ensures Stepped(c, i).next.alreadyUpToDate ==> c.alreadyUpToDate || c.state == Probing
  {
    hide Dispatch, ReadLittle32;
    match i {
      case Start(at) => OtherMarks(c, EvStart, at);
      case Tick(at) =>
        OtherMarks(c.(waitingOut := false), EvRebootDone, at);
        OtherMarks(c, EvTimeout, at);
      case Receive(f, at) =>
        AckMarks(c, at);
        if f.payload != [] {
          OtherMarks(c, EvNak(f.payload[0]), at);
        }
        if |f.payload| == INFO_PAYLOAD {
          InfoMarks(c, ReadLittle32(f.payload[..4]), f.payload[5], at);
        }
    }
  }

  lemma EarlyStep(c: Context, i: Input)
    requires Inv(c) && OnTarget(c) && Early(Stepped(c, i).next)
    ensures var o := Stepped(c, i);
      Early(c) && (o.out == [] || o.out == Wire(Scheduled(c.image, c.version, 1)))
  {
    hide Stepped, Wire, SeqAt, Chunks, CountOf;
    StepClassified(c, i);
    StepMarks(c, i);
    StepKeeps(c, i);
    StepKeepsTarget(c, i);
  }

  /** An update that ends with "already up to date" has put nothing on the wire but the INFO_REQ
      that asked, as often as it had to be repeated. */
  lemma {:induction false} UpToDateOnlyAsked(image: seq<bv8>, version: u32, timing: Timing, inputs: seq<Input>)
    ensures var c := Fresh(image, version, timing);
      Inv(c) && (Early(Run(c, inputs)) ==>
        forall x <- Transcript(c, inputs) :: x == Wire(Frame(INFO_REQ, 1, [])))
    decreases |inputs|
  {
    hide Inv, OnTarget, Stepped, Wire, Early;
    var c := Fresh(image, version, timing);
    FreshInv(image, version, timing);
    FirstMessage(image, version);
    if inputs != [] && Early(Run(c, inputs)) {
      var init, last := inputs[..|inputs| - 1], inputs[|inputs| - 1];
      DoneMeansTarget(image, version, timing, init);
      EarlyStep(Run(c, init), last);
      UpToDateOnlyAsked(image, version, timing, init);
      var _, _ := TranscriptIsScheduled(image, version, timing, init);
    }
  }

  lemma FirstMessage(image: seq<bv8>, version: u32)
    ensures Scheduled(image, version, 1) == Frame(INFO_REQ, 1, [])
  {
    assert SeqAt(0) == 0 && SeqAt(1) == NextSeq(0) == 1;
  }

  // ----- failures ----------------------------------------------------------------------------

  /** The session looks at the input: an INFO, or a frame that carries the current number. */
  predicate Heard(c: Context, i: Input) {
    i.Receive? && c.state != Idle && (i.frame.kind == INFO || i.frame.seqNo == c.seqNo)
  }

  predicate Spent(c: Context) {
    c.resends >= c.timing.resends
  }

  /** An answer is overdue and the resend budget is used up. */
  predicate Silence(c: Context, i: Input) {
    i.Tick? && c.deadline <= i.at && Awaiting(c.state) && Spent(c)
  }

  /** The board says no, for a reason a resend cannot help or no longer may. */
  predicate Refusal(c: Context, i: Input) {
    && Heard(c, i) && i.frame.kind == NAK && i.frame.payload != [] && Awaiting(c.state)
    && (i.frame.payload[0] != NAK_BAD_CRC || Spent(c))
  }

  /** After the reboot the board runs something else. */
  predicate OtherVersion(c: Context, i: Input) {
    && Heard(c, i) && i.frame.kind == INFO && |i.frame.payload| == INFO_PAYLOAD
    && c.state == Rechecking && ReadLittle32(i.frame.payload[..4]) != c.version
  }

  /** An INFO the protocol has no place for. */
  predicate InfoDoesNotBelong(c: Context, payload: seq<bv8>) {
    |payload| != INFO_PAYLOAD ||
    (c.state != Rechecking &&
     (c.state != Probing ||
      (ReadLittle32(payload[..4]) == c.version && payload[5] != STATE_CONFIRMED && payload[5] != STATE_TRIAL)))
  }

  /** What the protocol has no place for: an update without an image, an answer nobody asked for, or
      a frame of the wrong shape or type. */
  predicate DoesNotBelong(c: Context, i: Input) {
    if i.Start? then c.state == Idle && c.image == []
    else
      && Heard(c, i)
      && (if i.frame.kind == ACK then c.state !in {Beginning, Sending, Committing, Confirming}
          else if i.frame.kind == NAK then i.frame.payload == [] || !Awaiting(c.state)
          else if i.frame.kind == INFO then InfoDoesNotBelong(c, i.frame.payload)
          else true)
  }

  lemma AckFails(c: Context, now: int)
    requires InImage(c) && c.failure == NoFailure
    ensures Dispatch(c, EvAck, now).failure ==
      if c.state in {Beginning, Sending, Committing, Confirming} then NoFailure else ProtocolError
  {
    hide Wire, DataPayload, BeginPayload, NextSeq, ChunkLength;
  }

  lemma InfoFails(c: Context, version: u32, state: bv8, now: int)
    requires InImage(c) && c.failure == NoFailure
    ensures Dispatch(c, EvInfo(version, state), now).failure ==
      if c.state == Rechecking then (if version == c.version then NoFailure else WrongVersion)
      else if c.state == Probing && (version != c.version || state == STATE_CONFIRMED || state == STATE_TRIAL)
      then NoFailure else ProtocolError
  {
    hide Wire, DataPayload, BeginPayload, NextSeq, ChunkLength;
  }

  lemma NakFails(c: Context, code: bv8, now: int)
    requires InImage(c) && c.failure == NoFailure
    ensures var d := Dispatch(c, EvNak(code), now);
      && d.failure ==
        (if !Awaiting(c.state) then ProtocolError
         else if code != NAK_BAD_CRC || Spent(c) then BoardRefused else NoFailure)
      && (d.failure == BoardRefused ==> d.nakCode == code)
  {}

  lemma AskFails(c: Context, now: int)
    requires InImage(c) && c.failure == NoFailure
    ensures c.state == Idle ==>
      Dispatch(c, EvStart, now).failure == if c.image == [] then ProtocolError else NoFailure
    ensures c.state == Rebooting ==> Dispatch(c, EvRebootDone, now).failure == NoFailure
    ensures Awaiting(c.state) ==>
      Dispatch(c, EvTimeout, now).failure == if Spent(c) then NoAnswer else NoFailure
  {
    hide Wire, NextSeq;
  }

  /** Every failure is exactly its own cause: silence beyond the budget, a refusal by the board,
      which is reported with the board's code, another version after the reboot, or an input that
      does not belong. */
  lemma FailureExact(c: Context, i: Input)
    requires Inv(c) && c.failure == NoFailure && c.state != Done
    ensures var d := Stepped(c, i).next;
      && (d.failure == NoAnswer <==> Silence(c, i))
      && (d.failure == BoardRefused <==> Refusal(c, i))
      && (d.failure == BoardRefused ==> d.nakCode == i.frame.payload[0])
      && (d.failure == WrongVersion <==> OtherVersion(c, i))
      && (d.failure == ProtocolError <==> DoesNotBelong(c, i))
  {
    hide Dispatch, ReadLittle32, RunningOk;
    match i {
      case Start(at) => AskFails(c, at);
      case Tick(at) =>
        AskFails(c.(waitingOut := false), at);
      case Receive(f, at) =>
        if Heard(c, i) && f.kind == ACK {
          AckFails(c, at);
        } else if Heard(c, i) && f.kind == NAK && f.payload != [] {
          NakFails(c, f.payload[0], at);
        } else if Heard(c, i) && f.kind == INFO && |f.payload| == INFO_PAYLOAD {
          InfoFails(c, ReadLittle32(f.payload[..4]), f.payload[5], at);
        }
    }
  }
}
