/** The update session against the protocol document (sections 4 and 6 of docs/protocols/uart-flash-v1.md): the
    messages it sends, the answers it hears and the times it waits, in the document's own numbers. */
module OtaProtocol {
  import opened FlashFrame
  import opened OtaTable
  import opened OtaInvariant
  import opened OtaRuns
  import opened OtaTranscript
  import opened WireNumbers
  import opened OtaTiling
  import Crc32

  // ----- messages sent -----------------------------------------------------------------------

  /** BEGIN: image size, image checksum and version. */
  predicate IsBegin(f: Frame, image: seq<bv8>, version: u32) {
    && f.kind == 0x02 && |f.payload| == 12
    && LittleEndian(f.payload[..4], |image|)
    && LittleEndian(f.payload[4..8], Crc32.Crc32(image) as int)
    && LittleEndian(f.payload[8..], version)
  }

  /** DATA: the offset, up to 256 bytes of the image from there on, and 0xFF up to a multiple of 8. */
  predicate IsData(f: Frame, image: seq<bv8>, at: nat)
    requires at <= |image|
  {
    var n := if |image| - at < 256 then |image| - at else 256;
    && f.kind == 0x03 && |f.payload| == 4 + (n + 7) / 8 * 8
    && LittleEndian(f.payload[..4], at)
    && f.payload[4..4 + n] == image[at..at + n]
    && forall i :: 4 + n <= i < |f.payload| ==> f.payload[i] == 0xFF
  }

  predicate IsPlain(f: Frame, kind: bv8) {
    f.kind == kind && f.payload == []
  }

  /** The n-th message number as an integer. */
  function NumberAt(n: nat): (m: nat) {
    SeqAt(n) as int
  }

  lemma NumbersStep(n: nat)
    ensures NumberAt(0) == 0 && NumberAt(n + 1) == (NumberAt(n) + 1) % 65536
  {
    hide NextSeq;
    NextNumber(SeqAt(n));
  }

  lemma {:induction false} NumbersWrap(n: nat)
    ensures NumberAt(n) == n % 65536
  {
    hide *;
    if n == 0 {
      NumbersStep(0);
    } else {
      NumbersWrap(n - 1);
      NumbersStep(n - 1);
    }
  }

  lemma MessageNumbers(n: nat)
    ensures SeqAt(n) as int == n % 65536
  {
    hide SeqAt;
    NumbersWrap(n);
  }

  lemma BeginAnnounces(image: seq<bv8>, version: u32)
    requires |image| < TWO_32
    ensures var p := BeginPayload(image, version);
      && LittleEndian(p[..4], |image|)
      && LittleEndian(p[4..8], Crc32.Crc32(image) as int)
      && LittleEndian(p[8..], version)
  {
    hide Little32, LittleEndian, Crc32.Crc32;
    WrittenLittleEndian(|image|);
    WrittenLittleEndian(Crc32.Crc32(image) as int);
    WrittenLittleEndian(version);
    var p := BeginPayload(image, version);
    assert p[..4] == Little32(|image|) && p[4..8] == Little32(Crc32.Crc32(image) as int) && p[8..] == Little32(version);
  }

  lemma DataCarries(image: seq<bv8>, at: nat)
    requires |image| < TWO_32 && at <= |image|
    ensures IsData(Frame(0x03, 0, DataPayload(image, at)), image, at)
  {
    hide Little32, LittleEndian;
    WrittenLittleEndian(at);
    PayloadParts(image, at);
    var n := ChunkLength(image, at);
    PaddedSize(n);
    var p := DataPayload(image, at);
    forall i | 4 + n <= i < |p| ensures p[i] == 0xFF {
      assert p[i] == p[4 + n..][i - 4 - n];
    }
  }

  lemma PaddedSize(n: nat)
    ensures n + |Padding(n)| == (n + 7) / 8 * 8
  {}

  /** The whole schedule: the n-th message of an update, with its 16-bit number. */
  lemma MessagesSent(image: seq<bv8>, version: u32, n: nat)
    requires |image| < TWO_32 && n > 0
    ensures var (f, chunks) := (Scheduled(image, version, n), (|image| + 255) / 256);
      && f.seqNo as int == n % 65536
      && (n == 1 || n == 4 + chunks ==> IsPlain(f, 0x01))
      && (n == 2 ==> IsBegin(f, image, version))
      && (3 <= n < 3 + chunks ==> IsData(f, image, 256 * (n - 3)))
      && (n == 3 + chunks ==> IsPlain(f, 0x04))
      && (n == 5 + chunks ==> IsPlain(f, 0x05))
  {
    hide BeginPayload, DataPayload, SeqAt, LittleEndian, Crc32.Crc32;
    MessageNumbers(n);
    BeginAnnounces(image, version);
    if 3 <= n < 3 + Chunks(image) {
      DataCarries(image, 256 * (n - 3));
    }
  }

  /** A board already on trial with the target is sent INFO_REQ and CONFIRM. */
  lemma TrialMessages(n: nat)
    requires n == 1 || n == 2
    ensures TrialFrame(n).seqNo as int == n && IsPlain(TrialFrame(n), if n == 1 then 0x01 else 0x05)
  {
    MessageNumbers(n);
    assert SeqAt(n) as int == n;
    hide SeqAt;
  }

  // ----- answers heard -----------------------------------------------------------------------

  /** Which frames count at all. */
  lemma FramesHeard(c: Context, f: Frame, at: int)
    requires Inv(c) && Running(c) && c.state != Idle
    ensures f.kind != 0x81 && f.seqNo != c.seqNo ==> OnFrame(c, f, at) == Outcome(c, [])
    ensures f.kind !in {0x81, 0x82, 0x83} && f.seqNo == c.seqNo ==> OnFrame(c, f, at).next.failure == ProtocolError
    ensures f.kind == 0x83 && f.seqNo == c.seqNo && f.payload == [] ==> OnFrame(c, f, at).next.failure == ProtocolError
    ensures f.kind == 0x81 && |f.payload| != 6 ==> OnFrame(c, f, at).next.failure == ProtocolError
  {
    hide Dispatch, RunningOk;
  }

  /** ACK: where each state goes on, and the progress it acknowledges. */
  lemma AckHeard(c: Context, f: Frame, at: int)
    requires Inv(c) && Running(c) && c.state != Idle && f.kind == 0x82 && f.seqNo == c.seqNo
    ensures var d := OnFrame(c, f, at).next;
      && (c.state == Beginning ==> StageOf(d) == Sending && d.sentBytes == 0)
      && (c.state == Sending ==>
        && d.sentBytes == (if |c.image| - c.sentBytes <= 256 then |c.image| else c.sentBytes + 256)
        && StageOf(d) == if d.sentBytes < |c.image| then Sending else Committing)
      && (c.state == Committing ==> StageOf(d) == Rebooting)
      && (c.state == Confirming ==> StageOf(d) == Done)
      && (c.state in {Probing, Rebooting, Rechecking} ==> d.failure == ProtocolError)
  {
    hide Wire, SeqAt, InFlightFrame, MessageCount, DataPayload, NextSeq;
  }

  /** INFO: version, bank and state, and what each means before and after the transfer. */
  lemma InfoHeard(c: Context, f: Frame, at: int, version: u32)
    requires Inv(c) && Running(c) && c.state != Idle && f.kind == 0x81 && |f.payload| == 6
    requires LittleEndian(f.payload[..4], version)
    ensures var (d, board) := (OnFrame(c, f, at).next, f.payload[5]);
      && (c.state == Probing ==>
        if version != c.version then StageOf(d) == Beginning
        else if board == 0 then StageOf(d) == Done && d.alreadyUpToDate
        else if board == 1 then StageOf(d) == Confirming
        else d.failure == ProtocolError)
      && (c.state == Rechecking ==>
        if version == c.version then StageOf(d) == Confirming else d.failure == WrongVersion)
      && (c.state !in {Probing, Rechecking} ==> d.failure == ProtocolError)
      && d.boardVersion == if d.failure == ProtocolError then c.boardVersion else version
  {
    RunningFacts(c);
    hide *;
    ReadLittleEndian(f.payload[..4], version);
    InfoTaken(c, f, at);
    InfoDispatched(c, version, f.payload[5], at);
  }

  lemma InfoTaken(c: Context, f: Frame, at: int)
    requires InImage(c) && StageOf(c) != Idle && !Terminal(c) && f.kind == 0x81 && |f.payload| == 6
    ensures OnFrame(c, f, at).next == Dispatch(c, EvInfo(ReadLittle32(f.payload[..4]), f.payload[5]), at)
  {
    hide Dispatch, ReadLittle32, StageOf, Terminal;
  }

  lemma RunningFacts(c: Context)
    requires Inv(c) && Running(c)
    ensures InImage(c) && StageOf(c) == c.state && !Terminal(c)
  {
    hide RunningOk;
  }

  lemma InfoDispatched(c: Context, version: u32, board: bv8, at: int)
    requires InImage(c) && Running(c) && c.state != Idle
    ensures var d := Dispatch(c, EvInfo(version, board), at);
      && (c.state == Probing ==>
        if version != c.version then StageOf(d) == Beginning
        else if board == 0 then StageOf(d) == Done && d.alreadyUpToDate
        else if board == 1 then StageOf(d) == Confirming
        else d.failure == ProtocolError)
      && (c.state == Rechecking ==>
        if version == c.version then StageOf(d) == Confirming else d.failure == WrongVersion)
      && (c.state !in {Probing, Rechecking} ==> d.failure == ProtocolError)
      && d.boardVersion == if d.failure == ProtocolError then c.boardVersion else version
  {
    hide Wire, BeginPayload, NextSeq;
  }

  /** No frame but an INFO changes the version the board is said to run. */
  lemma VersionOnlyByInfo(c: Context, i: Input)
    requires InImage(c) && !(i.Receive? && i.frame.kind == 0x81)
    ensures Stepped(c, i).next.boardVersion == c.boardVersion
  {
    hide Wire, BeginPayload, DataPayload, NextSeq;
  }

  /** Before the first INFO the version is 0, which stands for unknown. */
  lemma {:induction false} VersionUnknownAtFirst(image: seq<bv8>, version: u32, timing: Timing, inputs: seq<Input>)
    requires forall i :: 0 <= i < |inputs| ==> !(inputs[i].Receive? && inputs[i].frame.kind == 0x81)
    ensures var c := Fresh(image, version, timing); Inv(c) && Run(c, inputs).boardVersion == 0
    decreases |inputs|
  {
    hide Inv, Stepped;
    FreshInv(image, version, timing);
    if inputs != [] {
      var before := inputs[..|inputs| - 1];
      VersionUnknownAtFirst(image, version, timing, before);
      InvImage(Run(Fresh(image, version, timing), before));
      VersionOnlyByInfo(Run(Fresh(image, version, timing), before), inputs[|inputs| - 1]);
    }
  }

  /** NAK: damage on the wire is answered by the same bytes again while the budget lasts; everything else is
      final, with the board's code. */
  lemma NakHeard(c: Context, f: Frame, at: int)
    requires Inv(c) && Running(c) && c.state != Idle && f.kind == 0x83 && f.seqNo == c.seqNo && f.payload != []
    ensures var o := OnFrame(c, f, at);
      if c.state == Rebooting then o.next.failure == ProtocolError
      else if f.payload[0] == 0x01 && c.resends < c.timing.resends then
        o.out == c.inFlight && o.next.state == c.state && o.next.resends == c.resends + 1
      else o.out == [] && o.next.failure == BoardRefused && o.next.nakCode == f.payload[0]
  {
    hide RunningOk;
  }

  // ----- waits -------------------------------------------------------------------------------

  /** How long the message in flight is given: BEGIN has a time of its own, for the erase. */
  function WaitOf(c: Context): int {
    if c.state == Beginning then c.timing.beginAnswer else c.timing.answer
  }

  predicate WaitOk(c: Context) {
    Running(c) && c.state !in {Idle, Rebooting} ==> c.waitFor == WaitOf(c)
  }

  predicate Armed(c: Context, i: Input, o: Outcome) {
    && WaitOk(o.next)
    && (o.out != [] ==> o.next.deadline == i.at + WaitOf(o.next))
    && (o.next.state == Rebooting && c.state != Rebooting ==> o.next.deadline == i.at + c.timing.reboot)
    && (o.out == [] && Running(o.next) && o.next.state == c.state ==> o.next.deadline == c.deadline)
  }

  lemma AckArms(c: Context, i: Input)
    requires Inv(c) && WaitOk(c) && Running(c) && c.state != Idle && i.Receive? && i.frame.kind == ACK && i.frame.seqNo == c.seqNo
    ensures Armed(c, i, Stepped(c, i))
  {
    hide Wire, SeqAt, InFlightFrame, MessageCount, DataPayload, NextSeq, ProgressOk, RunningOk;
    AckDispatched(c, i.at);
  }

  /** What a dispatch leaves of the waits. */
  predicate Waits(c: Context, d: Context, at: int) {
    && WaitOk(d)
    && (d.outbox != [] ==> d.deadline == at + WaitOf(d))
    && (d.state == Rebooting && c.state != Rebooting ==> d.deadline == at + c.timing.reboot)
    && (d.outbox == [] && Running(d) ==> d.state != c.state)
  }

  lemma AckDispatched(c: Context, at: int)
    requires InImage(c) && WaitOk(c) && Running(c) && c.state != Idle
    ensures Waits(c, Dispatch(c, EvAck, at), at)
  {
    if c.state == Beginning {
      FirstChunkWaits(c, at);
    } else if c.state == Sending {
      ChunkWaits(c, at);
    } else {
      hide Wire, DataPayload, NextSeq, Chunks, SendFirstChunk, AckChunkAndSendNext, AckChunkAndCommit;
    }
  }

  lemma FirstChunkWaits(c: Context, at: int)
    requires InImage(c) && Running(c) && c.state == Beginning
    ensures Waits(c, Dispatch(c, EvAck, at), at)
  {
    hide Wire, DataPayload, NextSeq, AckChunkAndSendNext, AckChunkAndCommit;
  }

  lemma ChunkWaits(c: Context, at: int)
    requires InImage(c) && Running(c) && c.state == Sending
    ensures Waits(c, Dispatch(c, EvAck, at), at)
  {
    hide Wire, DataPayload, NextSeq, SendFirstChunk;
  }

  lemma InfoArms(c: Context, i: Input)
    requires Inv(c) && WaitOk(c) && Running(c) && c.state != Idle && i.Receive? && i.frame.kind == INFO
    ensures Armed(c, i, Stepped(c, i))
  {
    hide Wire, SeqAt, InFlightFrame, MessageCount, BeginPayload, NextSeq, ProgressOk, ReadLittle32;
  }

  lemma TickArms(c: Context, i: Input)
    requires Inv(c) && WaitOk(c) && Running(c) && c.state != Idle && i.Tick?
    ensures Armed(c, i, Stepped(c, i))
  {
    hide Wire, SeqAt, InFlightFrame, MessageCount, NextSeq, ProgressOk;
  }

  lemma NakArms(c: Context, i: Input)
    requires Inv(c) && WaitOk(c) && Running(c) && c.state != Idle && i.Receive? && i.frame.kind == NAK
    ensures Armed(c, i, Stepped(c, i))
  {
    hide Wire, SeqAt, InFlightFrame, MessageCount, NextSeq, ProgressOk;
  }

  /** A call that is not made of the running session, or is ignored, or rejected. */
  lemma OtherArms(c: Context, i: Input)
    requires Inv(c) && WaitOk(c)
    requires !Running(c) || i.Start? || (c.state == Idle && !i.Start?)
      || (i.Receive? && i.frame.kind != NAK && i.frame.kind != INFO && (i.frame.kind != ACK || i.frame.seqNo != c.seqNo))
    requires !(Running(c) && c.state == Idle && i.Start?)
    ensures Armed(c, i, Stepped(c, i))
  {
    hide Dispatch, RunningOk;
  }

  lemma StartArms(c: Context, i: Input)
    requires Inv(c) && Running(c) && c.state == Idle && i.Start?
    ensures Armed(c, i, Stepped(c, i))
  {
    hide Wire, NextSeq;
  }

  /** Whatever a call puts on the wire, a first time or again, is given its wait from then on; the reset is
      given its own. */
  lemma StepArms(c: Context, i: Input)
    requires Inv(c) && WaitOk(c)
    ensures Armed(c, i, Stepped(c, i))
  {
    hide Inv, WaitOk, Armed, Stepped;
    if !Running(c) || c.state == Idle || i.Start? {
      if Running(c) && c.state == Idle && i.Start? { StartArms(c, i); } else { OtherArms(c, i); }
    } else if i.Tick? {
      TickArms(c, i);
    } else if i.frame.kind == NAK {
      NakArms(c, i);
    } else if i.frame.kind == INFO {
      InfoArms(c, i);
    } else if i.frame.kind == ACK && i.frame.seqNo == c.seqNo {
      AckArms(c, i);
    } else {
      OtherArms(c, i);
    }
  }

  lemma {:induction false} RunArms(image: seq<bv8>, version: u32, timing: Timing, inputs: seq<Input>)
    ensures var c := Fresh(image, version, timing);
      Inv(c) && WaitOk(Run(c, inputs))
    decreases |inputs|
  {
    hide Inv, Stepped, WaitOk;
    var c := Fresh(image, version, timing);
    FreshInv(image, version, timing);
    if inputs == [] {
      FreshWaits(image, version, timing);
    } else {
      var (before, last) := (inputs[..|inputs| - 1], inputs[|inputs| - 1]);
      RunArms(image, version, timing, before);
      InvImage(Run(c, before));
      StepKeeps(Run(c, before), last);
      StepArms(Run(c, before), last);
    }
  }

  lemma FreshWaits(image: seq<bv8>, version: u32, timing: Timing)
    ensures WaitOk(Fresh(image, version, timing))
  {}

  /** What a tick does: nothing before the deadline; then the step after the reset, the same bytes again
      while the budget lasts, or the end. */
  lemma TickExact(c: Context, at: int)
    requires Inv(c) && Running(c) && c.state != Idle
    ensures var o := OnTick(c, at);
      if at < c.deadline then o == Outcome(c, [])
      else if c.state == Rebooting then StageOf(o.next) == Rechecking && o.out == o.next.inFlight != []
      else if c.resends < c.timing.resends then o.out == c.inFlight != [] && o.next.state == c.state
      else o.out == [] && o.next.failure == NoAnswer
  {
    hide SeqAt, InFlightFrame, MessageCount, NextSeq, ProgressOk;
  }

  /** Over every run: after a call that puts a message on the wire, a tick is without effect before the
      message's wait is over and has one from then on; after the ACK of COMMIT the same holds of the reset. */
  lemma WaitsExact(image: seq<bv8>, version: u32, timing: Timing, inputs: seq<Input>, i: Input, at: int)
    ensures var c := Fresh(image, version, timing);
      && Inv(c) && Inv(Run(c, inputs))
      && var (before, o) := (Run(c, inputs), Stepped(Run(c, inputs), i));
      && InImage(o.next)
      && (o.out != [] ==>
        (Stepped(o.next, Tick(at)) == Outcome(o.next, []) <==>
          at < i.at + if o.next.state == Beginning then timing.beginAnswer else timing.answer))
      && (Running(o.next) && o.next.state == Rebooting && before.state != Rebooting ==>
        (Stepped(o.next, Tick(at)) == Outcome(o.next, []) <==> at < i.at + timing.reboot))
  {
    hide Inv, Stepped, WaitOk, Run, OnTick, Laid, CountsOk, Tracks;
    var c := Fresh(image, version, timing);
    FreshInv(image, version, timing);
    RunArms(image, version, timing, inputs);
    var before := Run(c, inputs);
    InvImage(before);
    var o := Stepped(before, i);
    StepArms(before, i);
    StepKeeps(before, i);
    StepClassified(before, i);
    SameTiming(image, version, timing, inputs);
    InvImage(o.next);
    SaidRunning(before, i);
    if Running(o.next) && o.next.state != Idle {
      TickIgnored(o.next, at);
    }
  }

  lemma SameTiming(image: seq<bv8>, version: u32, timing: Timing, inputs: seq<Input>)
    requires Inv(Fresh(image, version, timing))
    ensures Run(Fresh(image, version, timing), inputs).timing == timing
  {
    hide Inv, Run, Laid, CountsOk, Tracks;
    var trial, counts := TranscriptIsScheduled(image, version, timing, inputs);
  }

  lemma InvImage(c: Context)
    requires Inv(c)
    ensures InImage(c)
  {}

  lemma SaidRunning(c: Context, i: Input)
    requires Inv(c) && Inv(Stepped(c, i).next)
    ensures Stepped(c, i).out != [] ==> Running(Stepped(c, i).next) && Stepped(c, i).next.state != Idle
  {
    hide Stepped, Inv, InFlightFrame, Wire, MessageCount;
    StepClassified(c, i);
  }

  lemma TickIgnored(c: Context, at: int)
    requires Inv(c) && Running(c) && c.state != Idle
    ensures Stepped(c, Tick(at)) == Outcome(c, []) <==> at < c.deadline
  {
    InvImage(c);
    hide Dispatch, Inv, OnTick;
    TickExact(c, at);
    assert Stepped(c, Tick(at)) == OnTick(c, at);
  }
}
