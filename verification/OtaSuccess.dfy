/** An update can succeed: over an undisturbed link, with a board that answers each message once, it ends
    with Done and the image in the bank. And the one answer too many that undoes it. */
module OtaSuccess {
  import opened Wrappers
  import opened FlashFrame
  import opened FlashFrameParser
  import opened OtaTable
  import opened OtaInvariant
  import opened OtaRuns
  import opened OtaTranscript
  import opened OtaSystem
  import opened OtaLink
  import opened OtaInertLink
  import opened OtaCalmRuns

  /** A session with one frame in flight and not yet answered. */
  predicate Asking(h: Context) {
    Inv(h) && Running(h) && Awaiting(h.state)
  }

  function InFlight(h: Context): (f: Frame)
    ensures |f.payload| <= MAX_PAYLOAD
  {
    InFlightFrame(h.image, h.version, h.state, h.sentBytes)
  }

  predicate SameUpdate(h: Context, d: Context) {
    d.image == h.image && d.version == h.version && d.timing == h.timing
  }

  function Ack(h: Context): (f: Frame)
    ensures |f.payload| <= MAX_PAYLOAD
  {
    Frame(ACK, h.seqNo, [])
  }

  function Info(version: u32, state: bv8): (f: Frame)
    ensures |f.payload| == INFO_PAYLOAD && f.kind == INFO != ACK
  {
    Frame(INFO, 0, Little32(version) + [1, state])
  }

  lemma InfoReads(version: u32, state: bv8)
    ensures ReadLittle32(Info(version, state).payload[..4]) == version && Info(version, state).payload[5] == state
  {
    hide Little32, ReadLittle32;
    Little32RoundTrip(version);
    assert Info(version, state).payload[..4] == Little32(version);
  }

  /** The frame in flight carries the session's number, and the board has something to do for it. */
  lemma InFlightFacts(h: Context)
    requires Asking(h)
    ensures h.seqNo == SeqAt(CountOf(h)) && InFlight(h).seqNo == h.seqNo && h.inFlight == Wire(InFlight(h))
    ensures h.state in {Beginning, Sending, Committing, Confirming} ==> BoardActsOn(InFlight(h))
    ensures h.image != []
  {
    hide Wire, SeqAt, Little32, Padding, BeginPayload;
    if h.state == Sending {
      ChunkArithmetic(h.image, h.sentBytes);
    }
  }

  // ----- the host's steps --------------------------------------------------------------------

  lemma AckStarts(h: Context)
    requires InImage(h) && h.failure == NoFailure && h.state == Beginning
    ensures var d := Dispatch(h, EvAck, 0); d.failure == NoFailure && d.state == Sending && d.sentBytes == 0
  {
    hide Wire, DataPayload, NextSeq, ChunkLength;
  }

  lemma AckMoves(h: Context)
    requires InImage(h) && h.failure == NoFailure && h.state == Sending
    ensures var d := Dispatch(h, EvAck, 0);
      && d.failure == NoFailure && d.sentBytes == h.sentBytes + h.chunkBytes
      && d.state == (if d.sentBytes < |h.image| then Sending else Committing)
  {
    hide Wire, DataPayload, NextSeq, ChunkLength;
  }

  lemma AckStops(h: Context)
    requires InImage(h) && h.failure == NoFailure && h.state in {Committing, Confirming}
    ensures var d := Dispatch(h, EvAck, 0);
      && d.failure == NoFailure && d.outbox == [] && d.seqNo == h.seqNo
      && d.state == (if h.state == Committing then Rebooting else Done)
  {
    hide Wire;
  }

  lemma AckStepped(h: Context)
    requires InImage(h) && Running(h) && h.state != Idle && h.state != Failed
    ensures Stepped(h, Receive(Ack(h), 0)) == Acted(h, EvAck, 0)
  {
    hide Dispatch;
  }

  /** A step that changes the state and leaves the session asking sends its next message. */
  lemma Advanced(h: Context, i: Input)
    requires Inv(h) && Asking(Stepped(h, i).next)
    requires var d := Stepped(h, i).next; d.state != h.state || d.sentBytes != h.sentBytes
    ensures var o := Stepped(h, i);
      && SameUpdate(h, o.next) && CountOf(o.next) == CountOf(h) + 1 && o.out == Wire(InFlight(o.next))
      && o.next.seqNo != h.seqNo
  {
    hide Stepped, Wire, InFlightFrame, SeqAt, MessageCount, ProgressOk, Chunks;
    var d := Stepped(h, i).next;
    StepClassified(h, i);
    InFlightFacts(d);
    RunningSeq(h);
    SeqDiffers(CountOf(h), CountOf(h) + 1);
  }

  lemma AckContinues(h: Context)
    requires Asking(h) && h.state in {Beginning, Sending}
    ensures var o := Stepped(h, Receive(Ack(h), 0));
      && Asking(o.next) && SameUpdate(h, o.next) && CountOf(o.next) == CountOf(h) + 1
      && o.out == Wire(InFlight(o.next)) && o.next.seqNo != h.seqNo
      && (h.state == Beginning ==> o.next.state == Sending)
      && (h.state == Sending ==>
        o.next.state == Committing || (o.next.state == Sending && h.sentBytes < o.next.sentBytes <= |h.image|))
  {
    hide Stepped, Dispatch, Wire, InFlightFrame, MessageCount, SeqAt;
    AckStepped(h);
    if h.state == Beginning { AckStarts(h); } else { AckMoves(h); }
    StepKeeps(h, Receive(Ack(h), 0));
    Advanced(h, Receive(Ack(h), 0));
  }

  lemma AckEnds(h: Context)
    requires Asking(h) && h.state in {Committing, Confirming}
    ensures var o := Stepped(h, Receive(Ack(h), 0));
      && o.out == [] && o.next.seqNo == h.seqNo && Inv(o.next) && SameUpdate(h, o.next) && o.next.failure == NoFailure
      && o.next.state == (if h.state == Committing then Rebooting else Done)
  {
    hide Stepped, Dispatch, Wire, InFlightFrame, MessageCount, SeqAt, ProgressOk, Chunks;
    AckStepped(h);
    AckStops(h);
    StepKeeps(h, Receive(Ack(h), 0));
    StepClassified(h, Receive(Ack(h), 0));
  }

  lemma InfoMoves(h: Context, version: u32, state: bv8)
    requires InImage(h) && h.failure == NoFailure
    requires (h.state == Probing && version != h.version) || (h.state == Rechecking && version == h.version)
    ensures var d := Dispatch(h, EvInfo(version, state), 0);
      && d.failure == NoFailure && d.state == (if h.state == Probing then Beginning else Confirming)
      && d.boardVersion == version && d.sentBytes == h.sentBytes
  {
    hide Wire, BeginPayload, NextSeq;
  }

  lemma InfoContinues(h: Context, version: u32, state: bv8)
    requires Asking(h)
    requires (h.state == Probing && version != h.version) || (h.state == Rechecking && version == h.version)
    ensures var o := Stepped(h, Receive(Info(version, state), 0));
      && Asking(o.next) && SameUpdate(h, o.next) && CountOf(o.next) == CountOf(h) + 1
      && o.out == Wire(InFlight(o.next)) && o.next.seqNo != h.seqNo
      && o.next.state == (if h.state == Probing then Beginning else Confirming) && o.next.boardVersion == version
      && o.next.sentBytes == h.sentBytes
  {
    hide Dispatch, Wire, InFlightFrame, MessageCount, SeqAt, ReadLittle32, Little32;
    InfoReads(version, state);
    var i := Receive(Info(version, state), 0);
    InfoMoves(h, version, state);
    StepKeeps(h, i);
    assert Stepped(h, i) == Acted(h, EvInfo(version, state), 0);
    Advanced(h, i);
  }

  lemma AskMoves(h: Context, at: int)
    requires InImage(h) && h.failure == NoFailure
    ensures h.state == Idle && h.image != [] ==>
      Dispatch(h, EvStart, at).failure == NoFailure && Dispatch(h, EvStart, at).state == Probing
    ensures h.state == Rebooting ==>
      Dispatch(h, EvRebootDone, at).failure == NoFailure && Dispatch(h, EvRebootDone, at).state == Rechecking
  {
    hide Wire, NextSeq;
  }

  lemma StartAsks(h: Context)
    requires Inv(h) && h.failure == NoFailure && h.state == Idle && h.image != []
    ensures var o := Stepped(h, Start(0));
      && Asking(o.next) && SameUpdate(h, o.next) && CountOf(o.next) == CountOf(h) + 1
      && o.out == Wire(InFlight(o.next)) && o.next.seqNo != h.seqNo && o.next.state == Probing
  {
    hide Dispatch, Wire, InFlightFrame, MessageCount, SeqAt;
    AskMoves(h, 0);
    StepKeeps(h, Start(0));
    Advanced(h, Start(0));
  }

  lemma RebootAsks(h: Context)
    requires Inv(h) && h.failure == NoFailure && h.state == Rebooting
    ensures var o := Stepped(h, Tick(h.deadline));
      && Asking(o.next) && SameUpdate(h, o.next) && CountOf(o.next) == CountOf(h) + 1
      && o.out == Wire(InFlight(o.next)) && o.next.seqNo != h.seqNo && o.next.state == Rechecking
  {
    hide Dispatch, Wire, InFlightFrame, MessageCount, SeqAt;
    AskMoves(h.(waitingOut := false), h.deadline);
    StepKeeps(h, Tick(h.deadline));
    Advanced(h, Tick(h.deadline));
  }

  // ----- one message after the other ---------------------------------------------------------

  /** The world in which the session's frame is on its way and nothing else is. */
  function Shape(h: Context, floor: nat, b: Board): World {
    Flat(h, CountOf(h), floor, b, [], [], [Sent(InFlight(h), CountOf(h))], [])
  }

  lemma AskingInImage(h: Context)
    requires Inv(h)
    ensures InImage(h)
  {}

  /** A message the board acknowledges, and the next. */
  lemma Exchange(h: Context, floor: nat, b: Board) returns (d: Context, b': Board)
    requires Asking(h) && h.state in {Beginning, Sending} && Reached(Shape(h, floor, b))
    ensures Reached(Shape(d, CountOf(h), b')) && Asking(d) && SameUpdate(h, d)
    ensures d == Stepped(h, Receive(Ack(h), 0)).next
    ensures h.state == Beginning ==> d.state == Sending
    ensures h.state == Sending ==> d.state == Committing || (d.state == Sending && h.sentBytes < d.sentBytes <= |h.image|)
  {
    hide Reached, Stepped, Wire, InFlightFrame, MessageCount, Inv, InImage, AfterFrame, BoardActsOn;
    var n := CountOf(h);
    AskingInImage(h);
    InFlightFacts(h);
    AckContinues(h);
    d, b' := Stepped(h, Receive(Ack(h), 0)).next, AfterFrame(b, Tagged(InFlight(h), n));
    BoardAnswers(h, n, floor, b, InFlight(h), n);
    HostContinues(h, n, floor, b', Tagged(Ack(h), n), 0, d, InFlight(d));
  }

  /** All chunks, one after the other. */
  lemma {:induction false} SendAll(h: Context, floor: nat, b: Board) returns (d: Context, floor': nat, b': Board)
    requires Asking(h) && h.state == Sending && Reached(Shape(h, floor, b))
    ensures Reached(Shape(d, floor', b')) && Asking(d) && SameUpdate(h, d) && d.state == Committing
    decreases |h.image| - h.sentBytes
  {
    hide Reached, Stepped, Inv, Shape;
    AskingInImage(h);
    d, b' := Exchange(h, floor, b);
    floor' := CountOf(h);
    if d.state == Sending {
      d, floor', b' := SendAll(d, floor', b');
    }
  }

  /** The board's INFO, and the next message. */
  lemma Told(h: Context, floor: nat, b: Board, version: u32, state: bv8) returns (d: Context)
    requires Asking(h) && Reached(Shape(h, floor, b))
    requires (h.state == Probing && version != h.version) || (h.state == Rechecking && version == h.version)
    ensures Reached(Shape(d, floor, b)) && Asking(d) && SameUpdate(h, d) && d.boardVersion == version && d.sentBytes == h.sentBytes
    ensures d.state == if h.state == Probing then Beginning else Confirming
  {
    hide Reached, Stepped, Wire, InFlightFrame, MessageCount, Inv, InImage, Info;
    var (n, g) := (CountOf(h), Info(version, state));
    AskingInImage(h);
    InfoContinues(h, version, state);
    d := Stepped(h, Receive(g, 0)).next;
    BoardTells(h, n, floor, b, InFlight(h), n, g);
    HostContinues(h, n, floor, b, Tagged(g, 0), 0, d, InFlight(d));
  }

  /** The last frame of the transfer, or of the update, and its ACK. */
  lemma Ends(h: Context, floor: nat, b: Board) returns (d: Context, b': Board)
    requires Asking(h) && h.state in {Committing, Confirming} && Reached(Shape(h, floor, b))
    ensures Reached(Flat(d, CountOf(h), CountOf(h), b', [], [], [], []))
    ensures Inv(d) && SameUpdate(h, d) && d.failure == NoFailure && d.seqNo == h.seqNo
    ensures d.state == if h.state == Committing then Rebooting else Done
    ensures b' == AfterFrame(b, Tagged(InFlight(h), CountOf(h))) && d == Stepped(h, Receive(Ack(h), 0)).next
  {
    hide Reached, Stepped, Wire, InFlightFrame, MessageCount, Inv, InImage, AfterFrame, BoardActsOn;
    var n := CountOf(h);
    AskingInImage(h);
    InFlightFacts(h);
    AckEnds(h);
    d, b' := Stepped(h, Receive(Ack(h), 0)).next, AfterFrame(b, Tagged(InFlight(h), n));
    AskingInImage(d);
    BoardAnswers(h, n, floor, b, InFlight(h), n);
    HostPauses(h, n, floor, b', Tagged(Ack(h), n), 0, d);
  }

  /** The board in any condition, before the update. */
  predicate Unheard(b: Board) {
    b.lastNum == 0 && b.announced == None
  }

  lemma Begun(image: seq<bv8>, version: u32, timing: Timing, b: Board) returns (h: Context)
    requires image != [] && |image| < TWO_32 && Unheard(b)
    ensures Reached(Shape(h, 0, b)) && Asking(h) && SameUpdate(Fresh(image, version, timing), h) && h.state == Probing
  {
    hide Reached, Stepped, Wire, InFlightFrame, Inv, InImage;
    var h0 := Fresh(image, version, timing);
    FreshInv(image, version, timing);
    AskingInImage(h0);
    StartAsks(h0);
    h := Stepped(h0, Start(0)).next;
    var w0 := Flat(h0, 0, 0, b, [], [], [], []);
    ReachedStart(w0);
    HostSends(w0, HostCalls(Start(0)), h, InFlight(h));
    assert [] + [Sent(InFlight(h), 1)] == [Sent(InFlight(h), 1)];
    Next(w0, Acts(HostCalls(Start(0))), Shape(h, 0, b));
  }

  /** After the reset the host asks again. */
  lemma Rebooted(h: Context, n: nat, b: Board) returns (d: Context)
    requires Inv(h) && h.failure == NoFailure && h.state == Rebooting && n == CountOf(h)
    requires Reached(Flat(h, n, n, b, [], [], [], []))
    ensures Reached(Shape(d, n, b)) && Asking(d) && SameUpdate(h, d) && d.state == Rechecking
  {
    hide Reached, Stepped, Wire, InFlightFrame, MessageCount, Inv, InImage;
    AskingInImage(h);
    RebootAsks(h);
    var m := HostCalls(Tick(h.deadline));
    d := Stepped(h, Tick(h.deadline)).next;
    var w := Flat(h, n, n, b, [], [], [], []);
    HostSends(w, m, d, InFlight(d));
    assert [] + [Sent(InFlight(d), n + 1)] == [Sent(InFlight(d), n + 1)];
    Next(w, Acts(m), Shape(d, n, b));
  }

  // ----- the whole update --------------------------------------------------------------------

  /** From the start to the ACK of COMMIT: the host waits for the board's reset. */
  lemma Transferred(image: seq<bv8>, version: u32, timing: Timing, current: u32, b: Board) returns (d: Context, n: nat, e: Board)
    requires image != [] && |image| < TWO_32 && current != version && Unheard(b)
    ensures Reached(Flat(d, n, n, e, [], [], [], [])) && n == CountOf(d)
    ensures Inv(d) && SameUpdate(Fresh(image, version, timing), d) && d.failure == NoFailure && d.state == Rebooting
    ensures e.lastNum > 0 && e.last == Some(d.seqNo)
  {
    hide Reached, Stepped, Inv, Shape, Flat, SeqAt, Wire, AfterFrame, Fresh;
    FreshIs(image, version, timing);
    var h0 := Begun(image, version, timing, b);
    var h1 := Told(h0, 0, b, current, STATE_CONFIRMED);
    var h2, b2 := Exchange(h1, 0, b);
    var h3, floor, b3 := SendAll(h2, CountOf(h1), b2);
    InFlightFacts(h3);
    d, e := Ends(h3, floor, b3);
    n := CountOf(h3);
    Remembered(b3, InFlight(h3), n);
  }

  lemma Remembered(b: Board, f: Frame, n: nat)
    requires BoardActsOn(f) && n > 0
    ensures AfterFrame(b, Tagged(f, n)).lastNum == n && AfterFrame(b, Tagged(f, n)).last == Some(f.seqNo)
  {}

  /** The update is done and the image is in the bank. */
  predicate Succeeded(w: World, image: seq<bv8>, version: u32) {
    && StageOf(w.ends.host) == Done && w.ends.host.version == version && w.ends.host.image == image
    && Bank(w.ends.board, |image|) == image
  }

  /** For every image that fits, every version and every board that runs another one: over an
      undisturbed link, the board answering each message once, the update succeeds. */
  lemma UpdateSucceeds(image: seq<bv8>, version: u32, timing: Timing, current: u32, b: Board)
      returns (states: seq<World>, moves: seq<LinkMove>)
    requires image != [] && |image| < TWO_32 && current != version && Unheard(b)
    ensures LinkRun(states, moves) && |states| == |moves| + 1 && forall mv <- moves :: Calm(mv)
    ensures Succeeded(states[|moves|], image, version)
  {
    hide Reached, Stepped, Inv, Shape, LinkRun, Fresh, Calm, AfterFrame, Chunks, Bank, RunsTo, Asking;
    var h4, n, b4 := Transferred(image, version, timing, current, b);
    FreshIs(image, version, timing);
    var h5 := Rebooted(h4, n, b4);
    var h6 := Told(h5, n, b4, version, STATE_TRIAL);
    LastCount(h5, h6);
    var h7, b7 := Ends(h6, n, b4);
    var w := Flat(h7, CountOf(h6), CountOf(h6), b7, [], [], [], []);
    states, moves := RunOf(w);
    BankFull(w);
  }

  lemma FreshIs(image: seq<bv8>, version: u32, timing: Timing)
    ensures var h := Fresh(image, version, timing); h.image == image && h.version == version && h.timing == timing
  {}

  lemma LastCount(h: Context, d: Context)
    requires Asking(h) && h.state == Rechecking && Asking(d) && d.state == Confirming
    requires SameUpdate(h, d) && d.sentBytes == h.sentBytes
    ensures CountOf(d) == 5 + Chunks(d.image)
  {
    hide Wire, InFlightFrame, SeqAt, Chunks;
  }

  /** A run that reaches a world, and what it has kept. */
  lemma RunOf(w: World) returns (states: seq<World>, moves: seq<LinkMove>)
    requires Reached(w)
    ensures LinkRun(states, moves) && |states| == |moves| + 1 && states[|moves|] == w && forall mv <- moves :: Calm(mv)
    ensures SysInv(Abs(w))
  {
    hide LinkRun, Calm, SysInv;
    states, moves :| RunsTo(states, moves, w);
    forall mv | mv in moves ensures InertMove(mv) {
      CalmIsInert(mv);
    }
    InertInv(states, moves, |moves|);
  }

  lemma BankFull(w: World)
    requires SysInv(Abs(w)) && w.ends.floor >= 3 + Chunks(w.ends.host.image)
    ensures Bank(w.ends.board, |w.ends.host.image|) == w.ends.host.image
  {
    hide Inv, Queue, AcksOk, ToBoardOk, Running, CountOf, SeqAt, FlashAt;
    assert Filled(w.ends.host.image, w.ends.board.lastNum) == |w.ends.host.image|;
  }

  // ----- one answer too many -----------------------------------------------------------------

  /** An ACK that is repeated while the host waits for the reset ends the update: for every image that
      fits, after a run in which nothing was lost, damaged or repeated, the board's second ACK of
      COMMIT is a protocol error. */
  lemma RepeatedAckEndsUpdate(image: seq<bv8>, version: u32, timing: Timing, current: u32, b: Board)
      returns (states: seq<World>, moves: seq<LinkMove>)
    requires image != [] && |image| < TWO_32 && current != version && Unheard(b)
    ensures LinkRun(states, moves) && |states| == |moves| + 1 && |moves| >= 3
    ensures moves[|moves| - 3..] == [Acts(BoardRepeats), ArrivesAtHost, Acts(HostReceives(0))]
    ensures forall mv <- moves[..|moves| - 3] :: Calm(mv)
    ensures states[|moves|].ends.host.failure == ProtocolError
  {
    hide Reached, Stepped, Inv, LinkRun, Calm, SysInv, Fresh, SeqAt, RunsTo, LinkAfter, LinkEnabled, Flat, Sent;
    var h, n, e := Transferred(image, version, timing, current, b);
    var w := Flat(h, n, n, e, [], [], [], []);
    states, moves := RunOf(w);
    var v1, v2, v3 := RepeatWorlds(h, n, e);
    Extends(states, moves, Acts(BoardRepeats));
    states, moves := states + [v1], moves + [Acts(BoardRepeats)];
    Extends(states, moves, ArrivesAtHost);
    states, moves := states + [v2], moves + [ArrivesAtHost];
    Extends(states, moves, Acts(HostReceives(0)));
    states, moves := states + [v3], moves + [Acts(HostReceives(0))];
  }

  lemma RepeatWorlds(h: Context, n: nat, e: Board) returns (v1: World, v2: World, v3: World)
    requires Inv(h) && h.failure == NoFailure && h.state == Rebooting && e.lastNum > 0 && e.last == Some(h.seqNo)
    ensures var w := Flat(h, n, n, e, [], [], [], []);
      && LinkEnabled(w, Acts(BoardRepeats)) && v1 == LinkAfter(w, Acts(BoardRepeats))
      && LinkEnabled(v1, ArrivesAtHost) && v2 == LinkAfter(v1, ArrivesAtHost)
      && LinkEnabled(v2, Acts(HostReceives(0))) && v3 == LinkAfter(v2, Acts(HostReceives(0)))
    ensures v3.ends.host.failure == ProtocolError
  {
    hide Inv, InImage, Wire, Segments, Frames, Stepped, Delivered, AfterArrival, Tag, Answers;
    AskingInImage(h);
    var k := e.lastNum;
    var w := Flat(h, n, n, e, [], [], [], []);
    BoardSends(w, BoardRepeats, Ack(h), k);
    v1 := Flat(h, n, n, e, [], [], [], [Sent(Ack(h), k)]);
    SentArrives(Ack(h), k, []);
    assert [Sent(Ack(h), k)] + [] == [Sent(Ack(h), k)];
    v2 := Flat(h, n, n, e, [], [Tagged(Ack(h), k)], [], []);
    v3 := LinkAfter(v2, Acts(HostReceives(0)));
    AckWhileRebooting(h);
    HostAfter(v2, 0);
  }

  lemma AckWhileRebooting(h: Context)
    requires InImage(h) && h.failure == NoFailure && h.state == Rebooting
    ensures Stepped(h, Receive(Ack(h), 0)).next.failure == ProtocolError
  {
    hide Wire;
  }

  lemma HostAfter(w: World, at: int)
    requires LinkEnabled(w, Acts(HostReceives(at)))
    ensures LinkAfter(w, Acts(HostReceives(at))).ends.host == Stepped(w.ends.host, Receive(w.ends.toHost[0].frame, at)).next
  {
    hide Stepped, Segments, Frames, Tag, Answers;
  }
}
