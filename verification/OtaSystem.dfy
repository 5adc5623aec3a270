/** The update session, a FIFO of frames in each direction that may lose some, and a board that
    acknowledges a frame only after acting on it. The board is abstract: what sections 5 and 7 of
    docs/protocols/uart-flash-v1.md ask of a board is all it does. The bytes of the link are in
    `OtaLink`. */
module OtaSystem {
  import opened Wrappers
  import opened FlashFrame
  import opened FlashFrameParser
  import opened OtaTable
  import opened OtaInvariant
  import opened OtaRuns
  import opened OtaTranscript
  import opened OtaTiling
  import FlashStream
  import Crc32

  // ----- the system --------------------------------------------------------------------------

  /** A frame on the link with the count of the message it is, or answers. The count is
      bookkeeping: neither side sees it. */
  datatype Tagged = Tagged(frame: Frame, num: nat)

  /** The empty bank, the number of the last frame acted on and that frame's count, and what the last
      BEGIN acted on announced. */
  datatype Board = Board(flash: map<nat, bv8>, last: Option<bv16>, lastNum: nat, announced: Option<seq<bv8>>)

  /** `num` counts the messages the host has sent, `floor` is the count of the last one
      acknowledged. */
  datatype Sys = Sys(host: Context, toBoard: seq<Tagged>, toHost: seq<Tagged>, board: Board, num: nat, floor: nat)

  function FlashAt(flash: map<nat, bv8>, i: nat): bv8 {
    if i in flash then flash[i] else ERASED
  }

  predicate Within(i: nat, at: nat, n: nat) { at <= i < at + n }

  function Written(flash: map<nat, bv8>, at: nat, bytes: seq<bv8>): (r: map<nat, bv8>)
    ensures forall i: nat :: i in r <==> i in flash || Within(i, at, |bytes|)
    ensures forall i: nat :: i in r ==> r[i] == if Within(i, at, |bytes|) then bytes[i - at] else flash[i]
  {
    flash + map i: nat | at <= i < at + |bytes| && Within(i, at, |bytes|) :: bytes[i - at]
  }

  predicate BoardActsOn(f: Frame) {
    f.kind == BEGIN || f.kind == COMMIT || f.kind == CONFIRM || (f.kind == DATA && |f.payload| >= 4)
  }

  /** The board acts on a frame. One whose number it has just acted on is not written twice. */
  function AfterFrame(b: Board, x: Tagged): Board
    requires BoardActsOn(x.frame)
  {
    if b.last == Some(x.frame.seqNo) then b.(lastNum := x.num)
    else
      var flash :=
        if x.frame.kind == BEGIN then map[]
        else if x.frame.kind == DATA then Written(b.flash, ReadLittle32(x.frame.payload[..4]), x.frame.payload[4..])
        else b.flash;
      Board(flash, Some(x.frame.seqNo), x.num, if x.frame.kind == BEGIN then Some(x.frame.payload) else b.announced)
  }

  datatype Move =
    | HostCalls(input: Input)       // start() or a tick
    | HostReceives(at: int)         // the next frame of the board reaches onFrame
    | Loses(toBoard: seq<Tagged>, toHost: seq<Tagged>)   // only these frames are left on the link
    | BoardAccepts                  // the board acts on the next frame and acknowledges it
    | BoardRefuses                  // the board takes the next frame and does nothing with it
    | BoardRepeats                  // the board acknowledges the last frame it acted on once more
    | BoardSays(frame: Frame)       // any frame that is not an ACK, at any time: INFO, NAK, nonsense

  /** What is left of a queue when some of it is lost: the same elements in the same order. */
  predicate Sub<T(==)>(a: seq<T>, b: seq<T>) {
    a == [] || (b != [] && ((a[0] == b[0] && Sub(a[1..], b[1..])) || Sub(a, b[1..])))
  }

  predicate Enabled(s: Sys, m: Move) {
    match m
    case HostCalls(i) => !i.Receive?
    case HostReceives(_) => s.toHost != []
    case Loses(toBoard, toHost) => Sub(toBoard, s.toBoard) && Sub(toHost, s.toHost)
    case BoardAccepts => s.toBoard != [] && BoardActsOn(s.toBoard[0].frame)
    case BoardRefuses => s.toBoard != []
    case BoardRepeats => s.board.lastNum > 0 && s.board.last.Some?
    case BoardSays(f) => f.kind != ACK && |f.payload| <= MAX_PAYLOAD
  }

  function Tag(frames: seq<Frame>, n: nat): (r: seq<Tagged>)
    ensures |r| == |frames| && forall i :: 0 <= i < |r| ==> r[i] == Tagged(frames[i], n)
  {
    seq(|frames|, i requires 0 <= i < |frames| => Tagged(frames[i], n))
  }

  predicate Answers(c: Context, i: Input) {
    i.Receive? && i.frame.kind == ACK && i.frame.seqNo == c.seqNo && c.state != Idle && !Terminal(c)
  }

  /** A call into the session. Its bytes travel, and the receiving parser finds the frames. */
  function HostStep(s: Sys, i: Input): Sys
    requires InImage(s.host)
  {
    var o := Stepped(s.host, i);
    var num := if o.next.seqNo != s.host.seqNo then s.num + 1 else s.num;
    s.(host := o.next, toBoard := s.toBoard + Tag(Frames(Segments(o.out)), num), num := num,
       floor := if Answers(s.host, i) then s.num else s.floor)
  }

  function After(s: Sys, m: Move): Sys
    requires Enabled(s, m) && InImage(s.host)
  {
    match m
    case HostCalls(i) => HostStep(s, i)
    case HostReceives(at) => HostStep(s.(toHost := s.toHost[1..]), Receive(s.toHost[0].frame, at))
    case Loses(toBoard, toHost) => s.(toBoard := toBoard, toHost := toHost)
    case BoardAccepts =>
      var x := s.toBoard[0];
      s.(board := AfterFrame(s.board, x), toBoard := s.toBoard[1..],
         toHost := s.toHost + [Tagged(Frame(ACK, x.frame.seqNo, []), x.num)])
    case BoardRefuses => s.(toBoard := s.toBoard[1..])
    case BoardRepeats =>
      s.(toHost := s.toHost + [Tagged(Frame(ACK, s.board.last.value, []), s.board.lastNum)])
    case BoardSays(f) => s.(toHost := s.toHost + [Tagged(f, 0)])
  }

  /** A fresh session, an empty link, and a board in any condition. */
  predicate Initial(s: Sys) {
    && s.host == Fresh(s.host.image, s.host.version, s.host.timing)
    && s.toBoard == [] && s.toHost == [] && s.num == 0 && s.floor == 0
    && s.board.lastNum == 0 && s.board.announced == None
  }

  // ----- the invariant -----------------------------------------------------------------------

  /** Image bytes the schedule has put into frames up to message n. */
  function Filled(image: seq<bv8>, n: nat): nat {
    if n < 3 then 0 else if DATA_CHUNK * (n - 2) < |image| then DATA_CHUNK * (n - 2) else |image|
  }

  /** A frame on its way to the board is the scheduled one for its count, and acting on it leaves
      no gap. */
  predicate QueuedOk(x: Tagged, image: seq<bv8>, version: u32, lastNum: nat) {
    && x.frame.seqNo == SeqAt(x.num)
    && (x.frame.kind == DATA ==>
      && 3 <= x.num < 3 + Chunks(image) && x.frame == Scheduled(image, version, x.num)
      && 2 <= lastNum && x.num <= lastNum + 1)
    && (x.frame.kind != DATA ==> Filled(image, x.num) <= Filled(image, lastNum))
    && (x.frame.kind == BEGIN ==> x.num == 2 && x.frame.payload == BeginPayload(image, version))
    && (x.frame.kind == COMMIT ==> Filled(image, lastNum) == |image|)
  }

  predicate Ascending(q: seq<Tagged>) {
    forall i, j :: 0 <= i < j < |q| ==> q[i].num <= q[j].num
  }

  predicate ToBoardOk(s: Sys) {
    && Ascending(s.toBoard)
    && forall x <- s.toBoard :: s.board.lastNum <= x.num <= s.num
        && QueuedOk(x, s.host.image, s.host.version, s.board.lastNum)
  }

  predicate AcksOk(q: seq<Tagged>, floor: nat, lastNum: nat) {
    && (forall x <- q :: x.frame.kind == ACK ==> floor <= x.num <= lastNum && x.frame.seqNo == SeqAt(x.num))
    && (forall i, j :: 0 <= i < j < |q| && q[i].frame.kind == ACK && q[j].frame.kind == ACK ==> q[i].num <= q[j].num)
  }

  predicate FlashOk(b: Board, image: seq<bv8>, version: u32) {
    && (b.lastNum > 0 ==> b.last == Some(SeqAt(b.lastNum)))
    && (b.announced.Some? ==> b.announced.value == BeginPayload(image, version))
    && forall i: nat :: i < Filled(image, b.lastNum) ==> FlashAt(b.flash, i) == image[i]
  }

  /** The least acknowledged count each stage guarantees. */
  function LeastFloor(state: Stage, num: nat): int {
    match state
    case Sending => num - 1
    case Committing => num - 1
    case Rebooting => num
    case Rechecking => num - 1
    case _ => num - 2
  }

  predicate HostOk(s: Sys) {
    && Inv(s.host)
    && |s.host.image| < TWO_32
    && s.host.seqNo == SeqAt(s.num)
    && (Running(s.host) ==> s.num == CountOf(s.host) && LeastFloor(s.host.state, s.num) <= s.floor)
    && s.num - 2 <= s.floor <= s.board.lastNum <= s.num
    && s.host.sentBytes <= Filled(s.host.image, s.floor)
  }

  predicate SysInv(s: Sys) {
    HostOk(s) && ToBoardOk(s) && AcksOk(s.toHost, s.floor, s.board.lastNum) && FlashOk(s.board, s.host.image, s.host.version)
  }

  lemma InitialInv(s: Sys)
    requires Initial(s) && |s.host.image| < TWO_32
    ensures SysInv(s)
  {
    FreshInv(s.host.image, s.host.version, s.host.timing);
  }

  lemma FilledGrows(image: seq<bv8>, a: nat, b: nat)
    requires a <= b
    ensures Filled(image, a) <= Filled(image, b) <= |image|
  {}

  // ----- the link ----------------------------------------------------------------------------

  /** The places in the queue of what is left of it. */
  lemma {:induction false} SubPlaces<T>(a: seq<T>, b: seq<T>) returns (places: seq<nat>)
    requires Sub(a, b)
    ensures |places| == |a|
    ensures forall i :: 0 <= i < |a| ==> places[i] < |b| && a[i] == b[places[i]]
    ensures forall i, j :: 0 <= i < j < |a| ==> places[i] < places[j]
    decreases |b|
  {
    if a == [] {
      places := [];
    } else if a[0] == b[0] && Sub(a[1..], b[1..]) {
      var later := SubPlaces(a[1..], b[1..]);
      places := [0] + seq(|later|, i requires 0 <= i < |later| => later[i] + 1);
    } else {
      var later := SubPlaces(a, b[1..]);
      places := seq(|later|, i requires 0 <= i < |later| => later[i] + 1);
    }
  }

  lemma LossKeeps(s: Sys, toBoard: seq<Tagged>, toHost: seq<Tagged>)
    requires SysInv(s) && Sub(toBoard, s.toBoard) && Sub(toHost, s.toHost)
    ensures SysInv(s.(toBoard := toBoard, toHost := toHost))
  {
    hide Inv, QueuedOk, FlashOk, SeqAt, CountOf, Filled, Sub;
    var down := SubPlaces(toBoard, s.toBoard);
    var up := SubPlaces(toHost, s.toHost);
    forall x <- toBoard ensures x in s.toBoard {}
    forall x <- toHost ensures x in s.toHost {}
    forall i, j | 0 <= i < j < |toBoard| ensures toBoard[i].num <= toBoard[j].num {
      assert s.toBoard[down[i]].num <= s.toBoard[down[j]].num;
    }
    forall i, j | 0 <= i < j < |toHost| && toHost[i].frame.kind == ACK && toHost[j].frame.kind == ACK
      ensures toHost[i].num <= toHost[j].num
    {
      assert s.toHost[up[i]].num <= s.toHost[up[j]].num;
    }
  }

  lemma IdleBoardKeeps(s: Sys, m: Move)
    requires SysInv(s) && Enabled(s, m) && (m.BoardRefuses? || m.BoardSays?)
    ensures SysInv(After(s, m))
  {
    hide Inv, QueuedOk, FlashOk, SeqAt, CountOf, Filled, Sub;
  }

  /** A repeated ACK is genuine too: it answers the last message the board acted on. */
  lemma RepeatKeeps(s: Sys)
    requires SysInv(s) && Enabled(s, BoardRepeats)
    ensures SysInv(After(s, BoardRepeats))
  {
    hide Inv, QueuedOk, SeqAt, CountOf, Filled, BeginPayload, FlashAt;
  }

  // ----- the board ---------------------------------------------------------------------------

  lemma {:induction false} SeqDiffers(a: nat, b: nat)
    requires a < b <= a + 2
    ensures SeqAt(a) != SeqAt(b)
  {
    if b == a + 2 {
      assert SeqAt(b) == NextSeq(NextSeq(SeqAt(a)));
    }
  }

  lemma QueuedOkGrows(x: Tagged, image: seq<bv8>, version: u32, a: nat, b: nat)
    requires QueuedOk(x, image, version, a) && a <= b
    ensures QueuedOk(x, image, version, b)
  {
    hide Filled, Scheduled, SeqAt, Chunks;
    FilledGrows(image, a, b);
    FilledGrows(image, b, b);
  }

  /** The board writes the one chunk that is next, or nothing new. */
  lemma BoardKeepsFlash(b: Board, x: Tagged, image: seq<bv8>, version: u32)
    requires FlashOk(b, image, version) && QueuedOk(x, image, version, b.lastNum) && BoardActsOn(x.frame)
    requires |image| < TWO_32 && b.lastNum <= x.num <= b.lastNum + 2
    ensures FlashOk(AfterFrame(b, x), image, version)
  {
    hide SeqAt, Scheduled, ReadLittle32, Chunks;
    if b.lastNum > 0 && b.lastNum < x.num {
      SeqDiffers(b.lastNum, x.num);
    }
    if b.last == Some(x.frame.seqNo) {
    } else if x.frame.kind == DATA {
      ChunkWritten(b, x, image, version);
    }
  }

  lemma WrittenChunk(flash: map<nat, bv8>, at: nat, bytes: seq<bv8>, image: seq<bv8>, n: nat)
    requires n <= |bytes| && at + n <= |image| && bytes[..n] == image[at..at + n]
    requires forall i: nat :: i < at ==> FlashAt(flash, i) == image[i]
    ensures forall i: nat :: i < at + n ==> FlashAt(Written(flash, at, bytes), i) == image[i]
  {
    forall i: nat | i < at + n ensures FlashAt(Written(flash, at, bytes), i) == image[i] {
      if i >= at {
        assert Within(i, at, |bytes|);
        assert bytes[i - at] == bytes[..n][i - at] == image[i];
      } else {
        assert !Within(i, at, |bytes|);
        assert FlashAt(flash, i) == image[i];
      }
    }
  }

  lemma ChunkWritten(b: Board, x: Tagged, image: seq<bv8>, version: u32)
    requires FlashOk(b, image, version) && QueuedOk(x, image, version, b.lastNum)
    requires x.frame.kind == DATA && |image| < TWO_32 && x.num == b.lastNum + 1 && b.last != Some(x.frame.seqNo)
    requires |x.frame.payload| >= 4
    ensures FlashOk(AfterFrame(b, x), image, version)
  {
    hide SeqAt, Little32, ReadLittle32, Padding, Written, FlashAt;
    var at := DATA_CHUNK * (x.num - 3);
    var payload := x.frame.payload;
    DataFrameShape(image, version, x.num);
    PayloadParts(image, at);
    var n := ChunkLength(image, at);
    assert payload == DataPayload(image, at);
    assert payload[4..][..n] == payload[4..4 + n];
    assert Filled(image, x.num) == at + n && Filled(image, b.lastNum) == at;
    WrittenChunk(b.flash, at, payload[4..], image, n);
  }

  lemma AcceptKeeps(s: Sys)
    requires SysInv(s) && Enabled(s, BoardAccepts)
    ensures SysInv(After(s, BoardAccepts))
  {
    hide RunningOk, QueuedOk, FlashOk, SeqAt, CountOf, Filled, LeastFloor;
    var x := s.toBoard[0];
    assert x in s.toBoard;
    var t := After(s, BoardAccepts);
    BoardKeepsFlash(s.board, x, s.host.image, s.host.version);
    forall y <- t.toBoard ensures QueuedOk(y, s.host.image, s.host.version, x.num) && x.num <= y.num {
      assert y in s.toBoard;
      QueuedOkGrows(y, s.host.image, s.host.version, s.board.lastNum, x.num);
    }
    assert x.frame.seqNo == SeqAt(x.num) by { hide FlashOk; QueuedSeq(x, s.host.image, s.host.version, s.board.lastNum); }
  }

  lemma QueuedSeq(x: Tagged, image: seq<bv8>, version: u32, lastNum: nat)
    requires QueuedOk(x, image, version, lastNum)
    ensures x.frame.seqNo == SeqAt(x.num)
  {}

  // ----- the host ----------------------------------------------------------------------------

  /** Only an ACK of the message in flight starts or continues the transfer, commits it, or starts
      the reset wait. */
  lemma OnlyAcksMoveTransfer(c: Context, i: Input)
    requires Inv(c) && Running(Stepped(c, i).next)
    ensures var t := Stepped(c, i).next;
      t.state in {Sending, Committing, Rebooting} ==> Answers(c, i) || (t.state == c.state && t.sentBytes == c.sentBytes)
  {
    hide Dispatch, RunningOk, ReadLittle32;
    match i {
      case Start(at) => OthersKeepState(c, EvStart, at);
      case Tick(at) =>
        OthersKeepState(c.(waitingOut := false), EvRebootDone, at);
        OthersKeepState(c, EvTimeout, at);
      case Receive(f, at) =>
        if f.kind == NAK && f.payload != [] {
          OthersKeepState(c, EvNak(f.payload[0]), at);
        } else if f.kind == INFO && |f.payload| == INFO_PAYLOAD {
          OthersKeepState(c, EvInfo(ReadLittle32(f.payload[..4]), f.payload[5]), at);
        }
    }
  }

  lemma OthersKeepState(c: Context, e: Event, now: int)
    requires InImage(c) && e != EvAck
    ensures var t := Dispatch(c, e, now);
      t.state in {Sending, Committing, Rebooting} ==> t.state == c.state && t.sentBytes == c.sentBytes
  {
    hide Wire, BeginPayload, NextSeq;
  }

  lemma ParsedBack(f: Frame)
    requires |f.payload| <= MAX_PAYLOAD
    ensures Frames(Segments(Wire(f))) == [f] && Frames(Segments([])) == []
  {
    hide HeadOf, Wire;
    FlashStream.FrameScanned(f, []);
    assert Wire(f) + [] == Wire(f);
    FlashStream.ProjectionsCons(Whole(f), []);
    HeldBack([]);
    ScanNothing();
  }

  /** The progress a stage reports is covered by what it knows to be acknowledged. */
  lemma ProgressFilled(c: Context, floor: nat)
    requires Inv(c) && Running(c) && LeastFloor(c.state, CountOf(c)) <= floor
    ensures c.sentBytes <= Filled(c.image, floor)
  {
    hide Wire, InFlightFrame, SeqAt;
    if c.state == Sending {
      ChunkArithmetic(c.image, c.sentBytes);
    }
  }

  lemma RunningSeq(c: Context)
    requires Inv(c) && Running(c)
    ensures c.seqNo == SeqAt(CountOf(c)) && c.state != Failed
  {
    hide Wire, InFlightFrame, SeqAt, ProgressOk, MessageCount;
  }

  lemma FloorKept(s: Sys, i: Input, o: Outcome)
    requires HostOk(s) && o == Stepped(s.host, i) && Classified(s.host, o) && Running(o.next) && Inv(o.next)
    requires Answers(s.host, i) ==> s.board.lastNum == s.num
    ensures LeastFloor(o.next.state, CountOf(o.next)) <= if Answers(s.host, i) then s.num else s.floor
  {
    hide Stepped, InFlightFrame, Wire, Answers, RunningOk, SeqAt, Chunks;
    OnlyAcksMoveTransfer(s.host, i);
    if Advances(s.host, o) && o.next.state == s.host.state {
      assert o.next.state == Sending;
    }
  }

  /** What a host call means for the two counts, and for what it puts on the wire. */
  lemma CountsKeep(s: Sys, i: Input)
    requires HostOk(s)
    requires Answers(s.host, i) ==> s.board.lastNum == s.num
    ensures HostOk(HostStep(s, i))
    ensures var t, out := HostStep(s, i), Stepped(s.host, i).out;
      && out != [] ==>
        && Running(t.host) && Awaiting(t.host.state)
        && out == Wire(InFlightFrame(t.host.image, t.host.version, t.host.state, t.host.sentBytes))
  {
    hide Stepped, InFlightFrame, Wire, Chunks, Answers, RunningOk, SeqAt, MessageCount, Filled;
    var o := Stepped(s.host, i);
    var floor := if Answers(s.host, i) then s.num else s.floor;
    StepClassified(s.host, i);
    StepKeeps(s.host, i);
    FilledGrows(s.host.image, s.floor, floor);
    if Running(o.next) {
      FloorKept(s, i, o);
      ProgressFilled(o.next, floor);
      RunningSeq(o.next);
      RunningSeq(s.host);
      AwaitingOut(s.host, o);
    }
    if Advances(s.host, o) {
      SeqDiffers(s.num, s.num + 1);
    }
  }

  lemma AwaitingOut(c: Context, o: Outcome)
    requires Inv(c) && Inv(o.next) && Classified(c, o)
    ensures o.out != [] ==>
      && Running(o.next) && Awaiting(o.next.state)
      && o.out == Wire(InFlightFrame(o.next.image, o.next.version, o.next.state, o.next.sentBytes))
  {
    hide Wire, InFlightFrame, SeqAt, ProgressOk, MessageCount, Chunks;
  }

  /** The message a call sends for the first time is fit to be queued behind what is queued. */
  lemma SentIsOk(c: Context, floor: nat, lastNum: nat)
    requires Inv(c) && Running(c) && Awaiting(c.state)
    requires LeastFloor(c.state, CountOf(c)) <= floor <= lastNum
    ensures QueuedOk(Tagged(InFlightFrame(c.image, c.version, c.state, c.sentBytes), CountOf(c)), c.image, c.version, lastNum)
  {
    hide Wire, SeqAt, DataPayload, BeginPayload;
    if c.state == Sending {
      ChunkArithmetic(c.image, c.sentBytes);
    }
    FilledGrows(c.image, floor, lastNum);
  }

  lemma HostSentKeeps(s: Sys, i: Input)
    requires HostOk(s) && ToBoardOk(s) && Stepped(s.host, i).out != []
    requires Answers(s.host, i) ==> s.board.lastNum == s.num
    ensures ToBoardOk(HostStep(s, i))
  {
    hide Stepped, InFlightFrame, Wire, Chunks, Answers, RunningOk, SeqAt, MessageCount, Filled, QueuedOk;
    var t := HostStep(s, i);
    StepClassified(s.host, i);
    CountsKeep(s, i);
    var f := InFlightFrame(t.host.image, t.host.version, t.host.state, t.host.sentBytes);
    ParsedBack(f);
    SentIsOk(t.host, t.floor, t.board.lastNum);
    assert t.toBoard == s.toBoard + [Tagged(f, t.num)];
  }

  lemma HostQueueKeeps(s: Sys, i: Input)
    requires HostOk(s) && ToBoardOk(s)
    requires Answers(s.host, i) ==> s.board.lastNum == s.num
    ensures ToBoardOk(HostStep(s, i))
  {
    hide Stepped, InFlightFrame, Wire, Chunks, Answers, RunningOk, SeqAt, MessageCount, Filled, QueuedOk;
    if Stepped(s.host, i).out != [] {
      HostSentKeeps(s, i);
    } else {
      StepClassified(s.host, i);
      CountsKeep(s, i);
      ParsedBack(TrialFrame(1));
      assert HostStep(s, i).toBoard == s.toBoard;
    }
  }

  lemma AcksAfterFloor(q: seq<Tagged>, floor: nat, lastNum: nat)
    requires AcksOk(q, floor, lastNum) && q != []
    ensures AcksOk(q[1..], floor, lastNum)
    ensures q[0].frame.kind == ACK ==> AcksOk(q[1..], q[0].num, lastNum)
  {}

  /** An ACK whose 16-bit number matches the message in flight really answers that message. */
  lemma AckIsGenuine(s: Sys)
    requires SysInv(s) && s.toHost != [] && s.toHost[0].frame.kind == ACK && s.toHost[0].frame.seqNo == s.host.seqNo
    ensures s.toHost[0].num == s.num == s.board.lastNum
  {
    hide Inv, Filled, ToBoardOk, FlashOk, SeqAt, CountOf;
    var x := s.toHost[0];
    assert x in s.toHost;
    if x.num < s.num {
      SeqDiffers(x.num, s.num);
    }
  }

  lemma HostKeeps(s: Sys, i: Input)
    requires SysInv(s)
    requires Answers(s.host, i) ==> s.board.lastNum == s.num && AcksOk(s.toHost, s.num, s.board.lastNum)
    ensures SysInv(HostStep(s, i))
  {
    hide Stepped, Answers, Inv, RunningOk, Filled, QueuedOk, AcksOk, FlashOk, ToBoardOk, HostOk;
    HostOkFacts(s);
    StepClassified(s.host, i);
    CountsKeep(s, i);
    HostQueueKeeps(s, i);
  }

  lemma HostOkFacts(s: Sys)
    requires HostOk(s)
    ensures Inv(s.host)
  {}

  // ----- the theorems ------------------------------------------------------------------------

  /** Every move of the session, the link and the board keeps the whole invariant. */
  lemma MoveKeeps(s: Sys, m: Move)
    requires SysInv(s) && Enabled(s, m)
    ensures SysInv(After(s, m))
  {
    hide Stepped, HostStep, AfterFrame, RunningOk, Filled, QueuedOk, FlashOk, AcksOk, CountOf, SeqAt, Sub;
    match m {
      case HostCalls(i) => HostKeeps(s, i);
      case HostReceives(at) =>
        var x := s.toHost[0];
        var r := s.(toHost := s.toHost[1..]);
        AcksAfterFloor(s.toHost, s.floor, s.board.lastNum);
        assert SysInv(r);
        if Answers(s.host, Receive(x.frame, at)) {
          AckIsGenuine(s);
        }
        HostKeeps(r, Receive(x.frame, at));
      case BoardAccepts => AcceptKeeps(s);
      case BoardRepeats => RepeatKeeps(s);
      case Loses(toBoard, toHost) => LossKeeps(s, toBoard, toHost);
      case _ => IdleBoardKeeps(s, m);
    }
  }

  /** What the bank holds where the image belongs. */
  function Bank(b: Board, n: nat): (bytes: seq<bv8>)
    ensures |bytes| == n
  {
    seq(n, i => if i < 0 then ERASED else FlashAt(b.flash, i))
  }

  /** Under the invariant the bank agrees with the image on every byte the host counts as acknowledged;
      while a COMMIT is in flight, or on the link at all, the whole image is in the bank. */
  lemma BankAgrees(s: Sys)
    requires SysInv(s)
    ensures s.host.sentBytes <= |s.host.image|
    ensures Bank(s.board, s.host.sentBytes) == s.host.image[..s.host.sentBytes]
    ensures (Running(s.host) && s.host.state == Committing) || (exists x <- s.toBoard :: x.frame.kind == COMMIT) ==>
      Bank(s.board, |s.host.image|) == s.host.image
  {
    hide Wire, InFlightFrame, SeqAt, MessageCount, Chunks, AcksOk, FlashAt, Scheduled, BeginPayload;
    FilledGrows(s.host.image, s.floor, s.board.lastNum);
  }

  /** The checksum a BEGIN carries. */
  function AnnouncedCrc(payload: seq<bv8>): seq<bv8>
    requires |payload| == 12
  {
    payload[4..8]
  }

  /** A board that verifies on COMMIT finds the checksum its BEGIN announced. */
  lemma VerifySucceeds(s: Sys)
    requires SysInv(s) && (exists x <- s.toBoard :: x.frame.kind == COMMIT) && s.board.announced.Some?
    ensures |s.board.announced.value| == 12
    ensures AnnouncedCrc(s.board.announced.value) == Little32(Crc32.Crc32(Bank(s.board, |s.host.image|)) as int)
  {
    hide Crc32.Crc32, Little32, HostOk, ToBoardOk, AcksOk;
    BankAgrees(s);
  }
}
