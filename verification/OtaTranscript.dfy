/** Which bytes an update puts on the wire over a whole run: the scheduled messages, in order,
    each repeated no more than the resend budget allows, and nothing else. */
module OtaTranscript {
  import opened FlashFrame
  import opened OtaTable
  import opened OtaInvariant
  import opened OtaRuns

  // ----- one call ----------------------------------------------------------------------------

  predicate Running(c: Context) {
    c.failure == NoFailure && c.state != Done
  }

  /** A call that sends nothing: the session is where it was, or only waits out the reset, or
      has stopped. */
  predicate SaysNothing(c: Context, o: Outcome) {
    && o.out == [] && o.next.seqNo == c.seqNo && o.next.sentBytes == c.sentBytes
    && (o.next.state == c.state || o.next.state in {Done, Failed} || (c.state == Committing && o.next.state == Rebooting))
    && (Running(o.next) ==>
      && Running(c) && CountOf(o.next) == CountOf(c)
      && OnTrialPath(o.next.state, o.next.sentBytes) == OnTrialPath(c.state, c.sentBytes)
      && (Awaiting(o.next.state) ==> o.next == c))
  }

  /** A call that repeats the frame in flight, within the budget. */
  predicate Repeats(c: Context, o: Outcome) {
    && Running(c) && Running(o.next) && Awaiting(c.state)
    && o.out == c.inFlight
    && o.next.state == c.state && o.next.sentBytes == c.sentBytes && o.next.resends == c.resends + 1
  }

  /** The moves of the table that send a message for the first time. */
  predicate Edge(a: Stage, b: Stage) {
    (a, b) in {(Idle, Probing), (Probing, Beginning), (Beginning, Sending), (Sending, Sending), (Sending, Committing),
               (Rebooting, Rechecking), (Rechecking, Confirming), (Probing, Confirming)}
  }

  /** A call that sends the next message for the first time. */
  predicate Advances(c: Context, o: Outcome) {
    && Running(c) && Running(o.next) && Awaiting(o.next.state)
    && o.out == o.next.inFlight && o.next.resends == 0
    && CountOf(o.next) == CountOf(c) + 1 && Edge(c.state, o.next.state)
    && !OnTrialPath(c.state, c.sentBytes)
    && (OnTrialPath(o.next.state, o.next.sentBytes) ==> CountOf(c) == 1)
  }

  predicate Classified(c: Context, o: Outcome) {
    && o.next.image == c.image && o.next.version == c.version && o.next.timing == c.timing
    && (SaysNothing(c, o) || Repeats(c, o) || Advances(c, o))
  }

  /** First sends advance the count by one. */
  lemma SendAdvances(c: Context, d: Context, kind: bv8, payload: seq<bv8>, within: int, s: Stage)
    requires |payload| <= MAX_PAYLOAD && Running(c) && d.failure == NoFailure && Awaiting(s)
    requires d.image == c.image && d.version == c.version && d.timing == c.timing
    requires MessageCount(c.image, s, d.sentBytes) == CountOf(c) + 1 && Edge(c.state, s)
    requires !OnTrialPath(c.state, c.sentBytes) && (OnTrialPath(s, d.sentBytes) ==> CountOf(c) == 1)
    ensures var next := SendFrame(d, kind, payload, within).(state := s);
      Classified(c, Outcome(next, next.outbox))
  {
    hide Wire, NextSeq, MessageCount;
  }

  lemma NextChunkClassified(c: Context, now: int)
    requires Inv(c) && !Terminal(c) && c.state == Sending && c.sentBytes + c.chunkBytes < |c.image|
    ensures Classified(c, Acted(c, EvAck, now))
  {
    hide Wire, SeqAt, DataPayload, SendFrame, InFlightFrame, Chunks;
    ChunkArithmetic(c.image, c.sentBytes);
    var at := c.sentBytes + c.chunkBytes;
    var d := c.(now := now, outbox := [], sentBytes := at, chunkBytes := ChunkLength(c.image, at));
    SendAdvances(c, d, DATA, DataPayload(c.image, at), c.timing.answer, Sending);
  }

  lemma LastChunkClassified(c: Context, now: int)
    requires Inv(c) && !Terminal(c) && c.state == Sending && c.sentBytes + c.chunkBytes >= |c.image|
    ensures Classified(c, Acted(c, EvAck, now))
  {
    hide Wire, SeqAt, SendFrame, InFlightFrame, Chunks;
    ChunkArithmetic(c.image, c.sentBytes);
    var d := c.(now := now, outbox := [], sentBytes := c.sentBytes + c.chunkBytes, chunkBytes := 0);
    SendAdvances(c, d, COMMIT, [], c.timing.answer, Committing);
  }

  lemma BeginAckClassified(c: Context, now: int)
    requires Inv(c) && !Terminal(c) && c.state == Beginning
    ensures Classified(c, Acted(c, EvAck, now))
  {
    hide Wire, SeqAt, DataPayload, SendFrame, InFlightFrame, Chunks;
    var d := c.(now := now, outbox := [], sentBytes := 0, chunkBytes := ChunkLength(c.image, 0));
    SendAdvances(c, d, DATA, DataPayload(c.image, 0), c.timing.answer, Sending);
  }

  lemma AckClassified(c: Context, now: int)
    requires Inv(c) && !Terminal(c)
    ensures Classified(c, Acted(c, EvAck, now))
  {
    hide Wire, SeqAt, SendFrame, InFlightFrame, Chunks;
    if c.state == Sending {
      if c.sentBytes + c.chunkBytes < |c.image| { NextChunkClassified(c, now); } else { LastChunkClassified(c, now); }
    } else if c.state == Beginning {
      BeginAckClassified(c, now);
    }
  }

  lemma InfoClassified(c: Context, version: u32, state: bv8, now: int)
    requires Inv(c) && !Terminal(c)
    ensures Classified(c, Acted(c, EvInfo(version, state), now))
  {
    hide Wire, BeginPayload, SeqAt, SendFrame, InFlightFrame, Chunks;
    var told := Told(c.(now := now, outbox := []), version, state);
    if c.state == Probing {
      SendAdvances(c, told, CONFIRM, [], c.timing.answer, Confirming);
      SendAdvances(c, told, BEGIN, BeginPayload(c.image, c.version), c.timing.beginAnswer, Beginning);
    } else if c.state == Rechecking {
      SendAdvances(c, told, CONFIRM, [], c.timing.answer, Confirming);
    }
  }

  lemma FaultClassified(c: Context, e: Event, now: int)
    requires Inv(c) && !Terminal(c) && c.state != Idle && (e.EvNak? || e == EvTimeout)
    ensures Classified(c, Acted(c, e, now))
  {
    hide Wire, SeqAt, InFlightFrame, Chunks, ProgressOk;
  }

  lemma AskClassified(c: Context, d: Context, e: Event, now: int)
    requires InImage(c) && Inv(d) && !Terminal(c) && c == d.(waitingOut := false)
    requires (e == EvStart && c.state == Idle) || (e == EvRebootDone && c.state == Rebooting)
    ensures Classified(d, Acted(c, e, now))
  {
    hide Wire, SeqAt, NextSeq, InFlightFrame, Chunks;
  }

  /** Every call says nothing, repeats the frame in flight, or sends the next message. */
  lemma StepClassified(c: Context, i: Input)
    requires Inv(c)
    ensures Classified(c, Stepped(c, i))
  {
    hide Dispatch, Inv, ReadLittle32, Classified;
    StillClassified(c);
    InvFacts(c);
    match i {
      case Start(at) =>
        if StageOf(c) == Idle { AskClassified(c, c, EvStart, at); }
      case Receive(f, at) =>
        if StageOf(c) == Idle || Terminal(c) || (f.kind != INFO && f.seqNo != c.seqNo) {
        } else if f.kind == ACK {
          AckClassified(c, at);
        } else if f.kind == NAK && f.payload != [] {
          FaultClassified(c, EvNak(f.payload[0]), at);
        } else if f.kind == INFO && |f.payload| == INFO_PAYLOAD {
          InfoClassified(c, ReadLittle32(f.payload[..4]), f.payload[5], at);
        }
      case Tick(at) =>
        if StageOf(c) == Idle || Terminal(c) || at < c.deadline {
        } else if c.waitingOut {
          AskClassified(c.(waitingOut := false), c, EvRebootDone, at);
        } else {
          FaultClassified(c, EvTimeout, at);
        }
    }
  }

  lemma InvFacts(c: Context)
    requires Inv(c)
    ensures InImage(c) && (c.waitingOut <==> c.state == Rebooting) && (StageOf(c) != Idle ==> c.state != Idle)
  {
    hide RunningOk;
  }

  /** A call that is ignored, or rejected on the spot. */
  lemma StillClassified(c: Context)
    requires Inv(c)
    ensures Classified(c, Ignored(c)) && Classified(c, Rejected(c))
  {
    hide RunningOk, MessageCount;
  }

  // ----- a whole run -------------------------------------------------------------------------

  function Copies(x: seq<bv8>, n: nat): seq<seq<bv8>> {
    if n == 0 then [] else Copies(x, n - 1) + [x]
  }

  /** The n-th distinct message of an update, on the long or the short path. */
  function Message(c: Context, trial: bool, n: nat): (f: Frame)
    ensures |f.payload| <= MAX_PAYLOAD
  {
    if trial then TrialFrame(n) else Scheduled(c.image, c.version, n)
  }

  /** Message 1 sent counts[0] times, then message 2 sent counts[1] times, and so on. */
  function Laid(c: Context, trial: bool, counts: seq<nat>): seq<seq<bv8>> {
    if counts == [] then []
    else
      var n := |counts|;
      Laid(c, trial, counts[..n - 1]) + Copies(Wire(Message(c, trial, n)), counts[n - 1])
  }

  predicate CountsOk(c: Context, trial: bool, counts: seq<nat>) {
    && (forall k :: 0 <= k < |counts| ==> 1 <= counts[k] <= 1 + Budget(c))
    && |counts| <= if trial then 2 else 5 + Chunks(c.image)
  }

  /** While the update runs, the counts describe exactly what has been sent so far. */
  predicate Tracks(c: Context, trial: bool, counts: seq<nat>) {
    Running(c) ==>
      && |counts| == CountOf(c)
      && (|counts| >= 2 ==> trial == OnTrialPath(c.state, c.sentBytes))
      && (Awaiting(c.state) ==> counts[|counts| - 1] == 1 + c.resends)
  }

  lemma FirstMessageShared(c: Context, counts: seq<nat>)
    requires |counts| <= 1
    ensures Laid(c, true, counts) == Laid(c, false, counts)
  {
    hide Wire, SeqAt;
    assert |counts| == 1 ==> Laid(c, true, counts[..0]) == Laid(c, false, counts[..0]) == [];
  }

  lemma MessageIsInFlight(c: Context)
    requires Awaiting(c.state)
    ensures Message(c, OnTrialPath(c.state, c.sentBytes), CountOf(c)) == InFlightFrame(c.image, c.version, c.state, c.sentBytes)
    ensures CountOf(c) == 1 ==> !OnTrialPath(c.state, c.sentBytes)
    ensures 1 <= CountOf(c)
  {
    hide Scheduled, SeqAt;
  }

  lemma CountBound(c: Context)
    requires Inv(c) && Running(c)
    ensures CountOf(c) <= if OnTrialPath(c.state, c.sentBytes) then 2 else 5 + Chunks(c.image)
  {
    hide Wire, SeqAt, InFlightFrame;
    if c.state == Sending {
      hide Chunks;
      ChunkArithmetic(c.image, c.sentBytes);
    }
  }

  lemma LaidSnoc(c: Context, trial: bool, counts: seq<nat>, n: nat)
    ensures Laid(c, trial, counts + [n]) == Laid(c, trial, counts) + Copies(Wire(Message(c, trial, |counts| + 1)), n)
  {
    hide Wire, Message, Copies;
    assert (counts + [n])[..|counts|] == counts;
  }

  lemma {:induction false} LaidSame(c: Context, d: Context, trial: bool, counts: seq<nat>)
    requires c.image == d.image && c.version == d.version
    ensures Laid(c, trial, counts) == Laid(d, trial, counts)
    decreases |counts|
  {
    hide Wire, Copies, Scheduled, TrialFrame;
    if counts != [] {
      LaidSame(c, d, trial, counts[..|counts| - 1]);
    }
  }

  lemma OneCopy(x: seq<bv8>, n: nat)
    ensures Copies(x, 1) == [x] && Copies(x, n + 1) == Copies(x, n) + [x]
  {
    assert Copies(x, 0) == [];
  }

  lemma FirstMessageSame(c: Context)
    ensures Message(c, true, 1) == Message(c, false, 1)
  {
    hide SeqAt;
  }

  lemma RepeatTracked(c: Context, o: Outcome, trial: bool, counts: seq<nat>) returns (counts': seq<nat>)
    requires Inv(c) && CountsOk(c, trial, counts) && Tracks(c, trial, counts)
    requires Classified(c, o) && Repeats(c, o) && Inv(o.next)
    ensures CountsOk(o.next, trial, counts') && Tracks(o.next, trial, counts')
    ensures Laid(o.next, trial, counts') == Laid(c, trial, counts) + [o.out]
  {
    hide Wire, Laid, InFlightFrame, Message, Chunks, Copies, SeqAt, ProgressOk;
    MessageIsInFlight(c);
    FirstMessageSame(c);
    var n := |counts|;
    var init, last := counts[..n - 1], counts[n - 1];
    counts' := init + [last + 1];
    assert counts == init + [last];
    LaidSnoc(c, trial, init, last);
    LaidSnoc(c, trial, init, last + 1);
    OneCopy(c.inFlight, last);
    LaidSame(c, o.next, trial, counts');
  }

  lemma AdvanceTracked(c: Context, o: Outcome, trial: bool, counts: seq<nat>) returns (trial': bool, counts': seq<nat>)
    requires Inv(c) && CountsOk(c, trial, counts) && Tracks(c, trial, counts)
    requires Classified(c, o) && Advances(c, o) && Inv(o.next)
    ensures CountsOk(o.next, trial', counts') && Tracks(o.next, trial', counts')
    ensures Laid(o.next, trial', counts') == Laid(c, trial, counts) + [o.out]
  {
    hide Wire, Laid, InFlightFrame, Message, MessageCount, Chunks, Copies, SeqAt, ProgressOk;
    trial' := OnTrialPath(o.next.state, o.next.sentBytes);
    counts' := counts + [1];
    if |counts| <= 1 {
      FirstMessageShared(c, counts);
    }
    MessageIsInFlight(o.next);
    CountBound(o.next);
    LaidSame(c, o.next, trial', counts);
    LaidSnoc(o.next, trial', counts, 1);
    OneCopy(o.out, 0);
  }

  lemma SilenceTracked(c: Context, o: Outcome, trial: bool, counts: seq<nat>)
    requires CountsOk(c, trial, counts) && Tracks(c, trial, counts)
    requires Classified(c, o) && SaysNothing(c, o)
    ensures CountsOk(o.next, trial, counts) && Tracks(o.next, trial, counts)
    ensures Laid(o.next, trial, counts) == Laid(c, trial, counts)
  {
    hide Wire, Laid, MessageCount, Chunks;
    LaidSame(c, o.next, trial, counts);
  }

  /** One call keeps the description exact. */
  lemma StepTracked(c: Context, i: Input, trial: bool, counts: seq<nat>) returns (trial': bool, counts': seq<nat>)
    requires Inv(c) && CountsOk(c, trial, counts) && Tracks(c, trial, counts)
    ensures var o := Stepped(c, i);
      && CountsOk(o.next, trial', counts') && Tracks(o.next, trial', counts')
      && Laid(o.next, trial', counts') == Laid(c, trial, counts) + if o.out == [] then [] else [o.out]
  {
    hide RunningOk, Stepped, Wire, Laid, CountsOk, Tracks, SaysNothing, Repeats, Advances;
    var o := Stepped(c, i);
    StepClassified(c, i);
    StepKeeps(c, i);
    if SaysNothing(c, o) {
      assert o.out == [] by { SaysOut(c, o); }
      trial', counts' := trial, counts;
      SilenceTracked(c, o, trial, counts);
    } else if Repeats(c, o) {
      assert o.out != [] by { SaysOut(c, o); }
      trial' := trial;
      counts' := RepeatTracked(c, o, trial, counts);
    } else {
      assert o.out != [] by { SaysOut(c, o); }
      trial', counts' := AdvanceTracked(c, o, trial, counts);
    }
  }

  lemma SaysOut(c: Context, o: Outcome)
    requires Inv(c) && Inv(o.next)
    ensures SaysNothing(c, o) ==> o.out == []
    ensures Repeats(c, o) || Advances(c, o) ==> o.out != []
  {
    hide ProgressOk, InFlightFrame, MessageCount, SeqAt;
  }

  /** Everything an update puts on the wire, over any run from a fresh session: there is one path
      and one list of counts, each between 1 and 1 + the resend budget, such that the transcript
      is message 1 repeated counts[0] times, message 2 repeated counts[1] times, and so on. */
  lemma {:induction false} TranscriptIsScheduled(image: seq<bv8>, version: u32, timing: Timing, inputs: seq<Input>)
      returns (trial: bool, counts: seq<nat>)
    ensures var c := Fresh(image, version, timing);
      Inv(c) && var end := Run(c, inputs);
      && CountsOk(end, trial, counts) && Tracks(end, trial, counts)
      && Laid(end, trial, counts) == Transcript(c, inputs)
      && end.image == image && end.version == version && end.timing == timing
    decreases |inputs|
  {
    hide Inv, Stepped, Laid, CountsOk, Tracks;
    var c := Fresh(image, version, timing);
    FreshInv(image, version, timing);
    if inputs == [] {
      trial, counts := false, [];
      NothingSent(c);
    } else {
      var init, last := inputs[..|inputs| - 1], inputs[|inputs| - 1];
      trial, counts := TranscriptIsScheduled(image, version, timing, init);
      StepClassified(Run(c, init), last);
      trial, counts := StepTracked(Run(c, init), last, trial, counts);
    }
  }

  lemma NothingSent(c: Context)
    requires c.state == Idle
    ensures Laid(c, false, []) == [] && CountsOk(c, false, []) && Tracks(c, false, [])
  {}

  lemma OneMore(k: nat, b: nat)
    ensures (k + 1) * b == k * b + b
  {}

  lemma {:induction false} LaidSize(c: Context, trial: bool, counts: seq<nat>)
    requires forall k :: 0 <= k < |counts| ==> counts[k] <= 1 + Budget(c)
    ensures |Laid(c, trial, counts)| <= |counts| * (1 + Budget(c))
    decreases |counts|
  {
    hide Wire, Message, Copies;
    if counts != [] {
      var k := |counts| - 1;
      LaidSize(c, trial, counts[..k]);
      CopiesSize(Wire(Message(c, trial, k + 1)), counts[k]);
      OneMore(k, 1 + Budget(c));
    }
  }

  lemma CopiesSize(x: seq<bv8>, n: nat)
    ensures |Copies(x, n)| == n
  {}

  lemma LaidBound(c: Context, trial: bool, counts: seq<nat>)
    requires CountsOk(c, trial, counts)
    ensures |Laid(c, trial, counts)| <= (Chunks(c.image) + 5) * (1 + Budget(c))
  {
    hide Laid, Chunks;
    LaidSize(c, trial, counts);
    Monotone(|counts|, Chunks(c.image) + 5, 1 + Budget(c));
  }

  lemma Monotone(a: nat, b: nat, n: nat)
    requires a <= b
    ensures a * n <= b * n
  {}

  /** No run sends more than (ceil(n / 256) + 5) * (1 + resends) frames. */
  lemma FrameBound(image: seq<bv8>, version: u32, timing: Timing, inputs: seq<Input>)
    ensures var c := Fresh(image, version, timing);
      Inv(c) && |Transcript(c, inputs)| <= (Chunks(image) + 5) * (1 + Budget(c))
  {
    hide Inv, Laid, Tracks, CountsOk, Run, Transcript, Chunks;
    FreshInv(image, version, timing);
    var trial, counts := TranscriptIsScheduled(image, version, timing, inputs);
    LaidBound(Run(Fresh(image, version, timing), inputs), trial, counts);
  }
}
