/** Properties of whole update runs: any board, any clock, any number of calls. */
module OtaRuns {
  import opened FlashFrame
  import opened OtaTable
  import opened OtaInvariant

  datatype Input = Start(at: int) | Receive(frame: Frame, at: int) | Tick(at: int)

  function Stepped(c: Context, i: Input): Outcome
    requires InImage(c)
  {
    match i
    case Start(at) => OnStart(c, at)
    case Receive(f, at) => OnFrame(c, f, at)
    case Tick(at) => OnTick(c, at)
  }

  lemma StepKeeps(c: Context, i: Input)
    requires Inv(c)
    ensures Inv(Stepped(c, i).next)
  {
    hide Inv, OnStart, OnFrame, OnTick;
    match i {
      case Start(at) => StartKeeps(c, at);
      case Receive(f, at) => FrameKeeps(c, f, at);
      case Tick(at) => TickKeeps(c, at);
    }
  }

  /** The state after a run. */
  function Run(c: Context, inputs: seq<Input>): (r: Context)
    requires Inv(c)
    ensures Inv(r)
    decreases |inputs|
  {
    if inputs == [] then c
    else
      var before := Run(c, inputs[..|inputs| - 1]);
      StepKeeps(before, inputs[|inputs| - 1]);
      Stepped(before, inputs[|inputs| - 1]).next
  }

  /** Everything a run put on the wire, call by call, empty answers left out. */
  function Transcript(c: Context, inputs: seq<Input>): seq<seq<bv8>>
    requires Inv(c)
    decreases |inputs|
  {
    if inputs == [] then []
    else
      var out := Stepped(Run(c, inputs[..|inputs| - 1]), inputs[|inputs| - 1]).out;
      Transcript(c, inputs[..|inputs| - 1]) + if out == [] then [] else [out]
  }

  /** Done and Failed are final: no call changes anything or sends anything. */
  lemma TerminalAbsorbs(c: Context, i: Input)
    requires InImage(c) && Terminal(c)
    ensures Stepped(c, i) == Outcome(c, [])
  {}

  // ----- termination -------------------------------------------------------------------------

  function StageRank(s: Stage): nat {
    match s
    case Idle => 8
    case Probing => 7
    case Beginning => 6
    case Sending => 5
    case Committing => 4
    case Rebooting => 3
    case Rechecking => 2
    case Confirming => 1
    case _ => 0
  }

  /** Stage, then image bytes left, then resends left. */
  datatype Rank = Rank(stage: nat, bytesLeft: int, resendsLeft: int)

  function RankOf(c: Context): Rank {
    Rank(StageRank(StageOf(c)), |c.image| - c.sentBytes, Budget(c) - c.resends)
  }

  predicate Below(a: Rank, b: Rank) {
    || a.stage < b.stage
    || (a.stage == b.stage && a.bytesLeft < b.bytesLeft)
    || (a.stage == b.stage && a.bytesLeft == b.bytesLeft && a.resendsLeft < b.resendsLeft)
  }

  lemma AckDescends(c: Context, now: int)
    requires Inv(c) && !Terminal(c)
    ensures Below(RankOf(Dispatch(c, EvAck, now)), RankOf(c))
  {
    hide Wire, Scheduled, SeqAt, DataPayload, NextSeq, InFlightFrame, MessageCount;
  }

  lemma InfoDescends(c: Context, version: u32, state: bv8, now: int)
    requires Inv(c) && !Terminal(c)
    ensures Below(RankOf(Dispatch(c, EvInfo(version, state), now)), RankOf(c))
  {
    hide Wire, BeginPayload, NextSeq, RunningOk;
  }

  lemma FaultDescends(c: Context, e: Event, now: int)
    requires Inv(c) && !Terminal(c) && (e.EvNak? || e == EvTimeout)
    ensures Below(RankOf(Dispatch(c, e, now)), RankOf(c))
  {
    hide RunningOk;
  }

  lemma AskDescends(c: Context, e: Event, now: int)
    requires InImage(c) && !Terminal(c)
    requires (e == EvStart && c.state == Idle) || (e == EvRebootDone && c.state == Rebooting)
    ensures Below(RankOf(Dispatch(c, e, now)), RankOf(c))
  {
    hide Wire, NextSeq;
  }

  /** Termination: against any frames and any clock, a call changes nothing or moves strictly
      down a well-founded order. */
  lemma StepDescends(c: Context, i: Input)
    requires Inv(c)
    ensures Stepped(c, i) == Outcome(c, []) || Below(RankOf(Stepped(c, i).next), RankOf(c))
    ensures RankOf(c).bytesLeft >= 0 && RankOf(c).resendsLeft >= 0
  {
    hide Dispatch, RunningOk, ReadLittle32;
    match i {
      case Start(at) =>
        if StageOf(c) == Idle { AskDescends(c, EvStart, at); }
      case Receive(f, at) =>
        if StageOf(c) == Idle || Terminal(c) || (f.kind != INFO && f.seqNo != c.seqNo) {
        } else if f.kind == ACK {
          AckDescends(c, at);
        } else if f.kind == NAK && f.payload != [] {
          FaultDescends(c, EvNak(f.payload[0]), at);
        } else if f.kind == INFO && |f.payload| == INFO_PAYLOAD {
          InfoDescends(c, ReadLittle32(f.payload[..4]), f.payload[5], at);
        }
      case Tick(at) =>
        if StageOf(c) == Idle || Terminal(c) || at < c.deadline {
        } else if c.waitingOut {
          AskDescends(c.(waitingOut := false), EvRebootDone, at);
        } else {
          FaultDescends(c, EvTimeout, at);
        }
    }
  }

  // ----- silence -----------------------------------------------------------------------------

  function AfterTicks(c: Context, times: seq<int>): Context
    requires Inv(c)
    decreases |times|
  {
    if times == [] then c
    else
      TickKeeps(c, times[0]);
      AfterTicks(OnTick(c, times[0]).next, times[1..])
  }

  /** Every tick comes at or after the deadline armed when it comes. */
  predicate AllExpired(c: Context, times: seq<int>)
    requires Inv(c)
    decreases |times|
  {
    times == [] || (
      && c.deadline <= times[0]
      && (TickKeeps(c, times[0]); AllExpired(OnTick(c, times[0]).next, times[1..])))
  }

  /** Expired ticks a silent board can cost: the resends left and the one that gives up, and
      after a commit a fresh budget for the second INFO_REQ. */
  function TicksLeft(c: Context): nat
    requires Inv(c)
  {
    if Terminal(c) || c.state == Idle then 0
    else if c.state == Rebooting then Budget(c) + 2
    else Budget(c) - c.resends + 1
  }

  lemma ExpiredTickDescends(c: Context, at: int)
    requires Inv(c) && !Terminal(c) && c.state != Idle && c.deadline <= at
    ensures Inv(OnTick(c, at).next)
    ensures TicksLeft(OnTick(c, at).next) == TicksLeft(c) - 1
    ensures StageOf(OnTick(c, at).next) != Idle
  {
    hide Wire, RunningOk;
    TickKeeps(c, at);
  }

  /** A silent board: expired ticks alone bring any started update to Done or Failed, within the
      number of ticks its budget allows. */
  lemma {:induction false} SilenceEnds(c: Context, times: seq<int>)
    requires Inv(c) && StageOf(c) != Idle && AllExpired(c, times) && |times| >= TicksLeft(c)
    ensures Terminal(AfterTicks(c, times))
    decreases |times|
  {
    hide Inv, OnTick, Terminal;
    TicksZero(c);
    if !Terminal(c) {
      TickKeeps(c, times[0]);
      ExpiredTickDescends(c, times[0]);
      SilenceEnds(OnTick(c, times[0]).next, times[1..]);
    } else if times != [] {
      TickKeeps(c, times[0]);
      TerminalAbsorbs(c, Tick(times[0]));
      SilenceEnds(c, times[1..]);
    }
  }

  lemma TicksZero(c: Context)
    requires Inv(c)
    ensures StageOf(c) == Idle || Terminal(c) <==> TicksLeft(c) == 0
    ensures StageOf(c) == Idle <==> c.state == Idle
    ensures InImage(c)
  {
    hide RunningOk;
  }
}
