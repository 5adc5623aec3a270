/** What every interleaving of the update agent keeps: one thread steps the session, onDone is told once
    and finally, no caller waits for ever, and an outside stop() comes back to a finished thread. */
module OtaAgentLifecycle {
  import opened Wrappers
  import opened OtaTable
  import opened OtaInvariant
  import opened OtaRuns
  import opened OtaAgent

  // ----- the latches, the mutex and the thread -----------------------------------------------

  predicate InStart(pc: CallerPc) {
    pc.Enabling? || pc.Posting? || pc.Locking? || pc.Checking? || pc.Creating?
  }

  predicate Ending(pc: CallerPc) {
    pc.Halting? || pc.Joining?
  }

  /** What a program counter says of the flags. */
  predicate PcOk(pc: CallerPc, f: Flags, a: AgentPc) {
    && (InStart(pc) ==> a == NoThread && (pc == Enabling <==> !f.everRan))
    && (pc.Creating? ==> f.running)
    && (InStop(pc) && pc.late ==> f.everRan)
    && (Ending(pc) ==> f.everRan && !f.running)
    && (pc.Joining? ==> f.halted)
    && (pc.Releasing? && pc.late ==> !f.running)
  }

  predicate CallerOk(t: Threads, i: nat)
    requires i < |t.callers|
  {
    var pc := t.callers[i];
    && (Holds(pc) <==> t.owner == Some(i))
    && (InStart(pc) ==> t.starter == Some(i))
    && PcOk(pc, t.flags, t.agent)
  }

  predicate Alive(a: AgentPc) {
    a != NoThread && a != Exited
  }

  predicate InsideStop(a: AgentPc) {
    a.SelfIdentifying? || a.SelfClearing? || a.SelfHalting? || a.SelfQueueing?
  }

  predicate FlagsOk(f: Flags, claimed: bool, a: AgentPc) {
    && (f.running ==> f.everRan) && (f.everRan ==> f.started) && (f.started <==> claimed)
    && (a != NoThread ==> f.everRan)
    && (a != NoThread && a != Starting ==> f.knownId)
    && (f.joined ==> a == Exited)
    && (f.halted || a.SelfHalting? ==> f.everRan && !f.running)
  }

  /** A live agent thread, once `running` is off, has a caller on the way to joining it. */
  predicate JoinComing(t: Threads) {
    !t.flags.running && Alive(t.agent) ==>
      t.owner.Some? && t.owner.value < |t.callers| && Ending(t.callers[t.owner.value])
  }

  predicate Lifecycle(c: Config, t: Threads) {
    && FlagsOk(t.flags, t.starter.Some?, t.agent)
    && (InsideStop(t.agent) ==> MayStop(c, t.agent.from) && !t.agent.SelfQueueing?)
    && (t.owner.Some? ==> t.owner.value < |t.callers|)
    && (!StopsItself(c) ==> JoinComing(t))
    && forall i :: 0 <= i < |t.callers| ==> CallerOk(t, i)
  }

  lemma StartKeeps(c: Config, t: Threads, i: nat)
    requires Lifecycle(c, t) && CallerEnabled(t, i) && !InStop(t.callers[i])
    ensures Lifecycle(c, AfterStart(t, i))
  {
    var u := AfterStart(t, i);
    assert CallerOk(t, i);
    forall j | 0 <= j < |u.callers| ensures CallerOk(u, j) {
      assert CallerOk(t, j);
    }
  }

  lemma StopKeepsCallers(c: Config, t: Threads, i: nat, j: nat)
    requires Lifecycle(c, t) && CallerEnabled(t, i) && InStop(t.callers[i]) && j < |t.callers|
    ensures CallerOk(AfterStop(t, i), j)
  {
    assert CallerOk(t, i);
    assert CallerOk(t, j);
  }

  lemma StopKeeps(c: Config, t: Threads, i: nat)
    requires Lifecycle(c, t) && CallerEnabled(t, i) && InStop(t.callers[i])
    ensures Lifecycle(c, AfterStop(t, i))
  {
    hide FlagsOk, InsideStop, JoinComing, MayStop, CallerOk, StopsItself;
    var u := AfterStop(t, i);
    StopKeepsRest(c, t, i);
    forall j | 0 <= j < |u.callers| ensures CallerOk(u, j) {
      StopKeepsCallers(c, t, i, j);
    }
  }

  lemma StopKeepsRest(c: Config, t: Threads, i: nat)
    requires Lifecycle(c, t) && CallerEnabled(t, i) && InStop(t.callers[i])
    ensures var u := AfterStop(t, i);
      && FlagsOk(u.flags, u.starter.Some?, u.agent)
      && (InsideStop(u.agent) ==> MayStop(c, u.agent.from) && !u.agent.SelfQueueing?)
      && (u.owner.Some? ==> u.owner.value < |u.callers|)
      && (!StopsItself(c) ==> JoinComing(u))
  {
    assert CallerOk(t, i);
  }

  lemma AgentKeepsCallers(c: Config, t: Threads, stops: bool, says: bool, tells: bool, j: nat)
    requires Lifecycle(c, t) && AgentEnabled(c, t.agent, stops) && j < |t.callers|
    ensures CallerOk(AfterAgent(t, stops, says, tells), j)
  {
    assert CallerOk(t, j);
  }

  lemma AgentKeepsRest(c: Config, t: Threads, stops: bool, says: bool, tells: bool)
    requires Lifecycle(c, t) && AgentEnabled(c, t.agent, stops)
    ensures var u := AfterAgent(t, stops, says, tells);
      && u.callers == t.callers && u.owner == t.owner
      && FlagsOk(u.flags, u.starter.Some?, u.agent)
      && (InsideStop(u.agent) ==> MayStop(c, u.agent.from) && !u.agent.SelfQueueing?)
      && (!StopsItself(c) ==> JoinComing(u))
  {
    hide CallerOk;
  }

  lemma AgentKeeps(c: Config, t: Threads, stops: bool, says: bool, tells: bool)
    requires Lifecycle(c, t) && AgentEnabled(c, t.agent, stops)
    ensures Lifecycle(c, AfterAgent(t, stops, says, tells))
  {
    hide AfterAgent, FlagsOk, InsideStop, JoinComing, MayStop, CallerOk, AgentEnabled;
    AgentKeepsRest(c, t, stops, says, tells);
    forall j | 0 <= j < |t.callers| ensures CallerOk(AfterAgent(t, stops, says, tells), j) {
      AgentKeepsCallers(c, t, stops, says, tells, j);
    }
  }

  lemma CallKeeps(c: Config, t: Threads, i: nat, pc: CallerPc)
    requires Lifecycle(c, t) && i < |t.callers| && t.callers[i] == Away
    requires pc == Claiming || pc == Identifying(t.flags.everRan)
    ensures Lifecycle(c, Goes(t, i, pc))
  {
    var u := Goes(t, i, pc);
    assert CallerOk(t, i);
    forall j | 0 <= j < |u.callers| ensures CallerOk(u, j) {
      assert CallerOk(t, j);
    }
  }

  lemma PollKeeps(c: Config, t: Threads, a: AgentPc)
    requires Lifecycle(c, t) && t.agent == Polling && (a.Entered? || a == Exited)
    ensures Lifecycle(c, t.(agent := a))
  {
    var u := t.(agent := a);
    forall j | 0 <= j < |u.callers| ensures CallerOk(u, j) {
      assert CallerOk(t, j);
    }
  }

  /** Every move keeps the latches, the mutex and the thread in step. */
  lemma MoveKeeps(c: Config, s: State, move: Move)
    requires Lifecycle(c, s.threads) && Enabled(c, s, move)
    ensures Lifecycle(c, ThreadsAfter(c, s, move))
  {
    hide Lifecycle, AfterStart, AfterStop, AfterAgent, AgentEnabled, InImage, Tells, Says;
    var t := s.threads;
    match move {
      case CallStart(i) => CallKeeps(c, t, i, Claiming);
      case CallStop(i) => CallKeeps(c, t, i, Identifying(t.flags.everRan));
      case CallerSteps(i) => if InStop(t.callers[i]) { StopKeeps(c, t, i); } else { StartKeeps(c, t, i); }
      case FramePosted(_) =>
      case AgentTakes => PollKeeps(c, t, Entered(s.queue[0]));
      case AgentTicks => PollKeeps(c, t, Entered(TickFired));
      case AgentExits => PollKeeps(c, t, Exited);
      case AgentSteps(at, _, stops) => AgentKeeps(c, t, stops, Says(s.update, t.agent, at), Tells(c, s.update));
    }
  }

  // ----- the session and its one listener ----------------------------------------------------

  /** In a handler, after the call into the session and before its outcome is published. */
  predicate Unpublished(a: AgentPc) {
    a.Delivering? || a.Publishing? || (InsideStop(a) && a.from == InSend)
  }

  /** The session is the one the agent was built with, run on the inputs so far; the published
      progress is its own; onDone has been told once if at all, the final progress. */
  ghost predicate UpdateOk(c: Config, first: Context, u: Update, unpublished: bool, sending: bool)
    requires Inv(first)
  {
    && u.session == Run(first, u.inputs)
    && (!unpublished ==> u.progress == SnapshotOf(u.session, u.transportFailed))
    && (u.doneFired ==> Terminal(u.session) && !sending)
    && |u.told| == (if u.doneFired && c.hasDone then 1 else 0)
    && (u.told != [] ==> u.told[0] == SnapshotOf(u.session, u.transportFailed))
  }

  ghost predicate SessionOk(c: Config, first: Context, s: State)
    requires Inv(first)
  {
    UpdateOk(c, first, s.update, Unpublished(s.threads.agent), s.threads.agent.Delivering?)
  }

  lemma RunGrows(first: Context, inputs: seq<Input>, i: Input)
    requires Inv(first)
    ensures InImage(Run(first, inputs)) && Run(first, inputs + [i]) == Stepped(Run(first, inputs), i).next
  {
    hide Stepped;
    assert (inputs + [i])[..|inputs|] == inputs;
  }

  lemma SteppingKeeps(c: Config, first: Context, u: Update, i: Input)
    requires Inv(first) && UpdateOk(c, first, u, false, false)
    ensures InImage(u.session) && UpdateOk(c, first, SessionStepped(u, i), true, Stepped(u.session, i).out != [])
  {
    hide Run, Inv, Stepped, Terminal, SnapshotOf;
    RunGrows(first, u.inputs, i);
    if Terminal(u.session) {
      TerminalAbsorbs(u.session, i);
    }
  }

  lemma SendingKeeps(c: Config, first: Context, u: Update, delivered: bool)
    requires Inv(first) && UpdateOk(c, first, u, true, true)
    ensures UpdateOk(c, first, SendReturned(c, u, delivered), true, false)
  {
    hide Run, Inv, Terminal, SnapshotOf;
  }

  lemma FiringKeeps(c: Config, first: Context, u: Update)
    requires Inv(first) && UpdateOk(c, first, u, false, false)
    ensures UpdateOk(c, first, Fired(c, u), false, false)
  {
    hide Run, Inv, Terminal, SnapshotOf;
  }

  lemma PublishingKeeps(c: Config, first: Context, u: Update)
    requires Inv(first) && UpdateOk(c, first, u, true, false)
    ensures UpdateOk(c, first, Published(u), false, false)
  {
    hide Run, Inv, Terminal, SnapshotOf;
  }

  /** The agent's steps into the session and what is published of it. */
  predicate Touches(move: Move, a: AgentPc) {
    move.AgentSteps? && (a.Stepping? || a.Delivering? || a.Publishing? || a.Firing?)
  }

  lemma UpdateUntouched(c: Config, s: State, move: Move)
    requires Enabled(c, s, move)
    ensures After(c, s, move).update == s.update || Touches(move, s.threads.agent)
  {
    hide ThreadsAfter, InImage, Terminal, CallerEnabled, AgentEnabled;
  }

  lemma AgentPcAfter(c: Config, s: State, move: Move)
    requires Lifecycle(c, s.threads) && Enabled(c, s, move)
    ensures var (a, b) := (s.threads.agent, ThreadsAfter(c, s, move).agent);
      && (!Touches(move, a) ==> (Unpublished(b) <==> Unpublished(a)) && !(b.Delivering? && !a.Delivering?))
      && (Touches(move, a) ==> (Unpublished(b) <==> a.Stepping? || a.Delivering?))
      && (move.AgentSteps? && a.Stepping? ==> (b.Delivering? <==> Says(s.update, a, move.at)))
      && (move.AgentSteps? && !a.Stepping? ==> !b.Delivering?)
  {
    hide InImage, Tells, Says, AfterCaller, Lifecycle;
    if move.CallerSteps? {
      CallerLeavesAgent(c, s.threads, move.i);
    }
  }

  lemma SessionKeeps(c: Config, first: Context, s: State, move: Move)
    requires Inv(first) && Lifecycle(c, s.threads) && SessionOk(c, first, s) && Enabled(c, s, move)
    ensures SessionOk(c, first, After(c, s, move))
  {
    hide ThreadsAfter, Lifecycle, UpdateOk, Inv, InImage, SessionStepped, SendReturned, Fired, Published, CallerEnabled, Stepped;
    var (u, a) := (s.update, s.threads.agent);
    AgentPcAfter(c, s, move);
    UpdateUntouched(c, s, move);
    AfterThreads(c, s, move);
    SendingOnly(c, first, s);
    if Touches(move, a) {
      if a.Stepping? {
        SteppingKeeps(c, first, u, InputOf(a.task, move.at));
      } else if a.Delivering? {
        SendingKeeps(c, first, u, move.delivered);
      } else if a.Publishing? {
        PublishingKeeps(c, first, u);
      } else {
        FiringKeeps(c, first, u);
      }
    }
  }

  /** Leaving a send behind only relaxes what is asked. */
  lemma SendingOnly(c: Config, first: Context, s: State)
    requires Inv(first) && SessionOk(c, first, s)
    ensures UpdateOk(c, first, s.update, Unpublished(s.threads.agent), false)
  {
    hide Run, Inv, Terminal, SnapshotOf;
  }

  // ----- every reachable state ---------------------------------------------------------------

  ghost predicate AllOk(c: Config, first: Context, s: State) {
    Inv(first) && Lifecycle(c, s.threads) && SessionOk(c, first, s)
  }

  lemma MoveOf(c: Config, first: Context, states: seq<State>, moves: seq<Move>, i: nat)
    requires RunTo(c, first, states, moves) && i + 1 < |states|
    ensures |states| == |moves| + 1 && Enabled(c, states[i], moves[i]) && states[i + 1] == After(c, states[i], moves[i])
  {}

  lemma AfterThreads(c: Config, s: State, move: Move)
    requires Enabled(c, s, move)
    ensures After(c, s, move).threads == ThreadsAfter(c, s, move)
  {
    hide ThreadsAfter, UpdateAfterAgent, InImage, CallerEnabled, AgentEnabled, Arms;
    if move.FramePosted? {
      PostedLeaves(c, s, move);
    }
  }

  lemma PostedLeaves(c: Config, s: State, move: Move)
    requires Enabled(c, s, move) && move.FramePosted?
    ensures ThreadsAfter(c, s, move) == s.threads
  {
    hide InImage;
  }

  lemma {:induction false} ReachableOk(c: Config, first: Context, states: seq<State>, moves: seq<Move>, i: nat)
    requires RunTo(c, first, states, moves) && i < |states|
    ensures AllOk(c, first, states[i])
  {
    hide Lifecycle, SessionOk, Inv, Enabled, After, Initial;
    if i == 0 {
      InitialOk(c, first, states[0]);
    } else {
      var (s, move) := (states[i - 1], moves[i - 1]);
      ReachableOk(c, first, states, moves, i - 1);
      MoveOf(c, first, states, moves, i - 1);
      MoveKeeps(c, s, move);
      AfterThreads(c, s, move);
      SessionKeeps(c, first, s, move);
    }
  }

  lemma InitialOk(c: Config, first: Context, s: State)
    requires Inv(first) && Initial(s, first)
    ensures AllOk(c, first, s)
  {
    hide Inv, SnapshotOf, Terminal;
  }

  /** The session moves only in the agent thread's own step into it, and only by a call that the
      session offers: whatever is proved of session runs holds of the agent's. */
  lemma SessionConfined(c: Config, s: State, move: Move)
    requires Enabled(c, s, move)
    ensures var (u, v) := (s.update, After(c, s, move).update);
      || (v.session == u.session && v.inputs == u.inputs)
      || (move.AgentSteps? && s.threads.agent.Stepping? && |v.inputs| == |u.inputs| + 1 && v.inputs[..|u.inputs|] == u.inputs
          && v.session == Stepped(u.session, v.inputs[|u.inputs|]).next)
  {
    hide ThreadsAfter, InImage, Terminal, Stepped, CallerEnabled;
  }

  /** onDone is told at most once in a run, and what it is told is final: a Done or Failed snapshot
      that is the progress published from then on. */
  lemma {:induction false} ToldOnceAndFinally(c: Config, first: Context, states: seq<State>, moves: seq<Move>, i: nat, j: nat)
    requires RunTo(c, first, states, moves) && i <= j < |states|
    ensures var (u, v) := (states[i].update, states[j].update);
      && |v.told| <= 1
      && (u.told != [] ==> v.told == u.told && u.told[0].stage in {Done, Failed})
      && (u.told != [] && !Unpublished(states[j].threads.agent) ==> v.progress == u.told[0])
    decreases j
  {
    hide RunTo, Run, Inv, Lifecycle, Enabled, After;
    ReachableOk(c, first, states, moves, j);
    ReachableOk(c, first, states, moves, i);
    if i < j {
      ToldOnceAndFinally(c, first, states, moves, i, j - 1);
      ReachableOk(c, first, states, moves, j - 1);
      MoveOf(c, first, states, moves, j - 1);
      ToldGrows(c, states[j - 1], moves[j - 1]);
    }
  }

  lemma ToldGrows(c: Config, s: State, move: Move)
    requires Enabled(c, s, move)
    ensures s.update.told <= After(c, s, move).update.told
    ensures s.update.doneFired ==> After(c, s, move).update.told == s.update.told
  {
    hide ThreadsAfter, Stepped, InImage, Terminal, CallerEnabled;
  }

  // ----- no deadlock -------------------------------------------------------------------------

  /** A move the agent thread can make. */
  function AgentNext(s: State): Move {
    if s.threads.agent != Polling then AgentSteps(0, true, false)
    else if s.threads.flags.halted then AgentExits
    else if s.queue != [] then AgentTakes
    else if s.ticking then AgentTicks
    else AgentExits
  }

  /** A move that brings a caller's call forward: its own, the mutex owner's, or the agent's. */
  function Unblocks(s: State, i: nat): Move
    requires i < |s.threads.callers|
  {
    var t := s.threads;
    if CallerEnabled(t, i) then CallerSteps(i)
    else if t.owner.Some? && CallerEnabled(t, t.owner.value) then CallerSteps(t.owner.value)
    else AgentNext(s)
  }

  /** The agent thread, as long as it lives, is never blocked. */
  lemma AgentNeverBlocked(c: Config, s: State)
    requires Lifecycle(c, s.threads) && Alive(s.threads.agent) && InImage(s.update.session)
    ensures Enabled(c, s, AgentNext(s))
  {
    hide InImage;
  }

  /** In every reachable state a call in progress can be brought forward, even when a callback stops
      the agent from inside: whoever it waits for can move. */
  lemma NoDeadlock(c: Config, s: State, i: nat)
    requires Lifecycle(c, s.threads) && InImage(s.update.session) && i < |s.threads.callers| && s.threads.callers[i] != Away
    ensures Enabled(c, s, Unblocks(s, i))
  {
    hide InImage, AgentNext;
    var t := s.threads;
    assert CallerOk(t, i);
    if !CallerEnabled(t, i) {
      if t.owner.Some? {
        assert CallerOk(t, t.owner.value);
      }
      if !(t.owner.Some? && CallerEnabled(t, t.owner.value)) {
        AgentNeverBlocked(c, s);
      }
    }
  }

  /** How many steps of its own a stopped agent thread still takes at most. */
  function StepsLeft(a: AgentPc): nat {
    match a
    case NoThread => 0
    case Exited => 0
    case Polling => 1
    case Closing(_) => 2
    case SelfQueueing(_, _) => 0
    case SelfHalting(from, _) => if from == InDone then 3 else 9
    case SelfClearing(from, _) => if from == InDone then 4 else 10
    case SelfIdentifying(from, _) => if from == InDone then 5 else 11
    case Notifying(_) => 6
    case Firing(_) => 7
    case Publishing(_) => 8
    case Delivering(_) => 12
    case Stepping(_) => 13
    case Entered(_) => 14
    case Starting => 2
  }

  /** A join ends: once the context is stopped every step of the agent thread brings its end nearer,
      and no other step moves it away. */
  lemma StoppedAgentEnds(c: Config, s: State, move: Move)
    requires Lifecycle(c, s.threads) && Enabled(c, s, move) && s.threads.flags.halted && Alive(s.threads.agent)
    ensures var (t, u) := (s.threads, ThreadsAfter(c, s, move));
      u.flags.halted && StepsLeft(u.agent) <= StepsLeft(t.agent) - (if move.AgentSteps? || move.AgentExits? then 1 else 0)
    ensures !move.AgentTakes? && !move.AgentTicks?
  {
    hide InImage, Tells, Says, AfterCaller, CallerEnabled;
    if move.CallerSteps? {
      CallerLeavesAgent(c, s.threads, move.i);
    }
  }

  /** A caller changes the agent only by creating it, and never takes a stop back. */
  lemma CallerLeavesAgent(c: Config, t: Threads, i: nat)
    requires Lifecycle(c, t) && CallerEnabled(t, i)
    ensures var u := AfterCaller(t, i);
      && (u.agent == t.agent || (t.agent == NoThread && t.flags.running && u.agent == Starting))
      && (t.flags.halted ==> u.flags.halted)
      && (t.flags.everRan ==> u.flags.everRan && (u.flags.running ==> t.flags.running))
  {
    assert CallerOk(t, i);
  }

  // ----- the join guarantee ------------------------------------------------------------------

  /** No agent thread, now or ever again. */
  predicate Gone(t: Threads) {
    t.flags.everRan && !t.flags.running && !Alive(t.agent)
  }

  lemma GoneStays(c: Config, s: State, move: Move)
    requires Lifecycle(c, s.threads) && Enabled(c, s, move) && Gone(s.threads)
    ensures Gone(ThreadsAfter(c, s, move)) && After(c, s, move).update == s.update
  {
    hide InImage, Tells, Says, AfterCaller, CallerEnabled;
    if move.CallerSteps? {
      CallerLeavesAgent(c, s.threads, move.i);
    }
  }

  /** An outside stop() that began after `running` was set is about to return. */
  predicate LateReturn(t: Threads, move: Move) {
    move.CallerSteps? && move.i < |t.callers| && t.callers[move.i] == Releasing(true)
  }

  /** Whenever such a stop() has returned, the agent thread is gone for good. */
  ghost predicate StopGuarantee(c: Config) {
    forall first: Context, states: seq<State>, moves: seq<Move>, i: nat ::
      RunTo(c, first, states, moves) && i < |moves| && LateReturn(states[i].threads, moves[i]) ==>
      Gone(states[i + 1].threads)
  }

  lemma LateStopJoins(c: Config, s: State, move: Move)
    requires !StopsItself(c) && Lifecycle(c, s.threads) && Enabled(c, s, move) && LateReturn(s.threads, move)
    ensures Gone(ThreadsAfter(c, s, move))
  {
    hide InImage;
    assert CallerOk(s.threads, move.i);
  }

  lemma GuaranteeHolds(c: Config)
    requires !StopsItself(c)
    ensures StopGuarantee(c)
  {
    forall first: Context, states: seq<State>, moves: seq<Move>, i: nat
      | RunTo(c, first, states, moves) && i < |moves| && LateReturn(states[i].threads, moves[i])
      ensures Gone(states[i + 1].threads)
    {
      ReachableOk(c, first, states, moves, i);
      MoveOf(c, first, states, moves, i);
      LateStopJoins(c, states[i], moves[i]);
      AfterThreads(c, states[i], moves[i]);
    }
  }
}
