/** What passes through the update agent (src/integration/OtaAgent.cpp): which call each handler makes, that
    board frames reach the session in the order they were posted, and that what is handed to SendFn is
    the transcript of the session. */
module OtaAgentFlow {
  import opened Sequences
  import opened FlashFrame
  import opened OtaTable
  import opened OtaInvariant
  import opened OtaRuns
  import opened OtaTranscript
  import opened OtaAgent
  import opened OtaAgentLifecycle

  // ----- one handler -------------------------------------------------------------------------

  /** The call a handler makes, and what becomes of the bytes it returns. */
  lemma HandlerCalls(c: Config, s: State, at: int, delivered: bool, stops: bool)
    requires Enabled(c, s, AgentSteps(at, delivered, stops)) && s.threads.agent.Stepping?
    ensures var t := After(c, s, AgentSteps(at, delivered, stops));
      var (u, v, task) := (s.update, t.update, s.threads.agent.task);
      && (task == BeginUpdate ==> Outcome(v.session, v.pending) == OnStart(u.session, at))
      && (task == TickFired ==> Outcome(v.session, v.pending) == OnTick(u.session, at))
      && (task.FrameArrived? ==> Outcome(v.session, v.pending) == OnFrame(u.session, task.frame, at))
      && t.threads.agent == (if v.pending != [] then Delivering(task) else Publishing(task))
      && v.attempts == u.attempts
  {
    hide InImage, OnStart, OnTick, OnFrame;
  }

  /** A handler gets to its call exactly if it is the first one or finds `running` set. */
  lemma HandlerEnters(c: Config, s: State, move: Move, task: Task)
    requires Lifecycle(c, s.threads) && Enabled(c, s, move)
    ensures s.threads.agent != Stepping(task) && ThreadsAfter(c, s, move).agent == Stepping(task) ==>
      move.AgentSteps? && s.threads.agent == Entered(task) && (task == BeginUpdate || s.threads.flags.running)
    ensures move.AgentSteps? && s.threads.agent == Entered(task) ==>
      ThreadsAfter(c, s, move).agent == if task == BeginUpdate || s.threads.flags.running then Stepping(task) else Polling
  {
    hide InImage, Tells, Says, AfterCaller, Lifecycle, CallerEnabled;
    if move.CallerSteps? {
      CallerLeavesAgent(c, s.threads, move.i);
    }
  }

  /** The timer is armed by a first or tick handler that leaves the session unfinished, and by nothing
      else, and is used up by its own handler. */
  lemma TimerExact(c: Config, s: State, move: Move)
    requires Enabled(c, s, move)
    ensures var stage := StageOf(s.update.session);
      After(c, s, move).ticking <==>
      || (s.ticking && move != AgentTicks)
      || (move.AgentSteps? && s.threads.agent in {Closing(BeginUpdate), Closing(TickFired)} && stage != Done && stage != Failed)
  {
    hide InImage, ThreadsAfter, UpdateAfterAgent, CallerEnabled, AgentEnabled;
    if move.AgentSteps? && s.threads.agent.Closing? {
      assert s.threads.agent.task.FrameArrived? || s.threads.agent in {Closing(BeginUpdate), Closing(TickFired)};
    }
  }

  /** onDone is called exactly by the handler that first finds the session Done or Failed, if there is one to
      call, and is told the progress published then. */
  lemma DoneIsCalled(c: Config, s: State, move: Move)
    requires Lifecycle(c, s.threads) && Enabled(c, s, move)
    ensures var (a, t) := (s.threads.agent, After(c, s, move));
      var fires := move.AgentSteps? && a.Firing? && StageOf(s.update.session) in {Done, Failed} && !s.update.doneFired;
      && t.update.doneFired == (s.update.doneFired || fires)
      && t.update.told == (if fires && c.hasDone then s.update.told + [s.update.progress] else s.update.told)
      && (t.threads.agent.Notifying? <==> (fires && c.hasDone) || (a.Notifying? && !move.AgentSteps?))
  {
    hide InImage, Says, AfterCaller, Lifecycle, CallerEnabled, Stepped, SnapshotOf;
    if move.CallerSteps? {
      CallerLeavesAgent(c, s.threads, move.i);
    }
  }

  /** A stop() made inside a callback waits for nobody: three steps later it is over, `running` is off and the
      context is stopped, so that no further handler runs. */
  lemma InnerStopEnds(c: Config, s: State, at: int, delivered: bool, stops: bool)
    requires Lifecycle(c, s.threads) && InsideStop(s.threads.agent) && InImage(s.update.session)
    ensures var (a, move) := (s.threads.agent, AgentSteps(at, delivered, stops));
      && Enabled(c, s, move)
      && var t := ThreadsAfter(c, s, move);
      && (a.SelfIdentifying? ==> t.agent == SelfClearing(a.from, a.task))
      && (a.SelfClearing? ==> t.agent == SelfHalting(a.from, a.task) && !t.flags.running)
      && (a.SelfHalting? ==> t.agent == Returned(a.from, a.task) && !t.flags.running && t.flags.halted)
  {
    hide InImage, Tells, Says;
  }

  // ----- frames ------------------------------------------------------------------------------

  function FrameIn(task: Task): seq<Frame> {
    if task.FrameArrived? then [task.frame] else []
  }

  function FramesOf(tasks: seq<Task>): seq<Frame> {
    if tasks == [] then [] else FrameIn(tasks[0]) + FramesOf(tasks[1..])
  }

  /** The frames posted by a list of moves. */
  function PostedBy(moves: seq<Move>): seq<Frame>
    decreases |moves|
  {
    if moves == [] then []
    else PostedBy(moves[..|moves| - 1]) + Posts(moves[|moves| - 1])
  }

  function Posts(move: Move): seq<Frame> {
    if move.FramePosted? then [move.frame] else []
  }

  /** A frame whose handler looked at `running`, and what it saw. */
  datatype Look = Look(frame: Frame, running: bool)

  function LookOf(s: State, move: Move): seq<Look> {
    var a := s.threads.agent;
    if move.AgentSteps? && a.Entered? && a.task.FrameArrived? then [Look(a.task.frame, s.threads.flags.running)] else []
  }

  function Looks(states: seq<State>, moves: seq<Move>, i: nat): seq<Look>
    requires i <= |moves| <= |states|
  {
    if i == 0 then [] else Looks(states, moves, i - 1) + LookOf(states[i - 1], moves[i - 1])
  }

  function Looked(looks: seq<Look>): seq<Frame> {
    if looks == [] then [] else [looks[0].frame] + Looked(looks[1..])
  }

  function Passed(look: Look): seq<Frame> {
    if look.running then [look.frame] else []
  }

  /** The frames whose handlers saw `running` set. */
  function LetIn(looks: seq<Look>): seq<Frame> {
    if looks == [] then [] else Passed(looks[0]) + LetIn(looks[1..])
  }

  /** The frames a session was called with. */
  function Received(inputs: seq<Input>): seq<Frame>
    decreases |inputs|
  {
    if inputs == [] then []
    else
      var last := inputs[|inputs| - 1];
      Received(inputs[..|inputs| - 1]) + if last.Receive? then [last.frame] else []
  }

  function Entering(a: AgentPc): seq<Frame> {
    if a.Entered? && a.task.FrameArrived? then [a.task.frame] else []
  }

  /** A frame about to be given to the session. */
  function AtWork(a: AgentPc): seq<Frame> {
    if a.Stepping? && a.task.FrameArrived? then [a.task.frame] else []
  }

  lemma {:induction false} FramesConcat(a: seq<Task>, b: seq<Task>)
    ensures FramesOf(a + b) == FramesOf(a) + FramesOf(b)
  {
    hide FrameIn;
    if a == [] {
      assert a + b == b;
    } else {
      assert (a + b)[0] == a[0] && (a + b)[1..] == a[1..] + b;
      FramesConcat(a[1..], b);
      Associative(FrameIn(a[0]), FramesOf(a[1..]), FramesOf(b));
    }
  }

  lemma {:induction false} LooksConcat(a: seq<Look>, b: seq<Look>)
    ensures Looked(a + b) == Looked(a) + Looked(b) && LetIn(a + b) == LetIn(a) + LetIn(b)
  {
    hide Passed;
    if a == [] {
      assert a + b == b;
    } else {
      assert (a + b)[0] == a[0] && (a + b)[1..] == a[1..] + b;
      LooksConcat(a[1..], b);
      Associative([a[0].frame], Looked(a[1..]), Looked(b));
      Associative(Passed(a[0]), LetIn(a[1..]), LetIn(b));
    }
  }

  lemma OneFrame(task: Task)
    ensures FramesOf([task]) == (if task.FrameArrived? then [task.frame] else []) && FramesOf([]) == []
  {
    assert [task][1..] == [];
  }

  lemma OneLook(look: Look)
    ensures Looked([look]) == [look.frame] && LetIn([look]) == (if look.running then [look.frame] else [])
    ensures Looked([]) == [] && LetIn([]) == []
  {
    assert [look][1..] == [];
  }

  lemma OneInput(inputs: seq<Input>, i: Input)
    ensures Received(inputs + [i]) == Received(inputs) + if i.Receive? then [i.frame] else []
  {
    assert (inputs + [i])[..|inputs|] == inputs;
  }

  /** No move loses, repeats or reorders a frame on its way from the queue to its handler's look. */
  lemma QueueStep(c: Config, s: State, move: Move)
    requires Lifecycle(c, s.threads) && Enabled(c, s, move)
    ensures QueueKept(s, move, After(c, s, move))
  {
    hide Lifecycle, Enabled, After, QueueKept;
    match move {
      case CallerSteps(i) => CallerQueues(c, s, i);
      case FramePosted(f) => PostQueues(c, s, f);
      case AgentTakes => TakeQueues(c, s);
      case AgentSteps(_, _, _) => StepQueues(c, s, move);
      case _ => RestQueues(c, s, move);
    }
  }

  lemma RestQueues(c: Config, s: State, move: Move)
    requires Enabled(c, s, move) && (move.CallStart? || move.CallStop? || move.AgentTicks? || move.AgentExits?)
    ensures QueueKept(s, move, After(c, s, move))
  {
    hide InImage, FramesOf, Looked;
    OneLook(Look(Frame(0, 0, []), true));
  }

  predicate QueueKept(s: State, move: Move, t: State) {
    Entering(s.threads.agent) + FramesOf(s.queue) + Posts(move)
    == Looked(LookOf(s, move)) + Entering(t.threads.agent) + FramesOf(t.queue)
  }

  lemma CallerQueues(c: Config, s: State, i: nat)
    requires Lifecycle(c, s.threads) && Enabled(c, s, CallerSteps(i))
    ensures QueueKept(s, CallerSteps(i), After(c, s, CallerSteps(i)))
  {
    hide InImage, AfterCaller, Lifecycle, CallerEnabled, FramesOf, Looked;
    CallerLeavesAgent(c, s.threads, i);
    OneLook(Look(Frame(0, 0, []), true));
    OneFrame(BeginUpdate);
    FramesConcat(s.queue, [BeginUpdate]);
  }

  lemma PostQueues(c: Config, s: State, f: Frame)
    requires Enabled(c, s, FramePosted(f))
    ensures QueueKept(s, FramePosted(f), After(c, s, FramePosted(f)))
  {
    PostedState(c, s, f);
    hide Enabled, After, FramesOf, Looked;
    OneLook(Look(f, true));
    OneFrame(FrameArrived(f));
    FramesConcat(s.queue, [FrameArrived(f)]);
  }

  lemma PostedState(c: Config, s: State, f: Frame)
    requires Enabled(c, s, FramePosted(f))
    ensures After(c, s, FramePosted(f)) == s.(queue := s.queue + [FrameArrived(f)])
  {
    hide InImage;
  }

  lemma TakeQueues(c: Config, s: State)
    requires Enabled(c, s, AgentTakes)
    ensures QueueKept(s, AgentTakes, After(c, s, AgentTakes))
  {
    TakenState(c, s);
    hide Enabled, After, FramesOf, Looked;
    OneLook(Look(Frame(0, 0, []), true));
    OneFrame(s.queue[0]);
    assert s.queue == [s.queue[0]] + s.queue[1..];
    FramesConcat([s.queue[0]], s.queue[1..]);
  }

  lemma TakenState(c: Config, s: State)
    requires Enabled(c, s, AgentTakes)
    ensures s.queue != [] && s.threads.agent == Polling
    ensures After(c, s, AgentTakes) == s.(threads := s.threads.(agent := Entered(s.queue[0])), queue := s.queue[1..])
  {
    hide InImage;
  }

  lemma StepQueues(c: Config, s: State, move: Move)
    requires Enabled(c, s, move) && move.AgentSteps?
    ensures QueueKept(s, move, After(c, s, move))
  {
    hide InImage, Tells, Says, UpdateAfterAgent, Arms, FramesOf, Looked;
    var a := s.threads.agent;
    OneLook(Look(if a.Entered? && a.task.FrameArrived? then a.task.frame else Frame(0, 0, []), s.threads.flags.running));
  }

  /** Exactly the frames whose handler saw `running` set go on to the session. */
  lemma SessionStep(c: Config, s: State, move: Move)
    requires Lifecycle(c, s.threads) && Enabled(c, s, move)
    ensures var t := After(c, s, move);
      Received(s.update.inputs) + AtWork(s.threads.agent) + LetIn(LookOf(s, move))
      == Received(t.update.inputs) + AtWork(t.threads.agent)
  {
    hide Lifecycle, Enabled, After, LetIn, Received, LookOf, AtWork;
    var a := s.threads.agent;
    OneLook(Look(Frame(0, 0, []), true));
    if move.AgentSteps? && a.Stepping? {
      NoLook(s, move);
      CallTakes(c, s, move);
    } else if move.AgentSteps? && a.Entered? {
      LookTakes(c, s, move);
    } else {
      OtherTakes(c, s, move);
    }
  }

  lemma NoLook(s: State, move: Move)
    requires !s.threads.agent.Entered?
    ensures LookOf(s, move) == []
  {}

  lemma OtherTakes(c: Config, s: State, move: Move)
    requires Lifecycle(c, s.threads) && Enabled(c, s, move)
    requires !(move.AgentSteps? && (s.threads.agent.Stepping? || s.threads.agent.Entered?))
    ensures var t := After(c, s, move);
      t.update.inputs == s.update.inputs && AtWork(t.threads.agent) == AtWork(s.threads.agent) && LookOf(s, move) == []
  {
    hide InImage, Tells, Says, AfterCaller, Lifecycle, CallerEnabled, Stepped, Terminal;
    if move.CallerSteps? {
      CallerLeavesAgent(c, s.threads, move.i);
    }
  }

  lemma CallTakes(c: Config, s: State, move: Move)
    requires Enabled(c, s, move) && move.AgentSteps? && s.threads.agent.Stepping?
    ensures var t := After(c, s, move);
      Received(s.update.inputs) + AtWork(s.threads.agent) == Received(t.update.inputs) + AtWork(t.threads.agent)
  {
    hide InImage, Tells, Says, AfterCaller, CallerEnabled, Stepped, Terminal, Received;
    OneInput(s.update.inputs, InputOf(s.threads.agent.task, move.at));
  }

  lemma LookTakes(c: Config, s: State, move: Move)
    requires Enabled(c, s, move) && move.AgentSteps? && s.threads.agent.Entered?
    ensures var t := After(c, s, move);
      t.update == s.update && LetIn(LookOf(s, move)) == AtWork(t.threads.agent) && AtWork(s.threads.agent) == []
  {
    hide InImage, Tells, Says, AfterCaller, CallerEnabled, Stepped, Terminal, Received, LetIn;
    var a := s.threads.agent;
    OneLook(Look(if a.task.FrameArrived? then a.task.frame else Frame(0, 0, []), s.threads.flags.running));
  }

  lemma NothingYet(s: State, first: Context)
    requires Initial(s, first)
    ensures Entering(s.threads.agent) == [] && AtWork(s.threads.agent) == [] && Received(s.update.inputs) == []
    ensures Looked([]) == [] && LetIn([]) == [] && PostedBy([]) == []
  {}

  lemma PostsOne(moves: seq<Move>, i: nat)
    requires i < |moves|
    ensures PostedBy(moves[..i + 1]) == PostedBy(moves[..i]) + Posts(moves[i])
  {
    assert moves[..i + 1][..i] == moves[..i];
  }

  /** Over every run: the frames posted are, in order, those whose handlers have looked at `running`, the
      one a handler has just been entered with, and those still queued; and the session has been
      called, in that order and once each, with exactly those whose handlers saw `running` set, but for
      one it may be about to be called with. */
  lemma {:induction false} FramesInOrder(c: Config, first: Context, states: seq<State>, moves: seq<Move>, i: nat)
    requires RunTo(c, first, states, moves) && i < |states|
    ensures var (s, looks) := (states[i], Looks(states, moves, i));
      && FramesOf(states[0].queue) + PostedBy(moves[..i]) == Looked(looks) + Entering(s.threads.agent) + FramesOf(s.queue)
      && LetIn(looks) == Received(s.update.inputs) + AtWork(s.threads.agent)
  {
    hide FramesOf, PostedBy, Looked, LetIn, Received, Enabled, After, Lifecycle, Inv, Initial, Run, LookOf, Posts, Entering, AtWork;
    if i == 0 {
      assert moves[..0] == [];
      NothingYet(states[0], first);
    } else {
      var (s, move) := (states[i - 1], moves[i - 1]);
      FramesInOrder(c, first, states, moves, i - 1);
      ReachableOk(c, first, states, moves, i - 1);
      MoveOf(c, first, states, moves, i - 1);
      QueueStep(c, s, move);
      SessionStep(c, s, move);
      PostsOne(moves, i - 1);
      assert moves[..i - 1 + 1] == moves[..i];
      LooksConcat(Looks(states, moves, i - 1), LookOf(s, move));
      var (a, t) := (Looked(Looks(states, moves, i - 1)), states[i]);
      Regroup(a, Entering(s.threads.agent), FramesOf(s.queue), Posts(move),
              Looked(LookOf(s, move)), Entering(t.threads.agent), FramesOf(t.queue));
    }
  }

  lemma Regroup(a: seq<Frame>, e: seq<Frame>, q: seq<Frame>, posted: seq<Frame>, l: seq<Frame>, f: seq<Frame>, r: seq<Frame>)
    requires e + q + posted == l + f + r
    ensures (a + e + q) + posted == (a + l) + f + r
  {
    assert (a + e + q) + posted == a + (e + q + posted) && (a + l) + f + r == a + (l + f + r);
  }

  // ----- bytes -------------------------------------------------------------------------------

  function BytesOf(attempts: seq<Attempt>): (r: seq<seq<bv8>>)
    ensures |r| == |attempts|
  {
    seq(|attempts|, i requires 0 <= i < |attempts| => attempts[i].bytes)
  }

  /** Bytes between the call that returned them and SendFn. */
  function InHand(s: State): seq<seq<bv8>> {
    if s.threads.agent.Delivering? then [s.update.pending] else []
  }

  /** What the transport was handed, and what a handler is about to hand it, is what the session has said;
      the published flag says whether some of it was not taken. */
  ghost predicate FlowOk(first: Context, s: State)
    requires Inv(first)
  {
    && Transcript(first, s.update.inputs) == BytesOf(s.update.attempts) + InHand(s)
    && (s.update.transportFailed <==> exists a <- s.update.attempts :: !a.taken)
  }

  lemma TranscriptGrows(first: Context, inputs: seq<Input>, i: Input)
    requires Inv(first)
    ensures InImage(Run(first, inputs))
    ensures var out := Stepped(Run(first, inputs), i).out;
      Transcript(first, inputs + [i]) == Transcript(first, inputs) + if out == [] then [] else [out]
  {
    hide Stepped, Run;
    RunGrows(first, inputs, i);
    assert (inputs + [i])[..|inputs|] == inputs;
  }

  lemma FlowUntouched(c: Config, first: Context, s: State, move: Move)
    requires Inv(first) && Lifecycle(c, s.threads) && FlowOk(first, s) && Enabled(c, s, move)
    requires !(move.AgentSteps? && (s.threads.agent.Stepping? || s.threads.agent.Delivering?))
    ensures FlowOk(first, After(c, s, move))
  {
    hide InImage, Tells, Says, AfterCaller, Lifecycle, CallerEnabled, Stepped, Terminal, Transcript, Inv, SnapshotOf;
    if move.CallerSteps? {
      CallerLeavesAgent(c, s.threads, move.i);
    }
  }

  lemma AttemptAdds(attempts: seq<Attempt>, a: Attempt)
    ensures BytesOf(attempts + [a]) == BytesOf(attempts) + [a.bytes]
    ensures (exists x <- attempts + [a] :: !x.taken) <==> (exists x <- attempts :: !x.taken) || !a.taken
  {
    if !a.taken { assert a in attempts + [a]; }
    forall x | x in attempts ensures x in attempts + [a] {}
  }

  lemma CallFlows(c: Config, first: Context, s: State, move: Move)
    requires Inv(first) && FlowOk(first, s) && s.update.session == Run(first, s.update.inputs)
    requires Enabled(c, s, move) && move.AgentSteps? && s.threads.agent.Stepping?
    ensures FlowOk(first, After(c, s, move))
  {
    hide InImage, Tells, Stepped, Terminal, Transcript, Inv, SnapshotOf, Run, CallerEnabled, AfterCaller;
    TranscriptGrows(first, s.update.inputs, InputOf(s.threads.agent.task, move.at));
  }

  lemma SendFlows(c: Config, first: Context, s: State, move: Move)
    requires Inv(first) && FlowOk(first, s)
    requires Enabled(c, s, move) && move.AgentSteps? && s.threads.agent.Delivering?
    ensures FlowOk(first, After(c, s, move))
  {
    hide InImage, Tells, Says, Stepped, Terminal, Transcript, Inv, SnapshotOf, Run, BytesOf, CallerEnabled, AfterCaller;
    AttemptAdds(s.update.attempts, Attempt(s.update.pending, c.hasSend && move.delivered));
  }

  lemma FlowStep(c: Config, first: Context, s: State, move: Move)
    requires Inv(first) && Lifecycle(c, s.threads) && SessionOk(c, first, s) && FlowOk(first, s) && Enabled(c, s, move)
    ensures FlowOk(first, After(c, s, move))
  {
    hide Inv, Lifecycle, FlowOk, Enabled, After, Run, SnapshotOf, Terminal;
    if move.AgentSteps? && s.threads.agent.Stepping? {
      CallFlows(c, first, s, move);
    } else if move.AgentSteps? && s.threads.agent.Delivering? {
      SendFlows(c, first, s, move);
    } else {
      FlowUntouched(c, first, s, move);
    }
  }

  /** Over every run: the bytes handed to SendFn, call by call, are the transcript of the session's run, and
      the transport is reported as failed exactly if some of them were not taken. */
  lemma {:induction false} SentIsTranscript(c: Config, first: Context, states: seq<State>, moves: seq<Move>, i: nat)
    requires RunTo(c, first, states, moves) && i < |states|
    ensures Inv(first) && FlowOk(first, states[i])
  {
    hide FlowOk, Enabled, After, Lifecycle, Inv, Initial, Run, SessionOk;
    if i == 0 {
      FlowStarts(first, states[0]);
    } else {
      SentIsTranscript(c, first, states, moves, i - 1);
      ReachableOk(c, first, states, moves, i - 1);
      MoveOf(c, first, states, moves, i - 1);
      FlowStep(c, first, states[i - 1], moves[i - 1]);
    }
  }

  lemma FlowStarts(first: Context, s: State)
    requires Inv(first) && Initial(s, first)
    ensures FlowOk(first, s)
  {
    hide Inv, Run, Stepped;
  }

  /** What is published outside a handler's work, field by field. */
  lemma ProgressMeans(c: Config, first: Context, states: seq<State>, moves: seq<Move>, i: nat)
    requires RunTo(c, first, states, moves) && i < |states| && !Unpublished(states[i].threads.agent)
    ensures Inv(first)
    ensures var (u, p) := (states[i].update, states[i].update.progress);
      var session := Run(first, u.inputs);
      && p.stage == StageOf(session) && p.failure == session.failure && p.nakCode == session.nakCode
      && p.bytesAcknowledged == session.sentBytes <= p.imageSize == |first.image|
      && p.alreadyUpToDate == session.alreadyUpToDate
      && (p.transportFailed <==> exists a <- u.attempts :: !a.taken)
  {
    hide Lifecycle, Enabled, After, RunTo, StageOf;
    ReachableOk(c, first, states, moves, i);
    SentIsTranscript(c, first, states, moves, i);
    SameImage(first, states[i].update.inputs);
  }

  lemma {:induction false} SameImage(first: Context, inputs: seq<Input>)
    requires Inv(first)
    ensures Run(first, inputs).image == first.image
    decreases |inputs|
  {
    hide Inv, Stepped, SaysNothing, Repeats, Advances;
    if inputs != [] {
      var (before, last) := (inputs[..|inputs| - 1], inputs[|inputs| - 1]);
      SameImage(first, before);
      RunGrows(first, before, last);
      StepClassified(Run(first, before), last);
      assert before + [last] == inputs;
    }
  }
}
