/** The agent goes on: while it runs, the update has a next step until its session stops, and a
    session that has stopped has been reported. */
module OtaAgentProgress {
  import opened OtaTable
  import opened OtaInvariant
  import opened OtaRuns
  import opened OtaAgent
  import opened OtaAgentLifecycle

  /** A begin or tick handler is at work: it will arm the timer, or find the session stopped. */
  predicate Ticking(a: AgentPc) {
    match a
    case NoThread => false
    case Starting => false
    case Polling => false
    case Exited => false
    case _ => !a.task.FrameArrived?
  }

  /** The update's next step is assured: its first handler is queued, or a begin or tick handler is
      at work, or the timer is armed. */
  predicate StepAhead(s: State) {
    BeginUpdate in s.queue || Ticking(s.threads.agent) || s.ticking
  }

  /** A handler between its call into the session and the end of fireDoneIfTerminal. */
  predicate Unfired(a: AgentPc) {
    Unpublished(a) || a.Firing?
  }

  /** start() has set `running` and not yet posted the first handler. */
  predicate AboutToPost(t: Threads) {
    t.starter.Some? && t.starter.value < |t.callers| && t.callers[t.starter.value] == Posting
  }

  /** While the agent runs the session has stopped or has a next step; a thread that ended while
      the agent runs has a stopped session; and outside a handler a stopped session is reported. */
  predicate GoesOn(s: State) {
    var (t, stopped) := (s.threads, Terminal(s.update.session));
    && (t.flags.running && !AboutToPost(t) ==> stopped || StepAhead(s))
    && (t.flags.running && t.agent == Exited ==> stopped)
    && (stopped && !Unfired(t.agent) ==> s.update.doneFired)
  }

  lemma InitialGoesOn(s: State, first: Context)
    requires Initial(s, first)
    ensures GoesOn(s)
  {
    hide SnapshotOf;
  }

  lemma CallerGoesOn(c: Config, s: State, i: nat)
    requires Lifecycle(c, s.threads) && GoesOn(s) && Enabled(c, s, CallerSteps(i))
    ensures GoesOn(After(c, s, CallerSteps(i)))
  {
    hide InImage, Terminal;
    assert CallerOk(s.threads, i);
    if s.threads.starter.Some? && s.threads.starter.value < |s.threads.callers| {
      assert CallerOk(s.threads, s.threads.starter.value);
    }
  }

  lemma ArrivalGoesOn(c: Config, s: State, move: Move)
    requires Lifecycle(c, s.threads) && GoesOn(s) && Enabled(c, s, move) && !move.CallerSteps? && !move.AgentSteps?
    ensures GoesOn(After(c, s, move))
  {
    hide InImage, Terminal;
    if s.threads.starter.Some? && s.threads.starter.value < |s.threads.callers| {
      assert CallerOk(s.threads, s.threads.starter.value);
    }
    if move.AgentTakes? {
      assert s.queue == [s.queue[0]] + s.queue[1..];
    }
  }

  lemma AgentGoesOn(c: Config, s: State, move: Move)
    requires Lifecycle(c, s.threads) && GoesOn(s) && Enabled(c, s, move) && move.AgentSteps?
    ensures GoesOn(After(c, s, move))
  {
    hide InImage, Terminal, Stepped, SnapshotOf;
    if s.threads.agent.Stepping? && Terminal(s.update.session) {
      TerminalAbsorbs(s.update.session, InputOf(s.threads.agent.task, move.at));
    }
    if s.threads.starter.Some? && s.threads.starter.value < |s.threads.callers| {
      assert CallerOk(s.threads, s.threads.starter.value);
    }
  }

  lemma MoveGoesOn(c: Config, s: State, move: Move)
    requires Lifecycle(c, s.threads) && GoesOn(s) && Enabled(c, s, move)
    ensures GoesOn(After(c, s, move))
  {
    hide Lifecycle, GoesOn, Enabled, After;
    match move {
      case CallerSteps(i) => CallerGoesOn(c, s, i);
      case AgentSteps(_, _, _) => AgentGoesOn(c, s, move);
      case _ => ArrivalGoesOn(c, s, move);
    }
  }

  lemma {:induction false} ReachableGoesOn(c: Config, first: Context, states: seq<State>, moves: seq<Move>, i: nat)
    requires RunTo(c, first, states, moves) && i < |states|
    ensures GoesOn(states[i])
  {
    hide GoesOn, Lifecycle, Enabled, After, Inv, Run;
    if i == 0 {
      InitialGoesOn(states[0], first);
    } else {
      ReachableGoesOn(c, first, states, moves, i - 1);
      ReachableOk(c, first, states, moves, i - 1);
      MoveOf(c, first, states, moves, i - 1);
      MoveGoesOn(c, states[i - 1], moves[i - 1]);
    }
  }

  /** No update ends unreported: a thread that ran out of work with `running` still set has a session
      that is Done or Failed, and the listener, if there is one, has been told so. */
  lemma DrainedIsReported(c: Config, first: Context, states: seq<State>, moves: seq<Move>, i: nat)
    requires RunTo(c, first, states, moves) && i < |states|
    requires states[i].threads.agent == Exited && states[i].threads.flags.running
    ensures Terminal(states[i].update.session)
    ensures c.hasDone ==> states[i].update.told == [states[i].update.progress]
  {
    hide Lifecycle, Enabled, After, Inv, Run, RunTo, Terminal, SnapshotOf;
    ReachableGoesOn(c, first, states, moves, i);
    ReachableOk(c, first, states, moves, i);
  }
}
