/** The join guarantee of stop(), exactly: an outside stop() that begins after `running` is set comes
    back to a finished agent thread, in every interleaving, unless SendFn or DoneFn, which run on the
    agent thread, may call stop() themselves. */
module OtaAgentStop {
  import opened Wrappers
  import opened FlashFrame
  import opened OtaTable
  import opened OtaInvariant
  import opened OtaRuns
  import opened OtaAgent
  import opened OtaAgentLifecycle

  // ----- a run in which a callback stops the agent -------------------------------------------

  // Thread 0 starts the agent. The first handler calls SendFn, or, when the image is empty and the
  // update fails at once, DoneFn. While the callback is still inside its stop(), a stop() on thread 1
  // comes and goes.

  ghost predicate Reached(c: Config, first: Context, s: State) {
    exists states: seq<State>, moves: seq<Move> ::
      RunTo(c, first, states, moves) && |states| == |moves| + 1 && states[|moves|] == s
  }

  lemma ReachedOnce(c: Config, first: Context, s: State)
    requires Inv(first) && Initial(s, first)
    ensures Reached(c, first, s)
  {
    hide Inv, Initial, Enabled, After;
    assert RunTo(c, first, [s], []) && [s][0] == s;
  }

  lemma Extends(c: Config, first: Context, states: seq<State>, moves: seq<Move>, move: Move)
    requires RunTo(c, first, states, moves) && |states| == |moves| + 1 && Enabled(c, states[|moves|], move)
    ensures RunTo(c, first, states + [After(c, states[|moves|], move)], moves + [move])
  {
    hide Inv, Initial, Enabled, After;
  }

  lemma ReachedNext(c: Config, first: Context, s: State, move: Move)
    requires Reached(c, first, s) && Enabled(c, s, move)
    ensures Reached(c, first, After(c, s, move))
  {
    hide RunTo, Enabled, After;
    var states, moves :| RunTo(c, first, states, moves) && |states| == |moves| + 1 && states[|moves|] == s;
    Extends(c, first, states, moves, move);
    var longer: seq<State> := states + [After(c, s, move)];
    assert RunTo(c, first, longer, moves + [move]) && longer[|moves + [move]|] == After(c, s, move);
  }

  const ON: Flags := Flags(true, true, false, false, false, true)

  function Scene(f: Flags, owner: Option<nat>, agent: AgentPc, a: CallerPc, b: CallerPc, queue: seq<Task>, u: Update): State {
    State(Threads(f, owner, Some(0), agent, [a, b]), queue, false, u)
  }

  lemma Next(c: Config, first: Context, s: State, move: Move, t: State)
    requires Reached(c, first, s) && Enabled(c, s, move) && After(c, s, move) == t
    ensures Reached(c, first, t)
  {
    ReachedNext(c, first, s, move);
  }

  predicate IsFresh(c: Context) {
    c == Fresh(c.image, c.version, c.timing)
  }

  const OFF: Flags := Flags(false, false, false, false, false, false)

  lemma ClaimPhase(c: Config, first: Context)
    requires IsFresh(first) && Inv(first)
    ensures Reached(c, first, Scene(ON, None, NoThread, Locking, Away, [BeginUpdate], NewUpdate(first)))
  {
    hide Inv, Reached, InImage, Fresh, SnapshotOf, AfterStop, AfterAgent, UpdateAfterAgent, Tells, Says;
    RunGrows(first, [], Start(0));
    var u := NewUpdate(first);
    var s0 := State(Threads(OFF, None, None, NoThread, [Away, Away]), [], false, u);
    ReachedOnce(c, first, s0);
    var s1 := State(Threads(OFF, None, None, NoThread, [Claiming, Away]), [], false, u);
    Next(c, first, s0, CallStart(0), s1);
    var s2 := Scene(OFF.(started := true), None, NoThread, Enabling, Away, [], u);
    Next(c, first, s1, CallerSteps(0), s2);
    var s3 := Scene(ON, None, NoThread, Posting, Away, [], u);
    Next(c, first, s2, CallerSteps(0), s3);
    var s4 := Scene(ON, None, NoThread, Locking, Away, [BeginUpdate], u);
    Next(c, first, s3, CallerSteps(0), s4);
  }

  lemma StartPhase(c: Config, first: Context)
    requires IsFresh(first) && Inv(first)
    ensures Reached(c, first, Scene(ON, None, Starting, Away, Away, [BeginUpdate], NewUpdate(first)))
  {
    hide Inv, Reached, InImage, Fresh, SnapshotOf, AfterStop, AfterAgent, UpdateAfterAgent, Tells, Says;
    RunGrows(first, [], Start(0));
    ClaimPhase(c, first);
    var (u, queue) := (NewUpdate(first), [BeginUpdate]);
    var s4 := Scene(ON, None, NoThread, Locking, Away, queue, u);
    var s5 := Scene(ON, Some(0), NoThread, Checking, Away, queue, u);
    Next(c, first, s4, CallerSteps(0), s5);
    var s6 := Scene(ON, Some(0), NoThread, Creating, Away, queue, u);
    Next(c, first, s5, CallerSteps(0), s6);
    var s7 := Scene(ON, Some(0), Starting, Leaving, Away, queue, u);
    Next(c, first, s6, CallerSteps(0), s7);
    Next(c, first, s7, CallerSteps(0), Scene(ON, None, Starting, Away, Away, queue, u));
  }

  const KNOWN: Flags := Flags(true, true, false, true, false, true)

  lemma HandlerPhase(c: Config, first: Context)
    requires IsFresh(first) && Inv(first) && InImage(first)
    ensures Reached(c, first, Scene(KNOWN, None, Stepping(BeginUpdate), Away, Away, [], NewUpdate(first)))
  {
    hide Inv, Reached, InImage, Stepped, Terminal, SnapshotOf;
    StartPhase(c, first);
    var (u, task) := (NewUpdate(first), BeginUpdate);
    var s0 := Scene(ON, None, Starting, Away, Away, [task], u);
    var go := AgentSteps(0, true, true);
    var s1 := Scene(KNOWN, None, Polling, Away, Away, [task], u);
    Next(c, first, s0, go, s1);
    var s2 := Scene(KNOWN, None, Entered(task), Away, Away, [], u);
    Next(c, first, s1, AgentTakes, s2);
    Next(c, first, s2, go, Scene(KNOWN, None, Stepping(task), Away, Away, [], u));
  }

  /** The callback's stop() has begun. */
  function Stopping(from: Callback, u: Update): State {
    Scene(KNOWN, None, SelfIdentifying(from, BeginUpdate), Away, Away, [], u)
  }

  lemma ImageAsks(version: u32, timing: Timing)
    ensures var o := Stepped(Fresh([0], version, timing), Start(0)); o.out != [] && InImage(o.next)
  {
    hide Wire;
  }

  lemma SendPhase(c: Config, first: Context) returns (u: Update)
    requires IsFresh(first) && Inv(first) && InImage(first) && MayStop(c, InSend)
    requires Stepped(first, Start(0)).out != [] && InImage(Stepped(first, Start(0)).next)
    ensures InImage(u.session) && Reached(c, first, Stopping(InSend, u))
  {
    hide Inv, Reached, InImage, Stepped, Terminal, SnapshotOf;
    HandlerPhase(c, first);
    var (task, go) := (BeginUpdate, AgentSteps(0, true, true));
    var v := SessionStepped(NewUpdate(first), Start(0));
    var s0 := Scene(KNOWN, None, Stepping(task), Away, Away, [], NewUpdate(first));
    var s1 := Scene(KNOWN, None, Delivering(task), Away, Away, [], v);
    Next(c, first, s0, go, s1);
    u := SendReturned(c, v, true);
    Next(c, first, s1, go, Stopping(InSend, u));
  }

  lemma EmptyImageFails(version: u32, timing: Timing)
    ensures var o := Stepped(Fresh([], version, timing), Start(0)); Terminal(o.next) && o.out == [] && InImage(o.next)
  {}

  lemma DonePhase(c: Config, first: Context) returns (u: Update)
    requires IsFresh(first) && Inv(first) && InImage(first) && MayStop(c, InDone)
    requires var o := Stepped(first, Start(0)); Terminal(o.next) && o.out == [] && InImage(o.next)
    ensures InImage(u.session) && Reached(c, first, Stopping(InDone, u))
  {
    hide Inv, Reached, InImage, Stepped, Terminal, SnapshotOf;
    HandlerPhase(c, first);
    var (task, go) := (BeginUpdate, AgentSteps(0, true, true));
    var v := SessionStepped(NewUpdate(first), Start(0));
    var s0 := Scene(KNOWN, None, Stepping(task), Away, Away, [], NewUpdate(first));
    var s1 := Scene(KNOWN, None, Publishing(task), Away, Away, [], v);
    Next(c, first, s0, go, s1);
    var s2 := Scene(KNOWN, None, Firing(task), Away, Away, [], Published(v));
    Next(c, first, s1, go, s2);
    u := Fired(c, Published(v));
    var s3 := Scene(KNOWN, None, Notifying(task), Away, Away, [], u);
    Next(c, first, s2, go, s3);
    Next(c, first, s3, go, Stopping(InDone, u));
  }

  const CLEARED: Flags := Flags(true, false, false, true, false, true)

  /** The agent thread inside the callback, a second thread's stop() on the point of returning. */
  function Overtaken(from: Callback, u: Update): State {
    Scene(CLEARED, Some(1), SelfHalting(from, BeginUpdate), Away, Releasing(true), [], u)
  }

  lemma StopPhase(c: Config, first: Context, from: Callback, u: Update)
    requires InImage(u.session) && Reached(c, first, Stopping(from, u))
    ensures Reached(c, first, Overtaken(from, u))
  {
    hide Reached, InImage;
    var (task, go) := (BeginUpdate, AgentSteps(0, true, true));
    var s1 := Stopping(from, u);
    var s2 := Scene(KNOWN, None, SelfClearing(from, task), Away, Away, [], u);
    Next(c, first, s1, go, s2);
    var inside := SelfHalting(from, task);
    var s3 := Scene(CLEARED, None, inside, Away, Away, [], u);
    Next(c, first, s2, go, s3);
    var s4 := Scene(CLEARED, None, inside, Away, Identifying(true), [], u);
    Next(c, first, s3, CallStop(1), s4);
    var s5 := Scene(CLEARED, None, inside, Away, Waiting(true), [], u);
    Next(c, first, s4, CallerSteps(1), s5);
    var s6 := Scene(CLEARED, Some(1), inside, Away, Clearing(true), [], u);
    Next(c, first, s5, CallerSteps(1), s6);
    Next(c, first, s6, CallerSteps(1), Overtaken(from, u));
  }

  lemma GuaranteeFails(c: Config)
    requires StopsItself(c)
    ensures !StopGuarantee(c)
  {
    hide Reached, Inv, SnapshotOf, Stepped, Terminal, InImage, Overtaken, Enabled, After;
    var timing := Timing(0, 0, 0, 0);
    var from := if MayStop(c, InSend) then InSend else InDone;
    var image: seq<bv8> := if from == InSend then [0] else [];
    var first := Fresh(image, 0, timing);
    FreshInv(image, 0, timing);
    RunGrows(first, [], Start(0));
    assert Run(first, []) == first;
    var u: Update;
    if from == InSend {
      ImageAsks(0, timing);
      u := SendPhase(c, first);
    } else {
      EmptyImageFails(0, timing);
      u := DonePhase(c, first);
    }
    StopPhase(c, first, from, u);
    OvertakenReturns(c, from, u);
    Returns(c, first, Overtaken(from, u));
  }

  lemma OvertakenReturns(c: Config, from: Callback, u: Update)
    requires InImage(u.session)
    ensures var s := Overtaken(from, u);
      && Enabled(c, s, CallerSteps(1)) && LateReturn(s.threads, CallerSteps(1))
      && !Gone(After(c, s, CallerSteps(1)).threads)
  {
    hide InImage;
  }

  lemma Returns(c: Config, first: Context, s: State)
    requires Reached(c, first, s) && Enabled(c, s, CallerSteps(1)) && LateReturn(s.threads, CallerSteps(1))
    requires !Gone(After(c, s, CallerSteps(1)).threads)
    ensures !StopGuarantee(c)
  {
    hide RunTo, Enabled, After, Gone;
    var states, moves :| RunTo(c, first, states, moves) && |states| == |moves| + 1 && states[|moves|] == s;
    Extends(c, first, states, moves, CallerSteps(1));
    var longer: seq<State> := states + [After(c, s, CallerSteps(1))];
    var more := moves + [CallerSteps(1)];
    assert RunTo(c, first, longer, more) && LateReturn(longer[|moves|].threads, more[|moves|])
      && !Gone(longer[|moves| + 1].threads);
  }

  /** The guarantee holds exactly when neither callback can stop the agent from inside. */
  lemma StopGuaranteeExact(c: Config)
    ensures StopGuarantee(c) <==> !StopsItself(c)
  {
    hide StopGuarantee, StopsItself;
    if StopsItself(c) {
      GuaranteeFails(c);
    } else {
      GuaranteeHolds(c);
    }
  }
}
