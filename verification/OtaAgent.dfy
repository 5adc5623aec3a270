/** The update agent's threads (src/integration/OtaAgent.cpp): any number of outside threads calling start()
    and stop(), transport threads posting frames, and the one thread that runs the session. Every
    access to an atomic flag, the mutex, the context or the session is a step of its own. */
module OtaAgent {
  import opened Wrappers
  import opened FlashFrame
  import opened OtaTable
  import opened OtaInvariant
  import opened OtaRuns

  datatype Task = BeginUpdate | FrameArrived(frame: Frame) | TickFired

  /** The two functions the agent calls on its own thread. */
  datatype Callback = InSend | InDone

  /** Where the agent thread is. */
  datatype AgentPc =
    | NoThread
    | Starting                      // created; its id not yet stored
    | Polling                       // in the context's loop, between handlers
    | Entered(task: Task)
    | Stepping(task: Task)          // about to call the session
    | Delivering(task: Task)           // about to call SendFn with the session's bytes
    | Publishing(task: Task)
    | Firing(task: Task)            // in fireDoneIfTerminal
    | Notifying(task: Task)         // inside onDone
    | SelfIdentifying(from: Callback, task: Task)  // inside a stop() made by a callback: compares thread ids
    | SelfClearing(from: Callback, task: Task)
    | SelfHalting(from: Callback, task: Task)
    | SelfQueueing(from: Callback, task: Task)     // ... had the ids differed: waiting for a join of itself
    | Closing(task: Task)           // back in the handler, which may arm the timer
    | Exited

  /** Where an outside thread is: in neither call, in start(), or in stop(). `late` says of a stop()
      that it began after `running` was first set. */
  datatype CallerPc =
    | Away
    | Claiming | Enabling | Posting | Locking | Checking | Creating | Leaving
    | Identifying(late: bool) | Waiting(late: bool) | Clearing(late: bool) | Halting(late: bool)
    | Joining(late: bool) | Releasing(late: bool)

  datatype Progress = Progress(stage: Stage, failure: Failure, nakCode: bv8, bytesAcknowledged: nat, imageSize: nat,
                               alreadyUpToDate: bool, transportFailed: bool)

  function SnapshotOf(c: Context, transportFailed: bool): Progress {
    Progress(StageOf(c), c.failure, c.nakCode, c.sentBytes, |c.image|, c.alreadyUpToDate, transportFailed)
  }

  /** What the agent was built with: whether there is a SendFn and a DoneFn, and whether they may
      call stop(). */
  datatype Config = Config(hasSend: bool, sendMayStop: bool, hasDone: bool, doneMayStop: bool)

  predicate MayStop(c: Config, from: Callback) {
    match from
    case InSend => c.hasSend && c.sendMayStop
    case InDone => c.hasDone && c.doneMayStop
  }

  /** A callback may end the run from inside the agent thread. */
  predicate StopsItself(c: Config) {
    MayStop(c, InSend) || MayStop(c, InDone)
  }

  /** The atomic flags, and two facts about the past: whether `running` was ever set, and whether the
      thread has been joined. */
  datatype Flags = Flags(started: bool, running: bool, halted: bool, knownId: bool, joined: bool, everRan: bool)

  /** The threads: flags, the owner of the stop mutex, whose start() won, and every program counter. */
  datatype Threads = Threads(flags: Flags, owner: Option<nat>, starter: Option<nat>, agent: AgentPc, callers: seq<CallerPc>)

  /** Bytes for the transport, and whether a SendFn took them. */
  datatype Attempt = Attempt(bytes: seq<bv8>, taken: bool)

  /** The session and what is published of it, with its inputs so far, the snapshots handed to onDone, the
      bytes a handler has yet to send, and those it has sent or tried to. */
  datatype Update = Update(session: Context, transportFailed: bool, doneFired: bool, progress: Progress,
                           inputs: seq<Input>, told: seq<Progress>, pending: seq<bv8>, attempts: seq<Attempt>)

  datatype State = State(threads: Threads, queue: seq<Task>, ticking: bool, update: Update)

  datatype Move =
    | CallStart(i: nat)
    | CallStop(i: nat)
    | CallerSteps(i: nat)
    | FramePosted(frame: Frame)
    | AgentTakes                    // the next posted handler
    | AgentTicks                    // the timer's handler
    | AgentExits                    // the context is stopped, or out of work
    | AgentSteps(at: int, delivered: bool, stops: bool)

  // ----- outside threads ---------------------------------------------------------------------

  predicate Holds(pc: CallerPc) {
    pc.Checking? || pc.Creating? || pc.Leaving? || pc.Clearing? || pc.Halting? || pc.Joining? || pc.Releasing?
  }

  /** There is nothing to join before the thread's creation or after a join. */
  predicate Joinable(t: Threads) {
    t.agent != NoThread && !t.flags.joined
  }

  predicate CallerEnabled(t: Threads, i: nat) {
    i < |t.callers| &&
    match t.callers[i]
    case Away => false
    case Locking => t.owner == None
    case Waiting(_) => t.owner == None
    case Joining(_) => Joinable(t) ==> t.agent == Exited
    case _ => true
  }

  function Goes(t: Threads, i: nat, pc: CallerPc): Threads
    requires i < |t.callers|
  {
    t.(callers := t.callers[i := pc])
  }

  function AfterStart(t: Threads, i: nat): Threads
    requires i < |t.callers|
  {
    var f := t.flags;
    match t.callers[i]
    case Claiming =>
      if f.started then Goes(t, i, Away) else Goes(t.(flags := f.(started := true), starter := Some(i)), i, Enabling)
    case Enabling => Goes(t.(flags := f.(running := true, everRan := true)), i, Posting)
    case Posting => Goes(t, i, Locking)
    case Locking => Goes(t.(owner := Some(i)), i, Checking)
    case Checking => Goes(t, i, if f.running then Creating else Leaving)
    case Creating => Goes(t.(agent := Starting), i, Leaving)
    case Leaving => Goes(t.(owner := None), i, Away)
    case _ => t
  }

  function AfterStop(t: Threads, i: nat): Threads
    requires i < |t.callers|
  {
    var f := t.flags;
    match t.callers[i]
    case Identifying(late) => Goes(t, i, Waiting(late))
    case Waiting(late) => Goes(t.(owner := Some(i)), i, Clearing(late))
    case Clearing(late) => Goes(t.(flags := f.(running := false)), i, if f.running then Halting(late) else Releasing(late))
    case Halting(late) => Goes(t.(flags := f.(halted := true)), i, Joining(late))
    case Joining(late) => Goes(t.(flags := f.(joined := f.joined || Joinable(t))), i, Releasing(late))
    case Releasing(_) => Goes(t.(owner := None), i, Away)
    case _ => t
  }

  predicate InStop(pc: CallerPc) {
    pc.Identifying? || pc.Waiting? || pc.Clearing? || pc.Halting? || pc.Joining? || pc.Releasing?
  }

  function AfterCaller(t: Threads, i: nat): Threads
    requires i < |t.callers|
  {
    if InStop(t.callers[i]) then AfterStop(t, i) else AfterStart(t, i)
  }

  // ----- the agent thread --------------------------------------------------------------------

  predicate AgentEnabled(c: Config, a: AgentPc, stops: bool) {
    match a
    case NoThread => false
    case Polling => false
    case Exited => false
    case SelfQueueing(_, _) => false
    case Delivering(_) => stops ==> MayStop(c, InSend)
    case Notifying(_) => stops ==> MayStop(c, InDone)
    case _ => true
  }

  /** Where a handler goes on after a callback. */
  function Returned(from: Callback, task: Task): AgentPc {
    if from == InSend then Publishing(task) else Closing(task)
  }

  /** The agent's step as its threads see it; `says` and `tells` say that the session has bytes to
      send, and that this is the call that fires onDone. */
  function AfterAgent(t: Threads, stops: bool, says: bool, tells: bool): Threads {
    var f := t.flags;
    match t.agent
    case Starting => t.(flags := f.(knownId := true), agent := Polling)
    case Entered(task) => t.(agent := if task.BeginUpdate? || f.running then Stepping(task) else Polling)
    case Stepping(task) => t.(agent := if says then Delivering(task) else Publishing(task))
    case Delivering(task) => t.(agent := if stops then SelfIdentifying(InSend, task) else Publishing(task))
    case Publishing(task) => t.(agent := Firing(task))
    case Firing(task) => t.(agent := if tells then Notifying(task) else Closing(task))
    case Notifying(task) => t.(agent := if stops then SelfIdentifying(InDone, task) else Closing(task))
    case SelfIdentifying(from, task) => t.(agent := if f.knownId then SelfClearing(from, task) else SelfQueueing(from, task))
    case SelfClearing(from, task) => t.(flags := f.(running := false), agent := SelfHalting(from, task))
    case SelfHalting(from, task) => t.(flags := f.(halted := true), agent := Returned(from, task))
    case Closing(task) => t.(agent := Polling)
    case _ => t
  }

  function InputOf(task: Task, at: int): Input {
    match task
    case BeginUpdate => Start(at)
    case FrameArrived(f) => Receive(f, at)
    case TickFired => Tick(at)
  }

  /** The handler's call into the session. */
  function SessionStepped(u: Update, i: Input): Update
    requires InImage(u.session)
  {
    u.(session := Stepped(u.session, i).next, inputs := u.inputs + [i], pending := Stepped(u.session, i).out)
  }

  /** The session has bytes to send. */
  predicate Says(u: Update, a: AgentPc, at: int)
    requires InImage(u.session)
  {
    a.Stepping? && Stepped(u.session, InputOf(a.task, at)).out != []
  }

  /** SendFn has taken the bytes, or has refused them, or there is none. */
  function SendReturned(c: Config, u: Update, delivered: bool): Update {
    u.(transportFailed := u.transportFailed || !(c.hasSend && delivered),
       attempts := u.attempts + [Attempt(u.pending, c.hasSend && delivered)], pending := [])
  }

  function Published(u: Update): Update {
    u.(progress := SnapshotOf(u.session, u.transportFailed))
  }

  predicate Tells(c: Config, u: Update) {
    Terminal(u.session) && !u.doneFired && c.hasDone
  }

  function Fired(c: Config, u: Update): Update {
    if !Terminal(u.session) || u.doneFired then u
    else u.(doneFired := true, told := if c.hasDone then u.told + [u.progress] else u.told)
  }

  function UpdateAfterAgent(c: Config, u: Update, a: AgentPc, at: int, delivered: bool): Update
    requires InImage(u.session)
  {
    match a
    case Stepping(task) => SessionStepped(u, InputOf(task, at))
    case Delivering(_) => SendReturned(c, u, delivered)
    case Publishing(_) => Published(u)
    case Firing(_) => Fired(c, u)
    case _ => u
  }

  /** A begin or tick handler that leaves the session running arms the timer. */
  predicate Arms(a: AgentPc, u: Update) {
    a.Closing? && !a.task.FrameArrived? && !Terminal(u.session)
  }

  // ----- the machine -------------------------------------------------------------------------

  predicate Enabled(c: Config, s: State, move: Move) {
    var t := s.threads;
    && InImage(s.update.session)
    && match move
    case CallStart(i) => i < |t.callers| && t.callers[i] == Away
    case CallStop(i) => i < |t.callers| && t.callers[i] == Away
    case CallerSteps(i) => CallerEnabled(t, i)
    case FramePosted(_) => true
    case AgentTakes => t.agent == Polling && !t.flags.halted && s.queue != []
    case AgentTicks => t.agent == Polling && !t.flags.halted && s.ticking
    case AgentExits => t.agent == Polling && (t.flags.halted || (s.queue == [] && !s.ticking))
    case AgentSteps(_, _, stops) => AgentEnabled(c, t.agent, stops)
  }

  function ThreadsAfter(c: Config, s: State, move: Move): Threads
    requires Enabled(c, s, move)
  {
    var t := s.threads;
    match move
    case CallStart(i) => Goes(t, i, Claiming)
    case CallStop(i) => Goes(t, i, Identifying(t.flags.everRan))
    case CallerSteps(i) => AfterCaller(t, i)
    case FramePosted(_) => t
    case AgentTakes => t.(agent := Entered(s.queue[0]))
    case AgentTicks => t.(agent := Entered(TickFired))
    case AgentExits => t.(agent := Exited)
    case AgentSteps(at, _, stops) => AfterAgent(t, stops, Says(s.update, t.agent, at), Tells(c, s.update))
  }

  function After(c: Config, s: State, move: Move): State
    requires Enabled(c, s, move)
  {
    var t := ThreadsAfter(c, s, move);
    match move
    case CallerSteps(i) =>
      s.(threads := t, queue := if s.threads.callers[i] == Posting then s.queue + [BeginUpdate] else s.queue)
    case FramePosted(f) => s.(queue := s.queue + [FrameArrived(f)])
    case AgentTakes => s.(threads := t, queue := s.queue[1..])
    case AgentTicks => s.(threads := t, ticking := false)
    case AgentSteps(at, delivered, _) =>
      s.(threads := t, ticking := s.ticking || Arms(s.threads.agent, s.update),
         update := UpdateAfterAgent(c, s.update, s.threads.agent, at, delivered))
    case _ => s.(threads := t)
  }

  function NewUpdate(session: Context): Update {
    Update(session, false, false, SnapshotOf(session, false), [], [], [], [])
  }

  /** A new agent, with the fresh session it builds, and its outside threads. */
  ghost predicate Initial(s: State, session: Context) {
    && session == Fresh(session.image, session.version, session.timing)
    && s.threads.flags == Flags(false, false, false, false, false, false)
    && s.threads.owner == None && s.threads.starter == None && s.threads.agent == NoThread
    && (forall i :: 0 <= i < |s.threads.callers| ==> s.threads.callers[i] == Away)
    && (forall t <- s.queue :: t.FrameArrived?) && !s.ticking && s.update == NewUpdate(session)
  }

  ghost predicate RunTo(c: Config, session: Context, states: seq<State>, moves: seq<Move>) {
    && Inv(session)
    && |states| == |moves| + 1 && Initial(states[0], session)
    && forall i :: 0 <= i < |moves| ==> Enabled(c, states[i], moves[i]) && states[i + 1] == After(c, states[i], moves[i])
  }
}
