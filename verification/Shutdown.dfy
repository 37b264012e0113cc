/** The graceful shutdown protocol of internal/server/server.go as a transition
    system: the RunAll caller, its drain sequencer, N servers, and beneath each
    server one accept goroutine with its one-slot serveErr channel.

    Every nondeterministic choice (which ready case a select takes, how a bind,
    an accept loop or a Shutdown call ends, when time passes) is an event, so
    Apply is a function and a run is a sequence of events. */
module Shutdown {
  import opened Options

  /** An error value; the constructor says which operation Run or Serve named
      when wrapping it. */
  datatype Error =
    | ListenError(cause: nat)
    | ServeError(cause: nat)
    | ShutdownError(cause: nat)

  /** A returned Go error: None is nil. */
  type Outcome = Option<Error>

  /** Where the goroutine started by group.Go for one server is. */
  datatype Phase =
    | Unspawned
    | Listening                  // inside ListenConfig.Listen
    | Serving                    // at the select in Serve
    | ShuttingDown               // inside httpServer.Shutdown
    | Collecting                 // receiving from serveErr after Shutdown
    | Returned(result: Outcome)  // Run has returned to the group
    | Joined(result: Outcome)    // the group has recorded the return

  /** Where the goroutine that calls httpServer.Serve is. */
  datatype Accept =
    | Idle
    | Starting
    | Accepting
    | Sending(result: Outcome)
    | Exited(result: Outcome)

  /** The serveErr channel, which has capacity one. */
  datatype Slot = Empty | Full(result: Outcome)

  /** What has become of the httpServer.Shutdown call. */
  datatype Closing = NotRun | InProgress | Succeeded | Failed

  datatype Server = Server(phase: Phase, accept: Accept, slot: Slot, closing: Closing)

  datatype Sequencer =
    | Unstarted
    | AwaitingSignal      // the first select in drain
    | Signalled           // ctx.Done was taken; SetDraining comes next
    | Arming              // draining; NewTimer comes next
    | Holding(armed: int) // the second select in drain
    | Stopping            // stopServing comes next
    | Finished

  datatype Caller =
    | Spawning(next: nat)
    | Waiting                      // inside group.Wait
    | Closing(result: Outcome)     // Wait returned; close(done) comes next
    | Reaping(result: Outcome)     // inside sequencer.Wait
    | Done(result: Outcome)        // RunAll has returned

  datatype State = State(
    delay: int,              // cfg.PreDrainDelay
    servers: seq<Server>,
    sequencer: Sequencer,
    caller: Caller,
    cancelled: bool,         // the ctx given to RunAll
    stopped: bool,           // serveCtx, cancelled by stopServing
    err: Outcome,            // the error group's first error
    done: bool,              // the done channel is closed
    draining: Option<int>,   // when SetDraining ran, if it has
    clock: int)

  datatype ServerEvent =
    | ListenOk
    | ListenFails(cause: nat)
    | AcceptStarts
    | AcceptCloses
    | AcceptFails(cause: nat)
    | AcceptSends
    | SelectReceives
    | SelectSeesStop
    | ShutdownOk
    | ShutdownFails(cause: nat)
    | Collects
    | Joins

  datatype SequencerEvent =
    | SeesSignal
    | SeesDone
    | SetsDraining
    | ArmsTimer
    | TimerFires
    | HoldInterrupted
    | StopsServing

  datatype CallerEvent =
    | Spawns
    | StartsSequencer
    | WaitReturns
    | ClosesDone
    | Returns

  datatype Event =
    | Cancel
    | Tick
    | Main(caller: CallerEvent)
    | Drain(sequencer: SequencerEvent)
    | At(index: nat, server: ServerEvent)

  function NewServer(): Server {
    Server(Unspawned, Idle, Empty, NotRun)
  }

  /** RunAll's first instruction, with n servers configured. */
  function Init(n: nat, delay: int): State {
    State(delay, seq(n, _ => NewServer()), Unstarted, Spawning(0), false, false, None, false, None, 0)
  }

  /** The group's context: derived from serveCtx, and cancelled by the group
      itself on the first error and when Wait returns. */
  predicate GroupStopped(s: State) {
    s.stopped || s.err.Some? || !(s.caller.Spawning? || s.caller.Waiting?)
  }

  predicate AllJoined(s: State) {
    forall i :: 0 <= i < |s.servers| ==> s.servers[i].phase.Joined?
  }

  // ---- one server ----

  /** http.Server's contract for the accept call: it returns cleanly only once
      Shutdown has been called, then also when it had not started yet; it may
      fail at any time. */
  predicate ServerCan(v: Server, stop: bool, e: ServerEvent) {
    match e
    case ListenOk => v.phase.Listening?
    case ListenFails(_) => v.phase.Listening?
    case AcceptStarts => v.accept.Starting? && v.closing.NotRun?
    case AcceptCloses => (v.accept.Starting? || v.accept.Accepting?) && !v.closing.NotRun?
    case AcceptFails(_) => v.accept.Starting? || v.accept.Accepting?
    case AcceptSends => v.accept.Sending? && v.slot.Empty?
    case SelectReceives => v.phase.Serving? && v.slot.Full?
    case SelectSeesStop => v.phase.Serving? && stop
    case ShutdownOk => v.phase.ShuttingDown?
    case ShutdownFails(_) => v.phase.ShuttingDown?
    case Collects => v.phase.Collecting? && v.slot.Full?
    case Joins => v.phase.Returned?
  }

  function ServerDo(v: Server, stop: bool, e: ServerEvent): Server
    requires ServerCan(v, stop, e)
  {
    match e
    case ListenOk => v.(phase := Serving, accept := Starting)
    case ListenFails(c) => v.(phase := Returned(Some(ListenError(c))))
    case AcceptStarts => v.(accept := Accepting)
    case AcceptCloses => v.(accept := Sending(None))
    case AcceptFails(c) => v.(accept := Sending(Some(ServeError(c))))
    case AcceptSends => v.(accept := Exited(v.accept.result), slot := Full(v.accept.result))
    case SelectReceives => v.(phase := Returned(v.slot.result), slot := Empty)
    case SelectSeesStop => v.(phase := ShuttingDown, closing := InProgress)
    case ShutdownOk => v.(phase := Collecting, closing := Succeeded)
    case ShutdownFails(c) => v.(phase := Returned(Some(ShutdownError(c))), closing := Failed)
    case Collects => v.(phase := Returned(v.slot.result), slot := Empty)
    case Joins => v.(phase := Joined(v.phase.result))
  }

  // ---- the drain sequencer ----

  predicate DrainCan(s: State, e: SequencerEvent) {
    match e
    case SeesSignal => s.sequencer.AwaitingSignal? && s.cancelled
    case SeesDone => s.sequencer.AwaitingSignal? && s.done
    case SetsDraining => s.sequencer.Signalled?
    case ArmsTimer => s.sequencer.Arming?
    case TimerFires => s.sequencer.Holding? && s.clock >= s.sequencer.armed + s.delay
    case HoldInterrupted => s.sequencer.Holding? && s.done
    case StopsServing => s.sequencer.Stopping?
  }

  function DrainDo(s: State, e: SequencerEvent): State
    requires DrainCan(s, e)
  {
    match e
    case SeesSignal => s.(sequencer := Signalled)
    case SeesDone => s.(sequencer := Finished)
    case SetsDraining => s.(sequencer := Arming, draining := Some(s.clock))
    case ArmsTimer => s.(sequencer := Holding(s.clock))
    case TimerFires => s.(sequencer := Stopping)
    case HoldInterrupted => s.(sequencer := Stopping)
    case StopsServing => s.(sequencer := Finished, stopped := true)
  }

  // ---- the RunAll caller ----

  predicate MainCan(s: State, e: CallerEvent) {
    match e
    case Spawns => s.caller.Spawning? && s.caller.next < |s.servers|
    case StartsSequencer => s.caller.Spawning? && s.caller.next >= |s.servers|
    case WaitReturns => s.caller.Waiting? && AllJoined(s)
    case ClosesDone => s.caller.Closing?
    case Returns => s.caller.Reaping? && s.sequencer.Finished?
  }

  function MainDo(s: State, e: CallerEvent): State
    requires MainCan(s, e)
  {
    match e
    case Spawns =>
      var k := s.caller.next;
      s.(servers := s.servers[k := s.servers[k].(phase := Listening)], caller := Spawning(k + 1))
    case StartsSequencer => s.(caller := Waiting, sequencer := AwaitingSignal)
    case WaitReturns => s.(caller := Closing(s.err))
    case ClosesDone => s.(caller := Reaping(s.caller.result), done := true)
    case Returns => s.(caller := Done(s.caller.result), stopped := true)
  }

  // ---- the whole system ----

  predicate Enabled(s: State, e: Event) {
    match e
    case Cancel => !s.cancelled
    case Tick => true
    case Main(c) => MainCan(s, c)
    case Drain(d) => DrainCan(s, d)
    case At(i, v) => i < |s.servers| && ServerCan(s.servers[i], GroupStopped(s), v)
  }

  /** The outcome that server event e hands to the error group, if it does. */
  function Handed(v: Server, e: ServerEvent): Outcome {
    if e.Joins? && v.phase.Returned? then v.phase.result else None
  }

  function Apply(s: State, e: Event): State
    requires Enabled(s, e)
  {
    match e
    case Cancel => s.(cancelled := true)
    case Tick => s.(clock := s.clock + 1)
    case Main(c) => MainDo(s, c)
    case Drain(d) => DrainDo(s, d)
    case At(i, v) =>
      // errgroup: the first non-nil return is kept and cancels the group.
      s.(servers := s.servers[i := ServerDo(s.servers[i], GroupStopped(s), v)],
         err := if s.err.None? then Handed(s.servers[i], v) else s.err)
  }

  // ---- runs ----

  predicate ValidRun(s: State, es: seq<Event>)
    decreases |es|
  {
    es == [] || (Enabled(s, es[0]) && ValidRun(Apply(s, es[0]), es[1..]))
  }

  function After(s: State, es: seq<Event>): State
    requires ValidRun(s, es)
    decreases |es|
  {
    if es == [] then s else After(Apply(s, es[0]), es[1..])
  }

  /** The first error any server handed to the group during the run. */
  function FirstError(s: State, es: seq<Event>): Outcome
    requires ValidRun(s, es)
    decreases |es|
  {
    if es == [] then None
    else
      var e := es[0];
      if e.At? && Handed(s.servers[e.index], e.server).Some?
      then Handed(s.servers[e.index], e.server)
      else FirstError(Apply(s, e), es[1..])
  }
}
