/** RunAll as a program over shared mutable state. Each Advance method is one
    goroutine taking one step; RunAll lets a scheduler interleave them until the
    caller has returned. The scheduler may let time pass whenever it likes, but
    not for ever without another step; the runs of a process that keeps serving,
    and those merely assumed fair, are the subject of ShutdownLiveness. */
module Supervisor {
  import opened Options
  import opened Shutdown
  import opened ShutdownSafety
  import opened ShutdownLiveness

  /** A scheduler that, given the step number and the state, names an event that
      can happen, and lets time pass idly only while its patience lasts. */
  ghost predicate Schedules(pick: (nat, State) -> Event, patience: (nat, State) -> nat) {
    forall k: nat, s :: Inv(s) && !s.caller.Done? ==>
      && Enabled(s, pick(k, s))
      && (Progress(s, pick(k, s)) || patience(k + 1, Apply(s, pick(k, s))) < patience(k, s))
  }

  /** Some schedule can always be found: by FindMove when a step is owed, and by
      letting the operator cancel when the system is steadily serving. */
  lemma ScheduleExists()
    ensures exists pick: (nat, State) -> Event, patience: (nat, State) -> nat :: Schedules(pick, patience)
  {
    var pick := (k: nat, s: State) => if Inv(s) && !s.caller.Done? then AnyProgress(s) else Tick;
    var patience: (nat, State) -> nat := (k: nat, s: State) => 0;
    assert Schedules(pick, patience);
  }

  ghost function AnyProgress(s: State): (e: Event)
    requires Inv(s) && !s.caller.Done?
    ensures Enabled(s, e) && Progress(s, e)
  {
    if Steady(s) then Cancel
    else
      assert exists e :: Enabled(s, e) && Progress(s, e) by { var e := FindMove(s); }
      var e :| Enabled(s, e) && Progress(s, e);
      e
  }

  class Supervisor {
    const delay: int
    var servers: seq<Server>
    var sequencer: Sequencer
    var caller: Caller
    var cancelled: bool
    var stopped: bool
    var err: Outcome
    var done: bool
    var draining: Option<int>
    var clock: int

    constructor (n: nat, delay: int)
      ensures View() == Init(n, delay)
    {
      this.delay := delay;
      servers := seq(n, _ => NewServer());
      sequencer, caller := Unstarted, Spawning(0);
      cancelled, stopped, done := false, false, false;
      err, draining, clock := None, None, 0;
    }

    function View(): State
      reads this
    {
      State(delay, servers, sequencer, caller, cancelled, stopped, err, done, draining, clock)
    }

    /** The goroutine that called RunAll. */
    method AdvanceCaller(e: CallerEvent)
      requires Enabled(View(), Main(e))
      modifies this
      ensures View() == Apply(old(View()), Main(e))
    {
      match e
      case Spawns =>
        var k := caller.next;
        servers := servers[k := servers[k].(phase := Listening)];
        caller := Spawning(k + 1);
      case StartsSequencer =>
        sequencer := AwaitingSignal;
        caller := Waiting;
      case WaitReturns =>
        caller := Closing(err);
      case ClosesDone =>
        done := true;
        caller := Reaping(caller.result);
      case Returns =>
        stopped := true;  // the deferred stopServing
        caller := Done(caller.result);
    }

    /** The goroutine running drain. */
    method AdvanceSequencer(e: SequencerEvent)
      requires Enabled(View(), Drain(e))
      modifies this
      ensures View() == Apply(old(View()), Drain(e))
    {
      match e
      case SeesSignal => sequencer := Signalled;
      case SeesDone => sequencer := Finished;
      case SetsDraining =>
        draining := Some(clock);
        sequencer := Arming;
      case ArmsTimer => sequencer := Holding(clock);
      case TimerFires => sequencer := Stopping;
      case HoldInterrupted => sequencer := Stopping;
      case StopsServing =>
        stopped := true;
        sequencer := Finished;
    }

    /** Server i's Run goroutine, its accept goroutine, and the group's
        bookkeeping when Run returns. */
    method AdvanceServer(i: nat, e: ServerEvent)
      requires Enabled(View(), At(i, e))
      modifies this
      ensures View() == Apply(old(View()), At(i, e))
    {
      var v := servers[i];
      if e.Joins? && err.None? {
        err := v.phase.result;
      }
      var next := v;
      match e {
        case ListenOk => next := v.(phase := Serving, accept := Starting);
        case ListenFails(c) => next := v.(phase := Returned(Some(ListenError(c))));
        case AcceptStarts => next := v.(accept := Accepting);
        case AcceptCloses => next := v.(accept := Sending(None));
        case AcceptFails(c) => next := v.(accept := Sending(Some(ServeError(c))));
        case AcceptSends => next := v.(slot := Full(v.accept.result), accept := Exited(v.accept.result));
        case SelectReceives => next := v.(phase := Returned(v.slot.result), slot := Empty);
        case SelectSeesStop => next := v.(phase := ShuttingDown, closing := InProgress);
        case ShutdownOk => next := v.(phase := Collecting, closing := Succeeded);
        case ShutdownFails(c) => next := v.(phase := Returned(Some(ShutdownError(c))), closing := Failed);
        case Collects => next := v.(phase := Returned(v.slot.result), slot := Empty);
        case Joins => next := v.(phase := Joined(v.phase.result));
      }
      servers := servers[i := next];
    }

    method Advance(e: Event)
      requires Enabled(View(), e)
      modifies this
      ensures View() == Apply(old(View()), e)
    {
      match e
      case Cancel => cancelled := true;
      case Tick => clock := clock + 1;
      case Main(c) => AdvanceCaller(c);
      case Drain(d) => AdvanceSequencer(d);
      case At(i, v) => AdvanceServer(i, v);
    }

    /** Runs every goroutine to RunAll's return under any scheduler. */
    method RunAll(pick: (nat, State) -> Event, ghost patience: (nat, State) -> nat)
      returns (result: Outcome, ghost trace: seq<Event>)
      requires View() == Init(|servers|, delay)
      requires Schedules(pick, patience)
      modifies this
      ensures Reaches(|servers|, delay, trace, View()) && |servers| == old(|servers|)
      ensures caller == Done(result) && sequencer.Finished? && done
      ensures AllJoined(View())
      ensures result == FirstError(Init(|servers|, delay), trace)
      ensures result.None? <==>
              forall i :: 0 <= i < |servers| ==> servers[i].accept == Exited(None) && servers[i].closing.Succeeded?
      ensures ProgressCount(Init(|servers|, delay), trace) <= 11 * |servers| + Clamp(delay) + 11
    {
      ghost var s0 := View();
      ghost var n := |servers|;
      trace := [];
      var step := 0;
      InitInv(n, delay);
      while !caller.Done?
        invariant ValidRun(s0, trace) && View() == After(s0, trace)
        invariant Inv(View()) && |servers| == n
        decreases Measure(View()), patience(step, View())
      {
        var s := View();
        var e := pick(step, s);
        Advance(e);
        step := step + 1;
        StepKeepsInv(s, e);
        MeasureFalls(s, e);
        Extend(s0, trace, e);
        ErrIsFirstError(s, [e]);
        trace := trace + [e];
      }
      result := caller.result;
      ReturnsAfterEveryone(n, delay, trace, View());
      ResultIsFirstError(n, delay, trace, View());
      RunAllAlwaysReturns(n, delay, trace, View());
    }
  }

  lemma {:induction false} Extend(s: State, es: seq<Event>, e: Event)
    requires ValidRun(s, es) && Enabled(After(s, es), e)
    ensures ValidRun(s, es + [e]) && After(s, es + [e]) == Apply(After(s, es), e)
    ensures ValidRun(After(s, es), [e])
    ensures ProgressCount(s, es + [e]) == ProgressCount(s, es) + (if Progress(After(s, es), e) then 1 else 0)
    decreases |es|
  {
    if es == [] {
      assert es + [e] == [e] && [e][1..] == [];
    } else {
      assert (es + [e])[0] == es[0] && (es + [e])[1..] == es[1..] + [e];
      Extend(Apply(s, es[0]), es[1..], e);
    }
    assert [e][1..] == [] && ValidRun(Apply(After(s, es), e), []);
  }
}
