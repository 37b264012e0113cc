/** What every run of the shutdown protocol keeps: ordering, joining and the
    result RunAll returns. */
module ShutdownSafety {
  import opened Options
  import opened Shutdown

  /** The slot holds exactly what the accept goroutine sent, until it is received. */
  predicate SlotMirrorsAccept(v: Server) {
    match v.accept
    case Exited(r) => v.slot == Full(r)
    case _ => v.slot.Empty?
  }

  /** Why a server returned r: it never listened, its accept loop failed before
      any shutdown, Shutdown failed, or Shutdown and the accept loop both ended. */
  predicate ReturnExplained(v: Server, r: Outcome) {
    match v.closing
    case NotRun =>
      || (v.accept.Idle? && v.slot.Empty? && r.Some? && r.value.ListenError?)
      || (v.accept == Exited(r) && v.slot.Empty? && r.Some? && r.value.ServeError?)
    case InProgress => false
    case Succeeded => v.accept == Exited(r) && v.slot.Empty?
    case Failed => !v.accept.Idle? && SlotMirrorsAccept(v) && r.Some? && r.value.ShutdownError?
  }

  predicate ServerInv(v: Server) {
    && (v.accept.Exited? || v.accept.Sending? ==>
          if v.accept.result.None? then !v.closing.NotRun? else v.accept.result.value.ServeError?)
    && match v.phase
       case Unspawned => v == NewServer()
       case Listening => v == NewServer().(phase := Listening)
       case Serving => v.closing.NotRun? && !v.accept.Idle? && SlotMirrorsAccept(v)
       case ShuttingDown => v.closing.InProgress? && !v.accept.Idle? && SlotMirrorsAccept(v)
       case Collecting => v.closing.Succeeded? && !v.accept.Idle? && SlotMirrorsAccept(v)
       case Returned(r) => ReturnExplained(v, r)
       case Joined(r) => ReturnExplained(v, r)
  }

  /** The hold is over: readiness has been failing for the whole delay, or there
      is no server left to hold open. */
  predicate HeldLongEnough(s: State) {
    s.draining.Some? && (s.clock - s.draining.value >= s.delay || s.done)
  }

  predicate SequencerInv(s: State) {
    && (s.sequencer.Unstarted? <==> s.caller.Spawning?)
    && (s.draining.Some? ==> s.cancelled && s.draining.value <= s.clock)
    && match s.sequencer
       case Unstarted => s.draining.None? && !s.stopped
       case AwaitingSignal => s.draining.None? && !s.stopped
       case Signalled => s.draining.None? && s.cancelled && !s.stopped
       case Arming => s.draining.Some? && !s.stopped
       case Holding(a) => s.draining.Some? && s.draining.value <= a <= s.clock && !s.stopped
       case Stopping => HeldLongEnough(s) && !s.stopped
       case Finished =>
         || (HeldLongEnough(s) && s.stopped)
         || (s.draining.None? && s.done && (s.stopped <==> s.caller.Done?))
  }

  predicate CallerInv(s: State) {
    && (s.done <==> s.caller.Reaping? || s.caller.Done?)
    && match s.caller
       case Spawning(k) =>
         k <= |s.servers| && forall i :: 0 <= i < |s.servers| ==> (i >= k <==> s.servers[i].phase.Unspawned?)
       case Waiting => forall i :: 0 <= i < |s.servers| ==> !s.servers[i].phase.Unspawned?
       case Closing(r) => AllJoined(s) && r == s.err
       case Reaping(r) => AllJoined(s) && r == s.err
       case Done(r) => AllJoined(s) && r == s.err && s.sequencer.Finished?
  }

  predicate GroupInv(s: State) {
    && (forall i :: 0 <= i < |s.servers| && s.servers[i].phase.Joined? && s.servers[i].phase.result.Some? ==>
          s.err.Some?)
    && (s.err.Some? ==> exists i :: 0 <= i < |s.servers| && s.servers[i].phase == Joined(s.err))
  }

  /** The two things that entitle a server to stop: a server has failed, or
      readiness has been failing for the whole pre-drain delay. */
  predicate StopEarned(s: State) {
    s.err.Some? || (s.draining.Some? && s.clock - s.draining.value >= s.delay)
  }

  predicate ServersInv(s: State) {
    forall i :: 0 <= i < |s.servers| ==>
      ServerInv(s.servers[i]) && (!s.servers[i].closing.NotRun? ==> (s.stopped || s.err.Some?) && StopEarned(s))
  }

  predicate Inv(s: State) {
    ServersInv(s) && CallerInv(s) && GroupInv(s) && SequencerInv(s)
  }

  // ---- the invariant holds in every reachable state ----

  lemma InitInv(n: nat, delay: int)
    ensures Inv(Init(n, delay))
  {}

  lemma ServerStep(v: Server, stop: bool, e: ServerEvent)
    requires ServerInv(v) && ServerCan(v, stop, e)
    ensures ServerInv(ServerDo(v, stop, e))
    ensures !ServerDo(v, stop, e).closing.NotRun? ==> stop || !v.closing.NotRun?
    ensures Handed(v, e).Some? ==> ServerDo(v, stop, e).phase == Joined(Handed(v, e))
    ensures ServerDo(v, stop, e).phase.Joined? ==>
      e.Joins? || (v.phase.Joined? && ServerDo(v, stop, e).phase == v.phase)
    ensures v.phase.Joined? ==> ServerDo(v, stop, e).phase == v.phase
    ensures v.phase.Unspawned? <==> ServerDo(v, stop, e).phase.Unspawned?
  {}

  lemma StopIsEarned(s: State, i: nat)
    requires Inv(s) && i < |s.servers| && s.servers[i].phase.Serving? && GroupStopped(s)
    ensures (s.stopped || s.err.Some?) && StopEarned(s)
  {
    assert !AllJoined(s);
  }

  lemma AtKeepsServers(s: State, i: nat, e: ServerEvent)
    requires Inv(s) && Enabled(s, At(i, e))
    ensures ServersInv(Apply(s, At(i, e)))
  {
    var t := Apply(s, At(i, e));
    ServerStep(s.servers[i], GroupStopped(s), e);
    if e.SelectSeesStop? {
      StopIsEarned(s, i);
    }
    assert forall j :: 0 <= j < |s.servers| && j != i ==> t.servers[j] == s.servers[j];
  }

  lemma AtKeepsGroup(s: State, i: nat, e: ServerEvent)
    requires Inv(s) && Enabled(s, At(i, e))
    ensures GroupInv(Apply(s, At(i, e)))
  {
    var t := Apply(s, At(i, e));
    ServerStep(s.servers[i], GroupStopped(s), e);
    if s.err.Some? {
      var j :| 0 <= j < |s.servers| && s.servers[j].phase == Joined(s.err);
      assert t.servers[j].phase == Joined(t.err);
    } else if t.err.Some? {
      assert t.servers[i].phase == Joined(t.err);
    }
  }

  lemma AtStep(s: State, i: nat, e: ServerEvent)
    requires Inv(s) && Enabled(s, At(i, e))
    ensures Inv(Apply(s, At(i, e)))
  {
    AtKeepsServers(s, i, e);
    AtKeepsGroup(s, i, e);
    AtKeepsCaller(s, i, e);
  }

  lemma AtKeepsCaller(s: State, i: nat, e: ServerEvent)
    requires Inv(s) && Enabled(s, At(i, e))
    ensures CallerInv(Apply(s, At(i, e))) && SequencerInv(Apply(s, At(i, e)))
  {
    var t := Apply(s, At(i, e));
    ServerStep(s.servers[i], GroupStopped(s), e);
    assert forall j :: 0 <= j < |s.servers| && j != i ==> t.servers[j] == s.servers[j];
  }

  lemma MainStep(s: State, e: CallerEvent)
    requires Inv(s) && MainCan(s, e)
    ensures Inv(MainDo(s, e))
  {
    var t := MainDo(s, e);
    if e.Spawns? {
      var k := s.caller.next;
      assert forall j :: 0 <= j < |s.servers| && j != k ==> t.servers[j] == s.servers[j];
      assert ServersInv(t) && CallerInv(t);
      if s.err.Some? {
        var j :| 0 <= j < |s.servers| && s.servers[j].phase == Joined(s.err);
        assert t.servers[j].phase == Joined(t.err);
      }
    } else {
      assert t.servers == s.servers;
      assert ServersInv(t) && CallerInv(t) && GroupInv(t);
    }
  }

  lemma DrainStep(s: State, e: SequencerEvent)
    requires Inv(s) && DrainCan(s, e)
    ensures Inv(DrainDo(s, e))
  {
    assert DrainDo(s, e).servers == s.servers;
  }

  lemma StepKeepsInv(s: State, e: Event)
    requires Inv(s) && Enabled(s, e)
    ensures Inv(Apply(s, e))
  {
    match e
    case Main(c) => MainStep(s, c);
    case Drain(d) => DrainStep(s, d);
    case At(i, v) => AtStep(s, i, v);
    case Cancel =>
    case Tick =>
  }

  lemma {:induction false} RunKeepsInv(s: State, es: seq<Event>)
    requires Inv(s) && ValidRun(s, es)
    ensures Inv(After(s, es))
    decreases |es|
  {
    if es != [] {
      StepKeepsInv(s, es[0]);
      RunKeepsInv(Apply(s, es[0]), es[1..]);
    }
  }

  // ---- runs taken apart ----

  lemma {:induction false} RunSplits(s: State, es: seq<Event>, fs: seq<Event>)
    ensures ValidRun(s, es + fs) <==> ValidRun(s, es) && ValidRun(After(s, es), fs)
    ensures ValidRun(s, es + fs) ==> After(s, es + fs) == After(After(s, es), fs)
    decreases |es|
  {
    if es == [] {
      assert es + fs == fs;
    } else {
      assert (es + fs)[0] == es[0] && (es + fs)[1..] == es[1..] + fs;
      if Enabled(s, es[0]) {
        RunSplits(Apply(s, es[0]), es[1..], fs);
      }
    }
  }

  /** A state some run from RunAll's first instruction arrives at. */
  ghost predicate Reaches(n: nat, delay: int, es: seq<Event>, s: State) {
    ValidRun(Init(n, delay), es) && After(Init(n, delay), es) == s
  }

  lemma ReachableInv(n: nat, delay: int, es: seq<Event>, s: State)
    requires Reaches(n, delay, es, s)
    ensures Inv(s)
  {
    InitInv(n, delay);
    RunKeepsInv(Init(n, delay), es);
  }

  lemma {:induction false} ErrIsFirstError(s: State, es: seq<Event>)
    requires ValidRun(s, es)
    ensures After(s, es).err == if s.err.None? then FirstError(s, es) else s.err
    ensures After(s, es).delay == s.delay && |After(s, es).servers| == |s.servers|
    decreases |es|
  {
    if es != [] {
      ErrIsFirstError(Apply(s, es[0]), es[1..]);
    }
  }

  /** A run that is not empty is a run and one last step. */
  lemma LastStep(n: nat, delay: int, es: seq<Event>, s: State) returns (init: seq<Event>, last: Event, t: State)
    requires Reaches(n, delay, es, s) && es != []
    ensures es == init + [last] && Reaches(n, delay, init, t)
    ensures Enabled(t, last) && s == Apply(t, last)
  {
    init, last := es[..|es| - 1], es[|es| - 1];
    assert es == init + [last];
    RunSplits(Init(n, delay), init, [last]);
    t := After(Init(n, delay), init);
    assert After(t, [last]) == After(Apply(t, last), [last][1..]);
  }

  /** The draining timestamp is the clock at the run's SetsDraining event,
      which came after the caller's context was cancelled. */
  lemma {:induction false} DrainingIsRecorded(n: nat, delay: int, es: seq<Event>, s: State)
    requires Reaches(n, delay, es, s) && s.draining.Some?
    ensures exists k :: 0 <= k < |es| && es[k] == Drain(SetsDraining)
                     && ValidRun(Init(n, delay), es[..k])
                     && After(Init(n, delay), es[..k]).cancelled
                     && After(Init(n, delay), es[..k]).clock == s.draining.value
    decreases |es|
  {
    var s0 := Init(n, delay);
    assert es != [];
    var init, last, t := LastStep(n, delay, es, s);
    var k := |init|;
    assert es[..k] == init && es[k] == last;
    ReachableInv(n, delay, init, t);
    if last != Drain(SetsDraining) {
      DrainingIsRecorded(n, delay, init, t);
      var j :| 0 <= j < |init| && init[j] == Drain(SetsDraining)
            && ValidRun(s0, init[..j]) && After(s0, init[..j]).cancelled
            && After(s0, init[..j]).clock == t.draining.value;
      assert init[..j] == es[..j] && es[j] == Drain(SetsDraining);
    }
  }

  /** Readiness never stops failing once it has begun to. */
  lemma {:induction false} DrainingNeverClears(s: State, es: seq<Event>)
    requires Inv(s) && ValidRun(s, es) && s.draining.Some?
    ensures After(s, es).draining == s.draining
    decreases |es|
  {
    if es != [] {
      StepKeepsInv(s, es[0]);
      DrainingNeverClears(Apply(s, es[0]), es[1..]);
    }
  }

  // ---- the theorems ----

  /** A server takes the shutdown branch of its select only after some server
      handed the group an error, or once readiness has been failing for the
      whole pre-drain delay following a cancellation of the caller's context. */
  lemma StopsOnlyWhenEarned(n: nat, delay: int, es: seq<Event>, s: State, i: nat)
    requires Reaches(n, delay, es, s) && Enabled(s, At(i, SelectSeesStop))
    ensures || FirstError(Init(n, delay), es).Some?
            || exists k :: 0 <= k < |es| && es[k] == Drain(SetsDraining)
                        && ValidRun(Init(n, delay), es[..k])
                        && After(Init(n, delay), es[..k]).cancelled
                        && s.clock - After(Init(n, delay), es[..k]).clock >= delay
  {
    ReachableInv(n, delay, es, s);
    ErrIsFirstError(Init(n, delay), es);
    StopIsEarned(s, i);
    if s.err.None? {
      DrainingIsRecorded(n, delay, es, s);
    }
  }

  /** Shutdown has not been called on this server, and it is serving unless it is
      still starting or its own listen or accept call has just failed. */
  predicate HeldOpen(v: Server) {
    && v.closing.NotRun?
    && (v.phase.Unspawned? || v.phase.Listening? || v.phase.Serving?
        || (v.phase.Returned? && v.phase.result.Some?))
    && (v.phase.Serving? ==>
          || v.accept.Starting? || v.accept.Accepting?
          || (!v.accept.Idle? && v.accept.result.Some? && v.accept.result.value.ServeError?))
  }

  lemma NotStoppedIsHeldOpen(s: State)
    requires Inv(s) && s.err.None? && (!s.stopped || !StopEarned(s))
    ensures forall i :: 0 <= i < |s.servers| ==> HeldOpen(s.servers[i])
  {
    forall i | 0 <= i < |s.servers|
      ensures HeldOpen(s.servers[i])
    {
      assert ServerInv(s.servers[i]) && s.servers[i].closing.NotRun?;
    }
  }

  /** While no server has failed and the hold is not over, Shutdown has been
      called on no listener: every started one is held open for the hold. */
  lemma ListenersHeldOpen(n: nat, delay: int, es: seq<Event>, s: State)
    requires Reaches(n, delay, es, s)
    requires FirstError(Init(n, delay), es).None?
    requires s.draining.Some? ==> s.clock - s.draining.value < delay
    ensures forall i :: 0 <= i < |s.servers| ==> HeldOpen(s.servers[i])
  {
    ReachableInv(n, delay, es, s);
    ErrIsFirstError(Init(n, delay), es);
    assert !StopEarned(s);
    NotStoppedIsHeldOpen(s);
  }

  /** done is closed only after the last server returned to the group, and
      RunAll returns only after that and after the sequencer has finished. */
  lemma ReturnsAfterEveryone(n: nat, delay: int, es: seq<Event>, s: State)
    requires Reaches(n, delay, es, s)
    ensures s.done ==> AllJoined(s)
    ensures s.caller.Done? ==> s.done && s.sequencer.Finished?
  {
    ReachableInv(n, delay, es, s);
  }

  /** After RunAll has returned the sequencer takes no step: in particular it
      never calls stopServing then. */
  lemma {:induction false} NoDrainStepAfterReturn(n: nat, delay: int, es: seq<Event>, s: State, later: seq<Event>)
    requires Reaches(n, delay, es, s) && s.caller.Done? && ValidRun(s, later)
    ensures forall k :: 0 <= k < |later| ==> !later[k].Drain? && !later[k].Main?
    decreases |later|
  {
    ReachableInv(n, delay, es, s);
    if later != [] {
      assert ValidRun(s, [later[0]]);
      RunSplits(Init(n, delay), es, [later[0]]);
      assert After(s, [later[0]]) == Apply(s, later[0]) by {
        assert After(s, [later[0]]) == After(Apply(s, later[0]), [later[0]][1..]);
      }
      NoDrainStepAfterReturn(n, delay, es + [later[0]], Apply(s, later[0]), later[1..]);
      assert forall k :: 1 <= k < |later| ==> later[k] == later[1..][k - 1];
    }
  }

  /** No accept goroutine can block on its one-slot channel: whenever it has a
      result to send the slot is free, also when nobody will ever receive. */
  lemma AcceptNeverBlocks(n: nat, delay: int, es: seq<Event>, s: State, i: nat)
    requires Reaches(n, delay, es, s) && i < |s.servers| && s.servers[i].accept.Sending?
    ensures Enabled(s, At(i, AcceptSends))
  {
    ReachableInv(n, delay, es, s);
    assert ServerInv(s.servers[i]);
  }

  /** RunAll's result is the first error handed to the group. It is nil exactly
      when every server's accept loop ended cleanly and its Shutdown succeeded,
      so a failure that races with cancellation never becomes nil. */
  lemma ResultIsFirstError(n: nat, delay: int, es: seq<Event>, s: State)
    requires Reaches(n, delay, es, s) && s.caller.Done?
    ensures s.caller.result == FirstError(Init(n, delay), es)
    ensures s.caller.result.Some? ==> exists i :: 0 <= i < |s.servers| && s.servers[i].phase == Joined(s.caller.result)
    ensures s.caller.result.None? <==>
            forall i :: 0 <= i < |s.servers| ==> s.servers[i].accept == Exited(None) && s.servers[i].closing.Succeeded?
  {
    ReachableInv(n, delay, es, s);
    ErrIsFirstError(Init(n, delay), es);
    assert forall i :: 0 <= i < |s.servers| ==> ServerInv(s.servers[i]) && s.servers[i].phase.Joined?;
    if s.err.None? {
      forall i | 0 <= i < |s.servers|
        ensures s.servers[i].accept == Exited(None) && s.servers[i].closing.Succeeded?
      {
        assert s.servers[i].phase == Joined(None);
      }
    }
  }

  // ---- no error is invented ----

  /** The failure that produces error e. */
  function FailureOf(e: Error): ServerEvent {
    match e
    case ListenError(c) => ListenFails(c)
    case ServeError(c) => AcceptFails(c)
    case ShutdownError(c) => ShutdownFails(c)
  }

  predicate Carries(v: Server, e: Error) {
    || ((v.phase.Returned? || v.phase.Joined?) && v.phase.result == Some(e))
    || ((v.accept.Sending? || v.accept.Exited?) && v.accept.result == Some(e))
    || v.slot == Full(Some(e))
  }

  lemma CarriedByServer(v: Server, stop: bool, d: ServerEvent, e: Error)
    requires ServerCan(v, stop, d) && Carries(ServerDo(v, stop, d), e)
    ensures d == FailureOf(e) || Carries(v, e)
  {}

  lemma CarriedFromBefore(s: State, ev: Event, i: nat, e: Error)
    requires Enabled(s, ev) && i < |s.servers| && Carries(Apply(s, ev).servers[i], e)
    ensures ev == At(i, FailureOf(e)) || Carries(s.servers[i], e)
  {
    if ev.At? && ev.index == i {
      CarriedByServer(s.servers[i], GroupStopped(s), ev.server, e);
    } else {
      SpawningCarriesNothing(s, ev, i);
    }
  }

  /** A server that some other goroutine's step touches carries what it did. */
  lemma SpawningCarriesNothing(s: State, ev: Event, i: nat)
    requires Enabled(s, ev) && i < |s.servers| && !(ev.At? && ev.index == i)
    ensures var t := Apply(s, ev).servers[i];
      t == s.servers[i] || t == s.servers[i].(phase := Listening)
  {}

  /** An error a server carries was produced by that server's own failing call. */
  lemma {:induction false} CarriedErrorHappened(n: nat, delay: int, es: seq<Event>, s: State, i: nat, e: Error)
    requires Reaches(n, delay, es, s) && i < |s.servers| && Carries(s.servers[i], e)
    ensures At(i, FailureOf(e)) in es
    decreases |es|
  {
    assert es != [];
    var init, last, t := LastStep(n, delay, es, s);
    ErrIsFirstError(Init(n, delay), init);
    ErrIsFirstError(Init(n, delay), es);
    CarriedFromBefore(t, last, i, e);
    if last != At(i, FailureOf(e)) {
      CarriedErrorHappened(n, delay, init, t, i, e);
    }
  }

  /** An error RunAll returns really happened: some server's own listen, accept
      or Shutdown call failed with it; so a run in which no such call fails
      returns nil. */
  lemma ReturnedErrorHappened(n: nat, delay: int, es: seq<Event>, s: State)
    requires Reaches(n, delay, es, s) && s.caller.Done? && s.caller.result.Some?
    ensures exists i :: At(i, FailureOf(s.caller.result.value)) in es
  {
    ResultIsFirstError(n, delay, es, s);
    var i :| 0 <= i < |s.servers| && s.servers[i].phase == Joined(s.caller.result);
    CarriedErrorHappened(n, delay, es, s, i, s.caller.result.value);
  }

  // ---- no error is lost ----

  predicate IsFailure(e: ServerEvent) {
    e.ListenFails? || e.AcceptFails? || e.ShutdownFails?
  }

  /** Some server's own listen, accept or Shutdown call failed in the run. */
  predicate HasFailure(es: seq<Event>) {
    exists k :: 0 <= k < |es| && es[k].At? && IsFailure(es[k].server)
  }

  /** The mark a failing call leaves on its server for good. */
  predicate Failed(v: Server) {
    || ((v.phase.Returned? || v.phase.Joined?) && v.phase.result.Some?)
    || ((v.accept.Sending? || v.accept.Exited?) && v.accept.result.Some?)
  }

  lemma FailureMarks(v: Server, stop: bool, e: ServerEvent)
    requires ServerInv(v) && ServerCan(v, stop, e)
    ensures IsFailure(e) || Failed(v) ==> Failed(ServerDo(v, stop, e))
  {}

  lemma StepKeepsMarks(s: State, e: Event, i: nat)
    requires Inv(s) && Enabled(s, e) && i < |s.servers|
    requires Failed(s.servers[i]) || (e.At? && e.index == i && IsFailure(e.server))
    ensures |Apply(s, e).servers| == |s.servers| && Failed(Apply(s, e).servers[i])
  {
    if e.At? && e.index == i {
      FailureMarks(s.servers[i], GroupStopped(s), e.server);
    }
  }

  lemma {:induction false} MarksStay(s: State, es: seq<Event>, i: nat)
    requires Inv(s) && ValidRun(s, es) && i < |s.servers| && Failed(s.servers[i])
    ensures i < |After(s, es).servers| && Failed(After(s, es).servers[i])
    decreases |es|
  {
    if es != [] {
      StepKeepsInv(s, es[0]);
      StepKeepsMarks(s, es[0], i);
      MarksStay(Apply(s, es[0]), es[1..], i);
    }
  }

  lemma {:induction false} FailureIsMarked(s: State, es: seq<Event>) returns (i: nat)
    requires Inv(s) && ValidRun(s, es) && HasFailure(es)
    ensures i < |After(s, es).servers| && Failed(After(s, es).servers[i])
    decreases |es|
  {
    StepKeepsInv(s, es[0]);
    if es[0].At? && IsFailure(es[0].server) {
      i := es[0].index;
      StepKeepsMarks(s, es[0], i);
      MarksStay(Apply(s, es[0]), es[1..], i);
    } else {
      var k :| 0 <= k < |es| && es[k].At? && IsFailure(es[k].server);
      assert es[1..][k - 1] == es[k];
      i := FailureIsMarked(Apply(s, es[0]), es[1..]);
    }
  }

  /** RunAll returns nil exactly when no listen, accept or Shutdown call of any
      server failed in the run, whenever it would have failed. */
  lemma NilExactlyWhenNothingFailed(n: nat, delay: int, es: seq<Event>, s: State)
    requires Reaches(n, delay, es, s) && s.caller.Done?
    ensures s.caller.result.None? <==> !HasFailure(es)
  {
    ReachableInv(n, delay, es, s);
    ResultIsFirstError(n, delay, es, s);
    assert forall i :: 0 <= i < |s.servers| ==> ServerInv(s.servers[i]);
    if s.caller.result.Some? {
      ReturnedErrorHappened(n, delay, es, s);
      var i :| At(i, FailureOf(s.caller.result.value)) in es;
      var k :| 0 <= k < |es| && es[k] == At(i, FailureOf(s.caller.result.value));
    } else if HasFailure(es) {
      InitInv(n, delay);
      var i := FailureIsMarked(Init(n, delay), es);
      assert false;
    }
  }

  // ---- who is told what, and when ----

  function Ticks(es: seq<Event>): nat {
    if es == [] then 0 else (if es[0].Tick? then 1 else 0) + Ticks(es[1..])
  }

  lemma OneStepTells(s: State, e: Event)
    requires Enabled(s, e)
    ensures Apply(s, e).cancelled <==> s.cancelled || e == Cancel
    ensures Apply(s, e).done <==> s.done || e == Main(ClosesDone)
    ensures Apply(s, e).caller.Done? <==> s.caller.Done? || e == Main(Returns)
    ensures Apply(s, e).stopped <==> s.stopped || e == Drain(StopsServing) || e == Main(Returns)
    ensures Apply(s, e).clock == s.clock + (if e == Tick then 1 else 0) && Apply(s, e).delay == s.delay
  {}

  /** The shared flags record what happened in the run, and nothing else. */
  lemma {:induction false} FlagsTell(s: State, es: seq<Event>)
    requires ValidRun(s, es)
    ensures After(s, es).cancelled <==> s.cancelled || Cancel in es
    ensures After(s, es).done <==> s.done || Main(ClosesDone) in es
    ensures After(s, es).caller.Done? <==> s.caller.Done? || Main(Returns) in es
    ensures After(s, es).stopped <==> s.stopped || Drain(StopsServing) in es || Main(Returns) in es
    ensures After(s, es).clock == s.clock + Ticks(es) && After(s, es).delay == s.delay
    decreases |es|
  {
    if es != [] {
      OneStepTells(s, es[0]);
      var t := Apply(s, es[0]);
      FlagsTell(t, es[1..]);
      HeadOrTail(es);
    }
  }

  lemma HeadOrTail(es: seq<Event>)
    requires es != []
    ensures forall e :: e in es <==> e == es[0] || e in es[1..]
  {
    assert es == [es[0]] + es[1..];
  }

  /** The same for one server: whether Shutdown was called on it, whether its
      accept goroutine has called Serve, and whether it has sent a result. */
  lemma {:induction false} ServerTells(s: State, es: seq<Event>, i: nat)
    requires ValidRun(s, es) && i < |s.servers| && Inv(s)
    ensures i < |After(s, es).servers|
    ensures var v := After(s, es).servers[i];
      && (!v.closing.NotRun? <==> !s.servers[i].closing.NotRun? || At(i, SelectSeesStop) in es)
      && (v.accept.Exited? <==> s.servers[i].accept.Exited? || At(i, AcceptSends) in es)
      && (v.accept.Accepting? ==> s.servers[i].accept.Accepting? || At(i, AcceptStarts) in es)
    decreases |es|
  {
    if es != [] {
      StepKeepsInv(s, es[0]);
      ServerTells(Apply(s, es[0]), es[1..], i);
      HeadOrTail(es);
      OneServerTells(s, es[0], i);
    }
  }

  lemma ServerStepTells(v: Server, stop: bool, e: ServerEvent)
    requires ServerInv(v) && ServerCan(v, stop, e)
    ensures !ServerDo(v, stop, e).closing.NotRun? <==> !v.closing.NotRun? || e == SelectSeesStop
    ensures ServerDo(v, stop, e).accept.Exited? <==> v.accept.Exited? || e == AcceptSends
    ensures ServerDo(v, stop, e).accept.Accepting? ==> v.accept.Accepting? || e == AcceptStarts
  {}

  lemma OneServerTells(s: State, e: Event, i: nat)
    requires Inv(s) && Enabled(s, e) && i < |s.servers|
    ensures |Apply(s, e).servers| == |s.servers|
    ensures var v := s.servers[i]; var w := Apply(s, e).servers[i];
      && (!w.closing.NotRun? <==> !v.closing.NotRun? || e == At(i, SelectSeesStop))
      && (w.accept.Exited? <==> v.accept.Exited? || e == At(i, AcceptSends))
      && (w.accept.Accepting? ==> v.accept.Accepting? || e == At(i, AcceptStarts))
  {
    if e.At? && e.index == i {
      ServerStepTells(s.servers[i], GroupStopped(s), e.server);
    } else {
      SpawningCarriesNothing(s, e, i);
    }
  }

  /** Each select takes any case that is ready: drain's first one a cancellation
      or the end of all servers, the hold the timer or that end at once, and
      Serve's an accept result or the word to stop. */
  lemma SelectsTakeAnyReadyCase(n: nat, delay: int, es: seq<Event>, s: State)
    requires Reaches(n, delay, es, s)
    ensures s.sequencer.AwaitingSignal? ==>
      && (Enabled(s, Drain(SeesSignal)) <==> Cancel in es)
      && (Enabled(s, Drain(SeesDone)) <==> Main(ClosesDone) in es)
    ensures s.sequencer.Holding? ==>
      && (Enabled(s, Drain(HoldInterrupted)) <==> Main(ClosesDone) in es)
      && (Enabled(s, Drain(TimerFires)) <==> Ticks(es) - s.sequencer.armed >= delay)
    ensures forall i: nat :: i < |s.servers| && s.servers[i].phase.Serving? ==>
      && (Enabled(s, At(i, SelectReceives)) <==> At(i, AcceptSends) in es)
      && (Enabled(s, At(i, SelectSeesStop)) <==> Drain(StopsServing) in es || FirstError(Init(n, delay), es).Some?)
  {
    var s0 := Init(n, delay);
    InitInv(n, delay);
    ReachableInv(n, delay, es, s);
    FlagsTell(s0, es);
    ErrIsFirstError(s0, es);
    forall i: nat | i < |s.servers| && s.servers[i].phase.Serving?
      ensures Enabled(s, At(i, SelectReceives)) <==> At(i, AcceptSends) in es
      ensures Enabled(s, At(i, SelectSeesStop)) <==> Drain(StopsServing) in es || FirstError(s0, es).Some?
    {
      ServerTells(s0, es, i);
      assert ServerInv(s.servers[i]) && !AllJoined(s);
    }
  }

  /** The accept call ends cleanly exactly once Shutdown has been called on its
      server, and it may fail as long as it has not ended. */
  lemma AcceptEndsAfterShutdown(n: nat, delay: int, es: seq<Event>, s: State, i: nat, cause: nat)
    requires Reaches(n, delay, es, s) && i < |s.servers|
    requires s.servers[i].accept.Starting? || s.servers[i].accept.Accepting?
    ensures Enabled(s, At(i, AcceptCloses)) <==> At(i, SelectSeesStop) in es
    ensures Enabled(s, At(i, AcceptFails(cause)))
  {
    InitInv(n, delay);
    ErrIsFirstError(Init(n, delay), es);
    ServerTells(Init(n, delay), es, i);
  }

  /** The hold is timed from the step that armed its timer. */
  lemma {:induction false} HoldIsTimed(n: nat, delay: int, es: seq<Event>, s: State) returns (k: nat)
    requires Reaches(n, delay, es, s) && s.sequencer.Holding?
    ensures k < |es| && es[k] == Drain(ArmsTimer) && Ticks(es[..k]) == s.sequencer.armed
    decreases |es|
  {
    assert es != [];
    var init, last, t := LastStep(n, delay, es, s);
    if last == Drain(ArmsTimer) {
      k := |init|;
      FlagsTell(Init(n, delay), init);
    } else {
      k := HoldIsTimed(n, delay, init, t);
      assert es[..k] == init[..k];
    }
    assert es[..|init|] == init;
  }

  /** The outside world is free: time may pass, an operator may cancel, a listen or
      Shutdown call may end either way and an accept call fail, in every state. */
  lemma TheWorldIsFree(n: nat, delay: int, es: seq<Event>, s: State, i: nat, cause: nat)
    requires Reaches(n, delay, es, s)
    ensures Enabled(s, Tick) && (Enabled(s, Cancel) <==> Cancel !in es)
    ensures i < |s.servers| && s.servers[i].phase.Listening? ==>
      Enabled(s, At(i, ListenOk)) && Enabled(s, At(i, ListenFails(cause)))
    ensures i < |s.servers| && s.servers[i].phase.ShuttingDown? ==>
      Enabled(s, At(i, ShutdownOk)) && Enabled(s, At(i, ShutdownFails(cause)))
    ensures i < |s.servers| && (s.servers[i].accept.Starting? || s.servers[i].accept.Accepting?) ==>
      Enabled(s, At(i, AcceptFails(cause)))
  {
    FlagsTell(Init(n, delay), es);
  }

  /** A server's goroutines wait for nothing but each other: the receive after
      Shutdown for the accept goroutine's send. */
  lemma ServersWaitForSenders(n: nat, delay: int, es: seq<Event>, s: State, i: nat)
    requires Reaches(n, delay, es, s) && i < |s.servers|
    ensures s.servers[i].phase.Collecting? ==> (Enabled(s, At(i, Collects)) <==> At(i, AcceptSends) in es)
    ensures s.servers[i].phase.Returned? ==> Enabled(s, At(i, Joins))
    ensures s.servers[i].accept.Starting? ==>
      (Enabled(s, At(i, AcceptStarts)) <==> At(i, SelectSeesStop) !in es)
  {
    InitInv(n, delay);
    ReachableInv(n, delay, es, s);
    ErrIsFirstError(Init(n, delay), es);
    ServerTells(Init(n, delay), es, i);
    assert ServerInv(s.servers[i]);
  }

  /** The caller waits for nothing but the servers and then the sequencer, and the
      sequencer, between its selects, for nothing. */
  lemma NobodyWaitsOtherwise(n: nat, delay: int, es: seq<Event>, s: State)
    requires Reaches(n, delay, es, s)
    ensures s.sequencer.Signalled? ==> Enabled(s, Drain(SetsDraining))
    ensures s.sequencer.Arming? ==> Enabled(s, Drain(ArmsTimer))
    ensures s.sequencer.Stopping? ==> Enabled(s, Drain(StopsServing))
    ensures s.caller.Spawning? ==> Enabled(s, Main(if s.caller.next < n then Spawns else StartsSequencer))
    ensures s.caller.Waiting? ==> (Enabled(s, Main(WaitReturns)) <==> AllJoined(s))
    ensures s.caller.Closing? ==> Enabled(s, Main(ClosesDone))
    ensures s.caller.Reaping? ==> (Enabled(s, Main(Returns)) <==> s.sequencer.Finished?)
  {
    ErrIsFirstError(Init(n, delay), es);
  }
}
