/** RunAll always returns: a measure falls on every step, and no unfinished
    state that has been told to stop is stuck. */
module ShutdownLiveness {
  import opened Options
  import opened Shutdown
  import opened ShutdownSafety
  import Fairness

  // ---- the measure ----

  function PhaseRank(p: Phase): nat {
    match p
    case Unspawned => 6
    case Listening => 5
    case Serving => 4
    case ShuttingDown => 3
    case Collecting => 2
    case Returned(_) => 1
    case Joined(_) => 0
  }

  function AcceptRank(a: Accept): nat {
    match a
    case Idle => 4
    case Starting => 3
    case Accepting => 2
    case Sending(_) => 1
    case Exited(_) => 0
  }

  function ServerRank(v: Server): nat {
    PhaseRank(v.phase) + AcceptRank(v.accept)
  }

  function ServersRank(vs: seq<Server>): nat {
    if vs == [] then 0 else ServerRank(vs[0]) + ServersRank(vs[1..])
  }

  function Clamp(x: int): nat {
    if x < 0 then 0 else x
  }

  function SequencerRank(q: Sequencer, delay: int, clock: int): nat {
    match q
    case Unstarted => 6 + Clamp(delay)
    case AwaitingSignal => 5 + Clamp(delay)
    case Signalled => 4 + Clamp(delay)
    case Arming => 3 + Clamp(delay)
    case Holding(a) => 2 + Clamp(a + delay - clock)
    case Stopping => 1
    case Finished => 0
  }

  function CallerRank(c: Caller, n: nat): nat {
    match c
    case Spawning(k) => 4 + Clamp(n - k)
    case Waiting => 3
    case Closing(_) => 2
    case Reaping(_) => 1
    case Done(_) => 0
  }

  function Measure(s: State): nat {
    ServersRank(s.servers) + SequencerRank(s.sequencer, s.delay, s.clock)
      + CallerRank(s.caller, |s.servers|) + (if s.cancelled then 0 else 1)
  }

  /** Every event but the passing of time outside the hold. */
  predicate Progress(s: State, e: Event) {
    e.Tick? ==> s.sequencer.Holding? && s.clock < s.sequencer.armed + s.delay
  }

  function ProgressCount(s: State, es: seq<Event>): nat
    requires ValidRun(s, es)
    decreases |es|
  {
    if es == [] then 0
    else (if Progress(s, es[0]) then 1 else 0) + ProgressCount(Apply(s, es[0]), es[1..])
  }

  lemma {:induction false} RankUpdate(vs: seq<Server>, i: nat, v: Server)
    requires i < |vs|
    ensures ServersRank(vs[i := v]) == ServersRank(vs) - ServerRank(vs[i]) + ServerRank(v)
  {
    if i == 0 {
      assert vs[i := v][1..] == vs[1..];
    } else {
      assert vs[i := v][1..] == vs[1..][i - 1 := v];
      RankUpdate(vs[1..], i - 1, v);
    }
  }

  lemma {:induction false} RankOfNew(n: nat)
    ensures ServersRank(seq(n, _ => NewServer())) == 10 * n
  {
    if n > 0 {
      assert seq(n, _ => NewServer())[1..] == seq(n - 1, _ => NewServer());
      RankOfNew(n - 1);
    }
  }

  lemma ServerRankFalls(v: Server, stop: bool, e: ServerEvent)
    requires ServerInv(v) && ServerCan(v, stop, e)
    ensures ServerRank(ServerDo(v, stop, e)) < ServerRank(v)
  {}

  lemma SpawnFalls(s: State)
    requires Enabled(s, Main(Spawns)) && Inv(s)
    ensures Measure(Apply(s, Main(Spawns))) < Measure(s)
  {
    RankUpdate(s.servers, s.caller.next, s.servers[s.caller.next].(phase := Listening));
  }

  lemma ServerStepFalls(s: State, i: nat, v: ServerEvent)
    requires Inv(s) && Enabled(s, At(i, v))
    ensures Measure(Apply(s, At(i, v))) < Measure(s)
  {
    ServerRankFalls(s.servers[i], GroupStopped(s), v);
    RankUpdate(s.servers, i, ServerDo(s.servers[i], GroupStopped(s), v));
  }

  lemma MeasureFalls(s: State, e: Event)
    requires Inv(s) && Enabled(s, e)
    ensures Measure(Apply(s, e)) <= Measure(s)
    ensures Progress(s, e) ==> Measure(Apply(s, e)) < Measure(s)
  {
    if e == Main(Spawns) {
      SpawnFalls(s);
    } else if e.At? {
      ServerStepFalls(s, e.index, e.server);
    } else {
      assert Apply(s, e).servers == s.servers;
    }
  }

  lemma {:induction false} ProgressIsBounded(s: State, es: seq<Event>)
    requires Inv(s) && ValidRun(s, es)
    ensures ProgressCount(s, es) + Measure(After(s, es)) <= Measure(s)
    decreases |es|
  {
    if es != [] {
      StepKeepsInv(s, es[0]);
      MeasureFalls(s, es[0]);
      ProgressIsBounded(Apply(s, es[0]), es[1..]);
    }
  }

  // ---- nothing that has been told to stop is stuck ----

  /** Events that must eventually happen when they stay enabled: the program's
      own steps, the end of every library call, and time during the hold. An
      operator's cancellation and a failing accept loop are not owed. */
  predicate Owed(s: State, e: Event) {
    Progress(s, e) && !e.Cancel? && !(e.At? && e.server.AcceptFails?)
  }

  /** Serving with nothing to do: the accept loop is running. */
  predicate AtRest(v: Server) {
    v.phase.Serving? && v.accept.Accepting?
  }

  lemma ServerMove(v: Server, stop: bool) returns (e: ServerEvent)
    requires ServerInv(v) && !v.phase.Joined? && !v.phase.Unspawned?
    requires AtRest(v) ==> stop
    ensures ServerCan(v, stop, e) && !e.AcceptFails?
  {
    match v.phase
    case Listening => e := ListenOk;
    case Returned(_) => e := Joins;
    case ShuttingDown => e := ShutdownOk;
    case _ =>
      match v.accept
      case Starting => e := if v.closing.NotRun? then AcceptStarts else AcceptCloses;
      case Accepting => e := if v.closing.NotRun? then SelectSeesStop else AcceptCloses;
      case Sending(_) => e := AcceptSends;
      case Exited(_) => e := if v.phase.Serving? then SelectReceives else Collects;
  }

  /** The one way an unfinished system may legitimately sit still: everything
      started, nobody has asked it to stop, and every server not yet joined is
      serving. */
  predicate Steady(s: State) {
    && s.caller.Waiting? && s.sequencer.AwaitingSignal?
    && !s.cancelled && !GroupStopped(s)
    && !AllJoined(s)
    && forall i :: 0 <= i < |s.servers| ==> AtRest(s.servers[i])
  }

  lemma FindMove(s: State) returns (e: Event)
    requires Inv(s) && !s.caller.Done? && !Steady(s)
    ensures Enabled(s, e) && Owed(s, e)
  {
    match s.caller
    case Spawning(k) => e := Main(if k < |s.servers| then Spawns else StartsSequencer);
    case Closing(_) => e := Main(ClosesDone);
    case Reaping(_) => e := SequencerMove(s);
    case Waiting =>
      if AllJoined(s) {
        e := Main(WaitReturns);
      } else if i :| 0 <= i < |s.servers| && !s.servers[i].phase.Joined?
                     && (AtRest(s.servers[i]) ==> GroupStopped(s)) {
        var v := ServerMove(s.servers[i], GroupStopped(s));
        e := At(i, v);
      } else {
        assert !GroupStopped(s);
        NothingJoined(s);
        e := SequencerMove(s);
      }
  }

  /** Before the group is told to stop no server has been joined. */
  lemma NothingJoined(s: State)
    requires Inv(s) && !GroupStopped(s)
    ensures forall i :: 0 <= i < |s.servers| ==> !s.servers[i].phase.Joined?
  {
    forall i | 0 <= i < |s.servers|
      ensures !s.servers[i].phase.Joined?
    {
      assert ServerInv(s.servers[i]);
    }
  }

  lemma SequencerMove(s: State) returns (e: Event)
    requires Inv(s)
    requires || s.caller.Reaping?
             || (s.caller.Waiting? && !s.stopped && s.err.None? && (s.sequencer.AwaitingSignal? ==> s.cancelled))
    ensures Enabled(s, e) && Owed(s, e)
  {
    match s.sequencer
    case AwaitingSignal => e := Drain(if s.done then SeesDone else SeesSignal);
    case Signalled => e := Drain(SetsDraining);
    case Arming => e := Drain(ArmsTimer);
    case Holding(a) => e := if s.clock >= a + s.delay then Drain(TimerFires) else Tick;
    case Stopping => e := Drain(StopsServing);
    case Finished => e := Main(Returns);
  }

  // ---- the theorems ----

  /** No deadlock, exactly: a reachable unfinished state has no owed step
      enabled if and only if it is steadily serving. */
  lemma StuckOnlyWhileServing(n: nat, delay: int, es: seq<Event>, s: State)
    requires Reaches(n, delay, es, s) && !s.caller.Done?
    ensures (forall e :: Enabled(s, e) ==> !Owed(s, e)) <==> Steady(s)
  {
    ReachableInv(n, delay, es, s);
    if Steady(s) {
      forall e | Enabled(s, e)
        ensures !Owed(s, e)
      {
        if e.At? {
          assert AtRest(s.servers[e.index]) && ServerInv(s.servers[e.index]);
        }
      }
    } else {
      var e := FindMove(s);
    }
  }

  /** Nothing is left to do but wait for the pre-drain delay: it has not passed,
      the servers have not all ended, none has failed, and every one is serving. */
  predicate WaitsForDelay(s: State) {
    && s.sequencer.Holding? && s.clock < s.sequencer.armed + s.delay
    && s.caller.Waiting? && s.err.None? && !AllJoined(s)
    && forall i :: 0 <= i < |s.servers| ==> AtRest(s.servers[i])
  }

  lemma FindTimelessMove(s: State) returns (e: Event)
    requires Inv(s) && !s.caller.Done? && !Steady(s) && !WaitsForDelay(s)
    ensures Enabled(s, e) && Owed(s, e) && !e.Tick?
  {
    e := FindMove(s);
    if e.Tick? {
      if s.caller.Reaping? {
        e := Drain(HoldInterrupted);
      } else if s.caller.Closing? {
        e := Main(ClosesDone);
      } else if AllJoined(s) {
        e := Main(WaitReturns);
      } else if s.err.Some? {
        var i :| 0 <= i < |s.servers| && !s.servers[i].phase.Joined?;
        var v := ServerMove(s.servers[i], true);
        e := At(i, v);
      } else {
        NothingJoined(s);
        var i :| 0 <= i < |s.servers| && !AtRest(s.servers[i]);
        var v := ServerMove(s.servers[i], GroupStopped(s));
        e := At(i, v);
      }
    }
  }

  /** Time is needed for nothing but the delay: a reachable unfinished state has
      no step owed other than the passing of time exactly when it is steadily
      serving or serving out the delay. So once a server has failed, or all have
      ended, RunAll returns without waiting. */
  lemma TimeIsNeededOnlyForDelay(n: nat, delay: int, es: seq<Event>, s: State)
    requires Reaches(n, delay, es, s) && !s.caller.Done?
    ensures (forall e :: Enabled(s, e) && Owed(s, e) ==> e.Tick?) <==> Steady(s) || WaitsForDelay(s)
    ensures s.done || FirstError(Init(n, delay), es).Some? ==> exists e :: Enabled(s, e) && Owed(s, e) && !e.Tick?
    ensures s.done ==> exists e :: Enabled(s, e) && (e.Main? || e.Drain?)
  {
    ReachableInv(n, delay, es, s);
    ErrIsFirstError(Init(n, delay), es);
    if Steady(s) || WaitsForDelay(s) {
      forall e | Enabled(s, e) && Owed(s, e)
        ensures e.Tick?
      {
        if e.At? {
          assert AtRest(s.servers[e.index]) && ServerInv(s.servers[e.index]);
        }
      }
    } else {
      var e := FindTimelessMove(s);
      assert Enabled(s, e) && Owed(s, e) && !e.Tick?;
      if s.done && e.At? {
        assert s.servers[e.index].phase.Joined? && ServerInv(s.servers[e.index]);
        DoneMoves(s);
      }
    }
  }

  /** Once done is closed it is the sequencer's or the caller's turn. */
  lemma DoneMoves(s: State)
    requires Inv(s) && s.done && !s.caller.Done?
    ensures exists e :: Enabled(s, e) && (e.Main? || e.Drain?)
  {
    var e := match s.sequencer
      case Unstarted => Main(Returns)
      case AwaitingSignal => Drain(SeesDone)
      case Signalled => Drain(SetsDraining)
      case Arming => Drain(ArmsTimer)
      case Holding(_) => Drain(HoldInterrupted)
      case Stopping => Drain(StopsServing)
      case Finished => Main(Returns);
    assert Enabled(s, e);
  }

  /** However many servers and however long the delay, a run has at most
      11n + max(delay, 0) + 11 steps that are not idle time; and once the
      caller's context is cancelled or a server has handed over an error, a run
      that cannot continue with an owed step has returned from RunAll. */
  lemma RunAllAlwaysReturns(n: nat, delay: int, es: seq<Event>, s: State)
    requires Reaches(n, delay, es, s)
    ensures ProgressCount(Init(n, delay), es) <= 11 * n + Clamp(delay) + 11
    ensures (s.cancelled || FirstError(Init(n, delay), es).Some?)
            && (forall e :: Enabled(s, e) ==> !Owed(s, e))
            ==> s.caller.Done?
  {
    InitInv(n, delay);
    ProgressIsBounded(Init(n, delay), es);
    RankOfNew(n);
    ErrIsFirstError(Init(n, delay), es);
    if !s.caller.Done? {
      StuckOnlyWhileServing(n, delay, es, s);
    }
  }

  // ---- infinite runs ----

  /** A run that never ends: its states and the events between them. */
  ghost predicate InfiniteRun(n: nat, delay: int, at: nat -> State, ev: nat -> Event) {
    && at(0) == Init(n, delay)
    && forall k: nat :: Enabled(at(k), ev(k)) && at(k + 1) == Apply(at(k), ev(k))
  }

  predicate Due(s: State, e: Event) {
    Enabled(s, e) && Owed(s, e)
  }

  /** The caller's context is cancelled, or a server has failed. */
  predicate StopAsked(s: State) {
    s.cancelled || s.err.Some?
  }

  lemma {:induction false} InvAlong(n: nat, delay: int, at: nat -> State, ev: nat -> Event, k: nat)
    requires InfiniteRun(n, delay, at, ev)
    ensures Inv(at(k)) && |at(k).servers| == n
  {
    if k == 0 {
      InitInv(n, delay);
    } else {
      InvAlong(n, delay, at, ev, k - 1);
      assert at(k - 1 + 1) == Apply(at(k - 1), ev(k - 1));
      StepKeepsInv(at(k - 1), ev(k - 1));
    }
  }

  lemma StopStaysAsked(s: State, e: Event)
    requires StopAsked(s) && Enabled(s, e)
    ensures StopAsked(Apply(s, e))
  {}

  lemma {:induction false} StopStaysAskedAlong(
      n: nat, delay: int, at: nat -> State, ev: nat -> Event, k: nat, j: nat)
    requires InfiniteRun(n, delay, at, ev) && k <= j && StopAsked(at(k))
    ensures StopAsked(at(j))
    decreases j
  {
    if k < j {
      StopStaysAskedAlong(n, delay, at, ev, k, j - 1);
      assert at(j - 1 + 1) == Apply(at(j - 1), ev(j - 1));
      StopStaysAsked(at(j - 1), ev(j - 1));
    }
  }

  /** A step that is due stays so while time passes idly. */
  lemma DueWhileIdling(s: State, e: Event, idle: Event)
    requires Due(s, e) && Enabled(s, idle) && !Progress(s, idle)
    ensures Due(Apply(s, idle), e)
  {}

  lemma StepIsRanked(s: State, e: Event)
    requires Inv(s) && Enabled(s, e)
    ensures Measure(Apply(s, e)) <= Measure(s)
    ensures Due(s, e) ==> Measure(Apply(s, e)) < Measure(s)
    ensures Measure(Apply(s, e)) == Measure(s) ==> Fairness.StaysDue(Due, s, Apply(s, e))
  {
    MeasureFalls(s, e);
    if !Progress(s, e) {
      forall d | Due(s, d)
        ensures Due(Apply(s, e), d)
      {
        DueWhileIdling(s, d, e);
      }
    }
  }

  /** In every infinite, weakly fair run RunAll returns once it is asked to stop,
      and at once when it has no server to run. */
  lemma FairRunsReturn(n: nat, delay: int, at: nat -> State, ev: nat -> Event, k: nat) returns (j: nat)
    requires InfiniteRun(n, delay, at, ev) && Fairness.WeaklyFair(Due, at, ev)
    requires n == 0 || StopAsked(at(k))
    ensures k <= j && at(j).caller.Done?
  {
    forall i: nat
      ensures Inv(at(i)) && |at(i).servers| == n
    {
      InvAlong(n, delay, at, ev, i);
    }
    forall i: nat {
      StepIsRanked(at(i), ev(i));
    }
    forall i: nat | k <= i
      ensures at(i).caller.Done? || Fairness.SomethingDue(Due, at(i))
    {
      if n > 0 {
        StopStaysAskedAlong(n, delay, at, ev, k, i);
      }
      if !at(i).caller.Done? {
        var e := FindMove(at(i));
        assert Due(at(i), e);
      }
    }
    assert Fairness.Ranked(Due, at, ev, Measure);
    j := Fairness.FairRunsArrive(Due, at, ev, Measure, (s: State) => s.caller.Done?, k);
  }

  /** RunAll with a server to run has returned only if it was asked to stop. */
  lemma ReturnedWasAsked(s: State)
    requires Inv(s) && s.caller.Done? && |s.servers| > 0
    ensures StopAsked(s)
  {
    if s.err.None? {
      assert s.servers[0].phase == Joined(None) && ServerInv(s.servers[0]);
    }
  }

  ghost predicate EventuallyReturns(at: nat -> State) {
    exists k: nat :: at(k).caller.Done?
  }

  ghost predicate EventuallyAsked(at: nat -> State) {
    exists k: nat :: StopAsked(at(k))
  }

  /** In an infinite, weakly fair run RunAll returns exactly when it has no server
      to run or is asked to stop: never of its own accord, never not at all. */
  lemma ReturnsExactlyWhenAsked(n: nat, delay: int, at: nat -> State, ev: nat -> Event)
    requires InfiniteRun(n, delay, at, ev) && Fairness.WeaklyFair(Due, at, ev)
    ensures EventuallyReturns(at) <==> n == 0 || EventuallyAsked(at)
  {
    if k: nat :| at(k).caller.Done? {
      InvAlong(n, delay, at, ev, k);
      if n > 0 {
        ReturnedWasAsked(at(k));
      }
    }
    if n == 0 {
      var j := FairRunsReturn(n, delay, at, ev, 0);
    } else if k: nat :| StopAsked(at(k)) {
      var j := FairRunsReturn(n, delay, at, ev, k);
    }
  }
}
