/** Any number of requests going through the chain at once, one small step of
    one request at a time, sharing the limiter's channel. Each request finishes
    with exactly the response and the log the chain gives it on its own, and the
    whole is an instance of the limiter protocol of InFlight. */
module Concurrent {
  import opened Options
  import opened Response
  import opened RequestChain
  import InFlight

  /** Where one request's goroutine is, from the limiter's select on. */
  datatype Stage =
    | Arriving
    | Running(ops: seq<Op>, ending: Ending)  // inside the limiter: the handler, or a refusal
    | Leaving(ending: Ending)                // the limiter's deferred receive comes next
    | Recovery(ending: Ending)               // the recovery middleware's deferred function
    | Writing(ops: seq<Op>)                  // recovery is writing its 500
    | Logging(aborted: bool)                 // back in request logging
    | Finished(aborted: bool)

  datatype Thread = Thread(
    handler: Handler, bodyLimit: int, contentLength: int,
    admitted: bool, stage: Stage, x: Exchange, log: seq<Entry>)

  datatype State = State(limit: int, slots: nat, threads: map<nat, Thread>)

  datatype Event =
    | Arrive(id: nat, handler: Handler, bodyLimit: int, contentLength: int)
    | Go(id: nat)

  function Init(limit: int): State {
    State(limit, 0, map[])
  }

  function RequestOf(t: Thread): Request {
    Request(t.admitted, t.bodyLimit, t.contentLength)
  }

  // ---- one step ----

  /** Takes the slot if the middleware is on and one is free. */
  predicate Admits(limit: int, slots: nat) {
    limit <= 0 || slots < limit
  }

  /** A request that was let in, with the middleware on, has a receive deferred. */
  predicate Blocked(limit: int, slots: nat, t: Thread) {
    t.stage.Leaving? && t.admitted && limit > 0 && slots == 0
  }

  function SlotsAfter(limit: int, slots: nat, t: Thread): nat
    requires !Blocked(limit, slots, t)
  {
    if limit <= 0 then slots
    else if t.stage.Arriving? && slots < limit then slots + 1
    else if t.stage.Leaving? && t.admitted then slots - 1
    else slots
  }

  function ThreadAfter(limit: int, slots: nat, t: Thread): Thread {
    match t.stage
    case Arriving =>
      var u := t.(admitted := Admits(limit, slots));
      var i := Inner(RequestOf(u), t.handler);
      u.(x := Declaring(u.x, i.declared), stage := Running(i.ops, i.ending))
    case Running(ops, ending) =>
      if ops == [] then t.(stage := Leaving(ending))
      else
        var p := Step(t.x, ops[0]);
        t.(x := p.x, stage := if p.panicked then Leaving(Panicked) else Running(ops[1..], ending))
    case Leaving(ending) => t.(stage := Recovery(ending))
    case Recovery(ending) =>
      if !ending.Panicked? then t.(stage := Logging(ending.Aborted?))
      else t.(log := t.log + [PanicEntry],
              stage := if t.x.record.written then Logging(false) else Writing(INTERNAL_ERROR))
    case Writing(ops) =>
      if ops == [] then t.(stage := Logging(false))
      else
        var p := Step(t.x, ops[0]);
        t.(x := p.x, stage := if p.panicked then Logging(false) else Writing(ops[1..]))
    case Logging(aborted) =>
      t.(stage := Finished(aborted),
         log := if aborted then t.log
                else t.log + [RequestEntry(t.x.record.status, LevelForStatus(t.x.record.status))])
    case Finished(_) => t
  }

  predicate Enabled(s: State, e: Event) {
    match e
    case Arrive(id, _, _, _) => id !in s.threads
    case Go(id) => id in s.threads && !s.threads[id].stage.Finished? && !Blocked(s.limit, s.slots, s.threads[id])
  }

  function Apply(s: State, e: Event): State
    requires Enabled(s, e)
  {
    match e
    case Arrive(id, h, bodyLimit, contentLength) =>
      s.(threads := s.threads[id := Thread(h, bodyLimit, contentLength, false, Arriving, FRESH, [])])
    case Go(id) =>
      s.(slots := SlotsAfter(s.limit, s.slots, s.threads[id]),
         threads := s.threads[id := ThreadAfter(s.limit, s.slots, s.threads[id])])
  }

  predicate ValidRun(s: State, es: seq<Event>)
    decreases |es|
  {
    es == [] || (Enabled(s, es[0]) && ValidRun(Apply(s, es[0]), es[1..]))
  }

  function After(s: State, es: seq<Event>): State
    requires ValidRun(s, es)
    decreases |es|
  {
    if es == [] then s else After(Apply(s, es[0]), es[1..])
  }

  // ---- each request ends as if alone ----

  /** What a request past the limiter would end with if it ran on alone. */
  function Outlook(t: Thread): Served
    requires !t.stage.Arriving?
  {
    match t.stage
    case Running(ops, ending) => Prefixed(t.log, Logged(Recovered(Run(t.x, Handler(ops, ending, None)))))
    case Leaving(ending) => Prefixed(t.log, Logged(Recovered(Outcome(t.x, ending))))
    case Recovery(ending) => Prefixed(t.log, Logged(Recovered(Outcome(t.x, ending))))
    case Writing(ops) => Prefixed(t.log, Logged(Served(Play(t.x, ops).x, [], false)))
    case Logging(aborted) => Prefixed(t.log, Logged(Served(t.x, [], aborted)))
    case Finished(aborted) => Served(t.x, t.log, aborted)
  }

  function Prefixed(log: seq<Entry>, s: Served): Served {
    s.(log := log + s.log)
  }

  /** The chain's answer is settled once the limiter has decided. */
  predicate OnCourse(t: Thread) {
    if t.stage.Arriving? then t.x == FRESH && t.log == []
    else Outlook(t) == Serve(RequestOf(t), t.handler)
  }

  lemma StepKeepsOutlook(limit: int, slots: nat, t: Thread)
    requires !t.stage.Arriving?
    ensures Outlook(ThreadAfter(limit, slots, t)) == Outlook(t)
    ensures !ThreadAfter(limit, slots, t).stage.Arriving?
  {
    var u := ThreadAfter(limit, slots, t);
    match t.stage
    case Recovery(ending) =>
      if ending.Panicked? {
        var tail := [RequestEntry(Outlook(t).x.record.status, LevelForStatus(Outlook(t).x.record.status))];
        assert t.log + ([PanicEntry] + tail) == t.log + [PanicEntry] + ([] + tail);
      }
    case Logging(aborted) =>
      assert aborted ==> t.log + [] == t.log;
    case _ =>
  }

  lemma PrefixedByNothing(s: Served)
    ensures Prefixed([], s) == s
  {
    assert [] + s.log == s.log;
  }

  lemma LetInIsOnCourse(limit: int, slots: nat, t: Thread)
    requires t.stage.Arriving? && t.x == FRESH && t.log == []
    ensures OnCourse(ThreadAfter(limit, slots, t))
  {
    var u := ThreadAfter(limit, slots, t);
    var i := Inner(RequestOf(u), t.handler);
    assert Run(u.x, Handler(i.ops, i.ending, None)) == Run(FRESH, i);
    PrefixedByNothing(Logged(Recovered(Run(FRESH, i))));
  }

  lemma StepKeepsRequest(limit: int, slots: nat, t: Thread)
    requires !t.stage.Arriving?
    ensures ThreadAfter(limit, slots, t).handler == t.handler
    ensures RequestOf(ThreadAfter(limit, slots, t)) == RequestOf(t)
  {}

  lemma StepStaysOnCourse(limit: int, slots: nat, t: Thread)
    requires OnCourse(t)
    ensures OnCourse(ThreadAfter(limit, slots, t))
  {
    if t.stage.Arriving? {
      LetInIsOnCourse(limit, slots, t);
    } else {
      StepKeepsOutlook(limit, slots, t);
      StepKeepsRequest(limit, slots, t);
    }
  }

  // ---- the limiter protocol underneath ----

  function PhaseOf(t: Thread): InFlight.Phase
    requires !t.stage.Arriving?
  {
    if !t.admitted then InFlight.Shed
    else
      match t.stage
      case Running(_, _) => InFlight.Inside
      case Leaving(ending) => InFlight.Unwinding(!ending.Returned?)
      case Recovery(ending) => if ending.Returned? then InFlight.Ended else InFlight.Recovering
      case Writing(_) => InFlight.Recovering
      case Logging(_) => InFlight.Ended
      case Finished(_) => InFlight.Ended
  }

  function Phases(threads: map<nat, Thread>): map<nat, InFlight.Phase> {
    map id | id in threads && !threads[id].stage.Arriving? :: PhaseOf(threads[id])
  }

  /** The limiter's view of the system. */
  function Limiting(s: State): InFlight.State {
    InFlight.State(s.limit, s.slots, Phases(s.threads))
  }

  /** The limiter event a request's next step is, if it is one. */
  function LimiterEvent(id: nat, t: Thread): Option<InFlight.Event> {
    if t.stage.Arriving? then Some(InFlight.Arrive(id))
    else if !t.admitted then None
    else
      match t.stage
      case Running(ops, ending) =>
        if ops == [] then Some(InFlight.Leave(id, !ending.Returned?))
        else if Step(t.x, ops[0]).panicked then Some(InFlight.Leave(id, true))
        else None
      case Leaving(_) => Some(InFlight.Release(id))
      case Recovery(ending) =>
        if ending.Aborted? || (ending.Panicked? && t.x.record.written) then Some(InFlight.Recover(id)) else None
      case Writing(ops) =>
        if ops == [] || Step(t.x, ops[0]).panicked then Some(InFlight.Recover(id)) else None
      case Logging(_) => None
      case Finished(_) => None
  }

  lemma PhasesAfterUpdate(threads: map<nat, Thread>, id: nat, t: Thread)
    ensures !t.stage.Arriving? ==> Phases(threads[id := t]) == Phases(threads)[id := PhaseOf(t)]
    ensures t.stage.Arriving? && id !in threads ==> Phases(threads[id := t]) == Phases(threads)
  {}

  lemma NoPhaseChange(phases: map<nat, InFlight.Phase>, id: nat)
    requires id in phases
    ensures phases[id := phases[id]] == phases
  {}

  /** Every step of the system is a step of the limiter protocol or invisible
      to it. */
  lemma RefinesLimiter(s: State, e: Event)
    requires Enabled(s, e)
    ensures var l := if e.Arrive? then None else LimiterEvent(e.id, s.threads[e.id]);
      if l.None? then Limiting(Apply(s, e)) == Limiting(s)
      else InFlight.Enabled(Limiting(s), l.value) && Limiting(Apply(s, e)) == InFlight.Apply(Limiting(s), l.value)
  {
    PhasesAfterUpdate(s.threads, e.id, Apply(s, e).threads[e.id]);
    if e.Go? {
      var t := s.threads[e.id];
      assert Apply(s, e).threads[e.id] == ThreadAfter(s.limit, s.slots, t);
      if !t.stage.Arriving? {
        assert Phases(s.threads)[e.id] == PhaseOf(t);
        NoPhaseChange(Phases(s.threads), e.id);
      }
    }
  }

  /** What the limiter sees of a run. */
  function LimiterRun(s: State, es: seq<Event>): seq<InFlight.Event>
    requires ValidRun(s, es)
    decreases |es|
  {
    if es == [] then []
    else
      var l := if es[0].Arrive? then None else LimiterEvent(es[0].id, s.threads[es[0].id]);
      (if l.Some? then [l.value] else []) + LimiterRun(Apply(s, es[0]), es[1..])
  }

  /** Every run of the system is a run of the limiter protocol. */
  lemma {:induction false} RunRefinesLimiter(s: State, es: seq<Event>)
    requires ValidRun(s, es)
    ensures InFlight.ValidRun(Limiting(s), LimiterRun(s, es))
    ensures InFlight.After(Limiting(s), LimiterRun(s, es)) == Limiting(After(s, es))
    ensures After(s, es).limit == s.limit
    decreases |es|
  {
    if es != [] {
      var rest := LimiterRun(Apply(s, es[0]), es[1..]);
      RefinesLimiter(s, es[0]);
      RunRefinesLimiter(Apply(s, es[0]), es[1..]);
      assert [] + rest == rest;
      assert LimiterRun(s, es) != rest ==> LimiterRun(s, es)[1..] == rest;
    }
  }

  // ---- over every run ----

  predicate Inv(s: State) {
    forall id :: id in s.threads ==> OnCourse(s.threads[id])
  }

  lemma StepKeepsInv(s: State, e: Event)
    requires Inv(s) && Enabled(s, e)
    ensures Inv(Apply(s, e))
  {
    if e.Go? {
      StepStaysOnCourse(s.limit, s.slots, s.threads[e.id]);
    }
  }

  lemma {:induction false} RunKeepsInv(s: State, es: seq<Event>)
    requires Inv(s) && ValidRun(s, es)
    ensures Inv(After(s, es))
    decreases |es|
  {
    if es != [] {
      StepKeepsInv(s, es[0]);
      RunKeepsInv(Apply(s, es[0]), es[1..]);
    }
  }

  ghost predicate Reaches(limit: int, es: seq<Event>, s: State) {
    ValidRun(Init(limit), es) && After(Init(limit), es) == s
  }

  lemma ReachableLimiter(limit: int, es: seq<Event>, s: State)
    requires Reaches(limit, es, s)
    ensures InFlight.Reaches(limit, LimiterRun(Init(limit), es), Limiting(s)) && s.limit == limit
  {
    RunRefinesLimiter(Init(limit), es);
    assert Limiting(Init(limit)) == InFlight.Init(limit);
  }

  // ---- the theorems ----

  /** A request keeps what it arrived with. */
  lemma {:induction false} KeepsItsRequest(s: State, es: seq<Event>, id: nat)
    requires ValidRun(s, es) && id in s.threads
    ensures id in After(s, es).threads
    ensures var t := s.threads[id]; var u := After(s, es).threads[id];
      u.handler == t.handler && u.bodyLimit == t.bodyLimit && u.contentLength == t.contentLength
    decreases |es|
  {
    if es != [] {
      KeepsItsRequest(Apply(s, es[0]), es[1..], id);
    }
  }

  lemma {:induction false} ArrivedInRun(
      s: State, es: seq<Event>, id: nat, h: Handler, bodyLimit: int, contentLength: int)
    requires ValidRun(s, es) && Arrive(id, h, bodyLimit, contentLength) in es
    ensures id in After(s, es).threads
    ensures var t := After(s, es).threads[id];
      t.handler == h && t.bodyLimit == bodyLimit && t.contentLength == contentLength
    decreases |es|
  {
    var t := Apply(s, es[0]);
    if es[0] == Arrive(id, h, bodyLimit, contentLength) {
      KeepsItsRequest(t, es[1..], id);
    } else {
      assert Arrive(id, h, bodyLimit, contentLength) in es[1..];
      ArrivedInRun(t, es[1..], id, h, bodyLimit, contentLength);
    }
  }

  /** Requests do not disturb one another: under every interleaving a finished
      request has the response, the log entries and the propagated abort that
      the chain gives the request that arrived, alone, once the limiter's answer
      is known. */
  lemma FinishesAsIfAlone(
      limit: int, es: seq<Event>, s: State, id: nat, h: Handler, bodyLimit: int, contentLength: int)
    requires Reaches(limit, es, s) && Arrive(id, h, bodyLimit, contentLength) in es
    requires id in s.threads && s.threads[id].stage.Finished?
    ensures var t := s.threads[id];
      Served(t.x, t.log, t.stage.aborted) == Serve(Request(t.admitted, bodyLimit, contentLength), h)
  {
    RunKeepsInv(Init(limit), es);
    ArrivedInRun(Init(limit), es, id, h, bodyLimit, contentLength);
    assert OnCourse(s.threads[id]);
  }

  /** The state of a run before its event k. */
  function Before(s: State, es: seq<Event>, k: nat): State
    requires ValidRun(s, es) && k <= |es|
    decreases |es|
  {
    if k == 0 then s else Before(Apply(s, es[0]), es[1..], k - 1)
  }

  /** The limiter's answer is given once, at the request's first step, and by the
      requests inside at that moment. */
  lemma {:induction false} AdmittedAtItsTurn(s: State, es: seq<Event>, id: nat) returns (k: nat)
    requires ValidRun(s, es) && InFlight.Inv(Limiting(s))
    requires id in s.threads ==> s.threads[id].stage.Arriving?
    requires id in After(s, es).threads && !After(s, es).threads[id].stage.Arriving?
    ensures k < |es| && es[k] == Go(id)
    ensures After(s, es).threads[id].admitted <==> s.limit <= 0 || |Inside(Before(s, es, k))| < s.limit
    decreases |es|
  {
    var t := Apply(s, es[0]);
    StepKeepsLimiter(s, es[0]);
    if es[0] == Go(id) {
      k := 0;
      InsideAreHolders(s);
      AnswerStands(t, es[1..], id);
    } else {
      var j := AdmittedAtItsTurn(t, es[1..], id);
      k := j + 1;
    }
  }

  lemma StepKeepsLimiter(s: State, e: Event)
    requires Enabled(s, e) && InFlight.Inv(Limiting(s))
    ensures InFlight.Inv(Limiting(Apply(s, e))) && Apply(s, e).limit == s.limit
  {
    RefinesLimiter(s, e);
    var l := if e.Arrive? then None else LimiterEvent(e.id, s.threads[e.id]);
    if l.Some? {
      InFlight.StepKeepsInv(Limiting(s), l.value);
    }
  }

  lemma {:induction false} AnswerStands(s: State, es: seq<Event>, id: nat)
    requires ValidRun(s, es) && id in s.threads && !s.threads[id].stage.Arriving?
    ensures id in After(s, es).threads && !After(s, es).threads[id].stage.Arriving?
    ensures After(s, es).threads[id].admitted == s.threads[id].admitted
    decreases |es|
  {
    if es != [] {
      AnswerStands(Apply(s, es[0]), es[1..], id);
    }
  }

  /** No request ever waits for another: each unfinished one can take a step. */
  lemma NobodyWaits(limit: int, es: seq<Event>, s: State, id: nat)
    requires Reaches(limit, es, s) && id in s.threads && !s.threads[id].stage.Finished?
    ensures Enabled(s, Go(id))
  {
    ReachableLimiter(limit, es, s);
    var t := s.threads[id];
    if t.stage.Leaving? && t.admitted {
      InFlight.ReleaseNeverBlocks(limit, LimiterRun(Init(limit), es), Limiting(s), id);
    }
  }

  /** The requests between the limiter's send and its receive. */
  function Inside(s: State): set<nat> {
    set id | id in s.threads && s.threads[id].admitted && (s.threads[id].stage.Running? || s.threads[id].stage.Leaving?)
  }

  lemma InsideAreHolders(s: State)
    ensures Inside(s) == InFlight.Holders(Limiting(s))
  {}

  /** A request is let in exactly when fewer than limit requests are inside. */
  lemma LetInExactlyWhen(limit: int, es: seq<Event>, s: State, id: nat)
    requires Reaches(limit, es, s) && id in s.threads && s.threads[id].stage.Arriving?
    ensures Apply(s, Go(id)).threads[id].admitted <==> limit <= 0 || |Inside(s)| < limit
  {
    ReachableLimiter(limit, es, s);
    InsideAreHolders(s);
    RefinesLimiter(s, Go(id));
    InFlight.ShedExactlyWhenFull(limit, LimiterRun(Init(limit), es), Limiting(s), id);
  }

  /** While recovery decides on or writes a panicked request's 500, the channel
      counts other requests only; and it is empty once every one is past the
      limiter. */
  lemma SlotFreeWhileRecovering(limit: int, es: seq<Event>, s: State, id: nat)
    requires Reaches(limit, es, s) && limit > 0 && id in s.threads
    requires s.threads[id].stage.Recovery? || s.threads[id].stage.Writing?
    ensures s.slots == |Inside(s) - {id}| <= limit
    ensures (forall j :: j in s.threads ==> j !in Inside(s)) ==> s.slots == 0
  {
    ReachableLimiter(limit, es, s);
    InsideAreHolders(s);
    InFlight.SlotsCountHolders(limit, LimiterRun(Init(limit), es), Limiting(s));
    assert Inside(s) - {id} == Inside(s);
    if forall j :: j in s.threads ==> j !in Inside(s) {
      assert Inside(s) == {};
    }
  }
}
