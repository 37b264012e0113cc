/** One readiness probe as a transition system (failing and newReadinessHandler
    in internal/server/readiness.go): a goroutine and a result slot for each
    check, the context they share, wg.Wait, and the registry's other users.

    A run starts where draining has been loaded and, if it was unset, the
    registry cloned. When and how a check ends is an event, so it may depend on
    the interleaving. */
module Probing {
  import opened Options
  import opened Names
  import opened Registry
  import opened Failures
  import Fairness

  datatype Response = Ready | NotReady(failing: seq<string>) | Draining

  function Status(r: Response): int {
    if r.Ready? then 200 else 503
  }

  datatype State = State(
    checks: seq<NamedCheck>,        // the registry
    draining: bool,
    snapshot: seq<NamedCheck>,      // the probe's clone of it
    slots: seq<Option<Ending>>,     // None until goroutine i has returned
    timeout: nat,                   // of the context, in nanoseconds
    clock: nat,                     // since the context was made
    gone: bool,                     // the request's own context was cancelled
    answer: Option<Response>)

  datatype Event =
    | Finish(i: nat, ending: Ending)   // goroutine i's check returns or panics
    | Reply                            // wg.Wait returns; the answer is written
    | Tick
    | ClientLeaves
    | Register(check: NamedCheck)
    | Drain

  function Start(checks: seq<NamedCheck>, draining: bool, timeout: nat): State {
    if draining then State(checks, true, [], [], timeout, 0, false, Some(Draining))
    else State(checks, false, checks, seq(|checks|, _ => None), timeout, 0, false, None)
  }

  predicate ContextDone(s: State) {
    s.gone || s.clock >= s.timeout
  }

  predicate AllIn(slots: seq<Option<Ending>>) {
    forall i :: 0 <= i < |slots| ==> slots[i].Some?
  }

  function RunsOf(snapshot: seq<NamedCheck>, slots: seq<Option<Ending>>): seq<Ran>
    requires |slots| == |snapshot| && AllIn(slots)
  {
    seq(|slots|, i requires 0 <= i < |slots| => Ran(snapshot[i].name, slots[i].value))
  }

  function Verdict(snapshot: seq<NamedCheck>, slots: seq<Option<Ending>>): Response
    requires |slots| == |snapshot| && AllIn(slots)
  {
    var failed := Listing(RunsOf(snapshot, slots));
    if |failed| > 0 then NotReady(failed) else Ready
  }

  predicate Enabled(s: State, e: Event) {
    match e
    case Finish(i, _) => i < |s.slots| == |s.snapshot| && s.slots[i].None? && !s.snapshot[i].check.Hangs?
    case Reply => s.answer.None? && AllIn(s.slots) && |s.slots| == |s.snapshot|
    case Tick => true
    case ClientLeaves => !s.gone
    case Register(_) => true
    case Drain => true
  }

  function Apply(s: State, e: Event): State
    requires Enabled(s, e)
  {
    match e
    case Finish(i, ending) => s.(slots := s.slots[i := Some(ending)])
    case Reply => s.(answer := Some(Verdict(s.snapshot, s.slots)))
    case Tick => s.(clock := s.clock + 1)
    case ClientLeaves => s.(gone := true)
    case Register(c) => s.(checks := Registered(s.checks, [c]))
    case Drain => s.(draining := true)
  }

  predicate ValidRun(s: State, es: seq<Event>)
    decreases |es|
  {
    es == [] || (Enabled(s, es[0]) && ValidRun(Apply(s, es[0]), es[1..]))
  }

  function After(s: State, es: seq<Event>): State
    requires ValidRun(s, es)
    decreases |es|
  {
    if es == [] then s else After(Apply(s, es[0]), es[1..])
  }

  // ---- what every run keeps ----

  predicate Inv(s: State) {
    && |s.slots| == |s.snapshot|
    && (forall i :: 0 <= i < |s.slots| && s.snapshot[i].check.Hangs? ==> s.slots[i].None?)
    && (s.answer.Some? ==>
          if s.answer.value.Draining? then s.slots == []
          else AllIn(s.slots) && s.answer.value == Verdict(s.snapshot, s.slots))
  }

  lemma StepKeepsInv(s: State, e: Event)
    requires Inv(s) && Enabled(s, e)
    ensures Inv(Apply(s, e)) && Apply(s, e).snapshot == s.snapshot
    ensures Apply(s, e).answer == Some(Draining) <==> s.answer == Some(Draining)
  {}

  lemma {:induction false} RunKeepsInv(s: State, es: seq<Event>)
    requires Inv(s) && ValidRun(s, es)
    ensures Inv(After(s, es)) && After(s, es).snapshot == s.snapshot
    ensures After(s, es).answer == Some(Draining) <==> s.answer == Some(Draining)
    decreases |es|
  {
    if es != [] {
      StepKeepsInv(s, es[0]);
      RunKeepsInv(Apply(s, es[0]), es[1..]);
    }
  }

  ghost predicate Reaches(checks: seq<NamedCheck>, draining: bool, timeout: nat, es: seq<Event>, s: State) {
    ValidRun(Start(checks, draining, timeout), es) && After(Start(checks, draining, timeout), es) == s
  }

  lemma ReachableInv(checks: seq<NamedCheck>, draining: bool, timeout: nat, es: seq<Event>, s: State)
    requires Reaches(checks, draining, timeout, es, s)
    ensures Inv(s) && s.snapshot == (if draining then [] else checks)
    ensures s.answer == Some(Draining) <==> draining
  {
    RunKeepsInv(Start(checks, draining, timeout), es);
  }

  /** A slot holds what its own goroutine returned, and nothing else. */
  lemma {:induction false} SlotTells(s: State, es: seq<Event>, i: nat, e: Ending)
    requires Inv(s) && ValidRun(s, es) && i < |s.slots|
    ensures i < |After(s, es).slots|
    ensures After(s, es).slots[i] == Some(e) <==> s.slots[i] == Some(e) || Finish(i, e) in es
    decreases |es|
  {
    if es != [] {
      StepKeepsInv(s, es[0]);
      SlotTells(Apply(s, es[0]), es[1..], i, e);
      assert Finish(i, e) in es <==> es[0] == Finish(i, e) || Finish(i, e) in es[1..];
      if s.slots[i].Some? {
        assert es[0].Finish? ==> es[0].i != i;
        FilledStaysFilled(s, es, i, e);
      }
    }
  }

  lemma {:induction false} FilledStaysFilled(s: State, es: seq<Event>, i: nat, e: Ending)
    requires Inv(s) && ValidRun(s, es) && i < |s.slots| && s.slots[i].Some?
    ensures Finish(i, e) !in es
    decreases |es|
  {
    if es != [] {
      StepKeepsInv(s, es[0]);
      FilledStaysFilled(Apply(s, es[0]), es[1..], i, e);
    }
  }

  /** No check runs twice in one probe. */
  lemma {:induction false} ChecksRunOnce(s: State, es: seq<Event>, j: nat, k: nat)
    requires Inv(s) && ValidRun(s, es) && j < k < |es| && es[j].Finish? && es[k].Finish?
    ensures es[j].i != es[k].i
    decreases |es|
  {
    StepKeepsInv(s, es[0]);
    if j > 0 {
      ChecksRunOnce(Apply(s, es[0]), es[1..], j - 1, k - 1);
    } else if es[j].i == es[k].i {
      assert es[1..][k - 1] == es[k];
      FilledStaysFilled(Apply(s, es[0]), es[1..], es[0].i, es[k].ending);
    }
  }

  // ---- what an answer says ----

  /** What the probe answers in state s or, if wg.Wait can return there, will. */
  function AnswerAt(s: State): Option<Response>
    requires |s.slots| == |s.snapshot|
  {
    if s.answer.Some? then s.answer
    else if AllIn(s.slots) then Some(Verdict(s.snapshot, s.slots))
    else None
  }

  ghost predicate FinishesWith(checks: seq<NamedCheck>, es: seq<Event>, i: nat, e: Ending) {
    i < |checks| && Finish(i, e) in es
  }

  ghost predicate Finishes(checks: seq<NamedCheck>, es: seq<Event>, i: nat) {
    exists e :: FinishesWith(checks, es, i, e)
  }

  ghost predicate FailsIn(checks: seq<NamedCheck>, es: seq<Event>, name: string) {
    exists i: nat, e :: FinishesWith(checks, es, i, e) && !e.Passes? && checks[i].name == name
  }

  lemma SlotsTell(checks: seq<NamedCheck>, timeout: nat, es: seq<Event>, s: State)
    requires Reaches(checks, false, timeout, es, s)
    ensures |s.slots| == |checks|
    ensures forall i: nat, e :: i < |checks| ==> (s.slots[i] == Some(e) <==> FinishesWith(checks, es, i, e))
    ensures forall i: nat :: i < |checks| ==> (s.slots[i].Some? <==> Finishes(checks, es, i))
    ensures AllIn(s.slots) <==> forall i: nat :: i < |checks| ==> Finishes(checks, es, i)
  {
    ReachableInv(checks, false, timeout, es, s);
    forall i: nat, e | i < |checks|
      ensures s.slots[i] == Some(e) <==> FinishesWith(checks, es, i, e)
    {
      SlotTells(Start(checks, false, timeout), es, i, e);
    }
    forall i: nat | i < |checks|
      ensures s.slots[i].Some? <==> Finishes(checks, es, i)
    {
      if s.slots[i].Some? {
        assert FinishesWith(checks, es, i, s.slots[i].value);
      }
    }
  }

  lemma FailuresTell(checks: seq<NamedCheck>, timeout: nat, es: seq<Event>, s: State, name: string)
    requires Reaches(checks, false, timeout, es, s) && |s.slots| == |s.snapshot| && AllIn(s.slots)
    ensures name in FailingNames(RunsOf(s.snapshot, s.slots)) <==> FailsIn(checks, es, name)
  {
    ReachableInv(checks, false, timeout, es, s);
    SlotsTell(checks, timeout, es, s);
    var runs := RunsOf(s.snapshot, s.slots);
    if name in FailingNames(runs) {
      var i :| 0 <= i < |runs| && !runs[i].ending.Passes? && runs[i].name == name;
      assert FinishesWith(checks, es, i, runs[i].ending);
    }
    if FailsIn(checks, es, name) {
      var i: nat, e :| FinishesWith(checks, es, i, e) && !e.Passes? && checks[i].name == name;
      assert runs[i] == Ran(name, e);
    }
  }

  /** Whatever the interleaving, and whatever is registered or set meanwhile: a
      probe that found draining set says so, with no check run; any other answers
      only after each check registered at its start has ended, once, and lists
      the sorted names of those that failed or panicked in this run. */
  lemma AnswerTells(checks: seq<NamedCheck>, draining: bool, timeout: nat, es: seq<Event>, s: State)
    requires Reaches(checks, draining, timeout, es, s) && Distinct(NamesOf(checks))
    ensures |s.slots| == |s.snapshot|
    ensures draining ==> AnswerAt(s) == Some(Draining) && forall i: nat, e :: Finish(i, e) !in es
    ensures AnswerAt(s).Some? <==> draining || forall i: nat :: i < |checks| ==> Finishes(checks, es, i)
    ensures AnswerAt(s).Some? ==>
      Status(AnswerAt(s).value) == if draining || exists name :: FailsIn(checks, es, name) then 503 else 200
    ensures AnswerAt(s).Some? && !draining ==>
      && (AnswerAt(s).value.Ready? <==> forall name :: !FailsIn(checks, es, name))
      && (!AnswerAt(s).value.Ready? ==>
            && AnswerAt(s).value.NotReady? && StrictlySorted(AnswerAt(s).value.failing)
            && forall name :: name in AnswerAt(s).value.failing <==> FailsIn(checks, es, name))
  {
    ReachableInv(checks, draining, timeout, es, s);
    if draining {
      NothingRunsWhileDraining(Start(checks, true, timeout), es);
    } else {
      SlotsTell(checks, timeout, es, s);
      if AllIn(s.slots) {
        var runs := RunsOf(s.snapshot, s.slots);
        assert RanNames(runs) == NamesOf(checks);
        ListingNamesFailures(runs);
        NoElements(Listing(runs));
        forall name
          ensures name in Listing(runs) <==> FailsIn(checks, es, name)
        {
          FailuresTell(checks, timeout, es, s, name);
          assert name in Listing(runs) <==> name in Elements(Listing(runs));
        }
      }
    }
  }

  lemma {:induction false} NothingRunsWhileDraining(s: State, es: seq<Event>)
    requires s.slots == [] && ValidRun(s, es)
    ensures forall i: nat, e :: Finish(i, e) !in es
    decreases |es|
  {
    if es != [] {
      NothingRunsWhileDraining(Apply(s, es[0]), es[1..]);
      assert es == [es[0]] + es[1..];
    }
  }

  function Ticks(es: seq<Event>): nat {
    if es == [] then 0 else (if es[0].Tick? then 1 else 0) + Ticks(es[1..])
  }

  lemma {:induction false} EnvironmentTells(s: State, es: seq<Event>)
    requires ValidRun(s, es)
    ensures After(s, es).clock == s.clock + Ticks(es) && After(s, es).timeout == s.timeout
    ensures After(s, es).gone <==> s.gone || ClientLeaves in es
    ensures After(s, es).draining <==> s.draining || Drain in es
    decreases |es|
  {
    if es != [] {
      EnvironmentTells(Apply(s, es[0]), es[1..]);
      assert es == [es[0]] + es[1..];
    }
  }

  function Calls(es: seq<Event>): seq<NamedCheck> {
    if es == [] then [] else (if es[0].Register? then [es[0].check] else []) + Calls(es[1..])
  }

  lemma {:induction false} RegisteredMeanwhile(s: State, es: seq<Event>)
    requires ValidRun(s, es)
    ensures After(s, es).checks == Registered(s.checks, Calls(es))
    decreases |es|
  {
    if es != [] {
      RegisteredMeanwhile(Apply(s, es[0]), es[1..]);
      if es[0].Register? {
        RegisterOne(s.checks, es[0].check);
        assert Calls(es) == [es[0].check] + Calls(es[1..]) && Calls(es)[1..] == Calls(es[1..]);
      } else {
        assert [] + Calls(es[1..]) == Calls(es[1..]);
      }
    }
  }

  /** A probe holds up nobody else, and what they do takes effect: registrations
      in order, draining for good, and time and the client as they go. */
  lemma OthersGoOn(checks: seq<NamedCheck>, draining: bool, timeout: nat, es: seq<Event>, s: State, c: NamedCheck)
    requires Reaches(checks, draining, timeout, es, s)
    ensures s.checks == Registered(checks, Calls(es)) && (s.draining <==> draining || Drain in es)
    ensures s.clock == Ticks(es) && s.timeout == timeout && (s.gone <==> ClientLeaves in es)
    ensures Enabled(s, Register(c)) && Enabled(s, Drain) && Enabled(s, Tick)
    ensures Enabled(s, ClientLeaves) <==> ClientLeaves !in es
  {
    RegisteredMeanwhile(Start(checks, draining, timeout), es);
    EnvironmentTells(Start(checks, draining, timeout), es);
  }

  // ---- when there is an answer ----

  /** Events that must eventually happen if they stay enabled: a check that
      returns by itself, one that honours its context once that is done, the
      passing of the timeout, and the probe's own reply. */
  predicate Due(s: State, e: Event) {
    && Enabled(s, e)
    && match e
       case Finish(i, _) => s.snapshot[i].check.Returns? || ContextDone(s)
       case Reply => true
       case Tick => s.clock < s.timeout
       case ClientLeaves => false
       case Register(_) => false
       case Drain => false
  }

  predicate NoneHangs(checks: seq<NamedCheck>) {
    forall i :: 0 <= i < |checks| ==> !checks[i].check.Hangs?
  }

  /** The timeout has passed and every check still out ignores its context. */
  predicate WaitsForHung(s: State)
    requires |s.slots| == |s.snapshot|
  {
    && s.clock >= s.timeout && !AllIn(s.slots)
    && forall i :: 0 <= i < |s.slots| && s.slots[i].None? ==> s.snapshot[i].check.Hangs?
  }

  lemma FindMove(s: State) returns (e: Event)
    requires Inv(s) && s.answer.None? && !WaitsForHung(s)
    ensures Due(s, e)
  {
    if AllIn(s.slots) {
      e := Reply;
    } else if s.clock < s.timeout {
      e := Tick;
    } else {
      var i :| 0 <= i < |s.slots| && s.slots[i].None? && !s.snapshot[i].check.Hangs?;
      e := Finish(i, Passes);
    }
  }

  /** An unanswered probe has no step due exactly when it is waiting for checks
      that ignore their context. */
  lemma StuckOnlyOnHungChecks(checks: seq<NamedCheck>, timeout: nat, es: seq<Event>, s: State)
    requires Reaches(checks, false, timeout, es, s) && s.answer.None?
    ensures |s.slots| == |s.snapshot|
    ensures (forall e :: !Due(s, e)) <==> WaitsForHung(s)
  {
    ReachableInv(checks, false, timeout, es, s);
    if !WaitsForHung(s) {
      var e := FindMove(s);
    }
  }

  /** A check that honours its context, and has not returned, owes its return
      exactly once the timeout has passed or the client has left; one that returns
      by itself always; one that hangs never, and cannot. */
  lemma ReturnsAreDueExactlyWhen(checks: seq<NamedCheck>, timeout: nat, es: seq<Event>, s: State, i: nat, e: Ending)
    requires Reaches(checks, false, timeout, es, s) && i < |checks| && !Finishes(checks, es, i)
    ensures Enabled(s, Finish(i, e)) <==> !checks[i].check.Hangs?
    ensures Due(s, Finish(i, e)) <==>
      checks[i].check.Returns? || (checks[i].check.HonoursContext? && (Ticks(es) >= timeout || ClientLeaves in es))
  {
    ReachableInv(checks, false, timeout, es, s);
    SlotsTell(checks, timeout, es, s);
    EnvironmentTells(Start(checks, false, timeout), es);
  }

  function Unfilled(slots: seq<Option<Ending>>): nat {
    if slots == [] then 0 else (if slots[0].None? then 1 else 0) + Unfilled(slots[1..])
  }

  lemma {:induction false} FillingOne(slots: seq<Option<Ending>>, i: nat, e: Ending)
    requires i < |slots| && slots[i].None?
    ensures Unfilled(slots[i := Some(e)]) == Unfilled(slots) - 1
  {
    if i == 0 {
      assert slots[i := Some(e)][1..] == slots[1..];
    } else {
      assert slots[i := Some(e)][1..] == slots[1..][i - 1 := Some(e)];
      FillingOne(slots[1..], i - 1, e);
    }
  }

  lemma {:induction false} NoneUnfilled(slots: seq<Option<Ending>>)
    ensures Unfilled(slots) == 0 <==> AllIn(slots)
    ensures Unfilled(slots) <= |slots|
    ensures (forall i :: 0 <= i < |slots| ==> slots[i].None?) ==> Unfilled(slots) == |slots|
  {
    if slots != [] {
      NoneUnfilled(slots[1..]);
      assert AllIn(slots) <==> slots[0].Some? && AllIn(slots[1..]) by {
        assert forall i :: 1 <= i < |slots| ==> slots[i] == slots[1..][i - 1];
      }
    }
  }

  function Rank(s: State): nat {
    Unfilled(s.slots) + (if s.clock < s.timeout then s.timeout - s.clock else 0) + (if s.answer.None? then 1 else 0)
  }

  lemma StepIsRanked(s: State, e: Event)
    requires Enabled(s, e)
    ensures Rank(Apply(s, e)) <= Rank(s)
    ensures Due(s, e) ==> Rank(Apply(s, e)) < Rank(s)
    ensures Rank(Apply(s, e)) == Rank(s) ==> Fairness.StaysDue(Due, s, Apply(s, e))
  {
    if e.Finish? {
      FillingOne(s.slots, e.i, e.ending);
    }
  }

  /** A run of the probe and of everything around it that never ends. */
  ghost predicate InfiniteRun(
      checks: seq<NamedCheck>, draining: bool, timeout: nat, at: nat -> State, ev: nat -> Event) {
    && at(0) == Start(checks, draining, timeout)
    && forall k: nat :: Enabled(at(k), ev(k)) && at(k + 1) == Apply(at(k), ev(k))
  }

  lemma {:induction false} InvAlong(
      checks: seq<NamedCheck>, draining: bool, timeout: nat, at: nat -> State, ev: nat -> Event, k: nat)
    requires InfiniteRun(checks, draining, timeout, at, ev)
    ensures Inv(at(k)) && at(k).snapshot == (if draining then [] else checks)
    ensures at(k).answer == Some(Draining) <==> draining
  {
    if k > 0 {
      InvAlong(checks, draining, timeout, at, ev, k - 1);
      assert at(k - 1 + 1) == Apply(at(k - 1), ev(k - 1));
      StepKeepsInv(at(k - 1), ev(k - 1));
    }
  }

  ghost predicate Answers(at: nat -> State) {
    exists k: nat :: at(k).answer.Some?
  }

  /** In every infinite, weakly fair run the probe answers exactly when it found
      draining set or none of the checks it found registered ignores its context
      and hangs. */
  lemma AnswersExactlyWhen(
      checks: seq<NamedCheck>, draining: bool, timeout: nat, at: nat -> State, ev: nat -> Event)
    requires InfiniteRun(checks, draining, timeout, at, ev) && Fairness.WeaklyFair(Due, at, ev)
    ensures Answers(at) <==> draining || NoneHangs(checks)
  {
    forall k: nat
      ensures Inv(at(k)) && at(k).snapshot == (if draining then [] else checks)
      ensures at(k).answer == Some(Draining) <==> draining
    {
      InvAlong(checks, draining, timeout, at, ev, k);
    }
    if draining {
      assert at(0).answer.Some?;
    } else if NoneHangs(checks) {
      forall k: nat
        ensures at(k).answer.Some? || Fairness.SomethingDue(Due, at(k))
      {
        if at(k).answer.None? {
          var e := FindMove(at(k));
        }
      }
      forall k: nat {
        StepIsRanked(at(k), ev(k));
      }
      assert Fairness.Ranked(Due, at, ev, Rank);
      var k := Fairness.FairRunsArrive(Due, at, ev, Rank, (s: State) => s.answer.Some?, 0);
    } else {
      var i :| 0 <= i < |checks| && checks[i].check.Hangs?;
      forall k: nat
        ensures at(k).answer.None?
      {
        assert at(k).slots[i].None?;
      }
    }
  }

  /** The run in which nothing but time happens after a probe of these checks. */
  function Idling(checks: seq<NamedCheck>, timeout: nat): nat -> State {
    (k: nat) => Start(checks, false, timeout).(clock := k)
  }

  const HUNG := [NamedCheck("database", Hangs)]

  /** One check that ignores its context is enough: no run ever answers, and one
      of them is fair. */
  lemma HungCheckBlocks(timeout: nat)
    ensures forall es, s :: Reaches(HUNG, false, timeout, es, s) ==> s.answer.None?
    ensures var at := Idling(HUNG, timeout); var ev := (k: nat) => Tick;
      InfiniteRun(HUNG, false, timeout, at, ev) && Fairness.WeaklyFair(Due, at, ev) && !Answers(at)
  {
    forall es, s | Reaches(HUNG, false, timeout, es, s)
      ensures s.answer.None?
    {
      ReachableInv(HUNG, false, timeout, es, s);
      assert s.slots[0].None?;
    }
    var at := Idling(HUNG, timeout);
    var ev := (k: nat) => Tick;
    forall k: nat, e: Event
      ensures !Fairness.DueFrom(Due, at, k, e)
    {
      assert at(0).slots[0].None?;
      assert !Due(at(k + timeout), e);
    }
  }
}
