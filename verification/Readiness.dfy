/** The Readiness type of internal/server/readiness.go as code: its registry, its
    draining flag, and the probe that runs a goroutine per check, each writing
    its own result slot, under an arbitrary schedule. */
module Readiness {
  import opened Options
  import opened Names
  import opened Registry
  import opened Failures
  import opened Probing

  const DEFAULT_CHECK_TIMEOUT := 1_000_000_000

  /** The result slots hold the errors of the checks that have returned. */
  ghost predicate Mirrors(results: seq<Option<string>>, slots: seq<Option<Ending>>) {
    && |results| == |slots|
    && forall i :: 0 <= i < |results| ==>
      results[i] == if slots[i].Some? then ErrorOf(slots[i].value) else None
  }

  lemma MirrorsStart(results: seq<Option<string>>, checks: seq<NamedCheck>, timeout: nat)
    requires |results| == |checks| && forall i :: 0 <= i < |results| ==> results[i].None?
    ensures Mirrors(results, Start(checks, false, timeout).slots)
    ensures Unfilled(Start(checks, false, timeout).slots) == |checks|
  {
    NoneUnfilled(Start(checks, false, timeout).slots);
  }

  /** The steps of everyone but the probe's own reply. */
  ghost predicate WithoutReply(schedule: seq<Event>) {
    forall k :: 0 <= k < |schedule| ==> !schedule[k].Reply?
  }

  class Readiness {
    var draining: bool
    var checkTimeout: int
    var checks: seq<NamedCheck>

    ghost predicate Valid()
      reads this
    {
      Distinct(NamesOf(checks))
    }

    /** NewReadiness passes the default timeout; a struct literal leaves it zero. */
    constructor (checkTimeout: int)
      ensures Valid() && !draining && checks == [] && this.checkTimeout == checkTimeout
    {
      draining, checks := false, [];
      this.checkTimeout := checkTimeout;
    }

    /** The timeout of a probe's context, which never starts out expired. */
    function ProbeTimeout(): (timeout: nat)
      reads this
      ensures timeout > 0
      ensures checkTimeout > 0 ==> timeout == checkTimeout
      ensures checkTimeout <= 0 ==> timeout == 1_000_000_000
    {
      if checkTimeout <= 0 then DEFAULT_CHECK_TIMEOUT else checkTimeout
    }

    method AddCheck(c: NamedCheck) returns (panicked: bool)
      requires Valid()
      modifies this`checks
      ensures Valid()
      ensures panicked <==> c.name in NamesOf(old(checks))
      ensures checks == Registered(old(checks), [c])
      ensures checks == if panicked then old(checks) else old(checks) + [c]
    {
      assert [c][1..] == [];
      RegistrationsStayDistinct(checks, [c]);
      var i := 0;
      panicked := false;
      while i < |checks|
        invariant 0 <= i <= |checks|
        invariant c.name !in NamesOf(checks)[..i]
      {
        if checks[i].name == c.name {
          assert NamesOf(checks)[i] == c.name;
          panicked := true;
          return;
        }
        i := i + 1;
      }
      checks := checks + [c];
    }

    method SetDraining()
      modifies this`draining
      ensures draining
    {
      draining := true;
    }

    /** One step of the schedule: a goroutine's check ends and it writes its slot
        and leaves the wait group, or another user of the registry acts. */
    method Advance(results: array<Option<string>>, pending: nat, e: Event, ghost s: State) returns (left: nat)
      requires Valid() && checks == s.checks && Probing.Inv(s) && Enabled(s, e) && !e.Reply?
      requires Mirrors(results[..], s.slots) && pending == Unfilled(s.slots)
      modifies this`checks, this`draining, results
      ensures Valid() && checks == Apply(s, e).checks && draining == (old(draining) || e.Drain?)
      ensures Mirrors(results[..], Apply(s, e).slots) && left == Unfilled(Apply(s, e).slots)
    {
      left := pending;
      match e
      case Finish(i, ending) =>
        FillingOne(s.slots, i, ending);
        results[i] := ErrorOf(ending);
        left := pending - 1;
      case Register(c) =>
        var _ := AddCheck(c);
      case Drain =>
        SetDraining();
      case _ =>
    }

    /** The goroutines of one probe, as far as the schedule takes them; pending is
        the wait group's counter, for which wg.Wait waits to be zero. */
    method RunChecks(snapshot: seq<NamedCheck>, schedule: seq<Event>)
      returns (results: array<Option<string>>, pending: nat)
      requires Valid() && snapshot == checks && WithoutReply(schedule)
      requires ValidRun(Start(checks, false, ProbeTimeout()), schedule)
      modifies this`checks, this`draining
      ensures Valid() && fresh(results)
      ensures var s := After(Start(old(checks), false, old(ProbeTimeout())), schedule);
        && checks == s.checks && draining == (old(draining) || s.draining)
        && Mirrors(results[..], s.slots) && pending == Unfilled(s.slots)
    {
      ghost var s := Start(checks, false, ProbeTimeout());
      results := new Option<string>[|snapshot|](_ => None);
      pending := |snapshot|;
      MirrorsStart(results[..], checks, ProbeTimeout());
      var k := 0;
      while k < |schedule|
        invariant 0 <= k <= |schedule| && ValidRun(s, schedule[k..])
        invariant After(s, schedule[k..]) == After(Start(old(checks), false, old(ProbeTimeout())), schedule)
        invariant Valid() && Probing.Inv(s) && checks == s.checks && draining == (old(draining) || s.draining)
        invariant Mirrors(results[..], s.slots) && pending == Unfilled(s.slots)
      {
        assert schedule[k..][0] == schedule[k] && schedule[k..][1..] == schedule[k + 1..];
        pending := Advance(results, pending, schedule[k], s);
        StepKeepsInv(s, schedule[k]);
        s := Apply(s, schedule[k]);
        k := k + 1;
      }
    }

    /** The code after wg.Wait. */
    method Collect(snapshot: seq<NamedCheck>, results: array<Option<string>>, ghost slots: seq<Option<Ending>>)
      returns (failed: seq<string>, warned: seq<Warning>)
      requires |slots| == |snapshot| && AllIn(slots) && Mirrors(results[..], slots)
      ensures failed == Listing(RunsOf(snapshot, slots))
      ensures warned == Warnings(RunsOf(snapshot, slots))
    {
      ghost var runs := RunsOf(snapshot, slots);
      failed, warned := [], [];
      var i := 0;
      while i < |snapshot|
        invariant 0 <= i <= |snapshot|
        invariant failed == FailedInOrder(runs[..i]) && warned == Warnings(runs[..i])
      {
        assert runs[..i + 1][..i] == runs[..i] && runs[..i + 1][i] == runs[i];
        assert results[..][i] == ErrorOf(runs[i].ending);
        if results[i].Some? {
          warned := warned + [Warning(snapshot[i].name, results[i].value)];
          failed := failed + [snapshot[i].name];
        }
        i := i + 1;
      }
      assert runs[..i] == runs;
      failed := Sort(failed);
    }

    /** failing, as far as the schedule takes it: waiting means that wg.Wait has
        not returned. */
    method Failing(schedule: seq<Event>) returns (waiting: bool, failed: seq<string>, warned: seq<Warning>)
      requires Valid() && WithoutReply(schedule)
      requires ValidRun(Start(checks, false, ProbeTimeout()), schedule)
      modifies this`checks, this`draining
      ensures Valid()
      ensures var s := After(Start(old(checks), false, old(ProbeTimeout())), schedule);
        && s.snapshot == old(checks) && |s.slots| == |s.snapshot|
        && (waiting <==> !AllIn(s.slots))
        && (!waiting ==> failed == Listing(RunsOf(s.snapshot, s.slots)))
        && (!waiting ==> warned == Warnings(RunsOf(s.snapshot, s.slots)))
        && (old(checks) != [] ==> checks == s.checks && draining == (old(draining) || s.draining))
    {
      ghost var s := After(Start(checks, false, ProbeTimeout()), schedule);
      RunKeepsInv(Start(checks, false, ProbeTimeout()), schedule);
      var snapshot := checks;
      waiting, failed, warned := false, [], [];
      if |snapshot| == 0 {
        assert RunsOf(s.snapshot, s.slots) == [];
        return;
      }
      var results, pending := RunChecks(snapshot, schedule);
      NoneUnfilled(s.slots);
      waiting := pending > 0;
      if !waiting {
        failed, warned := Collect(snapshot, results, s.slots);
      }
    }

    /** newReadinessHandler, as far as the schedule takes it. */
    method Probe(schedule: seq<Event>) returns (answer: Option<Response>)
      requires Valid() && WithoutReply(schedule)
      requires ValidRun(Start(checks, draining, ProbeTimeout()), schedule)
      modifies this`checks, this`draining
      ensures Valid()
      ensures var s := After(Start(old(checks), old(draining), old(ProbeTimeout())), schedule);
        |s.slots| == |s.snapshot| && answer == AnswerAt(s)
      ensures answer.Some? <==>
        old(draining) || forall i: nat :: i < |old(checks)| ==> Finishes(old(checks), schedule, i)
      ensures answer.Some? ==>
        Status(answer.value)
        == if old(draining) || exists name :: FailsIn(old(checks), schedule, name) then 503 else 200
      ensures old(draining) ==> answer == Some(Draining) && checks == old(checks)
    {
      AnswerTells(checks, draining, ProbeTimeout(), schedule, After(Start(checks, draining, ProbeTimeout()), schedule));
      RunKeepsInv(Start(checks, draining, ProbeTimeout()), schedule);
      if draining {
        return Some(Draining);
      }
      var waiting, failed, _ := Failing(schedule);
      if waiting {
        answer := None;
      } else if |failed| > 0 {
        answer := Some(NotReady(failed));
      } else {
        answer := Some(Ready);
      }
    }
  }
}
