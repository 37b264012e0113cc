/** The in-flight limiter of internal/server/limits.go: one bounded channel of
    slots shared by any number of interleaved requests, each of which may
    return, panic or abort inside the handler. A slot is taken by a
    non-blocking send and given back by a deferred receive, which runs before
    the recovery middleware outside it. */
module InFlight {
  datatype Phase =
    | Inside                      // in the handler
    | Unwinding(panicked: bool)   // the handler is over; the deferred receive comes next
    | Recovering                  // a panic has reached the recovery middleware
    | Shed                        // refused with 503
    | Ended

  /** slots is the number of values in the channel, whose capacity is limit. A
      limit of zero or less disables the middleware. */
  datatype State = State(limit: int, slots: nat, requests: map<nat, Phase>)

  datatype Event =
    | Arrive(id: nat)
    | Leave(id: nat, panicked: bool)
    | Release(id: nat)
    | Recover(id: nat)

  function Init(limit: int): State {
    State(limit, 0, map[])
  }

  predicate Holds(p: Phase) {
    p.Inside? || p.Unwinding?
  }

  /** The requests between their slot's send and its receive. */
  function HoldersOf(requests: map<nat, Phase>): set<nat> {
    set id | id in requests && Holds(requests[id])
  }

  function Holders(s: State): set<nat> {
    HoldersOf(s.requests)
  }

  predicate Enabled(s: State, e: Event) {
    match e
    case Arrive(id) => id !in s.requests
    case Leave(id, _) => id in s.requests && s.requests[id].Inside?
    // A receive from an empty channel would block.
    case Release(id) => id in s.requests && s.requests[id].Unwinding? && (s.limit > 0 ==> s.slots > 0)
    case Recover(id) => id in s.requests && s.requests[id].Recovering?
  }

  function Apply(s: State, e: Event): State
    requires Enabled(s, e)
  {
    match e
    case Arrive(id) =>
      if s.limit <= 0 then s.(requests := s.requests[id := Inside])
      else if s.slots < s.limit then s.(slots := s.slots + 1, requests := s.requests[id := Inside])
      else s.(requests := s.requests[id := Shed])
    case Leave(id, panicked) => s.(requests := s.requests[id := Unwinding(panicked)])
    case Release(id) =>
      s.(slots := if s.limit > 0 then s.slots - 1 else s.slots,
         requests := s.requests[id := if s.requests[id].panicked then Recovering else Ended])
    case Recover(id) => s.(requests := s.requests[id := Ended])
  }

  predicate ValidRun(s: State, es: seq<Event>)
    decreases |es|
  {
    es == [] || (Enabled(s, es[0]) && ValidRun(Apply(s, es[0]), es[1..]))
  }

  function After(s: State, es: seq<Event>): State
    requires ValidRun(s, es)
    decreases |es|
  {
    if es == [] then s else After(Apply(s, es[0]), es[1..])
  }

  predicate Inv(s: State) {
    if s.limit > 0 then s.slots == |Holders(s)| && s.slots <= s.limit else s.slots == 0
  }

  lemma HoldersAfterUpdate(requests: map<nat, Phase>, id: nat, p: Phase)
    ensures HoldersOf(requests[id := p]) ==
            if Holds(p) then HoldersOf(requests) + {id} else HoldersOf(requests) - {id}
  {}

  lemma HoldersAfterStep(s: State, e: Event)
    requires Enabled(s, e)
    ensures Holders(Apply(s, e)) ==
            if Holds(Apply(s, e).requests[e.id]) then Holders(s) + {e.id} else Holders(s) - {e.id}
    ensures e.id in Holders(s) <==> e.Leave? || e.Release?
  {
    HoldersAfterUpdate(s.requests, e.id, Apply(s, e).requests[e.id]);
    assert Apply(s, e).requests == s.requests[e.id := Apply(s, e).requests[e.id]];
  }

  /** A handler that ends, however it ends, gives its slot back exactly once. */
  lemma StepKeepsInv(s: State, e: Event)
    requires Inv(s) && Enabled(s, e)
    ensures Inv(Apply(s, e)) && Apply(s, e).limit == s.limit
    ensures Holders(Apply(s, e)) ==
            if e.Arrive? && Apply(s, e).requests[e.id].Inside? then Holders(s) + {e.id}
            else if e.Release? then Holders(s) - {e.id}
            else Holders(s)
  {
    HoldersAfterStep(s, e);
    if e.Leave? {
      assert Holders(s) + {e.id} == Holders(s);
    } else if !e.Release? {
      assert Holders(s) - {e.id} == Holders(s);
    }
  }

  lemma {:induction false} RunKeepsInv(s: State, es: seq<Event>)
    requires Inv(s) && ValidRun(s, es)
    ensures Inv(After(s, es)) && After(s, es).limit == s.limit
    decreases |es|
  {
    if es != [] {
      StepKeepsInv(s, es[0]);
      RunKeepsInv(Apply(s, es[0]), es[1..]);
    }
  }

  ghost predicate Reaches(limit: int, es: seq<Event>, s: State) {
    ValidRun(Init(limit), es) && After(Init(limit), es) == s
  }

  lemma ReachableInv(limit: int, es: seq<Event>, s: State)
    requires Reaches(limit, es, s)
    ensures Inv(s) && s.limit == limit
  {
    assert Holders(Init(limit)) == {};
    RunKeepsInv(Init(limit), es);
  }

  // ---- the theorems ----

  /** In every interleaving the channel holds one value per request inside the
      handler or unwinding out of it, never more than the limit; so once no
      request is, the channel is empty, whatever panicked. */
  lemma SlotsCountHolders(limit: int, es: seq<Event>, s: State)
    requires Reaches(limit, es, s) && limit > 0
    ensures s.slots == |Holders(s)| <= limit
    ensures (forall id :: id in s.requests ==> !Holds(s.requests[id])) <==> s.slots == 0
  {
    ReachableInv(limit, es, s);
    if s.slots == 0 {
      forall id | id in s.requests
        ensures !Holds(s.requests[id])
      {
        assert id !in Holders(s);
      }
    } else {
      assert Holders(s) != {};
      var id :| id in Holders(s);
    }
  }

  /** The deferred receive never blocks. */
  lemma ReleaseNeverBlocks(limit: int, es: seq<Event>, s: State, id: nat)
    requires Reaches(limit, es, s) && id in s.requests && s.requests[id].Unwinding?
    ensures Enabled(s, Release(id))
  {
    ReachableInv(limit, es, s);
    assert id in Holders(s);
  }

  /** A request is shed exactly when, at that step, as many requests as the
      limit are inside; with the middleware disabled, never. */
  lemma ShedExactlyWhenFull(limit: int, es: seq<Event>, s: State, id: nat)
    requires Reaches(limit, es, s) && Enabled(s, Arrive(id))
    ensures Apply(s, Arrive(id)).requests[id].Shed? <==> limit > 0 && |Holders(s)| == limit
    ensures Apply(s, Arrive(id)).requests[id].Inside? <==> limit <= 0 || |Holders(s)| < limit
  {
    ReachableInv(limit, es, s);
  }

  /** When recovery starts writing a panicked request's 500, that request's slot
      is already free: the channel counts only the others. */
  lemma SlotFreeBeforeRecovery(limit: int, es: seq<Event>, s: State, id: nat)
    requires Reaches(limit, es, s) && limit > 0 && Enabled(s, Recover(id))
    ensures s.slots == |Holders(s) - {id}|
    ensures Apply(s, Recover(id)).slots == s.slots
  {
    ReachableInv(limit, es, s);
    assert Holders(s) - {id} == Holders(s);
  }

  /** No capacity is ever lost: after any run, with k requests inside, exactly
      the next limit - k of any fresh arrivals are admitted, and the one after
      them is shed. */
  lemma CapacityIsConserved(limit: int, es: seq<Event>, s: State, ids: seq<nat>)
    requires Reaches(limit, es, s) && limit > 0
    requires forall i :: 0 <= i < |ids| ==> ids[i] !in s.requests
    requires forall i, j :: 0 <= i < j < |ids| ==> ids[i] != ids[j]
    ensures ValidRun(s, Arrivals(ids))
    ensures forall i :: 0 <= i < |ids| ==>
      ids[i] in After(s, Arrivals(ids)).requests
      && After(s, Arrivals(ids)).requests[ids[i]] == if i < limit - |Holders(s)| then Inside else Shed
  {
    ReachableInv(limit, es, s);
    ArrivalsFrom(s, ids);
  }

  function Arrivals(ids: seq<nat>): (es: seq<Event>)
    ensures |es| == |ids|
  {
    if ids == [] then [] else [Arrive(ids[0])] + Arrivals(ids[1..])
  }

  lemma {:induction false} ArrivalsFrom(s: State, ids: seq<nat>)
    requires Inv(s) && s.limit > 0
    requires forall i :: 0 <= i < |ids| ==> ids[i] !in s.requests
    requires forall i, j :: 0 <= i < j < |ids| ==> ids[i] != ids[j]
    ensures ValidRun(s, Arrivals(ids))
    ensures forall id :: id in s.requests ==>
      id in After(s, Arrivals(ids)).requests && After(s, Arrivals(ids)).requests[id] == s.requests[id]
    ensures forall i :: 0 <= i < |ids| ==>
      ids[i] in After(s, Arrivals(ids)).requests
      && After(s, Arrivals(ids)).requests[ids[i]] == if i < s.limit - |Holders(s)| then Inside else Shed
    decreases |ids|
  {
    if ids != [] {
      var e := Arrive(ids[0]);
      var t := Apply(s, e);
      assert Arrivals(ids)[0] == e && Arrivals(ids)[1..] == Arrivals(ids[1..]);
      StepKeepsInv(s, e);
      ArrivalsFrom(t, ids[1..]);
      var u := After(t, Arrivals(ids[1..]));
      assert ids[0] in t.requests;
      forall i | 0 <= i < |ids|
        ensures ids[i] in u.requests && u.requests[ids[i]] == if i < s.limit - |Holders(s)| then Inside else Shed
      {
        if i > 0 {
          assert ids[i] == ids[1..][i - 1];
        }
      }
    }
  }

  /** The middleware itself: Enter is the select over the channel, Release the
      deferred receive, around a handler that the other methods end. */
  class Limiter {
    const limit: int
    var slots: nat
    ghost var requests: map<nat, Phase>

    constructor (limit: int)
      ensures View() == Init(limit)
    {
      this.limit := limit;
      slots, requests := 0, map[];
    }

    ghost function View(): State
      reads this
    {
      State(limit, slots, requests)
    }

    method Enter(id: nat) returns (admitted: bool)
      requires Inv(View()) && Enabled(View(), Arrive(id))
      modifies this
      ensures View() == Apply(old(View()), Arrive(id)) && Inv(View())
      ensures admitted <==> limit <= 0 || old(|Holders(View())|) < limit
    {
      StepKeepsInv(View(), Arrive(id));
      if limit <= 0 {
        admitted := true;
      } else if slots < limit {
        slots := slots + 1;
        admitted := true;
      } else {
        admitted := false;
      }
      requests := requests[id := if admitted then Inside else Shed];
    }

    method Leave(id: nat, panicked: bool)
      requires Inv(View()) && Enabled(View(), Event.Leave(id, panicked))
      modifies this
      ensures View() == Apply(old(View()), Event.Leave(id, panicked)) && Inv(View())
    {
      StepKeepsInv(View(), Event.Leave(id, panicked));
      requests := requests[id := Unwinding(panicked)];
    }

    /** Not being blocked is no requirement of the caller: it follows. */
    method Release(id: nat)
      requires Inv(View()) && id in requests && requests[id].Unwinding?
      modifies this
      ensures old(Enabled(View(), Event.Release(id)))
      ensures View() == Apply(old(View()), Event.Release(id)) && Inv(View())
      ensures Holders(View()) == old(Holders(View())) - {id}
    {
      assert id in Holders(View());
      StepKeepsInv(View(), Event.Release(id));
      if limit > 0 {
        slots := slots - 1;
      }
      requests := requests[id := if requests[id].panicked then Recovering else Ended];
    }

    method Recover(id: nat)
      requires Inv(View()) && Enabled(View(), Event.Recover(id))
      modifies this
      ensures View() == Apply(old(View()), Event.Recover(id)) && Inv(View())
      ensures slots == old(slots) && id !in old(Holders(View()))
    {
      StepKeepsInv(View(), Event.Recover(id));
      requests := requests[id := Ended];
    }
  }
}
