/** The registry of readiness checks: AddCheck in internal/server/readiness.go. */
module Registry {
  import opened Names

  /** What a check does with the context it is handed: it returns by itself,
      returns at the latest once the context is done, or ignores the context and
      never returns. */
  datatype Check = Returns | HonoursContext | Hangs

  datatype NamedCheck = NamedCheck(name: string, check: Check)

  function NamesOf(checks: seq<NamedCheck>): seq<string> {
    seq(|checks|, i requires 0 <= i < |checks| => checks[i].name)
  }

  /** A run of AddCheck calls, each on a recovered caller. */
  function Registered(checks: seq<NamedCheck>, calls: seq<NamedCheck>): seq<NamedCheck>
    decreases |calls|
  {
    if calls == [] then checks
    else Registered(if calls[0].name in NamesOf(checks) then checks else checks + [calls[0]], calls[1..])
  }

  /** A fresh name is registered with its check, last; a taken one changes nothing. */
  lemma RegisterOne(checks: seq<NamedCheck>, c: NamedCheck)
    ensures c.name !in NamesOf(checks) ==> Registered(checks, [c]) == checks + [c]
    ensures c.name in NamesOf(checks) ==> Registered(checks, [c]) == checks
  {
    assert [c][1..] == [];
  }

  /** After any run of registrations names are distinct, nothing registered
      before has moved, and every name asked for is present. */
  lemma {:induction false} RegistrationsStayDistinct(checks: seq<NamedCheck>, calls: seq<NamedCheck>)
    requires Distinct(NamesOf(checks))
    ensures Distinct(NamesOf(Registered(checks, calls)))
    ensures checks <= Registered(checks, calls)
    ensures forall name ::
      name in NamesOf(Registered(checks, calls)) <==> name in NamesOf(checks) || name in NamesOf(calls)
    decreases |calls|
  {
    if calls != [] {
      var c := calls[0];
      var next := if c.name in NamesOf(checks) then checks else checks + [c];
      assert NamesOf(calls) == [c.name] + NamesOf(calls[1..]);
      assert NamesOf(checks + [c]) == NamesOf(checks) + [c.name];
      RegistrationsStayDistinct(next, calls[1..]);
    }
  }
}
