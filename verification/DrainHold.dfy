/** What the outside sees of a shutdown: /readyz fails while the listeners are
    still open. The shutdown protocol and the readiness probe share one flag. */
module DrainHold {
  import opened Options
  import S = Shutdown
  import opened ShutdownSafety
  import Registry
  import P = Probing

  /** A probe that begins while the shutdown is in state s, and how it goes on. */
  ghost predicate Probed(s: S.State, checks: seq<Registry.NamedCheck>, timeout: nat, es: seq<P.Event>, p: P.State) {
    P.Reaches(checks, s.draining.Some?, timeout, es, p)
  }

  /** Once SetDraining has run, in that state and in every later one, a probe is
      answered at once, as draining, whatever its checks would do and even if they
      would hang; and for as long as the sequencer arms or waits out the delay of
      a run without failures, the listener of every server is open. */
  lemma HoldIsVisible(n: nat, delay: int, es: seq<S.Event>, s: S.State, later: seq<S.Event>,
                      checks: seq<Registry.NamedCheck>, timeout: nat, ps: seq<P.Event>, p: P.State)
    requires Reaches(n, delay, es, s) && (s.sequencer.Arming? || s.sequencer.Holding?)
    requires S.ValidRun(s, later) && Probed(S.After(s, later), checks, timeout, ps, p)
    ensures p.answer == Some(P.Draining) && p.slots == []
    ensures S.FirstError(S.Init(n, delay), es).None? ==>
      forall i :: 0 <= i < |s.servers| ==> HeldOpen(s.servers[i]) && !s.servers[i].phase.Unspawned?
  {
    ReachableInv(n, delay, es, s);
    DrainingNeverClears(s, later);
    P.ReachableInv(checks, true, timeout, ps, p);
    ErrIsFirstError(S.Init(n, delay), es);
    if s.err.None? {
      NotStoppedIsHeldOpen(s);
    }
  }
}
