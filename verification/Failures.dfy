/** What a readiness probe lists, and logs, once its checks have ended. */
module Failures {
  import opened Options
  import opened Names

  /** How one run of a check ends; a panic is converted, not propagated. */
  datatype Ending = Passes | Fails(cause: string) | Panics(value: string)

  /** One check's run in one probe. */
  datatype Ran = Ran(name: string, ending: Ending)

  datatype Warning = Warning(check: string, cause: string)

  /** runCheck: the error of one check, a panic counting as one. */
  function ErrorOf(e: Ending): Option<string> {
    match e
    case Passes => None
    case Fails(cause) => Some(cause)
    case Panics(value) => Some("check panicked: " + value)
  }

  function RanNames(runs: seq<Ran>): seq<string> {
    seq(|runs|, i requires 0 <= i < |runs| => runs[i].name)
  }

  /** The names of the checks that failed or panicked. */
  ghost function FailingNames(runs: seq<Ran>): set<string> {
    set i | 0 <= i < |runs| && !runs[i].ending.Passes? :: runs[i].name
  }

  /** The log entries, in registration order. */
  function Warnings(runs: seq<Ran>): seq<Warning> {
    if runs == [] then []
    else
      var r := runs[|runs| - 1];
      var e := ErrorOf(r.ending);
      Warnings(runs[..|runs| - 1]) + (if e.Some? then [Warning(r.name, e.value)] else [])
  }

  function FailedInOrder(runs: seq<Ran>): seq<string> {
    if runs == [] then []
    else
      var r := runs[|runs| - 1];
      FailedInOrder(runs[..|runs| - 1]) + (if r.ending.Passes? then [] else [r.name])
  }

  /** A warning for each check that failed, with its cause, in the order of the
      checks, and the listed names are theirs. */
  lemma {:induction false} WarningsOfConcat(a: seq<Ran>, b: seq<Ran>)
    ensures Warnings(a + b) == Warnings(a) + Warnings(b)
  {
    if b == [] {
      assert a + b == a;
    } else {
      assert (a + b)[..|a + b| - 1] == a + b[..|b| - 1];
      WarningsOfConcat(a, b[..|b| - 1]);
    }
  }

  lemma WarningOfOne(r: Ran)
    ensures r.ending.Passes? ==> Warnings([r]) == []
    ensures r.ending.Fails? ==> Warnings([r]) == [Warning(r.name, r.ending.cause)]
    ensures r.ending.Panics? ==> Warnings([r]) == [Warning(r.name, "check panicked: " + r.ending.value)]
  {
    assert [r][..0] == [];
  }

  lemma {:induction false} WarnedAreListed(runs: seq<Ran>)
    ensures |Warnings(runs)| == |FailedInOrder(runs)|
    ensures forall i :: 0 <= i < |Warnings(runs)| ==> Warnings(runs)[i].check == FailedInOrder(runs)[i]
  {
    if runs != [] {
      WarnedAreListed(runs[..|runs| - 1]);
    }
  }

  ghost predicate FailsAt(runs: seq<Ran>, i: int, name: string) {
    0 <= i < |runs| && !runs[i].ending.Passes? && runs[i].name == name
  }

  lemma {:induction false} FailedMember(runs: seq<Ran>, name: string)
    ensures name in FailedInOrder(runs) <==> exists i :: FailsAt(runs, i, name)
  {
    if runs != [] {
      var k := |runs| - 1;
      FailedMember(runs[..k], name);
      if i :| FailsAt(runs[..k], i, name) {
        assert FailsAt(runs, i, name);
      }
      if i :| FailsAt(runs, i, name) && i != k {
        assert FailsAt(runs[..k], i, name);
      }
      assert FailsAt(runs, k, name) <==> !runs[k].ending.Passes? && runs[k].name == name;
    }
  }

  lemma {:induction false} FailedDistinct(runs: seq<Ran>)
    requires Distinct(RanNames(runs))
    ensures Distinct(FailedInOrder(runs))
  {
    if runs != [] {
      var k := |runs| - 1;
      assert RanNames(runs[..k]) == RanNames(runs)[..k];
      FailedDistinct(runs[..k]);
      FailedMember(runs[..k], runs[k].name);
      assert forall i :: 0 <= i < k ==> runs[i].name == RanNames(runs)[i] != RanNames(runs)[k];
    }
  }

  lemma FailedAreFailing(runs: seq<Ran>)
    ensures Elements(FailedInOrder(runs)) == FailingNames(runs)
  {
    var f := FailedInOrder(runs);
    forall name
      ensures name in Elements(f) <==> name in FailingNames(runs)
    {
      FailedMember(runs, name);
      if i :| FailsAt(runs, i, name) {
        assert runs[i].name in FailingNames(runs);
      }
      if name in FailingNames(runs) {
        var i :| 0 <= i < |runs| && !runs[i].ending.Passes? && runs[i].name == name;
        assert FailsAt(runs, i, name);
      }
    }
  }

  /** What a probe whose checks ended so lists. */
  function Listing(runs: seq<Ran>): seq<string> {
    Sort(FailedInOrder(runs))
  }

  /** A listing is strictly sorted and names exactly the failing checks. */
  lemma ListingNamesFailures(runs: seq<Ran>)
    requires Distinct(RanNames(runs))
    ensures StrictlySorted(Listing(runs))
    ensures Elements(Listing(runs)) == FailingNames(runs)
  {
    FailedAreFailing(runs);
    FailedDistinct(runs);
    SortOrders(FailedInOrder(runs));
  }

  /** A listing depends on nothing but which names fail: the checks that pass do
      not show. */
  lemma ListingDependsOnFailuresOnly(a: seq<Ran>, b: seq<Ran>)
    requires Distinct(RanNames(a)) && Distinct(RanNames(b))
    requires FailingNames(a) == FailingNames(b)
    ensures Listing(a) == Listing(b)
  {
    ListingNamesFailures(a);
    ListingNamesFailures(b);
    SortedListingIsUnique(Listing(a), Listing(b));
  }

  lemma SameRunsSameFailures(a: seq<Ran>, b: seq<Ran>)
    requires multiset(a) == multiset(b)
    ensures FailingNames(a) <= FailingNames(b)
  {
    forall name | name in FailingNames(a)
      ensures name in FailingNames(b)
    {
      var i :| 0 <= i < |a| && !a[i].ending.Passes? && a[i].name == name;
      assert a[i] in multiset(b);
      var j :| 0 <= j < |b| && b[j] == a[i];
    }
  }

  /** The order in which checks were registered never shows in a listing. */
  lemma RegistrationOrderIsIrrelevant(a: seq<Ran>, b: seq<Ran>)
    requires Distinct(RanNames(a)) && Distinct(RanNames(b)) && multiset(a) == multiset(b)
    ensures Listing(a) == Listing(b)
  {
    SameRunsSameFailures(a, b);
    SameRunsSameFailures(b, a);
    ListingDependsOnFailuresOnly(a, b);
  }
}
