/** Weakly fair infinite runs, given as the states at each instant and the
    events between them, and the rule by which they arrive somewhere. */
module Fairness {
  ghost predicate DueFrom<S(!new), E(!new)>(due: (S, E) -> bool, at: nat -> S, k: nat, e: E) {
    forall j: nat :: k <= j ==> due(at(j), e)
  }

  ghost predicate TakenFrom<E(!new)>(ev: nat -> E, k: nat, e: E) {
    exists j: nat :: k <= j && ev(j) == e
  }

  /** A step that is due from some instant on for ever is taken. */
  ghost predicate WeaklyFair<S(!new), E(!new)>(due: (S, E) -> bool, at: nat -> S, ev: nat -> E) {
    forall k: nat, e :: DueFrom(due, at, k, e) ==> TakenFrom(ev, k, e)
  }

  ghost predicate StaysDue<S(!new), E(!new)>(due: (S, E) -> bool, s: S, t: S) {
    forall e :: due(s, e) ==> due(t, e)
  }

  ghost predicate SomethingDue<S(!new), E(!new)>(due: (S, E) -> bool, s: S) {
    exists e :: due(s, e)
  }

  /** No step raises the rank, a due one lowers it, and one that leaves it alone
      leaves every due step due. */
  ghost predicate Ranked<S(!new), E(!new)>(due: (S, E) -> bool, at: nat -> S, ev: nat -> E, rank: S -> nat) {
    forall j: nat ::
      && rank(at(j + 1)) <= rank(at(j))
      && (due(at(j), ev(j)) ==> rank(at(j + 1)) < rank(at(j)))
      && (rank(at(j + 1)) == rank(at(j)) ==> StaysDue(due, at(j), at(j + 1)))
  }

  lemma {:induction false} RankNeverRises<S(!new), E(!new)>(
      due: (S, E) -> bool, at: nat -> S, ev: nat -> E, rank: S -> nat, k: nat, j: nat)
    requires Ranked(due, at, ev, rank) && k <= j
    ensures rank(at(j)) <= rank(at(k))
    decreases j
  {
    if k < j {
      RankNeverRises(due, at, ev, rank, k, j - 1);
      assert rank(at(j - 1 + 1)) <= rank(at(j - 1));
    }
  }

  lemma {:induction false} DueWhileRankStays<S(!new), E(!new)>(
      due: (S, E) -> bool, at: nat -> S, ev: nat -> E, rank: S -> nat, k: nat, j: nat, e: E)
    requires Ranked(due, at, ev, rank) && k <= j
    requires due(at(k), e) && rank(at(j)) == rank(at(k))
    ensures due(at(j), e)
    decreases j
  {
    if k < j {
      RankNeverRises(due, at, ev, rank, k, j - 1);
      assert rank(at(j - 1 + 1)) <= rank(at(j - 1));
      DueWhileRankStays(due, at, ev, rank, k, j - 1, e);
    }
  }

  /** Where a step is due the rank falls sooner or later. */
  lemma RankFalls<S(!new), E(!new)>(
      due: (S, E) -> bool, at: nat -> S, ev: nat -> E, rank: S -> nat, k: nat, e: E) returns (j: nat)
    requires Ranked(due, at, ev, rank) && WeaklyFair(due, at, ev) && due(at(k), e)
    ensures k <= j && rank(at(j)) < rank(at(k))
  {
    if i: nat :| k <= i && rank(at(i)) != rank(at(k)) {
      RankNeverRises(due, at, ev, rank, k, i);
      j := i;
    } else {
      forall i: nat | k <= i
        ensures due(at(i), e)
      {
        DueWhileRankStays(due, at, ev, rank, k, i, e);
      }
      assert DueFrom(due, at, k, e);
      var i: nat :| k <= i && ev(i) == e;
      assert due(at(i), e);
      j := i + 1;
    }
  }

  /** A fair, ranked run in which some step is due wherever it has not arrived
      arrives. */
  lemma {:induction false} FairRunsArrive<S(!new), E(!new)>(
      due: (S, E) -> bool, at: nat -> S, ev: nat -> E, rank: S -> nat, goal: S -> bool, k: nat) returns (j: nat)
    requires Ranked(due, at, ev, rank) && WeaklyFair(due, at, ev)
    requires forall i: nat :: k <= i ==> goal(at(i)) || SomethingDue(due, at(i))
    ensures k <= j && goal(at(j))
    decreases rank(at(k))
  {
    if goal(at(k)) {
      j := k;
    } else {
      var e :| due(at(k), e);
      var i := RankFalls(due, at, ev, rank, k, e);
      j := FairRunsArrive(due, at, ev, rank, goal, i);
    }
  }
}
