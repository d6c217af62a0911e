/** Finite runs of a transition system, and the induction principle over them. */
module Runs {

  /** `run` starts in an initial state and every adjacent pair of states is a step. */
  ghost predicate IsRun<S(!new)>(init: S -> bool, next: (S, S) -> bool, run: seq<S>)
  {
    && run != []
    && init(run[0])
    && forall i :: 0 <= i < |run| - 1 ==> next(run[i], run[i + 1])
  }

  /** `s` is the last state of some run. */
  ghost predicate Reachable<S(!new)>(init: S -> bool, next: (S, S) -> bool, s: S)
  {
    exists run :: IsRun(init, next, run) && run[|run| - 1] == s
  }

  /** `inv` holds initially and is kept by every step. */
  ghost predicate Inductive<S(!new)>(init: S -> bool, next: (S, S) -> bool, inv: S -> bool)
  {
    && (forall s :: init(s) ==> inv(s))
    && (forall s, s' :: inv(s) && next(s, s') ==> inv(s'))
  }

  lemma {:induction false} HoldsAlongRun<S(!new)>(
      init: S -> bool, next: (S, S) -> bool, inv: S -> bool, run: seq<S>, i: nat)
    requires Inductive(init, next, inv) && IsRun(init, next, run)
    requires i < |run|
    ensures inv(run[i])
  {
    if i > 0 {
      HoldsAlongRun(init, next, inv, run, i - 1);
      assert next(run[i - 1], run[i - 1 + 1]);
    }
  }

  /** An inductive predicate holds in every reachable state. */
  lemma HoldsWhenReachable<S(!new)>(init: S -> bool, next: (S, S) -> bool, inv: S -> bool, s: S)
    requires Inductive(init, next, inv) && Reachable(init, next, s)
    ensures inv(s)
  {
    var run :| IsRun(init, next, run) && run[|run| - 1] == s;
    HoldsAlongRun(init, next, inv, run, |run| - 1);
  }

  /** One more step extends a run. */
  lemma ReachableStep<S(!new)>(init: S -> bool, next: (S, S) -> bool, s: S, s': S)
    requires Reachable(init, next, s) && next(s, s')
    ensures Reachable(init, next, s')
  {
    var run :| IsRun(init, next, run) && run[|run| - 1] == s;
    var run' := run + [s'];
    forall i | 0 <= i < |run'| - 1
      ensures next(run'[i], run'[i + 1])
    {
      if i < |run| - 1 {
        assert next(run[i], run[i + 1]);
      }
    }
    assert IsRun(init, next, run') && run'[|run'| - 1] == s';
  }

  lemma ReachableInit<S(!new)>(init: S -> bool, next: (S, S) -> bool, s: S)
    requires init(s)
    ensures Reachable(init, next, s)
  {
    assert IsRun(init, next, [s]);
  }

  // ---------- stretches between two states ----------

  /** Every adjacent pair of states is a step. */
  ghost predicate IsStretch<S(!new)>(next: (S, S) -> bool, run: seq<S>)
  {
    run != [] && forall i, j {:trigger next(run[i], run[j])} :: 0 <= i < j == i + 1 < |run| ==> next(run[i], run[j])
  }

  /** Some number of steps gets from `s` to `s'`. */
  ghost predicate Leads<S(!new)>(next: (S, S) -> bool, s: S, s': S)
  {
    exists run :: IsStretch(next, run) && run[0] == s && run[|run| - 1] == s'
  }

  lemma OneStep<S(!new)>(next: (S, S) -> bool, s: S, s': S)
    requires next(s, s')
    ensures Leads(next, s, s')
  {
    var run := [s, s'];
    assert IsStretch(next, run) && run[0] == s && run[|run| - 1] == s';
  }

  lemma NoStep<S(!new)>(next: (S, S) -> bool, s: S)
    ensures Leads(next, s, s)
  {
    var run := [s];
    assert IsStretch(next, run) && run[0] == s && run[|run| - 1] == s;
  }

  lemma Then<S(!new)>(next: (S, S) -> bool, s: S, s1: S, s2: S)
    requires Leads(next, s, s1) && Leads(next, s1, s2)
    ensures Leads(next, s, s2)
  {
    var a :| IsStretch(next, a) && a[0] == s && a[|a| - 1] == s1;
    var b :| IsStretch(next, b) && b[0] == s1 && b[|b| - 1] == s2;
    var run := a + b[1..];
    forall i, j | 0 <= i < j == i + 1 < |run|
      ensures next(run[i], run[j])
    {
      if i < |a| - 1 {
        assert next(a[i], a[i + 1]);
      } else {
        assert next(b[i - (|a| - 1)], b[i - (|a| - 1) + 1]);
      }
    }
    assert IsStretch(next, run) && run[0] == s && run[|run| - 1] == s2;
  }
}
