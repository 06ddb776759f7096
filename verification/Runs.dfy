/** Runs of a transition system: what it means for a finite trace to be a run,
    and the two induction principles the other modules use on runs of any length. */
module Runs {

  ghost predicate IsRun<S(!new)>(init: S -> bool, next: (S, S) -> bool, trace: seq<S>) {
    && trace != []
    && init(trace[0])
    && forall k :: 0 < k < |trace| ==> next(trace[k - 1], trace[k])
  }

  /** A property of the initial states that every step keeps holds all along every run. */
  lemma {:induction false} Invariance<S(!new)>(
    init: S -> bool, next: (S, S) -> bool, inv: S -> bool, trace: seq<S>, k: nat)
    requires IsRun(init, next, trace) && k < |trace|
    requires forall s :: init(s) ==> inv(s)
    requires forall s, t :: inv(s) && next(s, t) ==> inv(t)
    ensures inv(trace[k])
  {
    if k > 0 {
      Invariance(init, next, inv, trace, k - 1);
      assert next(trace[k - 1], trace[k]);
    }
  }

  /** A relation to a fixed past state that every step from an invariant state keeps
      still holds at every later point of the run. */
  lemma {:induction false} Persistence<S(!new)>(
    init: S -> bool, next: (S, S) -> bool, inv: S -> bool, since: (S, S) -> bool,
    trace: seq<S>, i: nat, j: nat)
    requires IsRun(init, next, trace) && i <= j < |trace|
    requires forall k :: 0 <= k < |trace| ==> inv(trace[k])
    requires since(trace[i], trace[i])
    requires forall r, s, t :: since(r, s) && inv(s) && next(s, t) ==> since(r, t)
    ensures since(trace[i], trace[j])
  {
    if i < j {
      Persistence(init, next, inv, since, trace, i, j - 1);
      assert inv(trace[j - 1]) && next(trace[j - 1], trace[j]);
    }
  }

  /** What each step of a stretch keeps holds at its end. */
  lemma {:induction false} Along<S(!new)>(p: S -> bool, trace: seq<S>, i: nat, j: nat)
    requires i <= j < |trace| && p(trace[i])
    requires forall k :: i < k <= j && p(trace[k - 1]) ==> p(trace[k])
    ensures p(trace[j])
    decreases j
  {
    if i < j { Along(p, trace, i, j - 1); }
  }

  /** A run followed by one more step is a run. */
  lemma Extend<S(!new)>(init: S -> bool, next: (S, S) -> bool, trace: seq<S>, s: S) returns (longer: seq<S>)
    requires IsRun(init, next, trace) && next(trace[|trace| - 1], s)
    ensures longer == trace + [s] && IsRun(init, next, longer)
  {
    longer := trace + [s];
    forall k | 0 < k < |longer| ensures next(longer[k - 1], longer[k]) {
      if k < |trace| {
        assert next(trace[k - 1], trace[k]);
      }
    }
  }
}
