/** Runs of a state machine, and the induction over them. */
module Runs {

  ghost predicate RunOf<S(!new)>(run: seq<S>, start: S -> bool, next: (S, S) -> bool) {
    run != [] && start(run[0]) && forall i, j | 0 <= i < |run| - 1 && j == i + 1 :: next(run[i], run[j])
  }

  /** What holds at the start and is kept by every step holds in every state of every run. */
  lemma {:induction false} InvariantHolds<S(!new)>(run: seq<S>, start: S -> bool, next: (S, S) -> bool,
                                                   inv: S -> bool, n: nat)
    requires RunOf(run, start, next) && n < |run|
    requires forall s | start(s) :: inv(s)
    requires forall s, s' | inv(s) && next(s, s') :: inv(s')
    ensures inv(run[n])
  {
    if n > 0 {
      InvariantHolds(run, start, next, inv, n - 1);
      assert next(run[n - 1], run[n]);
    }
  }

  /** What holds at zero and is passed on by every number holds for all. */
  lemma {:induction false} HoldsForAll(p: nat -> bool, n: nat)
    requires p(0) && forall k: nat, l: nat | p(k) && l == k + 1 :: p(l)
    ensures p(n)
  {
    if n > 0 {
      HoldsForAll(p, n - 1);
    }
  }
}
