/** Sequences of states in which each follows from the one before by a labelled step, for any step relation. */
module Chains {
  ghost predicate Chain<T(!new), E(!new)>(states: seq<T>, labels: seq<E>, step: (T, E, T) -> bool) {
    && |states| == |labels| + 1
    && forall k {:trigger labels[k]} | 0 <= k < |labels| :: step(states[k], labels[k], states[k + 1])
  }

  ghost predicate Keeps<T(!new), E(!new)>(step: (T, E, T) -> bool, inv: T -> bool) {
    forall a, e, b | step(a, e, b) && inv(a) :: inv(b)
  }

  /** A state decides the step taken from it. */
  ghost predicate Deterministic<T(!new), E(!new)>(step: (T, E, T) -> bool) {
    forall a, e, b, f, c | step(a, e, b) && step(a, f, c) :: e == f && b == c
  }

  lemma ChainStep<T(!new), E(!new)>(states: seq<T>, labels: seq<E>, step: (T, E, T) -> bool, k: nat)
    requires Chain(states, labels, step) && k < |labels|
    ensures step(states[k], labels[k], states[k + 1])
  {
  }

  lemma ChainExtends<T(!new), E(!new)>(states: seq<T>, labels: seq<E>, step: (T, E, T) -> bool, e: E, b: T)
    requires Chain(states, labels, step) && step(states[|labels|], e, b)
    ensures Chain(states + [b], labels + [e], step)
  {
    var longer, all := states + [b], labels + [e];
    forall k | 0 <= k < |all| ensures step(longer[k], all[k], longer[k + 1]) {
      if k < |labels| { assert all[k] == labels[k]; }
    }
  }

  lemma ChainCons<T(!new), E(!new)>(a: T, e: E, states: seq<T>, labels: seq<E>, step: (T, E, T) -> bool)
    requires Chain(states, labels, step) && step(a, e, states[0])
    ensures Chain([a] + states, [e] + labels, step)
    ensures ([a] + states)[0] == a && ([a] + states)[|[e] + labels|] == states[|labels|]
  {
    var longer, all := [a] + states, [e] + labels;
    forall k | 0 <= k < |all| ensures step(longer[k], all[k], longer[k + 1]) {
      if k > 0 { assert all[k] == labels[k - 1]; }
    }
  }

  /** What every step keeps holds along the whole chain. */
  lemma {:induction false} ChainKeeps<T(!new), E(!new)>(states: seq<T>, labels: seq<E>, step: (T, E, T) -> bool,
                                                        inv: T -> bool, n: nat)
    requires Chain(states, labels, step) && Keeps(step, inv) && inv(states[0]) && n <= |labels|
    ensures inv(states[n])
  {
    if n > 0 {
      ChainKeeps(states, labels, step, inv, n - 1);
      ChainStep(states, labels, step, n - 1);
    }
  }

  lemma {:induction false} ChainsAgree<T(!new), E(!new)>(a: seq<T>, x: seq<E>, b: seq<T>, y: seq<E>,
                                                         step: (T, E, T) -> bool, n: nat)
    requires Chain(a, x, step) && Chain(b, y, step) && Deterministic(step) && a[0] == b[0] && n <= |x| && n <= |y|
    ensures a[n] == b[n] && (0 < n ==> x[n - 1] == y[n - 1])
  {
    if n > 0 {
      ChainsAgree(a, x, b, y, step, n - 1);
      ChainStep(a, x, step, n - 1);
      ChainStep(b, y, step, n - 1);
    }
  }

  /** Two chains of a deterministic relation from one state to states without a step are the same chain. */
  lemma ChainsAreEqual<T(!new), E(!new)>(a: seq<T>, x: seq<E>, b: seq<T>, y: seq<E>, step: (T, E, T) -> bool)
    requires Chain(a, x, step) && Chain(b, y, step) && Deterministic(step) && a[0] == b[0]
    requires (forall e, t :: !step(a[|x|], e, t)) && forall e, t :: !step(b[|y|], e, t)
    ensures x == y && a[|x|] == b[|y|]
  {
    if |x| < |y| {
      ChainsAgree(a, x, b, y, step, |x|);
      ChainStep(b, y, step, |x|);
    } else if |y| < |x| {
      ChainsAgree(a, x, b, y, step, |y|);
      ChainStep(a, x, step, |y|);
    }
    ChainsAgree(a, x, b, y, step, |x|);
    forall k | 0 <= k < |x| ensures x[k] == y[k] {
      ChainsAgree(a, x, b, y, step, k + 1);
    }
  }
}
