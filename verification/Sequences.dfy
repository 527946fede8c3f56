/** Sequences of numbers. */
module Sequences {

  predicate Distinct(s: seq<nat>) {
    forall i, j | 0 <= i < j < |s| :: s[i] != s[j]
  }

  /** The numbers below `n`, in order. */
  function Numbers(n: nat): seq<nat> {
    seq(n, i => i)
  }
}
