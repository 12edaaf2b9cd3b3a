/** Reasoning about what lies between two moments of a run. */
module Traces {

  /** What holds at n but not right after a reset at a was brought about in between. */
  lemma {:induction false} BroughtAboutIn(holds: nat -> bool, cause: nat -> bool, resets: nat -> bool, a: nat, n: nat)
    returns (i: nat)
    requires a < n && resets(a) && holds(n)
    requires forall k: nat | a <= k < n && holds(k + 1) :: !resets(k) && (holds(k) || cause(k))
    ensures a < i < n && cause(i)
  {
    i := n - 1;
    assert holds(i + 1) && !resets(i) && (holds(i) || cause(i));
    if holds(i) {
      i := BroughtAboutIn(holds, cause, resets, a, i);
    }
  }

  /** What does not hold at a but at n began to hold at some moment in between. */
  lemma {:induction false} BeganIn(holds: nat -> bool, a: nat, n: nat) returns (i: nat)
    requires a <= n && !holds(a) && holds(n)
    ensures a <= i < n && !holds(i) && holds(i + 1)
  {
    i := n - 1;
    if holds(i) {
      i := BeganIn(holds, a, i);
    }
  }

  /** What holds at a and outlives every step holds at n. */
  lemma {:induction false} PersistsTo(holds: nat -> bool, a: nat, n: nat)
    requires a <= n && holds(a)
    requires forall k: nat | a <= k < n && holds(k) :: holds(k + 1)
    ensures holds(n)
  {
    if a < n {
      PersistsTo(holds, a, n - 1);
    }
  }
}
