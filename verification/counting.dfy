/** Counting and ordering the steps of a run. */
module Counting {
  /** How many of the first n steps the given ones are. */
  ghost function Count(n: nat, hit: nat -> bool): (c: nat)
    ensures c <= n
  {
    if n == 0 then 0 else Count(n - 1, hit) + (if hit(n - 1) then 1 else 0)
  }

  /** One of the first n steps set, and none after it reset. */
  ghost predicate Since(n: nat, sets: nat -> bool, resets: nat -> bool) {
    exists i: nat :: i < n && sets(i) && forall k: nat | i < k < n :: !resets(k)
  }

  lemma SinceNext(n: nat, sets: nat -> bool, resets: nat -> bool)
    ensures Since(n + 1, sets, resets) <==> sets(n) || (Since(n, sets, resets) && !resets(n))
  {
    if sets(n) {
      assert Since(n + 1, sets, resets);
    } else if Since(n + 1, sets, resets) {
      var i: nat :| i < n + 1 && sets(i) && forall k: nat | i < k < n + 1 :: !resets(k);
      assert i < n;
    }
  }

  /** A flag that each step sets, resets or keeps is on exactly when it was set and not reset since. */
  lemma {:induction false} OnIffSetSince(n: nat, on: nat -> bool, sets: nat -> bool, resets: nat -> bool)
    requires !on(0)
    requires forall k: nat | k < n :: on(k + 1) <==> sets(k) || (on(k) && !resets(k))
    ensures on(n) <==> Since(n, sets, resets)
  {
    if n > 0 {
      OnIffSetSince(n - 1, on, sets, resets);
      SinceNext(n - 1, sets, resets);
      assert n == n - 1 + 1;
    }
  }
}
