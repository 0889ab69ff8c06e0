/** Remainders, for words of fixed width and ring buffers. */
module Modular {
  lemma MultipleIsFar(d: int, n: nat)
    ensures d > 0 ==> d * n >= n
    ensures d < 0 ==> d * n <= -(n as int)
  {
  }

  lemma ModUnique(a: int, q: int, r: nat, n: nat)
    requires r < n && a == q * n + r
    ensures a % n == r
  {
    var q', r' := a / n, a % n;
    assert (q' - q) * n == r - r' by { assert (q' - q) * n == q' * n - q * n; }
    MultipleIsFar(q' - q, n);
  }

  lemma SuccessorAt(a: nat, q: nat, r: nat, n: nat)
    requires r < n && a == q * n + r
    ensures (a + 1) % n == if r + 1 < n then r + 1 else 0
  {
    if r + 1 < n {
      ModUnique(a + 1, q, r + 1, n);
    } else {
      assert (q + 1) * n == q * n + n;
      ModUnique(a + 1, q + 1, 0, n);
    }
  }

  /** The value of a as a word with n values. */
  function Wrap(a: nat, n: nat): (w: nat)
    requires 0 < n
    ensures w < n
  {
    a % n
  }

  lemma WrapSmall(a: nat, n: nat)
    requires a < n
    ensures Wrap(a, n) == a
  {
    ModUnique(a, 0, a, n);
  }

  lemma WrapNext(a: nat, n: nat)
    requires 0 < n
    ensures Wrap(a + 1, n) == if Wrap(a, n) + 1 < n then Wrap(a, n) + 1 else 0
  {
    SuccessorAt(a, a / n, a % n, n);
  }

  /** The k-th position from start around a ring of n. */
  function Around(start: nat, k: nat, n: nat): (i: nat)
    requires start < n && k <= n
    ensures i < n
  {
    if start + k < n then start + k else start + k - n
  }

  lemma AroundIsRemainder(start: nat, k: nat, n: nat)
    requires start < n && k <= n
    ensures (start + k) % n == Around(start, k, n)
  {
    if start + k < n { ModUnique(start + k, 0, start + k, n); } else { ModUnique(start + k, 1, start + k - n, n); }
  }
}
