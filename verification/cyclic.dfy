/** Cyclic index arithmetic shared by the projects carousel (5 entries), the
    leadership timeline (7 entries) and the feature showcase (4 entries):
    `(i + 1) % n` for "next" and `(i - 1 + n) % n` for "previous". */
module Cyclic {

  /** `(i + 1) % n`: the following index, wrapping from the last back to 0. */
  function Next(i: nat, n: nat): (r: nat)
    requires n > 0
    ensures r < n
    ensures i + 1 < n ==> r == i + 1
    ensures i + 1 == n ==> r == 0
  {
    (i + 1) % n
  }

  /** `(i - 1 + n) % n`: the preceding index, wrapping from 0 to the last. */
  function Prev(i: nat, n: nat): (r: nat)
    requires n > 0
    ensures r < n
    ensures 0 < i <= n ==> r == i - 1
    ensures i == 0 ==> r == n - 1
  {
    (i - 1 + n) % n
  }

  /** Going forward then back returns to the same index. */
  lemma PrevNext(i: nat, n: nat)
    requires i < n
    ensures Prev(Next(i, n), n) == i
  {
  }

  /** Going back then forward returns to the same index. */
  lemma NextPrev(i: nat, n: nat)
    requires i < n
    ensures Next(Prev(i, n), n) == i
  {
  }

  /** `k` applications of Next starting from the valid index `i`. */
  function Advance(i: nat, n: nat, k: nat): (r: nat)
    requires i < n
    ensures r < n
  {
    if k == 0 then i else Next(Advance(i, n, k - 1), n)
  }

  /** Without reaching the end, `k` steps forward add `k`. */
  lemma {:induction false} AdvanceWithin(i: nat, n: nat, k: nat)
    requires i + k < n
    ensures Advance(i, n, k) == i + k
  {
    if k > 0 {
      AdvanceWithin(i, n, k - 1);
    }
  }

  /** Stepping `a` then `b` times is stepping `a + b` times. */
  lemma {:induction false} AdvanceAdd(i: nat, n: nat, a: nat, b: nat)
    requires i < n
    ensures Advance(Advance(i, n, a), n, b) == Advance(i, n, a + b)
  {
    if b > 0 {
      AdvanceAdd(i, n, a, b - 1);
    }
  }

  /** Once past the end, but before a second lap, `k` steps land on
      `i + k - n`. */
  lemma AdvanceWrap(i: nat, n: nat, k: nat)
    requires i < n && n <= i + k < 2 * n
    ensures Advance(i, n, k) == i + k - n
  {
    AdvanceWithin(i, n, n - i - 1);
    assert Advance(i, n, n - i) == 0;
    AdvanceWithin(0, n, i + k - n);
    AdvanceAdd(i, n, n - i, i + k - n);
  }

  /** `n` steps forward from a valid index is the identity. */
  lemma FullCircle(i: nat, n: nat)
    requires i < n
    ensures Advance(i, n, n) == i
  {
    AdvanceWrap(i, n, n);
  }
}
