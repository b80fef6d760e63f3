/** Bytes and powers of two. */
module Bits {

  type Byte = n: nat | n < 256

  function Pow2(n: nat): nat {
    if n == 0 then 1 else 2 * Pow2(n - 1)
  }

  /** The first n values of f. */
  function Values(f: nat -> nat, n: nat): set<nat> {
    if n == 0 then {} else Values(f, n - 1) + {f(n - 1)}
  }

  /** No two of the first n values are equal. */
  predicate Distinct(f: nat -> nat, n: nat) {
    n == 0 || (Distinct(f, n - 1) && f(n - 1) !in Values(f, n - 1))
  }

  lemma {:induction false} DistinctValuesCount(f: nat -> nat, n: nat)
    requires Distinct(f, n)
    ensures |Values(f, n)| == n
  {
    if n > 0 {
      DistinctValuesCount(f, n - 1);
    }
  }

  lemma {:induction false} ValueAt(f: nat -> nat, n: nat, x: nat) returns (i: nat)
    requires x in Values(f, n)
    ensures i < n && f(i) == x
  {
    i := n - 1;
    if f(n - 1) != x {
      i := ValueAt(f, n - 1, x);
    }
  }

  lemma {:induction false} RepeatedValue(f: nat -> nat, n: nat) returns (i: nat, j: nat)
    requires !Distinct(f, n)
    ensures i < j < n && f(i) == f(j)
  {
    if Distinct(f, n - 1) {
      j := n - 1;
      i := ValueAt(f, n - 1, f(j));
    } else {
      i, j := RepeatedValue(f, n - 1);
    }
  }

  /** There are at most bound numbers below bound. */
  lemma {:induction false} SmallNumbersCount(s: set<nat>, bound: nat)
    requires forall x :: x in s ==> x < bound
    ensures |s| <= bound
  {
    if bound == 0 {
      assert s == {};
    } else {
      SmallNumbersCount(s - {bound - 1}, bound - 1);
    }
  }

  lemma {:induction false} ValuesAreSmall(f: nat -> nat, n: nat, bound: nat)
    requires forall i :: 0 <= i < n ==> f(i) < bound
    ensures forall x :: x in Values(f, n) ==> x < bound
  {
    if n > 0 {
      ValuesAreSmall(f, n - 1, bound);
    }
  }

  /** More than bound values below bound cannot all differ. */
  lemma Pigeonhole(f: nat -> nat, bound: nat) returns (i: nat, j: nat)
    requires forall n :: 0 <= n <= bound ==> f(n) < bound
    ensures i < j <= bound && f(i) == f(j)
  {
    ValuesAreSmall(f, bound + 1, bound);
    SmallNumbersCount(Values(f, bound + 1), bound);
    if Distinct(f, bound + 1) {
      DistinctValuesCount(f, bound + 1);
    }
    i, j := RepeatedValue(f, bound + 1);
  }
}
