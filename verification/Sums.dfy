/** Finite sums over an index range, used by the conservation laws. */
module Sums {

  /** f(0) + ... + f(n-1) */
  ghost function SumTo(n: nat, f: nat -> int): int {
    if n == 0 then 0 else SumTo(n - 1, f) + f(n - 1)
  }

  lemma {:induction false} SumSame(n: nat, f: nat -> int, g: nat -> int)
    requires forall i: nat :: i < n ==> f(i) == g(i)
    ensures SumTo(n, f) == SumTo(n, g)
  {
    if n != 0 { SumSame(n - 1, f, g); }
  }

  /** Changing one summand changes the sum by the difference. */
  lemma {:induction false} SumChange(n: nat, f: nat -> int, g: nat -> int, k: nat)
    requires k < n
    requires forall i: nat :: i < n && i != k ==> f(i) == g(i)
    ensures SumTo(n, g) == SumTo(n, f) - f(k) + g(k)
  {
    if k == n - 1 {
      SumSame(n - 1, f, g);
    } else {
      SumChange(n - 1, f, g, k);
    }
  }

  lemma {:induction false} SumZero(n: nat, f: nat -> int)
    requires forall i: nat :: i < n ==> f(i) == 0
    ensures SumTo(n, f) == 0
  {
    if n != 0 { SumZero(n - 1, f); }
  }

  lemma {:induction false} SumNonNegative(n: nat, f: nat -> int)
    requires forall i: nat :: i < n ==> 0 <= f(i)
    ensures 0 <= SumTo(n, f)
  {
    if n != 0 { SumNonNegative(n - 1, f); }
  }

  lemma {:induction false} SumAtLeast(n: nat, f: nat -> int, k: nat)
    requires k < n
    requires forall i: nat :: i < n ==> 0 <= f(i)
    ensures f(k) <= SumTo(n, f)
  {
    if k == n - 1 {
      SumNonNegative(n - 1, f);
    } else {
      SumAtLeast(n - 1, f, k);
    }
  }

  lemma {:induction false} SumAtLeastTwo(n: nat, f: nat -> int, j: nat, k: nat)
    requires j < k < n
    requires forall i: nat :: i < n ==> 0 <= f(i)
    ensures f(j) + f(k) <= SumTo(n, f)
  {
    if k == n - 1 {
      SumAtLeast(n - 1, f, j);
    } else {
      SumAtLeastTwo(n - 1, f, j, k);
    }
  }

  /** A positive sum has a positive summand. */
  lemma {:induction false} SumWitness(n: nat, f: nat -> int) returns (k: nat)
    requires 0 < SumTo(n, f)
    ensures k < n && 0 < f(k)
  {
    if 0 < f(n - 1) {
      k := n - 1;
    } else {
      k := SumWitness(n - 1, f);
    }
  }
}
