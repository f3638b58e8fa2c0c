/**
 * The arithmetic oracle: the sum-of-divisors function sigma (called M1 by the
 * scanner) and a primality predicate, both on unbounded integers.
 */
module Arith {

  /** `d` is a positive divisor of `n`. */
  predicate Divides(d: int, n: int)
  {
    d > 0 && n % d == 0
  }

  /** Primality: at least 2 and no divisor strictly between 1 and itself.
      Negative numbers, 0 and 1 are not prime. */
  predicate IsPrime(x: int)
  {
    x >= 2 && forall d :: 2 <= d < x ==> !Divides(d, x)
  }

  /** The sum of the divisors `d` of `n` with `1 <= d <= k`. */
  function DivisorSumUpTo(n: nat, k: nat): nat
  {
    if k == 0 then 0
    else DivisorSumUpTo(n, k - 1) + (if Divides(k, n) then k else 0)
  }

  /** sigma(n), the sum of all positive divisors of `n` (1 and `n` included).
      Every divisor of a positive `n` is at most `n`, so summing over 1..n
      covers them all.  For `n = 0` that range is empty and sigma(0) is 0,
      as sympy's empty divisor list of 0 sums to 0. */
  function Sigma(n: nat): (r: nat)
    ensures n >= 2 ==> r >= n + 1
    ensures n == 1 ==> r == 1
  {
    SigmaAtLeastOneAndN(n);
    DivisorSumUpTo(n, n)
  }

  /** Helper fact for Sigma's contract: 1 and n are both counted. */
  lemma {:induction false} SigmaAtLeastOneAndN(n: nat)
    ensures n >= 2 ==> DivisorSumUpTo(n, n) >= n + 1
    ensures n == 1 ==> DivisorSumUpTo(n, n) == 1
  {
    if n >= 2 {
      DivisorSumMonotone(n, 1, n - 1);
      assert DivisorSumUpTo(n, 1) == 1;
    }
  }

  /** The partial divisor sum only grows as the bound grows. */
  lemma {:induction false} DivisorSumMonotone(n: nat, j: nat, k: nat)
    requires j <= k
    ensures DivisorSumUpTo(n, j) <= DivisorSumUpTo(n, k)
    decreases k - j
  {
    if j < k {
      DivisorSumMonotone(n, j, k - 1);
    }
  }

  /** A prime has no divisor in 2..k for any k below it. */
  lemma {:induction false} PrimeDivisorSumBelow(n: nat, k: nat)
    requires IsPrime(n) && 1 <= k < n
    ensures DivisorSumUpTo(n, k) == 1
  {
    if k > 1 {
      PrimeDivisorSumBelow(n, k - 1);
      assert !Divides(k, n);
    }
  }

  /** For n >= 2, sigma(n) is at least n + 1, and equals n + 1 exactly when
      n is prime (its only divisors are then 1 and n). */
  lemma {:induction false} SigmaPrimeCharacterization(n: nat)
    requires n >= 2
    ensures Sigma(n) >= n + 1
    ensures Sigma(n) == n + 1 <==> IsPrime(n)
  {
    if IsPrime(n) {
      PrimeDivisorSumBelow(n, n - 1);
    } else {
      var d :| 2 <= d < n && Divides(d, n);
      DivisorSumMonotone(n, 1, d - 1);
      DivisorSumMonotone(n, d, n - 1);
      assert DivisorSumUpTo(n, 1) == 1;
      assert DivisorSumUpTo(n, d) == DivisorSumUpTo(n, d - 1) + d;
    }
  }

  /** Sigma values used by the twin-prime examples: sigma(15) = 24
      (1 + 3 + 5 + 15), sigma(9) = 13 (1 + 3 + 9) and sigma(8) = 15
      (1 + 2 + 4 + 8). */
  lemma SigmaExamples()
    ensures Sigma(15) == 24
    ensures Sigma(9) == 13
    ensures Sigma(8) == 15
  {
    assert DivisorSumUpTo(15, 1) == 1;
    assert DivisorSumUpTo(15, 3) == 4;
    assert DivisorSumUpTo(15, 5) == 9;
    assert DivisorSumUpTo(15, 10) == 9;
    assert DivisorSumUpTo(15, 14) == 9;
    assert DivisorSumUpTo(9, 1) == 1;
    assert DivisorSumUpTo(9, 3) == 4;
    assert DivisorSumUpTo(9, 6) == 4;
    assert DivisorSumUpTo(9, 8) == 4;
    assert DivisorSumUpTo(8, 1) == 1;
    assert DivisorSumUpTo(8, 2) == 3;
    assert DivisorSumUpTo(8, 4) == 7;
    assert DivisorSumUpTo(8, 7) == 7;
  }
}
