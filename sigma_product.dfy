/**
 * The fact that the detectors' parametric pair rests on: for a product of
 * distinct primes, sigma is the product of the terms, each plus one.  So when
 * n = prod (p + k) with every p + k prime, sigma(n) = prod (p + 1 + k).
 */
module SigmaProduct {
  import opened Arith
  import opened Divisibility
  import opened Constellation

  /** The divisors of `n` up to `k` that `q` does not divide, summed. */
  ghost function CoprimePart(n: nat, q: nat, k: nat): nat
  {
    if k == 0 then 0
    else CoprimePart(n, q, k - 1) + (if Divides(k, n) && !Divides(q, k) then k else 0)
  }

  /** The divisors of `n` up to `k` that are multiples of `q`, summed. */
  ghost function MultiplePart(n: nat, q: nat, k: nat): nat
  {
    if k == 0 then 0
    else MultiplePart(n, q, k - 1) + (if Divides(k, n) && Divides(q, k) then k else 0)
  }

  lemma {:induction false} DivisorSumSplit(n: nat, q: nat, k: nat)
    ensures DivisorSumUpTo(n, k) == CoprimePart(n, q, k) + MultiplePart(n, q, k)
  {
    if k > 0 {
      DivisorSumSplit(n, q, k - 1);
    }
  }

  /** Past `m`, the partial divisor sum of `m` no longer grows. */
  lemma {:induction false} DivisorSumBeyond(m: nat, k: nat)
    requires 1 <= m <= k
    ensures DivisorSumUpTo(m, k) == DivisorSumUpTo(m, m)
  {
    if k > m {
      DivisorAtMost(k, m);
      DivisorSumBeyond(m, k - 1);
    }
  }

  /** For a prime q not dividing m: the divisors of m q that q does not
      divide are exactly the divisors of m. */
  lemma CoprimeDivisorOfProduct(m: nat, q: nat, j: nat)
    requires m >= 1 && IsPrime(q) && !Divides(q, m) && j >= 1
    ensures Divides(j, m * q) && !Divides(q, j) <==> Divides(j, m)
  {
    if Divides(j, m * q) && !Divides(q, j) {
      PrimeCoprime(q, j);
      CoprimeDividesFactor(j, m, q);
    }
    if Divides(j, m) {
      MultipleDivides(m, q);
      DividesTransitive(j, m, m * q);
      if Divides(q, j) {
        DividesTransitive(q, j, m);
      }
    }
  }

  lemma {:induction false} CoprimePartOfProduct(m: nat, q: nat, k: nat)
    requires m >= 1 && IsPrime(q) && !Divides(q, m)
    ensures CoprimePart(m * q, q, k) == DivisorSumUpTo(m, k)
  {
    if k > 0 {
      CoprimePartOfProduct(m, q, k - 1);
      CoprimeDivisorOfProduct(m, q, k);
    }
  }

  /** q i divides m q exactly when i divides m. */
  lemma CancelFactor(q: int, i: int, m: int)
    requires q > 0 && i > 0
    ensures Divides(q * i, m * q) <==> Divides(i, m)
  {
    if Divides(i, m) {
      DividesQuotient(i, m);
      assert m * q == (q * i) * (m / i);
      MultipleDivides(q * i, m / i);
    }
    if Divides(q * i, m * q) {
      var t := (m * q) / (q * i);
      DividesQuotient(q * i, m * q);
      assert q * m == q * (i * t);
      assert m == i * t;
      MultipleDivides(i, t);
    }
  }

  /** No multiple of q lies strictly between q i and q i + q. */
  lemma NotMultiple(q: int, i: int, r: int)
    requires 0 < r < q
    ensures !Divides(q, q * i + r)
  {
    if Divides(q, q * i + r) {
      MultipleDivides(q, i);
      DividesCombination(q, q * i + r, q * i, 1, -1);
      DivisorAtMost(q, r);
    }
  }

  lemma {:induction false} MultiplePartBlock(n: nat, q: nat, i: nat, r: nat)
    requires r < q
    ensures MultiplePart(n, q, q * i + r) == MultiplePart(n, q, q * i)
  {
    if r > 0 {
      NotMultiple(q, i, r);
      MultiplePartBlock(n, q, i, r - 1);
    }
  }

  lemma Distribute(q: int, a: int, b: int)
    ensures q * (a + b) == q * a + q * b
  {
  }

  /** The multiples of q among the divisors of m q are q times the divisors
      of m. */
  lemma {:induction false} MultiplePartOfProduct(m: nat, q: nat, i: nat)
    requires q >= 1
    ensures MultiplePart(m * q, q, q * i) == q * DivisorSumUpTo(m, i)
  {
    if i > 0 {
      var n, k := m * q, q * i;
      MultiplePartOfProduct(m, q, i - 1);
      assert k - 1 == q * (i - 1) + (q - 1);
      MultiplePartBlock(n, q, i - 1, q - 1);
      assert MultiplePart(n, q, k - 1) == q * DivisorSumUpTo(m, i - 1);
      MultipleDivides(q, i);
      CancelFactor(q, i, m);
      var step := if Divides(i, m) then i else 0;
      assert MultiplePart(n, q, k) == MultiplePart(n, q, k - 1) + q * step;
      assert DivisorSumUpTo(m, i) == DivisorSumUpTo(m, i - 1) + step;
      Distribute(q, DivisorSumUpTo(m, i - 1), step);
    }
  }

  /** sigma(m q) = sigma(m) (q + 1) for a prime q that does not divide m. */
  lemma SigmaTimesPrime(m: nat, q: nat)
    requires m >= 1 && IsPrime(q) && !Divides(q, m)
    ensures Sigma(m * q) == Sigma(m) * (q + 1)
  {
    var n, s := m * q, DivisorSumUpTo(m, m);
    DivisorSumSplit(n, q, n);
    CoprimePartOfProduct(m, q, n);
    MulAtLeast(m, q);
    DivisorSumBeyond(m, n);
    assert CoprimePart(n, q, n) == s;
    assert n == q * m;
    MultiplePartOfProduct(m, q, m);
    assert MultiplePart(n, q, n) == q * s;
    Distribute(s, q, 1);
    assert DivisorSumUpTo(n, n) == s * (q + 1);
  }

  /** Euclid's lemma, contrapositive: a prime dividing neither factor does
      not divide the product. */
  lemma PrimeNotDividesProduct(q: int, a: int, b: int)
    requires IsPrime(q) && a > 0 && !Divides(q, a) && !Divides(q, b)
    ensures !Divides(q, a * b)
  {
    if Divides(q, a * b) {
      PrimeDividesFactor(q, a, b);
    }
  }

  /** The offsets are strictly increasing, so the terms are distinct. */
  predicate StrictlyIncreasing(offsets: seq<int>)
  {
    forall i, j :: 0 <= i < j < |offsets| ==> offsets[i] < offsets[j]
  }

  /** A prime larger than every term of a constellation does not divide
      its product, which is positive. */
  lemma {:induction false} LargerPrimeNotDividing(q: int, p: int, offsets: seq<int>)
    requires IsPrime(q) && AllPrime(Terms(p, offsets))
    requires forall i :: 0 <= i < |offsets| ==> p + offsets[i] < q
    ensures ProductAt(p, offsets) >= 1 && !Divides(q, ProductAt(p, offsets))
  {
    if offsets == [] {
      assert ProductAt(p, offsets) == 1;
      DivisorAtMost(q, 1);
    } else {
      var m := |offsets| - 1;
      var t := p + offsets[m];
      ProductAtSnoc(p, offsets);
      assert AllPrime(Terms(p, offsets[..m]));
      LargerPrimeNotDividing(q, p, offsets[..m]);
      assert IsPrime(Terms(p, offsets)[m]);
      DivisorAtMost(q, t);
      PrimeNotDividesProduct(q, ProductAt(p, offsets[..m]), t);
      assert ProductAt(p, offsets[..m]) * t >= 1;
    }
  }

  /** sigma is multiplicative on a product of distinct primes: if every
      term p + k is prime and the offsets are strictly increasing, then
      sigma(prod (p + k)) = prod (p + 1 + k). */
  lemma {:induction false} SigmaOfConstellation(p: int, offsets: seq<int>)
    requires StrictlyIncreasing(offsets) && AllPrime(Terms(p, offsets))
    ensures ProductAt(p, offsets) >= 1
    ensures Sigma(ProductAt(p, offsets)) == ProductAt(p + 1, offsets)
  {
    if offsets == [] {
      assert ProductAt(p, offsets) == 1 && ProductAt(p + 1, offsets) == 1;
      assert DivisorSumUpTo(1, 1) == 1;
    } else {
      var m := |offsets| - 1;
      var t, init := p + offsets[m], offsets[..m];
      assert StrictlyIncreasing(init);
      assert AllPrime(Terms(p, init));
      assert forall i :: 0 <= i < |init| ==> p + init[i] < t;
      assert IsPrime(t) by {
        assert Terms(p, offsets)[m] == t;
      }
      SigmaOfConstellation(p, init);
      LargerPrimeNotDividing(t, p, init);
      var a, b := ProductAt(p, init), ProductAt(p + 1, init);
      ProductAtSnoc(p, offsets);
      ProductAtSnoc(p + 1, offsets);
      assert ProductAt(p, offsets) == a * t;
      assert ProductAt(p + 1, offsets) == b * (t + 1);
      SigmaTimesPrime(a, t);
    }
  }
}
