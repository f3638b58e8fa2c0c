/**
 * The constellation membership checker: does `n` equal the product of the
 * terms p + k (k ranging over the offsets) for some base p >= 2, with every
 * term prime?  The checker searches p = 2, 3, ... and stops at the first base
 * whose product reaches `n`.
 */
module Constellation {
  import opened Arith

  /** The terms p + k, one per offset k, in offset order. */
  function Terms(p: int, offsets: seq<int>): (t: seq<int>)
    ensures |t| == |offsets|
    ensures forall i :: 0 <= i < |offsets| ==> t[i] == p + offsets[i]
  {
    seq(|offsets|, i requires 0 <= i < |offsets| => p + offsets[i])
  }

  /** The product of a sequence of integers (1 for the empty sequence),
      multiplied from left to right. */
  function Product(s: seq<int>): int
  {
    if s == [] then 1 else Product(s[..|s| - 1]) * s[|s| - 1]
  }

  /** The product of the terms for base `p`. */
  function ProductAt(p: int, offsets: seq<int>): int
  {
    Product(Terms(p, offsets))
  }

  /** Every element is prime. */
  predicate AllPrime(s: seq<int>)
  {
    forall i :: 0 <= i < |s| ==> IsPrime(s[i])
  }

  /** The offsets a checker may be called with: at least one, none negative. */
  predicate ValidOffsets(offsets: seq<int>)
  {
    |offsets| > 0 && forall i :: 0 <= i < |offsets| ==> offsets[i] >= 0
  }

  /** `n` is the product of a prime constellation with these offsets. */
  ghost predicate IsConstellation(n: int, offsets: seq<int>)
  {
    exists p :: p >= 2 && ProductAt(p, offsets) == n && AllPrime(Terms(p, offsets))
  }

  /** Adding an offset multiplies the product by the new term. */
  lemma ProductAtSnoc(p: int, offsets: seq<int>)
    requires |offsets| > 0
    ensures ProductAt(p, offsets) == ProductAt(p, offsets[..|offsets| - 1]) * (p + offsets[|offsets| - 1])
  {
    assert Terms(p, offsets)[..|offsets| - 1] == Terms(p, offsets[..|offsets| - 1]);
  }

  lemma MulStrict(a: int, b: int, c: int, d: int)
    requires 1 <= a <= b && 1 <= c < d
    ensures 1 <= a * c < b * d
  {
    assert a * c <= b * c;
    assert b * c < b * d;
  }

  /** With non-negative offsets the product at base p >= 1 is at least p
      (and positive). */
  lemma {:induction false} ProductAtLeastBase(p: int, offsets: seq<int>)
    requires p >= 1 && ValidOffsets(offsets)
    ensures ProductAt(p, offsets) >= p
  {
    var m := |offsets| - 1;
    ProductAtSnoc(p, offsets);
    if m == 0 {
      assert ProductAt(p, offsets[..m]) == 1;
    } else {
      ProductAtLeastBase(p, offsets[..m]);
      MulStrict(1, ProductAt(p, offsets[..m]), p, p + offsets[m] + 1);
    }
  }

  /** The product is strictly increasing in the base: the reason the search
      may stop at the first base whose product reaches `n`. */
  lemma {:induction false} ProductStrictlyIncreasing(p: int, q: int, offsets: seq<int>)
    requires 1 <= p < q && ValidOffsets(offsets)
    ensures ProductAt(p, offsets) < ProductAt(q, offsets)
  {
    var m := |offsets| - 1;
    ProductAtSnoc(p, offsets);
    ProductAtSnoc(q, offsets);
    if m == 0 {
      assert ProductAt(p, offsets[..m]) == 1 && ProductAt(q, offsets[..m]) == 1;
    } else {
      ProductAtLeastBase(p, offsets[..m]);
      ProductStrictlyIncreasing(p, q, offsets[..m]);
      MulStrict(ProductAt(p, offsets[..m]), ProductAt(q, offsets[..m]), p + offsets[m], q + offsets[m]);
    }
  }

  /** Searches bases p = 2, 3, ... for one whose product of terms equals `n`,
      stopping as soon as the product reaches or passes `n`; the answer is
      whether a match was found with every term prime.  Always terminates:
      the product is at least p, so `n - p` decreases while the search goes on. */
  method CheckConstellation(n: int, offsets: seq<int>) returns (found: bool)
    requires ValidOffsets(offsets)
    ensures found <==> IsConstellation(n, offsets)
  {
    var p := 2;
    while true
      invariant p >= 2
      invariant forall q :: 2 <= q < p ==> ProductAt(q, offsets) < n
      decreases n - p
    {
      var terms := Terms(p, offsets);
      var product := 1;
      for i := 0 to |terms|
        invariant product == Product(terms[..i])
      {
        assert terms[..i + 1][..i] == terms[..i];
        product := product * terms[i];
      }
      assert terms[..|terms|] == terms;

      if product > n {
        forall q | q >= 2 && ProductAt(q, offsets) == n
          ensures false
        {
          if q > p {
            ProductStrictlyIncreasing(p, q, offsets);
          }
        }
        return false;
      }

      if product == n {
        found := AllPrime(terms);
        if !found {
          forall q | q >= 2 && ProductAt(q, offsets) == n
            ensures !AllPrime(Terms(q, offsets))
          {
            if q > p {
              ProductStrictlyIncreasing(p, q, offsets);
            }
          }
        }
        return;
      }

      ProductAtLeastBase(p, offsets);
      p := p + 1;
    }
  }

  /** The examples the checker is documented by: 15 = 3 * 5 is a twin-prime
      product, 9 is not one (8 = 2 * 4 and 15 = 3 * 5 straddle it), 8 matches
      the offsets [0, 2] at base 2 but 4 is composite, and 135 = 3 * 5 * 9
      matches the offsets [0, 2, 6] at base 3 but 9 is composite.  Neither
      8 nor 135 is a product of its constellation. */
  lemma ConstellationExamples()
    ensures IsConstellation(15, [0, 2])
    ensures !IsConstellation(9, [0, 2])
    ensures ProductAt(2, [0, 2]) == 8 && !AllPrime(Terms(2, [0, 2]))
    ensures !IsConstellation(8, [0, 2])
    ensures ProductAt(3, [0, 2, 6]) == 135 && !AllPrime(Terms(3, [0, 2, 6]))
    ensures !IsConstellation(135, [0, 2, 6])
  {
    ProductAtSnoc(2, [0, 2]);
    ProductAtSnoc(3, [0, 2]);
    ProductAtSnoc(3, [0]);
    ProductAtSnoc(2, [0]);
    assert [0, 2][..1] == [0];
    assert ProductAt(3, [0, 2]) == 15;
    assert IsPrime(3) && IsPrime(5);
    assert AllPrime(Terms(3, [0, 2]));
    assert ProductAt(2, [0, 2]) == 8;
    forall q | q >= 2 && ProductAt(q, [0, 2]) == 9
      ensures false
    {
      if q > 3 {
        ProductStrictlyIncreasing(3, q, [0, 2]);
      }
    }
    assert Terms(2, [0, 2])[1] == 4 && Divides(2, 4);
    forall q | q >= 2 && ProductAt(q, [0, 2]) == 8
      ensures !AllPrime(Terms(q, [0, 2]))
    {
      if q > 2 {
        ProductStrictlyIncreasing(2, q, [0, 2]);
      }
    }
    ProductAtSnoc(3, [0, 2, 6]);
    assert [0, 2, 6][..2] == [0, 2];
    assert ProductAt(3, [0, 2, 6]) == 135;
    assert Terms(3, [0, 2, 6])[2] == 9 && Divides(3, 9);
    forall q | q >= 2 && ProductAt(q, [0, 2, 6]) == 135
      ensures !AllPrime(Terms(q, [0, 2, 6]))
    {
      if q > 3 {
        ProductStrictlyIncreasing(3, q, [0, 2, 6]);
      } else if q < 3 {
        ProductStrictlyIncreasing(q, 3, [0, 2, 6]);
      }
    }
  }
}
