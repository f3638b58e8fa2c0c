/**
 * Divisibility facts behind the multiplicativity of sigma: the greatest
 * common divisor, Bezout's identity and Euclid's lemma.
 */
module Divisibility {
  import opened Arith

  lemma MulAtLeast(d: int, k: int)
    requires d > 0 && k >= 1
    ensures d * k >= d
  {
  }

  /** A multiple of `d` is divisible by `d`. */
  lemma MultipleDivides(d: int, t: int)
    requires d > 0
    ensures Divides(d, d * t)
  {
    var q, r := (d * t) / d, (d * t) % d;
    assert r == d * (t - q);
    if t - q > 0 {
      MulAtLeast(d, t - q);
    } else if t - q < 0 {
      MulAtLeast(d, q - t);
    }
  }

  /** A divisor of `n` leaves `n` as an exact multiple. */
  lemma DividesQuotient(d: int, n: int)
    requires Divides(d, n)
    ensures n == d * (n / d)
  {
  }

  /** Divisors of two numbers divide every integer combination of them. */
  lemma DividesCombination(d: int, a: int, b: int, x: int, y: int)
    requires Divides(d, a) && Divides(d, b)
    ensures Divides(d, x * a + y * b)
  {
    var i, j := a / d, b / d;
    DividesQuotient(d, a);
    DividesQuotient(d, b);
    assert x * a + y * b == d * (x * i + y * j) by {
      assert x * a == d * (x * i);
      assert y * b == d * (y * j);
    }
    MultipleDivides(d, x * i + y * j);
  }

  /** Divisibility is transitive. */
  lemma DividesTransitive(a: int, b: int, c: int)
    requires Divides(a, b) && Divides(b, c)
    ensures Divides(a, c)
  {
    DividesQuotient(a, b);
    DividesQuotient(b, c);
    assert c == a * ((b / a) * (c / b));
    MultipleDivides(a, (b / a) * (c / b));
  }

  /** A positive number has no divisor above it. */
  lemma DivisorAtMost(d: int, n: int)
    requires n > 0
    ensures Divides(d, n) ==> d <= n
  {
  }

  /** Euclid's algorithm. */
  function Gcd(a: nat, b: nat): nat
    decreases b
  {
    if b == 0 then a else Gcd(b, a % b)
  }

  /** The gcd divides both arguments (when not both are zero). */
  lemma {:induction false} GcdDivides(a: nat, b: nat)
    requires a > 0 || b > 0
    ensures Divides(Gcd(a, b), a) && Divides(Gcd(a, b), b)
    decreases b
  {
    if b == 0 {
      MultipleDivides(a, 1);
      MultipleDivides(a, 0);
    } else {
      GcdDivides(b, a % b);
      var g := Gcd(b, a % b);
      assert a == (a / b) * b + 1 * (a % b);
      DividesCombination(g, b, a % b, a / b, 1);
    }
  }

  /** Bezout's identity: the gcd is an integer combination of the arguments. */
  lemma {:induction false} Bezout(a: nat, b: nat) returns (x: int, y: int)
    ensures x * a + y * b == Gcd(a, b)
    decreases b
  {
    if b == 0 {
      x, y := 1, 0;
    } else {
      var x', y' := Bezout(b, a % b);
      assert a % b == a - (a / b) * b;
      x, y := y', x' - (a / b) * y';
      assert x * a + y * b == x' * b + y' * (a - (a / b) * b);
    }
  }

  /** A prime that does not divide `a` is coprime to it. */
  lemma PrimeCoprime(q: int, a: int)
    requires IsPrime(q) && a > 0 && !Divides(q, a)
    ensures Gcd(a, q) == 1
  {
    GcdDivides(a, q);
    var g := Gcd(a, q);
    DivisorAtMost(g, q);
  }

  /** Euclid's lemma in its coprime form: if `a` divides b c and is coprime
      to c, it divides b. */
  lemma CoprimeDividesFactor(a: int, b: int, c: nat)
    requires a > 0 && Gcd(a, c) == 1 && Divides(a, b * c)
    ensures Divides(a, b)
  {
    var x, y := Bezout(a, c);
    MultipleDivides(a, 1);
    assert b == (b * x) * a + y * (b * c) by {
      assert b == b * (x * a + y * c);
    }
    DividesCombination(a, a, b * c, b * x, y);
  }

  /** Euclid's lemma for a prime: q | a b and q does not divide a, so q | b. */
  lemma PrimeDividesFactor(q: int, a: int, b: int)
    requires IsPrime(q) && a > 0 && Divides(q, a * b) && !Divides(q, a)
    ensures Divides(q, b)
  {
    PrimeCoprime(q, a);
    GcdSymmetric(a, q);
    assert a * b == b * a;
    CoprimeDividesFactor(q, b, a);
  }

  /** The gcd does not depend on the order of the arguments. */
  lemma GcdSymmetric(a: nat, b: nat)
    ensures Gcd(a, b) == Gcd(b, a)
  {
    if a > 0 || b > 0 {
      GcdDivides(a, b);
      GcdDivides(b, a);
      var x, y := Bezout(a, b);
      var u, v := Bezout(b, a);
      DividesCombination(Gcd(b, a), a, b, x, y);
      DividesCombination(Gcd(a, b), b, a, u, v);
      DivisorAtMost(Gcd(b, a), Gcd(a, b));
      DivisorAtMost(Gcd(a, b), Gcd(b, a));
    } else {
      assert Gcd(a, b) == 0 == Gcd(b, a);
    }
  }
}
