/**
 * The four hard-coded detector polynomials D(n, M1) of the scanner, one per
 * constellation family, and the identities that make them detectors: each
 * vanishes on its family's parametric pair n = prod (p + k),
 * M1 = prod (p + k + 1), for every integer p.  That pair generates the ideal
 * <n - n(p), M1 - M1(p)> built at code/1_derive_constellations_detectors.py:24.
 */
module Detectors {
  import opened Arith
  import opened Constellation
  import opened SigmaProduct

  /** Twin primes (p, p + 2): (M1 - n)^2 - 2 (M1 + n) - 3. */
  function TwinDetector(n: int, m1: int): int
  {
    (m1 - n) * (m1 - n) - 2 * (m1 + n) - 3
  }

  /** Prime triplets of the first kind (p, p + 2, p + 6). */
  function Trip1Detector(n: int, m1: int): int
  {
    m1 * m1 * m1 - 3 * m1 * m1 * n - 31 * m1 * m1 + 3 * m1 * n * n + 35 * m1 * n + 135 * m1
    - n * n * n - 31 * n * n + 185 * n + 1575
  }

  /** Prime triplets of the second kind (p, p + 4, p + 6). */
  function Trip2Detector(n: int, m1: int): int
  {
    m1 * m1 * m1 - 3 * m1 * m1 * n - 31 * m1 * m1 + 3 * m1 * n * n + 35 * m1 * n - 185 * m1
    - n * n * n - 31 * n * n - 135 * n + 1575
  }

  /** Prime quadruplets (p, p + 2, p + 6, p + 8). */
  function QuadDetector(n: int, m1: int): int
  {
    m1 * m1 * m1 * m1 - 4 * m1 * m1 * m1 * n - 164 * m1 * m1 * m1 + 6 * m1 * m1 * n * n
    + 36 * m1 * m1 * n - 6650 * m1 * m1
    - 4 * m1 * n * n * n + 36 * m1 * n * n + 14980 * m1 * n + 308700 * m1
    + n * n * n * n - 164 * n * n * n - 6650 * n * n + 308700 * n + 10418625
  }

  /** The families the scanner checks, with their offsets and detectors. */
  datatype Family = Twin | Trip1 | Trip2 | Quad
  {
    /** The family's key in the scanner's result map. */
    function Key(): string
    {
      match this
      case Twin => "Twin"
      case Trip1 => "Trip1"
      case Trip2 => "Trip2"
      case Quad => "Quad"
    }

    /** The offsets k of the terms p + k. */
    function Offsets(): (o: seq<int>)
      ensures ValidOffsets(o)
    {
      match this
      case Twin => [0, 2]
      case Trip1 => [0, 2, 6]
      case Trip2 => [0, 4, 6]
      case Quad => [0, 2, 6, 8]
    }

    /** The family's detector evaluated at (n, M1). */
    function Detector(n: int, m1: int): int
    {
      match this
      case Twin => TwinDetector(n, m1)
      case Trip1 => Trip1Detector(n, m1)
      case Trip2 => Trip2Detector(n, m1)
      case Quad => QuadDetector(n, m1)
    }
  }

  lemma TwinVanishes(p: int)
    ensures TwinDetector(p * (p + 2), (p + 1) * (p + 3)) == 0
  {
  }

  lemma Trip1Vanishes(p: int)
    ensures Trip1Detector(p * (p + 2) * (p + 6), (p + 1) * (p + 3) * (p + 7)) == 0
  {
  }

  lemma Trip2Vanishes(p: int)
    ensures Trip2Detector(p * (p + 4) * (p + 6), (p + 1) * (p + 5) * (p + 7)) == 0
  {
  }

  /** The quadruplet detector written in d = M1 - n and s = M1 + n. */
  function QuadReduced(d: int, s: int): int
  {
    d * d * d * d - 132 * d * d * s - 7070 * d * d - 32 * s * s * s + 420 * s * s + 308700 * s + 10418625
  }

  lemma QuadInDiffAndSum(n: int, m1: int)
    ensures QuadDetector(n, m1) == QuadReduced(m1 - n, m1 + n)
  {
  }

  /** QuadReduced scaled by 256, in x = 4 d^2 and y = 8 s. */
  lemma QuadScaled(d: int, s: int, x: int, y: int)
    requires x == 4 * d * d && y == 8 * s
    ensures 256 * QuadReduced(d, s)
         == 16 * x * x - 1056 * x * y - 452480 * x - 16 * y * y * y + 1680 * y * y + 9878400 * y + 2667168000
  {
    assert 256 * (d * d * d * d) == 16 * x * x;
    assert 256 * (d * d * s) == 8 * x * y;
    assert 512 * (s * s * s) == y * y * y;
    assert 256 * (s * s) == 4 * y * y;
  }

  /** On the quadruplet family, x and y are polynomials in one integer e,
      and the scaled detector vanishes identically in e. */
  lemma QuadScaledVanishes(x: int, y: int, e: int)
    requires x == (e + 39) * e * e
    requires y == e * e + 4 * e - 420
    ensures 16 * x * x - 1056 * x * y - 452480 * x - 16 * y * y * y + 1680 * y * y + 9878400 * y + 2667168000 == 0
  {
  }

  /** With c = 2p + 9 and e = c^2 - 39, the quadruplet pair satisfies
      2 (M1 - n) = c e, hence 4 (M1 - n)^2 = (e + 39) e^2, and
      8 (M1 + n) = e^2 + 4e - 420. */
  lemma QuadPairInE(p: int, n: int, m1: int, e: int)
    requires n == p * (p + 2) * (p + 6) * (p + 8)
    requires m1 == (p + 1) * (p + 3) * (p + 7) * (p + 9)
    requires e == (2 * p + 9) * (2 * p + 9) - 39
    ensures 4 * (m1 - n) * (m1 - n) == (e + 39) * e * e
    ensures 8 * (m1 + n) == e * e + 4 * e - 420
  {
    var c := 2 * p + 9;
    var d := m1 - n;
    assert 2 * d == c * e;
    assert 4 * d * d == (c * e) * (c * e);
    assert (c * e) * (c * e) == (c * c) * (e * e);
  }

  lemma QuadVanishes(p: int)
    ensures QuadDetector(p * (p + 2) * (p + 6) * (p + 8), (p + 1) * (p + 3) * (p + 7) * (p + 9)) == 0
  {
    var n := p * (p + 2) * (p + 6) * (p + 8);
    var m1 := (p + 1) * (p + 3) * (p + 7) * (p + 9);
    var e := (2 * p + 9) * (2 * p + 9) - 39;
    var x, y := 4 * (m1 - n) * (m1 - n), 8 * (m1 + n);
    QuadPairInE(p, n, m1, e);
    QuadInDiffAndSum(n, m1);
    QuadScaled(m1 - n, m1 + n, x, y);
    QuadScaledVanishes(x, y, e);
  }

  /** Products over the families' offset lists, multiplied out. */
  lemma ProductAtExpanded(p: int)
    ensures ProductAt(p, [0, 2]) == p * (p + 2)
    ensures ProductAt(p, [0, 2, 6]) == p * (p + 2) * (p + 6)
    ensures ProductAt(p, [0, 4, 6]) == p * (p + 4) * (p + 6)
    ensures ProductAt(p, [0, 2, 6, 8]) == p * (p + 2) * (p + 6) * (p + 8)
  {
    assert [0, 2, 6, 8][..3] == [0, 2, 6];
    assert [0, 2, 6][..2] == [0, 2];
    assert [0, 4, 6][..2] == [0, 4];
    assert [0, 2][..1] == [0] && [0, 4][..1] == [0];
    ProductAtSnoc(p, [0, 2, 6, 8]);
    ProductAtSnoc(p, [0, 2, 6]);
    ProductAtSnoc(p, [0, 4, 6]);
    ProductAtSnoc(p, [0, 2]);
    ProductAtSnoc(p, [0, 4]);
    ProductAtSnoc(p, [0]);
    assert ProductAt(p, []) == 1;
  }

  /** Every family's detector vanishes at its parametric pair
      n = prod (p + k), M1 = prod (p + 1 + k), for every integer p. */
  lemma FamilyDetectorVanishes(f: Family, p: int)
    ensures f.Detector(ProductAt(p, f.Offsets()), ProductAt(p + 1, f.Offsets())) == 0
  {
    ProductAtExpanded(p);
    ProductAtExpanded(p + 1);
    match f
    case Twin => TwinVanishes(p);
    case Trip1 => Trip1Vanishes(p);
    case Trip2 => Trip2Vanishes(p);
    case Quad => QuadVanishes(p);
  }

  /** No false negatives: every product of a true constellation of the
      family makes the family's detector vanish at (n, sigma(n)), since
      sigma of a product of distinct primes is the product of the terms,
      each plus one. */
  lemma DetectorFiresOnConstellation(f: Family, n: nat)
    requires IsConstellation(n, f.Offsets())
    ensures f.Detector(n, Sigma(n)) == 0
  {
    var p :| p >= 2 && ProductAt(p, f.Offsets()) == n && AllPrime(Terms(p, f.Offsets()));
    assert StrictlyIncreasing(f.Offsets());
    SigmaOfConstellation(p, f.Offsets());
    FamilyDetectorVanishes(f, p);
  }

  /** The two documented twin-prime points: at n = 15 (sigma 24) the
      detector is 0 and 15 = 3 * 5 is a twin-prime product; at n = 9
      (sigma 13) the detector is -31 and 9 is not one. */
  lemma TwinExamples()
    ensures Sigma(15) == 24 && Twin.Detector(15, Sigma(15)) == 0 && IsConstellation(15, Twin.Offsets())
    ensures Sigma(9) == 13 && Twin.Detector(9, Sigma(9)) == -31 && !IsConstellation(9, Twin.Offsets())
  {
    SigmaExamples();
    ConstellationExamples();
  }
}
