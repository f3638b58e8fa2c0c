# Prime-constellation detectors: the verification scanner

This project models the verification scanner of the prime-constellation
detector repository. A constellation family has a list of offsets, for
example `[0, 2]` for twin primes. Its detector is a polynomial D(n, M1) that
should vanish when n is the product of the family's terms p + k and M1 is
sigma(n), the sum of n's divisors. The scanner walks n = 2..limit, computes
M1 = sigma(n) and evaluates four hard-coded detectors. Whenever a detector
is 0, it asks a brute-force membership checker whether n really is such a
product. Each "no" is recorded as a false positive, in a per-family list.

Modules, one per component:

- `Arith` (`arith.dfy`): sigma as a recursive divisor sum, and primality.
- `Constellation` (`constellation.dfy`): products of terms, the existential
  definition `IsConstellation`, and the checker `CheckConstellation`. The
  checker is a method with the source's `while True` search and its inner
  product loop, proved terminating and proved equivalent to the definition.
- `Detectors` (`detectors.dfy`): the four polynomials and the families
  (key, offsets, detector). Includes the identities saying each detector
  vanishes on its family's parametric pair n = prod (p + k),
  M1 = prod (p + k + 1).
- `Divisibility` and `SigmaProduct` (`divisibility.dfy`, `sigma_product.dfy`):
  gcd, Bezout and Euclid's lemma, and from them the result that sigma of a
  product of distinct primes is the product of the terms, each plus one. With the
  identities this proves that no detector misses a true constellation, for
  every n. The scanner itself never checks that direction.
- `Scanner` (`scanner.dfy`): `VerifyDetectors` returns the map of
  false-positive lists instead of printing it. Its contract gives the key
  set, the two lists that always stay empty, and each detector family's
  list as the exact sequence of false positives up to the limit.

## Model

| member | source | states |
|---|---|---|
| `Arith.Sigma` | code/verify_detectors.py:4-5 | sigma(n) is at least n + 1 for n >= 2, and sigma(1) = 1 |
| `Arith.SigmaPrimeCharacterization` | code/verify_detectors.py:4-5 | for n >= 2, sigma(n) >= n + 1, with equality exactly when n is prime |
| `Arith.SigmaExamples` | code/verify_detectors.py:45 | sigma(15) = 24, sigma(9) = 13 and sigma(8) = 15 |
| `SigmaProduct.SigmaTimesPrime` | code/verify_detectors.py:4-5 | sigma(m q) = sigma(m) (q + 1) when q is a prime not dividing m |
| `SigmaProduct.SigmaOfConstellation` | code/1_derive_constellations_detectors.py:60-75 | if every term p + k is prime and the offsets strictly increase, sigma(prod (p + k)) = prod (p + 1 + k), the M1 expression of the families |
| `Constellation.ProductAtSnoc` | code/verify_detectors.py:19-21 | the product of the terms is built by multiplying in one term per offset |
| `Constellation.ProductAtLeastBase` | code/verify_detectors.py:16-36 | with non-empty, non-negative offsets the product at base p >= 1 is at least p, so the search measure n - p decreases while the loop continues |
| `Constellation.ProductStrictlyIncreasing` | code/verify_detectors.py:23-25 | the product is strictly increasing in the base, so stopping at the first product reaching n loses no match |
| `Constellation.CheckConstellation` | code/verify_detectors.py:8-36 | terminates, and returns true exactly when some p >= 2 has prod (p + k) = n with every p + k prime |
| `Constellation.ConstellationExamples` | code/verify_detectors.py:28-33 | 15 is a twin-prime product and 9 is not; the product matches at 8 = 2 * 4 for [0, 2] and at 135 = 3 * 5 * 9 for [0, 2, 6], each with a composite term, so neither is a product of its constellation |
| `Detectors.TwinDetector` | code/verify_detectors.py:49 | no contract; the expression of line 49, coefficient for coefficient |
| `Detectors.Trip1Detector` | code/verify_detectors.py:56-57 | no contract; the expression of lines 56-57, coefficient for coefficient |
| `Detectors.Trip2Detector` | code/verify_detectors.py:64-65 | no contract; the expression of lines 64-65, coefficient for coefficient |
| `Detectors.QuadDetector` | code/verify_detectors.py:72-74 | no contract; the expression of lines 72-74, coefficient for coefficient |
| `Detectors.Family.Offsets` | code/verify_detectors.py:47-77 | each family's offsets are non-empty and non-negative, so the checker may be called with them |
| `Detectors.TwinVanishes` | code/verify_detectors.py:48-49 | (M1 - n)^2 - 2 (M1 + n) - 3 = 0 at n = p (p + 2), M1 = (p + 1)(p + 3), for every integer p |
| `Detectors.Trip1Vanishes` | code/verify_detectors.py:55-57 | the first triplet detector is 0 at n = p (p + 2)(p + 6), M1 = (p + 1)(p + 3)(p + 7) |
| `Detectors.Trip2Vanishes` | code/verify_detectors.py:63-65 | the second triplet detector is 0 at n = p (p + 4)(p + 6), M1 = (p + 1)(p + 5)(p + 7) |
| `Detectors.QuadInDiffAndSum` | code/verify_detectors.py:72-74 | the quadruplet detector equals a polynomial in M1 - n and M1 + n |
| `Detectors.QuadVanishes` | code/verify_detectors.py:71-74 | the quadruplet detector is 0 at n = p (p + 2)(p + 6)(p + 8), M1 = (p + 1)(p + 3)(p + 7)(p + 9) |
| `Detectors.FamilyDetectorVanishes` | code/1_derive_constellations_detectors.py:23-24 | each family's detector vanishes on the generators of its elimination ideal: n = prod (p + k), M1 = prod (p + 1 + k), for every integer p |
| `Detectors.DetectorFiresOnConstellation` | code/verify_detectors.py:44-77 | every true constellation product n of a family makes that family's detector 0 at (n, sigma(n)) |
| `Detectors.TwinExamples` | code/verify_detectors.py:47-52 | at n = 15 the twin detector is 0 and 15 is a twin-prime product; at n = 9 it is -31 and 9 is not |
| `Scanner.RecordedMembership` | code/verify_detectors.py:44-77 | n is in a family's list exactly when 2 <= n <= limit, the detector is 0 at (n, sigma(n)) and n is not a constellation product |
| `Scanner.RecordedBounds` | code/verify_detectors.py:44 | every recorded value lies in 2..limit |
| `Scanner.RecordedStrictlyIncreasing` | code/verify_detectors.py:44-52 | each list is strictly increasing |
| `Scanner.ScanClassifiesZeros` | code/verify_detectors.py:44-77 | for n in 2..limit, the detector is 0 exactly when n is a constellation product or is recorded as a false positive |
| `Scanner.CleanListMeansExact` | code/verify_detectors.py:79-84 | an empty list ("100% Clean") means the detector's zeros in 2..limit are exactly the constellation products there |
| `Scanner.TwinRecordsEight` | code/verify_detectors.py:49-52 | for every limit >= 8, 8 is recorded as a twin false positive (sigma(8) = 15 zeroes the detector and 4 is composite), so the twin list is never empty there |
| `Scanner.ScanFamily` | code/verify_detectors.py:49-77 | one detector block: the family's list grows from its false positives below n to those up to n, and no other entry changes |
| `Scanner.VerifyDetectors` | code/verify_detectors.py:38-77 | the result has exactly the six initial keys; "Sophie" and "Chernick" stay empty; each detector family's list is exactly its false positives in 2..limit, in increasing order |

## Left out

- Printing: the start banner and the final report (code/verify_detectors.py:39, 79-84) and the `__main__` entry points. `VerifyDetectors` returns the map instead.
- code/1_derive_constellations_detectors.py as a program. It wraps sympy's `groebner`, `factor` and `degree`, whose algorithms are not part of this model. The scanner's two triplet polynomials and its quadruplet polynomial are meant to be what it derives for those families (code/1_derive_constellations_detectors.py:62-75). The twin polynomial has no derivation in that file. Its fourth derivation, the Sophie Germain chain (lines 84-86), has no polynomial in the scanner. The identity lemmas show that each polynomial vanishes at (prod (p + k), prod (p + 1 + k)) for every integer p. They do not show that the polynomial is the basis element sympy returns. The failure path (no parameter-free basis element) and the Sophie Germain chain derivation are not modelled.
- sympy's `isprime` and `divisors` are replaced by definitions: trial-division primality and a recursive divisor sum. sympy's `divisors` takes the absolute value of negative arguments. `Sigma` takes a `nat`, because the scanner only calls it with n >= 2.
- "Sophie" and "Chernick" are only keys of the result map: the scan has no detector for them.
- The four per-family blocks of the loop body are written once, as `ScanFamily`, and called with each family's detector and offsets. The source appends to the lists in place; here the map value is replaced by the extended list.
- The list comprehension for the terms and the `all(...)` over them are the functions `Terms` and `AllPrime`, not loops. The product loop over the terms is kept as a loop.
- The complete lists for the default limit of 100000 are not computed: that would take 100000 evaluations of sigma. What is proved is what the lists contain for any limit, plus one concrete entry: the twin list contains 8 once the limit is at least 8.
- Empty or negative offsets: the checker requires non-empty, non-negative offsets. With empty offsets the product stays 1 and the source's loop never ends for n >= 2. No caller in the source passes such offsets.
- Running time of sigma and of the scan up to 100000.
