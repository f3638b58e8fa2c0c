/**
 * The verification scanner: for every n from 2 to the limit it computes
 * M1 = sigma(n), evaluates the four detectors at (n, M1), and records n as a
 * false positive of a family when that family's detector is 0 there but the
 * membership checker says n is not a constellation product.  The result is
 * the map from family key to its false positives, in increasing order.
 */
module Scanner {
  import opened Arith
  import opened Constellation
  import opened Detectors

  /** The result map's keys: the four detector families and two families
      that have no detector in the scan. */
  const Keys: set<string> := {"Twin", "Trip1", "Trip2", "Quad", "Sophie", "Chernick"}

  /** `n` is a false positive of family `f`: the detector fires at
      (n, sigma(n)) but `n` is not a product of that constellation. */
  ghost predicate FalsePositive(f: Family, n: nat)
  {
    f.Detector(n, Sigma(n)) == 0 && !IsConstellation(n, f.Offsets())
  }

  /** The false positives of `f` among 2..hi, in increasing order: what the
      scan records for `f` once it has handled every n up to hi. */
  ghost function Recorded(f: Family, hi: int): seq<nat>
    decreases hi
  {
    if hi < 2 then []
    else Recorded(f, hi - 1) + (if FalsePositive(f, hi) then [hi] else [])
  }

  /** A value is recorded exactly when it lies in 2..hi and is a false
      positive there. */
  lemma {:induction false} RecordedMembership(f: Family, hi: int, x: int)
    ensures x in Recorded(f, hi) <==> 2 <= x <= hi && FalsePositive(f, x)
    decreases hi
  {
    if hi >= 2 {
      RecordedMembership(f, hi - 1, x);
    }
  }

  /** Every recorded value is within 2..hi. */
  lemma {:induction false} RecordedBounds(f: Family, hi: int)
    ensures forall i :: 0 <= i < |Recorded(f, hi)| ==> 2 <= Recorded(f, hi)[i] <= hi
    decreases hi
  {
    if hi >= 2 {
      RecordedBounds(f, hi - 1);
    }
  }

  /** Each family's list is strictly increasing. */
  lemma {:induction false} RecordedStrictlyIncreasing(f: Family, hi: int)
    ensures forall i, j :: 0 <= i < j < |Recorded(f, hi)| ==> Recorded(f, hi)[i] < Recorded(f, hi)[j]
    decreases hi
  {
    if hi >= 2 {
      RecordedStrictlyIncreasing(f, hi - 1);
      RecordedBounds(f, hi - 1);
    }
  }

  /** Over the scanned range every zero of a detector is either a true
      constellation product or a recorded false positive, and every true
      constellation product is a zero, so the zeros are classified
      exactly. */
  lemma ScanClassifiesZeros(f: Family, limit: int, n: nat)
    requires 2 <= n <= limit
    ensures f.Detector(n, Sigma(n)) == 0 <==> IsConstellation(n, f.Offsets()) || n in Recorded(f, limit)
  {
    RecordedMembership(f, limit, n);
    if IsConstellation(n, f.Offsets()) {
      DetectorFiresOnConstellation(f, n);
    }
  }

  /** An empty list means the detector's zeros in 2..limit are exactly the
      family's constellation products there. */
  lemma CleanListMeansExact(f: Family, limit: int, n: nat)
    requires Recorded(f, limit) == [] && 2 <= n <= limit
    ensures f.Detector(n, Sigma(n)) == 0 <==> IsConstellation(n, f.Offsets())
  {
    ScanClassifiesZeros(f, limit, n);
  }

  /** The twin list is never clean once the scan reaches 8: sigma(8) = 15
      makes the twin detector 0, and 8 = 2 * 4 is rejected because 4 is
      composite. */
  lemma TwinRecordsEight(limit: int)
    requires limit >= 8
    ensures 8 in Recorded(Twin, limit) && Recorded(Twin, limit) != []
  {
    SigmaExamples();
    ConstellationExamples();
    assert FalsePositive(Twin, 8);
    RecordedMembership(Twin, limit, 8);
  }

  /** One detector block of the scan at `n`, with m1 = sigma(n): evaluate
      the family's detector and, when it is 0 and the checker rejects `n`,
      append `n` to that family's list.  When the list held the false
      positives below `n`, it then holds those up to `n`; no other entry
      changes. */
  method ScanFamily(fps: map<string, seq<int>>, f: Family, n: nat, m1: nat) returns (r: map<string, seq<int>>)
    requires n >= 2 && m1 == Sigma(n)
    requires f.Key() in fps && fps[f.Key()] == Recorded(f, n - 1)
    ensures r == fps[f.Key() := Recorded(f, n)]
  {
    var list := fps[f.Key()];
    var val := f.Detector(n, m1);
    if val == 0 {
      var ok := CheckConstellation(n, f.Offsets());
      if !ok {
        list := list + [n];
      }
    }
    assert list == Recorded(f, n - 1) + (if FalsePositive(f, n) then [n] else []);
    r := fps[f.Key() := list];
  }

  /** Scans n = 2..limit (nothing when limit < 2) and returns the false
      positives of every family.  The keys are the six initial ones, the
      two families without a detector stay empty, and each detector
      family's list is exactly its false positives up to the limit. */
  method VerifyDetectors(limit: int := 100000) returns (fps: map<string, seq<int>>)
    ensures fps.Keys == Keys
    ensures fps["Sophie"] == [] && fps["Chernick"] == []
    ensures fps[Twin.Key()] == Recorded(Twin, limit)
    ensures fps[Trip1.Key()] == Recorded(Trip1, limit)
    ensures fps[Trip2.Key()] == Recorded(Trip2, limit)
    ensures fps[Quad.Key()] == Recorded(Quad, limit)
  {
    fps := map["Twin" := [], "Trip1" := [], "Trip2" := [], "Quad" := [], "Sophie" := [], "Chernick" := []];
    var n := 2;
    while n <= limit
      invariant 2 <= n && (n <= limit + 1 || n == 2)
      invariant fps.Keys == Keys
      invariant fps["Sophie"] == [] && fps["Chernick"] == []
      invariant fps["Twin"] == Recorded(Twin, n - 1)
      invariant fps["Trip1"] == Recorded(Trip1, n - 1)
      invariant fps["Trip2"] == Recorded(Trip2, n - 1)
      invariant fps["Quad"] == Recorded(Quad, n - 1)
    {
      var m1 := Sigma(n);

      fps := ScanFamily(fps, Twin, n, m1);
      fps := ScanFamily(fps, Trip1, n, m1);
      fps := ScanFamily(fps, Trip2, n, m1);
      fps := ScanFamily(fps, Quad, n, m1);

      n := n + 1;
    }
  }
}
