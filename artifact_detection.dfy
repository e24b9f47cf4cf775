/** Segment-averaged artifact flags (src/analysis/artifact_detection.py).

    A channel is cut into full segments of `segmentSize` samples; each
    segment is scored by its mean; the means are z-scored against their own
    mean and standard deviation; positive z-scores are multiplied by a
    penalty; a segment is flagged when the absolute adjusted z-score exceeds
    the threshold; each flag is repeated over its segment and the trailing
    partial segment is padded with `false`.

    The z-score is `d / sd` with `d` the deviation of a segment mean and `sd`
    the population standard deviation of the means. The model keeps the
    variance `v = sd * sd` instead and decides the same comparison without a
    square root; `FlagIsZScoreTest` proves the two agree. When `v == 0`
    (all means equal, in particular a single segment) numpy divides 0 by 0,
    every z-score is nan, and nan compares false, so nothing is flagged. */
module ArtifactDetection {
  import opened Basics
  import opened Numeric

  /** Defaults of `detect_artifacts`. */
  const DefaultThreshold: real := 5.0
  const DefaultSegmentSize: nat := 1000
  const DefaultPositivePenalty: real := 1.5

  /** Full segment `k` of `x`: the first `size` samples after dropping `k`
      segments, as the rows of `x.reshape(-1, size)` are laid out. */
  function Segment(x: seq<real>, size: nat, k: nat): (r: seq<real>)
    requires 0 < size && k < |x| / size
    ensures |r| == size
    decreases k
  {
    DivBelowLength(|x|, size);
    if k == 0 then x[..size]
    else
      DivStep(|x|, size);
      Segment(x[size..], size, k - 1)
  }

  lemma DivBelowLength(n: nat, size: nat)
    requires 0 < size && 0 < n / size
    ensures size <= n
  {
    MulMonotone(1, n / size, size);
  }

  /** Segment `k` is the slice `[k * size, (k + 1) * size)`. */
  lemma {:induction false} SegmentIsSlice(x: seq<real>, size: nat, k: nat)
    requires 0 < size && k < |x| / size
    ensures (k + 1) * size <= |x|
    ensures Segment(x, size, k) == x[k * size .. (k + 1) * size]
    decreases k
  {
    BlockFits(k, |x|, size);
    if k > 0 {
      DivBelowLength(|x|, size);
      DivStep(|x|, size);
      SegmentIsSlice(x[size..], size, k - 1);
      assert k * size == (k - 1) * size + size;
      assert (k + 1) * size == k * size + size;
    }
  }

  /** The mean of every full segment, in order: `x[:n * size]` reshaped to
      (-1, size) and averaged along axis 1. A trailing partial segment is not
      scored. */
  function SegmentMeans(x: seq<real>, size: nat): (r: seq<real>)
    requires size > 0
    ensures |r| == |x| / size
    ensures forall k :: 0 <= k < |r| ==> r[k] == Mean(Segment(x, size, k))
    decreases |x|
  {
    if |x| < size then
      DivUnique(|x|, size, 0);
      []
    else
      DivStep(|x|, size);
      [Mean(x[..size])] + SegmentMeans(x[size..], size)
  }

  /** `z * penalty` for a positive z-score, `z` otherwise (line 26). */
  function AdjustedZ(z: real, penalty: real): real
  {
    if z > 0.0 then z * penalty else z
  }

  /** A positive penalty keeps the sign of the z-score, negative scores are
      untouched, and a penalty of at least one only ever magnifies. */
  lemma AdjustedZKeepsSign(z: real, penalty: real)
    ensures penalty > 0.0 ==> (AdjustedZ(z, penalty) > 0.0 <==> z > 0.0)
    ensures z <= 0.0 ==> AdjustedZ(z, penalty) == z
    ensures penalty >= 1.0 ==> Abs(AdjustedZ(z, penalty)) >= Abs(z)
  {
  }

  function Abs(x: real): real
  {
    if x < 0.0 then -x else x
  }

  /** The flag test of one segment whose mean deviates by `d` from the mean of
      all segment means, `v` being the variance of those means. */
  predicate Flagged(d: real, v: real, threshold: real, penalty: real)
  {
    var a := AdjustedZ(d, penalty);
    v != 0.0 && (threshold < 0.0 || a * a > threshold * threshold * v)
  }

  /** A zero variance means every segment mean equals their mean, so the
      source divides zero by zero; the nan it gets never compares greater than
      the threshold, and nothing is flagged. A segment at the mean is never
      flagged under a non-negative threshold. */
  lemma FlaggedNeedsSpread(d: real, v: real, threshold: real, penalty: real)
    ensures Flagged(d, v, threshold, penalty) ==> v != 0.0
    ensures d == 0.0 && threshold >= 0.0 && v >= 0.0 ==> !Flagged(d, v, threshold, penalty)
  {
  }

  lemma SquareMonotone(x: real, y: real)
    requires 0.0 <= x && 0.0 <= y
    ensures x > y <==> x * x > y * y
  {
    if x > y {
      assert x + y > 0.0;
      assert (x - y) * (x + y) > 0.0;
      assert x * x - y * y == (x - y) * (x + y);
    } else {
      assert y * y >= y * x;
      assert y * x >= x * x;
    }
  }

  lemma ScaleByPositive(a: real, sd: real)
    requires sd > 0.0
    ensures (a / sd) * sd == a
    ensures a / sd > 0.0 <==> a > 0.0
    ensures Abs(a / sd) == Abs(a) / sd
  {
  }

  lemma CompareScaled(x: real, sd: real, t: real)
    requires sd > 0.0
    ensures x / sd > t <==> x > t * sd
  {
    assert (x / sd) * sd == x;
    if x / sd > t {
      assert (x / sd) * sd > t * sd;
    } else {
      assert (x / sd) * sd <= t * sd;
    }
  }

  /** With a non-zero standard deviation `sd`, the test `Flagged` is exactly
      the source's test: the absolute value of the z-score `d / sd`, multiplied
      by the penalty when positive, is strictly greater than the threshold. */
  lemma FlagIsZScoreTest(d: real, v: real, sd: real, threshold: real, penalty: real)
    requires sd > 0.0 && sd * sd == v
    ensures Flagged(d, v, threshold, penalty) <==> Abs(AdjustedZ(d / sd, penalty)) > threshold
  {
    var a := AdjustedZ(d, penalty);
    ScaleByPositive(d, sd);
    ScaleByPositive(a, sd);
    assert AdjustedZ(d / sd, penalty) == a / sd by {
      if d > 0.0 {
        ScaleByPositive(d * penalty, sd);
        assert (d / sd) * penalty * sd == d * penalty;
      }
    }
    CompareScaled(Abs(a), sd, threshold);
    assert Abs(a) * Abs(a) == a * a;
    if threshold >= 0.0 {
      SquareMonotone(Abs(a), threshold * sd);
      assert (threshold * sd) * (threshold * sd) == threshold * threshold * v;
    }
  }

  /** The flag of every segment, from the segment means (lines 23-29). */
  function SegmentFlags(means: seq<real>, threshold: real, penalty: real): (r: seq<bool>)
    ensures |r| == |means|
  {
    if |means| == 0 then
      []
    else
      var mu := Mean(means);
      var v := Variance(means);
      seq(|means|, k requires 0 <= k < |means| => Flagged(means[k] - mu, v, threshold, penalty))
  }

  /** `np.repeat(flags, size)`: every flag `size` times, in order. */
  function Repeat(flags: seq<bool>, size: nat): (r: seq<bool>)
    requires size > 0
    ensures |r| == |flags| * size
    ensures forall i :: 0 <= i < |r| ==> i / size < |flags| && r[i] == flags[i / size]
  {
    if |flags| == 0 then
      []
    else
      var rest := Repeat(flags[1..], size);
      var r := Constant(flags[0], size) + rest;
      forall i | 0 <= i < |r|
        ensures i / size < |flags| && r[i] == flags[i / size]
      {
        RepeatAt(flags, rest, size, i);
      }
      assert |r| == |flags| * size by {
        assert (|flags| - 1) * size + size == |flags| * size;
      }
      r
  }

  /** Index `i` of the first flag's copies followed by the repeated rest. */
  lemma RepeatAt(flags: seq<bool>, rest: seq<bool>, size: nat, i: nat)
    requires size > 0 && |flags| > 0 && |rest| == (|flags| - 1) * size
    requires forall j :: 0 <= j < |rest| ==> j / size < |flags| - 1 && rest[j] == flags[1..][j / size]
    requires i < size + |rest|
    ensures i / size < |flags| && (Constant(flags[0], size) + rest)[i] == flags[i / size]
  {
    if i < size {
      DivUnique(i, size, 0);
    } else {
      DivStep(i, size);
      assert (Constant(flags[0], size) + rest)[i] == rest[i - size];
    }
  }

  /** The number of samples in full segments, `(n // size) * size`. */
  function Covered(n: nat, size: nat): (r: nat)
    requires size > 0
    ensures r <= n
  {
    n / size * size
  }

  /** `detect_artifacts` on one channel: one flag per sample. Every sample of a
      full segment carries its segment's flag; every sample past the last full
      segment is `false`. */
  function DetectArtifacts(x: seq<real>, threshold: real, segmentSize: nat, positivePenalty: real): (r: seq<bool>)
    requires segmentSize > 0
    ensures |r| == |x|
    ensures forall i :: 0 <= i < Covered(|x|, segmentSize) ==>
      i / segmentSize < |x| / segmentSize &&
      r[i] == SegmentFlags(SegmentMeans(x, segmentSize), threshold, positivePenalty)[i / segmentSize]
    ensures forall i :: Covered(|x|, segmentSize) <= i < |x| ==> !r[i]
  {
    var flags := SegmentFlags(SegmentMeans(x, segmentSize), threshold, positivePenalty);
    var expanded := Repeat(flags, segmentSize);
    assert |flags| == |x| / segmentSize;
    PadFlags(expanded, |x|)
  }

  /** `expanded` padded with `false` up to `n` entries (`np.pad`). */
  function PadFlags(expanded: seq<bool>, n: nat): (r: seq<bool>)
    requires |expanded| <= n
    ensures |r| == n
    ensures forall i :: 0 <= i < |expanded| ==> r[i] == expanded[i]
    ensures forall i :: |expanded| <= i < n ==> !r[i]
  {
    expanded + Constant(false, n - |expanded|)
  }

  /** Offset `a` in full segment `k` is a covered sample whose segment is `k`. */
  lemma BlockIndex(k: nat, a: nat, n: nat, size: nat)
    requires 0 < size && k < n / size && a < size
    ensures k * size + a < Covered(n, size)
    ensures (k * size + a) / size == k
  {
    assert (k + 1) * size == k * size + size;
    MulMonotone(k + 1, n / size, size);
    DivUnique(k * size + a, size, k);
  }

  /** Every sample `i` of full segment `k` carries the flag of segment `k`,
      so all samples of one segment share a flag. */
  lemma SegmentCarriesFlag(x: seq<real>, threshold: real, segmentSize: nat, positivePenalty: real, k: nat, i: nat)
    requires segmentSize > 0
    requires k < |x| / segmentSize && k * segmentSize <= i < k * segmentSize + segmentSize
    ensures i < |x|
    ensures DetectArtifacts(x, threshold, segmentSize, positivePenalty)[i]
         == SegmentFlags(SegmentMeans(x, segmentSize), threshold, positivePenalty)[k]
  {
    BlockIndex(k, i - k * segmentSize, |x|, segmentSize);
  }

  /** With fewer than two full segments nothing is flagged: the segment means
      have zero variance, so the z-scores are nan. */
  lemma FewSegmentsNoArtifacts(x: seq<real>, threshold: real, segmentSize: nat, positivePenalty: real)
    requires segmentSize > 0
    requires |x| < 2 * segmentSize
    ensures forall i :: 0 <= i < |x| ==> !DetectArtifacts(x, threshold, segmentSize, positivePenalty)[i]
  {
    var means := SegmentMeans(x, segmentSize);
    var flags := SegmentFlags(means, threshold, positivePenalty);
    var n := |x| / segmentSize;
    assert n * segmentSize <= |x|;
    MulCancel(n, 2, segmentSize);
    if n == 1 {
      assert means[1..] == [];
      assert Sum(means) == means[0] + Sum(means[1..]);
      assert Mean(means) == means[0];
      var sq := SquaredDeviations(means);
      assert sq[0] == (means[0] - Mean(means)) * (means[0] - Mean(means));
      assert sq[1..] == [];
      assert Sum(sq) == sq[0] + Sum(sq[1..]);
      assert Variance(means) == 0.0;
      assert !flags[0];
    }
    forall i | 0 <= i < Covered(|x|, segmentSize)
      ensures !DetectArtifacts(x, threshold, segmentSize, positivePenalty)[i]
    {
      DivBelow(i, n, segmentSize);
    }
  }

  /** `detect_artifacts_all_channels`: the single-channel detector applied to
      every column on its own; the result has the shape of the data. A
      recording without columns is an error in the source (the column-wise
      application raises), hence the precondition. */
  function DetectArtifactsAllChannels(data: Matrix<real>, threshold: real, segmentSize: nat, positivePenalty: real): (r: Matrix<bool>)
    requires data.WellFormed() && segmentSize > 0
    requires |data.channels| > 0
    ensures r.WellFormed()
    ensures r.samples == data.samples && |r.channels| == |data.channels|
    ensures forall c :: 0 <= c < |data.channels| ==>
      r.channels[c] == DetectArtifacts(data.channels[c], threshold, segmentSize, positivePenalty)
  {
    Matrix(data.samples, seq(|data.channels|, c requires 0 <= c < |data.channels| =>
      DetectArtifacts(data.channels[c], threshold, segmentSize, positivePenalty)))
  }
}
