/** The numpy reductions the analysis uses, over exact reals: `np.sum`,
    `np.mean` and the population variance behind `np.std` (ddof = 0).
    Square roots are not modelled: a standard deviation is kept as its square. */
module Numeric {

  /** A numpy float64 result: a finite value, or the nan/inf that numpy
      produces for the mean of an empty array or a division by zero. */
  datatype Float = Finite(value: real) | NonFinite

  function Sum(s: seq<real>): real
  {
    if |s| == 0 then 0.0 else s[0] + Sum(s[1..])
  }

  /** `np.mean`: the value that, taken `|s|` times, adds up to the sum. */
  function Mean(s: seq<real>): (r: real)
    requires |s| > 0
    ensures r * (|s| as real) == Sum(s)
  {
    Sum(s) / (|s| as real)
  }

  /** Squared deviations of `s` from its mean. */
  function SquaredDeviations(s: seq<real>): (r: seq<real>)
    requires |s| > 0
    ensures |r| == |s|
  {
    var m := Mean(s);
    seq(|s|, i requires 0 <= i < |s| => (s[i] - m) * (s[i] - m))
  }

  /** Population variance, the square of `np.std`; never negative. */
  function Variance(s: seq<real>): (r: real)
    requires |s| > 0
    ensures r >= 0.0
  {
    var d := SquaredDeviations(s);
    assert forall i :: 0 <= i < |d| ==> d[i] >= 0.0;
    SumNonNegative(d);
    NonNegativeFactor(Mean(d), |d| as real);
    Mean(d)
  }

  /** `np.mean` of a possibly empty array. */
  function MeanOrNaN(s: seq<real>): (r: Float)
    ensures r.NonFinite? <==> |s| == 0
  {
    if |s| == 0 then NonFinite else Finite(Mean(s))
  }

  /** The square of `np.std` of a possibly empty array. */
  function VarianceOrNaN(s: seq<real>): (r: Float)
    ensures r.NonFinite? <==> |s| == 0
  {
    if |s| == 0 then NonFinite else Finite(Variance(s))
  }

  function AsReals(s: seq<int>): (r: seq<real>)
    ensures |r| == |s|
    ensures forall i :: 0 <= i < |s| ==> r[i] == s[i] as real
  {
    seq(|s|, i requires 0 <= i < |s| => s[i] as real)
  }

  /** `s / k` element-wise, numpy's broadcasting division by a scalar. */
  function DividedBy(s: seq<real>, k: real): (r: seq<real>)
    requires k != 0.0
    ensures |r| == |s|
    ensures forall i :: 0 <= i < |s| ==> r[i] == s[i] / k
  {
    seq(|s|, i requires 0 <= i < |s| => s[i] / k)
  }

  /** Dividing every entry by `k` divides the sum by `k`. */
  lemma {:induction false} SumDividedBy(s: seq<real>, k: real)
    requires k != 0.0
    ensures Sum(DividedBy(s, k)) == Sum(s) / k
  {
    if |s| > 0 {
      assert DividedBy(s, k)[1..] == DividedBy(s[1..], k);
      SumDividedBy(s[1..], k);
    }
  }

  /** The mean commutes with division by a non-zero constant. */
  lemma MeanDividedBy(s: seq<real>, k: real)
    requires |s| > 0 && k != 0.0
    ensures Mean(DividedBy(s, k)) == Mean(s) / k
  {
    SumDividedBy(s, k);
    DivisionsCommute(Sum(s), k, |s| as real);
  }

  lemma DivisionsCommute(a: real, k: real, n: real)
    requires k != 0.0 && n != 0.0
    ensures (a / k) / n == (a / n) / k
  {
    var x, y := (a / k) / n, (a / n) / k;
    assert x * n == a / k && (x * n) * k == a;
    assert y * k == a / n && (y * k) * n == a;
    assert x * (n * k) == y * (n * k);
  }

  /** Non-negative entries have a non-negative sum. */
  lemma {:induction false} SumNonNegative(s: seq<real>)
    requires forall i :: 0 <= i < |s| ==> s[i] >= 0.0
    ensures Sum(s) >= 0.0
  {
    if |s| > 0 {
      SumNonNegative(s[1..]);
    }
  }

  /** Each entry within `[lo, hi]` bounds the sum by `|s| * lo` and `|s| * hi`. */
  lemma {:induction false} SumBounds(s: seq<real>, lo: real, hi: real)
    requires forall i :: 0 <= i < |s| ==> lo <= s[i] <= hi
    ensures |s| as real * lo <= Sum(s) <= |s| as real * hi
  {
    if |s| > 0 {
      SumBounds(s[1..], lo, hi);
    }
  }

  lemma NonNegativeFactor(x: real, n: real)
    requires n > 0.0 && x * n >= 0.0
    ensures x >= 0.0
  {
    assert x == (x * n) / n;
  }

  /** A mean lies within any bounds of the entries. */
  lemma MeanBounds(s: seq<real>, lo: real, hi: real)
    requires |s| > 0
    requires forall i :: 0 <= i < |s| ==> lo <= s[i] <= hi
    ensures lo <= Mean(s) <= hi
  {
    SumBounds(s, lo, hi);
    var n := |s| as real;
    var m := Mean(s);
    assert m * n == Sum(s);
    assert (m - lo) * n == m * n - lo * n;
    assert (hi - m) * n == hi * n - m * n;
    NonNegativeFactor(m - lo, n);
    NonNegativeFactor(hi - m, n);
  }

  lemma Sum3(a: real, b: real, c: real)
    ensures Sum([a, b, c]) == a + b + c
  {
    var s := [a, b, c];
    assert s[1..] == [b, c] && s[1..][1..] == [c] && s[1..][1..][1..] == [];
    assert Sum([c]) == c + Sum([]);
    assert Sum([b, c]) == b + Sum([c]);
    assert Sum(s) == a + Sum([b, c]);
  }
}
