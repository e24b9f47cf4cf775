/** Values shared by every part of the model: optional values, the
    samples-by-channels matrix and a few facts about sequences. */
module Basics {

  datatype Option<+T> = None | Some(value: T)

  /** A two-dimensional numpy array of shape (samples, channels), stored
      channel by channel: `channels[c][r]` is the entry at row `r`, column `c`.
      The row count is kept explicitly so that an array with zero rows
      still has its column count. */
  datatype Matrix<T> = Matrix(samples: nat, channels: seq<seq<T>>)
  {
    predicate WellFormed()
    {
      forall c :: 0 <= c < |channels| ==> |channels[c]| == samples
    }
  }

  /** `[0, 1, ..., n - 1]`, Python's `list(range(n))`. */
  function Range(n: nat): (r: seq<int>)
    ensures |r| == n
    ensures forall i :: 0 <= i < n ==> r[i] == i
  {
    if n == 0 then [] else Range(n - 1) + [n - 1]
  }

  /** `s` with entry `i` removed, Python's `del s[i]` or `np.delete(s, i)`. */
  function Without<T>(s: seq<T>, i: nat): (r: seq<T>)
    requires i < |s|
    ensures |r| == |s| - 1
    ensures forall j :: 0 <= j < i ==> r[j] == s[j]
    ensures forall j :: i <= j < |r| ==> r[j] == s[j + 1]
  {
    s[..i] + s[i + 1..]
  }

  /** Removing an entry after the head leaves the head in front. */
  lemma WithoutCons<T>(a: T, s: seq<T>, j: nat)
    requires j < |s|
    ensures Without([a] + s, j + 1) == [a] + Without(s, j)
  {
    assert ([a] + s)[..j + 1] == [a] + s[..j];
    assert ([a] + s)[j + 2..] == s[j + 1..];
  }

  /** Python's slice `s[a:b]` for non-negative bounds: both are clamped to the
      length, and an inverted range is empty. */
  function Slice<T>(s: seq<T>, a: nat, b: nat): (r: seq<T>)
    ensures |r| <= |s|
    ensures a <= b <= |s| ==> r == s[a..b]
  {
    var lo := if a <= |s| then a else |s|;
    var hi := if b <= |s| then b else |s|;
    if lo <= hi then s[lo..hi] else []
  }

  function Constant<T>(x: T, n: nat): (r: seq<T>)
    ensures |r| == n
    ensures forall i :: 0 <= i < n ==> r[i] == x
  {
    seq(n, _ => x)
  }

  predicate Distinct<T(==)>(s: seq<T>)
  {
    forall i, j :: 0 <= i < j < |s| ==> s[i] != s[j]
  }

  predicate StrictlyIncreasing(s: seq<int>)
  {
    forall i, j :: 0 <= i < j < |s| ==> s[i] < s[j]
  }

  /** Every entry of `s` lies in `[lo, hi)`. */
  predicate AllIn(s: seq<int>, lo: int, hi: int)
  {
    forall i :: 0 <= i < |s| ==> lo <= s[i] < hi
  }

  lemma {:induction false} RangeDistinct(n: nat)
    ensures Distinct(Range(n))
    ensures StrictlyIncreasing(Range(n))
  {
  }

  // Integer arithmetic the solver does not find on its own.

  lemma MulMonotone(a: int, b: int, d: int)
    requires a <= b && 0 <= d
    ensures a * d <= b * d
  {
  }

  lemma MulCancel(a: int, b: int, d: int)
    requires 0 < d && a * d < b * d
    ensures a < b
  {
  }

  lemma BelowOne(t: int, d: int)
    requires 0 < d && t * d < d
    ensures t <= 0
  {
  }

  lemma AboveMinusOne(t: int, d: int)
    requires 0 < d && -d < t * d
    ensures 0 <= t
  {
  }

  /** `n / d == q` exactly when `n` lies in `[q * d, q * d + d)`. */
  lemma DivUnique(n: int, d: int, q: int)
    requires 0 < d && q * d <= n < q * d + d
    ensures n / d == q
  {
    var q0 := n / d;
    assert q0 * d <= n < q0 * d + d;
    assert (q - q0) * d == q * d - q0 * d;
    BelowOne(q - q0, d);
    AboveMinusOne(q - q0, d);
  }

  lemma DivStep(n: nat, d: nat)
    requires 0 < d <= n
    ensures (n - d) / d == n / d - 1
  {
    var q := n / d;
    assert q * d <= n < q * d + d;
    assert (q - 1) * d == q * d - d;
    DivUnique(n - d, d, q - 1);
  }

  /** The block of index `i < n * d` in blocks of `d` is below `n`. */
  lemma DivBelow(i: nat, n: nat, d: nat)
    requires 0 < d && i < n * d
    ensures i / d < n
  {
    var q := i / d;
    assert q * d <= i;
    MulCancel(q, n, d);
  }

  /** Block `k` of size `d` fits in `n` when `k < n / d`. */
  lemma BlockFits(k: nat, n: nat, d: nat)
    requires 0 < d && k < n / d
    ensures (k + 1) * d <= n
  {
    MulMonotone(k + 1, n / d, d);
  }

  /** `r` is `s` with some entries left out, the rest in their order. */
  ghost predicate Subsequence(r: seq<int>, s: seq<int>)
    decreases |s|
  {
    if |r| == 0 then true
    else if |s| == 0 then false
    else (r[0] == s[0] && Subsequence(r[1..], s[1..])) || Subsequence(r, s[1..])
  }
}
