/** Peak detection with edge exclusion and fixed-width window extraction
    (src/analysis/signal_processing.py, `detect_peaks` and
    `extract_peak_windows`).

    `scipy.signal.find_peaks` is a foreign call: the model receives it as a
    function of the oriented signal and the keyword arguments, returning
    candidate indices. Which candidates it returns (distance, prominence and
    height logic) is not modelled; the properties proved here are those of
    the code around it. */
module SignalProcessing {
  import opened Basics
  import opened Numeric

  /** The keyword arguments of the `find_peaks` call; `height` is passed only
      when a threshold is given (lines 65-74). */
  datatype PeakCriteria = PeakCriteria(distance: int, prominence: real, height: Option<real>)

  /** `find_peaks(signal, **criteria)[0]`. */
  type PeakFinder = (seq<real>, PeakCriteria) -> seq<int>

  /** Defaults of `detect_peaks`. */
  const DefaultDistance: int := 1000
  const DefaultProminence: real := 0.5
  const DefaultWindowSize: int := 2000

  /** `-channel_data`: peaks are local maxima of the negated signal. */
  function Negated(x: seq<real>): (r: seq<real>)
    ensures |r| == |x|
  {
    seq(|x|, i requires 0 <= i < |x| => -x[i])
  }

  /** The edge filter of line 77: keep the candidates `p` with
      `padding <= p < n - padding`, in order. */
  function EdgeFilter(candidates: seq<int>, n: int, padding: int): (r: seq<int>)
    ensures forall i :: 0 <= i < |r| ==> r[i] in candidates && padding <= r[i] < n - padding
    ensures forall p :: p in candidates && padding <= p < n - padding ==> p in r
  {
    if |candidates| == 0 then
      []
    else
      var rest := EdgeFilter(candidates[1..], n, padding);
      if padding <= candidates[0] < n - padding then [candidates[0]] + rest else rest
  }

  /** The filter only leaves candidates out: what it keeps is in the
      candidates' own order. */
  lemma {:induction false} EdgeFilterSubsequence(candidates: seq<int>, n: int, padding: int)
    ensures Subsequence(EdgeFilter(candidates, n, padding), candidates)
  {
    if |candidates| > 0 {
      var rest := EdgeFilter(candidates[1..], n, padding);
      EdgeFilterSubsequence(candidates[1..], n, padding);
      if padding <= candidates[0] < n - padding {
        var r := [candidates[0]] + rest;
        assert r[1..] == rest;
      }
    }
  }

  /** Ascending candidates (as `find_peaks` returns them) stay ascending. */
  lemma {:induction false} EdgeFilterAscending(candidates: seq<int>, n: int, padding: int)
    requires StrictlyIncreasing(candidates)
    ensures StrictlyIncreasing(EdgeFilter(candidates, n, padding))
  {
    if |candidates| > 0 {
      var rest := EdgeFilter(candidates[1..], n, padding);
      EdgeFilterAscending(candidates[1..], n, padding);
      if padding <= candidates[0] < n - padding {
        var r := [candidates[0]] + rest;
        forall i, j | 0 <= i < j < |r|
          ensures r[i] < r[j]
        {
          assert r[j] == rest[j - 1];
          if i == 0 {
            EdgeFilterAbove(candidates, n, padding, j - 1);
          } else {
            assert r[i] == rest[i - 1];
          }
        }
      }
    }
  }

  /** What the filter keeps after the first candidate lies above it. */
  lemma EdgeFilterAbove(candidates: seq<int>, n: int, padding: int, j: nat)
    requires StrictlyIncreasing(candidates) && |candidates| > 0
    requires j < |EdgeFilter(candidates[1..], n, padding)|
    ensures candidates[0] < EdgeFilter(candidates[1..], n, padding)[j]
  {
    var x := EdgeFilter(candidates[1..], n, padding)[j];
    assert x in candidates[1..];
    var k :| 0 <= k < |candidates[1..]| && candidates[1..][k] == x;
    assert candidates[k + 1] == x;
  }

  /** `detect_peaks`: for every column, the candidates `find_peaks` returns on
      the negated column (with `height` only when a threshold is given), minus
      those within `windowSize` samples of either end. */
  method DetectPeaks(data: Matrix<real>, findPeaks: PeakFinder, distance: int, prominence: real,
                     threshold: Option<real>, windowSize: int)
    returns (peaks: seq<seq<int>>)
    requires data.WellFormed()
    ensures |peaks| == |data.channels|
    ensures forall c :: 0 <= c < |peaks| ==>
      peaks[c] == EdgeFilter(findPeaks(Negated(data.channels[c]), PeakCriteria(distance, prominence, threshold)),
                             data.samples, windowSize)
    ensures forall c, i :: 0 <= c < |peaks| && 0 <= i < |peaks[c]| ==>
      windowSize <= peaks[c][i] < data.samples - windowSize
  {
    peaks := [];
    var edgePadding := windowSize;
    var channel := 0;
    while channel < |data.channels|
      invariant 0 <= channel <= |data.channels|
      invariant |peaks| == channel
      invariant forall c :: 0 <= c < channel ==>
        peaks[c] == EdgeFilter(findPeaks(Negated(data.channels[c]), PeakCriteria(distance, prominence, threshold)),
                               data.samples, windowSize)
    {
      var channelData := data.channels[channel];
      var candidates := findPeaks(Negated(channelData), PeakCriteria(distance, prominence, threshold));
      var channelPeaks := EdgeFilter(candidates, |channelData|, edgePadding);
      peaks := peaks + [channelPeaks];
      channel := channel + 1;
    }
  }

  function Zeros(n: nat): (r: seq<real>)
    ensures |r| == n
  {
    Constant(0.0, n)
  }

  function Max(a: int, b: int): int { if a < b then b else a }
  function Min(a: int, b: int): int { if a < b then a else b }

  /** The window of lines 98-102 around `peak`: the slice
      `[max(0, peak - w // 2), min(n, peak + w // 2))` of the channel,
      zero-padded at the end to `w` samples. */
  function Window(x: seq<real>, peak: int, windowSize: int): (r: seq<real>)
    requires 0 <= peak && 0 <= windowSize
    ensures |r| == windowSize
  {
    var start := Max(0, peak - windowSize / 2);
    var end := Min(|x|, peak + windowSize / 2);
    var window := Slice(x, start, end);
    assert |window| <= windowSize;
    if |window| < windowSize then window + Zeros(windowSize - |window|) else window
  }

  /** For an even width and a peak at least `w / 2` from both ends, the window
      is the unpadded slice `[peak - w / 2, peak + w / 2)`. */
  lemma WindowUnpadded(x: seq<real>, peak: int, windowSize: int)
    requires 0 <= peak && 0 <= windowSize && windowSize % 2 == 0
    requires windowSize / 2 <= peak && peak + windowSize / 2 <= |x|
    ensures Window(x, peak, windowSize) == x[peak - windowSize / 2 .. peak + windowSize / 2]
  {
  }

  /** For an odd width the slice holds at most `w - 1` samples, so the last
      sample of every window is a padding zero. */
  lemma WindowOddEndsInZero(x: seq<real>, peak: int, windowSize: int)
    requires 0 <= peak && 0 <= windowSize && windowSize % 2 == 1
    ensures Window(x, peak, windowSize)[windowSize - 1] == 0.0
  {
  }

  /** A peak kept by `detect_peaks` with an even window size yields a full,
      unpadded window from `extract_peak_windows` with the same size. */
  lemma DetectedPeakHasFullWindow(x: seq<real>, candidates: seq<int>, windowSize: int, peak: int)
    requires 0 <= windowSize && windowSize % 2 == 0
    requires peak in EdgeFilter(candidates, |x|, windowSize)
    ensures 0 <= peak
    ensures Window(x, peak, windowSize) == x[peak - windowSize / 2 .. peak + windowSize / 2]
  {
    var r := EdgeFilter(candidates, |x|, windowSize);
    var i :| 0 <= i < |r| && r[i] == peak;
    WindowUnpadded(x, peak, windowSize);
  }

  /** `extract_peak_windows`: for every channel of `peaks`, one window of
      `windowSize` samples per peak, in peak order; no peak is dropped. */
  method ExtractPeakWindows(data: Matrix<real>, peaks: seq<seq<int>>, windowSize: int)
    returns (windows: seq<seq<seq<real>>>)
    requires data.WellFormed() && |peaks| <= |data.channels| && 0 <= windowSize
    requires forall c, i :: 0 <= c < |peaks| && 0 <= i < |peaks[c]| ==> 0 <= peaks[c][i]
    ensures |windows| == |peaks|
    ensures forall c :: 0 <= c < |peaks| ==> |windows[c]| == |peaks[c]|
    ensures forall c, k :: 0 <= c < |peaks| && 0 <= k < |peaks[c]| ==>
      windows[c][k] == Window(data.channels[c], peaks[c][k], windowSize)
  {
    windows := [];
    var channel := 0;
    while channel < |peaks|
      invariant 0 <= channel <= |peaks|
      invariant |windows| == channel
      invariant forall c :: 0 <= c < channel ==> |windows[c]| == |peaks[c]|
      invariant forall c, k :: 0 <= c < channel && 0 <= k < |peaks[c]| ==>
        windows[c][k] == Window(data.channels[c], peaks[c][k], windowSize)
    {
      var channelWindows := ChannelWindows(data.channels[channel], peaks[channel], windowSize);
      windows := windows + [channelWindows];
      channel := channel + 1;
    }
  }

  /** The inner loop of `extract_peak_windows` (lines 96-103) on one column
      `x` (its length is `data.shape[0]`). */
  method ChannelWindows(x: seq<real>, channelPeaks: seq<int>, windowSize: int) returns (channelWindows: seq<seq<real>>)
    requires 0 <= windowSize && forall i :: 0 <= i < |channelPeaks| ==> 0 <= channelPeaks[i]
    ensures |channelWindows| == |channelPeaks|
    ensures forall j :: 0 <= j < |channelPeaks| ==> channelWindows[j] == Window(x, channelPeaks[j], windowSize)
  {
    channelWindows := [];
    var k := 0;
    while k < |channelPeaks|
      invariant 0 <= k <= |channelPeaks|
      invariant |channelWindows| == k
      invariant forall j :: 0 <= j < k ==> channelWindows[j] == Window(x, channelPeaks[j], windowSize)
    {
      var window := Window(x, channelPeaks[k], windowSize);
      channelWindows := channelWindows + [window];
      k := k + 1;
    }
  }

  /** All windows of a channel have one width. */
  predicate Rectangular(ws: seq<seq<real>>)
  {
    forall k :: 0 <= k < |ws| ==> |ws[k]| == |ws[0]|
  }

  /** Sample `j` of every window. */
  function ColumnOf(ws: seq<seq<real>>, j: nat): (r: seq<real>)
    requires Rectangular(ws) && 0 < |ws| && j < |ws[0]|
    ensures |r| == |ws|
  {
    seq(|ws|, k requires 0 <= k < |ws| => ws[k][j])
  }

  /** `np.mean(windows, axis=0)`, or `None` for a channel without windows. */
  function MeanWindow(ws: seq<seq<real>>): (r: Option<seq<real>>)
    requires Rectangular(ws)
    ensures r.None? <==> |ws| == 0
    ensures r.Some? ==> |r.value| == |ws[0]|
  {
    if |ws| == 0 then None
    else Some(seq(|ws[0]|, j requires 0 <= j < |ws[0]| => Mean(ColumnOf(ws, j))))
  }

  /** The average window of every channel. */
  function AverageWindows(windows: seq<seq<seq<real>>>): (r: seq<Option<seq<real>>>)
    requires forall c :: 0 <= c < |windows| ==> Rectangular(windows[c])
    ensures |r| == |windows|
  {
    seq(|windows|, c requires 0 <= c < |windows| => MeanWindow(windows[c]))
  }
}
