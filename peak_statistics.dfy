/** Per-channel summary records (src/analysis/peak_statistics.py).

    Standard deviations are kept as population variances (the square of
    `np.std`, ddof = 0); the square root is not modelled. numpy's nan and inf
    results are `NonFinite`. */
module PeakStatistics {
  import opened Basics
  import opened Numeric

  /** One record of `compute_channel_statistics`; `variance` is the square
      of the `std` entry. */
  datatype ChannelStats = ChannelStats(channel: nat, mean: Float, variance: Float)

  /** One record of `compute_peak_statistics`; each `variance...` field is the
      square of the corresponding `std_...` entry. */
  datatype PeakStats = PeakStats(
    channel: nat,
    numPeaks: nat,
    frequency: Float,
    avgAmplitude: real,
    varianceAmplitude: real,
    meanInterPeakDistance: real,
    varianceInterPeakDistance: real,
    meanInterPeakTime: real,
    varianceInterPeakTime: real)

  /** `stats` holds, in column order, one record per column of `data` with its
      index, the mean of the column and the square of its population standard
      deviation (nan for a column without samples). */
  ghost predicate DescribesChannels(stats: seq<ChannelStats>, data: Matrix<real>)
  {
    |stats| == |data.channels| &&
    forall c :: 0 <= c < |stats| ==>
      stats[c].channel == c &&
      stats[c].mean == MeanOrNaN(data.channels[c]) &&
      stats[c].variance == VarianceOrNaN(data.channels[c])
  }

  /** `compute_channel_statistics`: one record per column, appended in order. */
  method ComputeChannelStatistics(data: Matrix<real>) returns (stats: seq<ChannelStats>)
    ensures DescribesChannels(stats, data)
  {
    stats := [];
    var channel := 0;
    while channel < |data.channels|
      invariant 0 <= channel <= |data.channels|
      invariant |stats| == channel
      invariant forall c :: 0 <= c < channel ==>
        stats[c].channel == c &&
        stats[c].mean == MeanOrNaN(data.channels[c]) &&
        stats[c].variance == VarianceOrNaN(data.channels[c])
    {
      var channelData := data.channels[channel];
      stats := stats + [ChannelStats(channel, MeanOrNaN(channelData), VarianceOrNaN(channelData))];
      channel := channel + 1;
    }
  }

  /** The example in the docstring of `compute_channel_statistics`: the means
      are 3.0 and 4.0, but the population variance is 8/3, so the `std` the
      code returns is about 1.633 and not the docstring's 2.0 (which is the
      sample standard deviation, whose square is 4). */
  lemma ChannelStatisticsDocExample()
    ensures MeanOrNaN([1.0, 3.0, 5.0]) == Finite(3.0)
    ensures MeanOrNaN([2.0, 4.0, 6.0]) == Finite(4.0)
    ensures VarianceOrNaN([1.0, 3.0, 5.0]) == Finite(8.0 / 3.0)
    ensures VarianceOrNaN([2.0, 4.0, 6.0]) == Finite(8.0 / 3.0)
  {
    Sum3(1.0, 3.0, 5.0);
    assert SquaredDeviations([1.0, 3.0, 5.0]) == [4.0, 0.0, 4.0];
    Sum3(2.0, 4.0, 6.0);
    assert SquaredDeviations([2.0, 4.0, 6.0]) == [4.0, 0.0, 4.0];
    Sum3(4.0, 0.0, 4.0);
  }

  /** `np.diff(peaks)`: successive differences. */
  function Diffs(peaks: seq<int>): (r: seq<int>)
    requires |peaks| > 0
    ensures |r| == |peaks| - 1
  {
    seq(|peaks| - 1, i requires 0 <= i < |peaks| - 1 => peaks[i + 1] - peaks[i])
  }

  /** `len(peaks) / (time[-1] - time[0])`; dividing by a zero duration gives
      inf (or nan with no peaks) in numpy. */
  function Frequency(numPeaks: nat, time: seq<real>): (r: Float)
    requires |time| > 0
    ensures r.NonFinite? <==> time[|time| - 1] == time[0]
    ensures r.Finite? ==> r.value * (time[|time| - 1] - time[0]) == numPeaks as real
  {
    var totalTime := time[|time| - 1] - time[0];
    if totalTime == 0.0 then NonFinite else Finite(numPeaks as real / totalTime)
  }

  /** The amplitude of the channel at each of its peaks, `data[peaks, channel]`. */
  function Amplitudes(column: seq<real>, peaks: seq<int>): (r: seq<real>)
    requires AllIn(peaks, 0, |column|)
    ensures |r| == |peaks|
  {
    seq(|peaks|, i requires 0 <= i < |peaks| => column[peaks[i]])
  }

  /** The record `compute_peak_statistics` builds for channel `c` (lines
      55-81): amplitude and inter-peak statistics when the channel has more
      than one peak, and explicit defaults otherwise. */
  function PeakRecord(column: seq<real>, peaks: seq<int>, c: nat, time: seq<real>, samplingRate: real): (r: PeakStats)
    requires AllIn(peaks, 0, |column|) && |time| > 0 && samplingRate != 0.0
    ensures r.channel == c && r.numPeaks == |peaks|
    ensures r.frequency == Frequency(|peaks|, time)
    ensures r.varianceAmplitude >= 0.0 && r.varianceInterPeakDistance >= 0.0 && r.varianceInterPeakTime >= 0.0
  {
    var frequency := Frequency(|peaks|, time);
    if |peaks| > 1 then
      var amplitudes := Amplitudes(column, peaks);
      var distances := AsReals(Diffs(peaks));
      var times := DividedBy(distances, samplingRate);
      PeakStats(c, |peaks|, frequency,
                Mean(amplitudes), Variance(amplitudes),
                Mean(distances), Variance(distances),
                Mean(times), Variance(times))
    else
      PeakStats(c, |peaks|, frequency,
                if |peaks| > 0 then column[peaks[0]] else 0.0,
                0.0, 0.0, 0.0, 0.0, 0.0)
  }

  /** `stats` holds one record per channel of `peaks`, in order, each built
      from that channel's column, its peaks, the time vector and the rate. */
  ghost predicate DescribesPeaks(stats: seq<PeakStats>, data: Matrix<real>, peaks: seq<seq<int>>, time: seq<real>, samplingRate: real)
  {
    |stats| == |peaks| && |peaks| <= |data.channels| && |time| > 0 && samplingRate != 0.0 &&
    forall c :: 0 <= c < |peaks| ==>
      AllIn(peaks[c], 0, |data.channels[c]|) &&
      stats[c] == PeakRecord(data.channels[c], peaks[c], c, time, samplingRate)
  }

  /** `compute_peak_statistics`, with the sampling rate passed explicitly:
      one record per channel of `peaks`, appended in order. */
  method ComputePeakStatistics(data: Matrix<real>, peaks: seq<seq<int>>, time: seq<real>, samplingRate: real)
    returns (stats: seq<PeakStats>)
    requires data.WellFormed() && |peaks| <= |data.channels|
    requires forall c :: 0 <= c < |peaks| ==> AllIn(peaks[c], 0, data.samples)
    requires |time| > 0 && samplingRate != 0.0
    ensures |stats| == |peaks|
    ensures forall c :: 0 <= c < |peaks| ==> stats[c].channel == c && stats[c].numPeaks == |peaks[c]|
    ensures DescribesPeaks(stats, data, peaks, time, samplingRate)
  {
    stats := [];
    var channel := 0;
    while channel < |peaks|
      invariant 0 <= channel <= |peaks|
      invariant |stats| == channel
      invariant forall c :: 0 <= c < channel ==> stats[c] == PeakRecord(data.channels[c], peaks[c], c, time, samplingRate)
    {
      stats := stats + [PeakRecord(data.channels[channel], peaks[channel], channel, time, samplingRate)];
      channel := channel + 1;
    }
  }

  /** The inter-peak distances add up to the span from the first to the last peak. */
  lemma {:induction false} DiffsTelescope(peaks: seq<int>)
    requires |peaks| > 0
    ensures Sum(AsReals(Diffs(peaks))) == (peaks[|peaks| - 1] - peaks[0]) as real
  {
    if |peaks| > 1 {
      var tail := peaks[1..];
      DiffsTelescope(tail);
      assert AsReals(Diffs(peaks))[1..] == AsReals(Diffs(tail));
    } else {
      assert AsReals(Diffs(peaks)) == [];
    }
  }

  /** With more than one peak there are `numPeaks - 1` inter-peak distances,
      all positive when the peaks ascend, and their mean is the span from the
      first to the last peak divided by `numPeaks - 1`. */
  lemma MeanInterPeakDistance(column: seq<real>, peaks: seq<int>, c: nat, time: seq<real>, samplingRate: real)
    requires AllIn(peaks, 0, |column|) && |time| > 0 && samplingRate != 0.0
    requires |peaks| > 1
    ensures |Diffs(peaks)| == |peaks| - 1
    ensures StrictlyIncreasing(peaks) ==> forall i :: 0 <= i < |Diffs(peaks)| ==> Diffs(peaks)[i] > 0
    ensures PeakRecord(column, peaks, c, time, samplingRate).meanInterPeakDistance
         == (peaks[|peaks| - 1] - peaks[0]) as real / (|peaks| - 1) as real
  {
    DiffsTelescope(peaks);
  }

  /** The inter-peak times are the distances divided by the sampling rate, so
      their mean is the mean distance divided by the sampling rate. */
  lemma MeanInterPeakTime(column: seq<real>, peaks: seq<int>, c: nat, time: seq<real>, samplingRate: real)
    requires AllIn(peaks, 0, |column|) && |time| > 0 && samplingRate != 0.0
    ensures PeakRecord(column, peaks, c, time, samplingRate).meanInterPeakTime
         == PeakRecord(column, peaks, c, time, samplingRate).meanInterPeakDistance / samplingRate
  {
    if |peaks| > 1 {
      MeanDividedBy(AsReals(Diffs(peaks)), samplingRate);
    }
  }

  /** With zero or one peak, the amplitude is the single peak's sample (or 0)
      and every spread and inter-peak statistic is 0, never nan. */
  lemma FewPeaksDefaults(column: seq<real>, peaks: seq<int>, c: nat, time: seq<real>, samplingRate: real)
    requires AllIn(peaks, 0, |column|) && |time| > 0 && samplingRate != 0.0
    requires |peaks| <= 1
    ensures var r := PeakRecord(column, peaks, c, time, samplingRate);
      r.avgAmplitude == (if |peaks| == 1 then column[peaks[0]] else 0.0) &&
      r.varianceAmplitude == 0.0 &&
      r.meanInterPeakDistance == 0.0 && r.varianceInterPeakDistance == 0.0 &&
      r.meanInterPeakTime == 0.0 && r.varianceInterPeakTime == 0.0
  {
  }

  /** With more than one peak, the average amplitude is the mean of the
      channel's samples at its peaks, so it lies between the smallest and the
      largest of them. */
  lemma ManyPeaksAmplitude(column: seq<real>, peaks: seq<int>, c: nat, time: seq<real>, samplingRate: real, lo: real, hi: real)
    requires AllIn(peaks, 0, |column|) && |time| > 0 && samplingRate != 0.0
    requires |peaks| > 1
    requires forall i :: 0 <= i < |peaks| ==> lo <= column[peaks[i]] <= hi
    ensures lo <= PeakRecord(column, peaks, c, time, samplingRate).avgAmplitude <= hi
  {
    MeanBounds(Amplitudes(column, peaks), lo, hi);
  }
}
