/** `DataManager` (src/gui/data_manager.py): the session object that owns the
    recording and every structure derived from it, and keeps them
    synchronised through load, trim and channel deletion.

    The file dialog, the Tk message boxes, the Excel export and the
    `update_callback` are left out; the loaded file is passed in as a value
    (`None` when the dialog is cancelled). `update_peak_statistics` uses the
    stored sampling rate, which the source forgets to pass. */
module DataManagement {
  import opened Basics
  import opened Numeric
  import opened ArtifactDetection
  import opened SignalProcessing
  import opened PeakStatistics
  import opened ChannelBookkeeping
  import opened TrimBookkeeping
  import opened SessionState

  class DataManager {
    var data: Option<Matrix<real>>
    var time: Option<seq<real>>
    var samplingRate: Option<real>
    var artifacts: Option<Matrix<bool>>
    var peaks: Option<seq<seq<int>>>
    var peakWindows: Option<seq<seq<seq<real>>>>
    var avgPeakWindows: Option<seq<Option<seq<real>>>>
    var channelMapping: seq<int>
    var channelStatistics: Option<seq<ChannelStats>>
    var peakStatistics: Option<seq<PeakStats>>
    var selectedChannels: seq<int>

    /** `get_data`. */
    function GetData(): Snapshot
      reads this
    {
      Snapshot(data, time, artifacts, peaks, peakWindows, avgPeakWindows, channelMapping, selectedChannels)
    }

    /** The state is synchronised, loaded data comes with a positive rate, and
        peaks only exist on a recording with at least one row (the time span
        that the peak statistics read needs a first and a last time point). */
    predicate Valid()
      reads this
    {
      Synced(GetData()) &&
      (data.Some? ==> samplingRate.Some? && samplingRate.value > 0.0) &&
      (peaks.Some? ==> data.Some? && data.value.samples > 0)
    }

    /** `__init__`: nothing loaded, no derived state. */
    constructor ()
      ensures Valid()
      ensures GetData() == Empty
      ensures samplingRate.None? && channelStatistics.None? && peakStatistics.None?
    {
      data := None;
      time := None;
      samplingRate := None;
      artifacts := None;
      peaks := None;
      peakWindows := None;
      avgPeakWindows := None;
      channelMapping := [];
      channelStatistics := None;
      peakStatistics := None;
      selectedChannels := [];
    }

    /** `update_channel_statistics`: one record per column, or `None` without
        data. */
    method UpdateChannelStatistics()
      modifies this
      ensures data.Some? ==> channelStatistics.Some? && DescribesChannels(channelStatistics.value, data.value)
      ensures data.None? ==> channelStatistics.None?
      ensures GetData() == old(GetData())
      ensures samplingRate == old(samplingRate) && peakStatistics == old(peakStatistics)
    {
      if data.Some? {
        var stats := ComputeChannelStatistics(data.value);
        channelStatistics := Some(stats);
      } else {
        channelStatistics := None;
      }
    }

    /** `update_peak_statistics`: recomputed when peaks exist, otherwise the
        previous value is kept. The time vector must not be empty, since the
        frequency reads its first and last entries. */
    method UpdatePeakStatistics()
      requires Valid()
      modifies this
      ensures Valid()
      ensures peaks.Some? ==> (peakStatistics.Some? &&
        DescribesPeaks(peakStatistics.value, data.value, peaks.value, time.value, samplingRate.value))
      ensures peaks.None? ==> peakStatistics == old(peakStatistics)
      ensures GetData() == old(GetData())
      ensures samplingRate == old(samplingRate) && channelStatistics == old(channelStatistics)
    {
      if peaks.Some? {
        var stats := ComputePeakStatistics(data.value, peaks.value, time.value, samplingRate.value);
        peakStatistics := Some(stats);
      }
    }

    /** `load_data` (lines 24-31) with the chosen file's matrix, or `None` for
        a cancelled dialog. The new state is `Loaded`: identity mapping, all
        channels selected, time in seconds, no derived state. */
    method LoadData(file: Option<Matrix<real>>, rate: real)
      requires Valid()
      requires file.Some? ==> file.value.WellFormed() && rate > 0.0
      modifies this
      ensures Valid()
      ensures file.None? ==> (GetData() == old(GetData()) && samplingRate == old(samplingRate) &&
        channelStatistics == old(channelStatistics) && peakStatistics == old(peakStatistics))
      ensures file.Some? ==> (GetData() == Loaded(file.value, rate) && samplingRate == Some(rate) &&
        channelStatistics == Some(ChannelStatisticsOf(file.value)) && peakStatistics.None?)
    {
      if file.Some? {
        Install(file.value, rate);
        UpdateChannelStatistics();
        ChannelStatisticsUnique(channelStatistics.value, file.value);
      }
    }

    /** The assignments of `load_data` (lines 25-30): the matrix, its rate,
        the time axis, the identity mapping, every channel selected, and no
        derived state. */
    method Install(m: Matrix<real>, rate: real)
      requires m.WellFormed() && rate > 0.0
      modifies this
      ensures Valid()
      ensures GetData() == Loaded(m, rate) && samplingRate == Some(rate) && peakStatistics.None?
    {
      data := Some(m);
      samplingRate := Some(rate);
      time := Some(LoadTime(m.samples, rate));
      channelMapping := Range(|m.channels|);
      selectedChannels := channelMapping;
      artifacts := None;
      peaks := None;
      peakWindows := None;
      avgPeakWindows := None;
      peakStatistics := None;
      LoadedState(m, rate);
    }

    /** `trim_data(s, e)`: every structure restricted to rows `[s, e)`, then
        both statistics recomputed. Peak statistics need a non-empty range. */
    method TrimData(s: nat, e: nat)
      requires Valid() && data.Some? && s <= e <= data.value.samples
      requires peaks.Some? ==> s < e
      modifies this
      ensures Valid()
      ensures GetData() == Trimmed(old(GetData()), s, e)
      ensures samplingRate == old(samplingRate)
      ensures channelStatistics == Some(ChannelStatisticsOf(data.value))
      ensures peaks.Some? ==> (peakStatistics.Some? &&
        DescribesPeaks(peakStatistics.value, data.value, peaks.value, time.value, samplingRate.value))
      ensures peaks.None? ==> peakStatistics == old(peakStatistics)
    {
      TrimmedSynced(GetData(), s, e);
      TrimRows(s, e);
      UpdateChannelStatistics();
      ChannelStatisticsUnique(channelStatistics.value, data.value);
      UpdatePeakStatistics();
    }

    /** The row restriction of `trim_data` (lines 85-100): data, time and
        artifacts sliced, peaks re-based, windows kept in lock-step with the
        peaks, average windows recomputed. */
    method TrimRows(s: nat, e: nat)
      requires ShapesSynced(GetData()) && data.Some? && s <= e <= data.value.samples
      modifies this
      ensures GetData() == Trimmed(old(GetData()), s, e)
      ensures samplingRate == old(samplingRate)
      ensures channelStatistics == old(channelStatistics) && peakStatistics == old(peakStatistics)
    {
      ghost var before := GetData();
      var oldPeaks := peaks;
      data := Some(Rows(data.value, s, e));
      time := Some(time.value[s..e]);
      if artifacts.Some? {
        artifacts := Some(Rows(artifacts.value, s, e));
      }
      if peaks.Some? {
        peaks := Some(RebaseAll(peaks.value, s, e));
      }
      if peakWindows.Some? {
        peakWindows := Some(KeepWindowsAll(peakWindows.value, oldPeaks.value, s, e));
      }
      if avgPeakWindows.Some? {
        avgPeakWindows := Some(AverageWindows(peakWindows.value));
      }
      assert GetData() == Trimmed(before, s, e);
    }

    /** `delete_channels(ids)`: the ids are original channel ids; each is
        looked up afresh in the current mapping, so the order in which they
        are processed does not matter. Afterwards the mapping and the
        selection are the old ones without `ids`, every structure holds, for
        each remaining id, what it held for that id before, and the
        statistics are recomputed. An id that is missing or repeated makes
        `list.index` raise, hence the precondition. */
    method DeleteChannels(ids: seq<int>)
      requires Valid()
      requires Distinct(ids) && forall x :: x in ids ==> x in channelMapping
      modifies this
      ensures Valid()
      ensures channelMapping == FilterOut(old(channelMapping), ids)
      ensures selectedChannels == FilterOut(old(selectedChannels), ids)
      ensures DerivedFollow(GetData(), old(GetData()))
      ensures ids == [] ==> GetData() == old(GetData())
      ensures samplingRate == old(samplingRate)
      ensures data.Some? ==> channelStatistics == Some(ChannelStatisticsOf(data.value))
      ensures data.None? ==> channelStatistics.None?
      ensures peaks.Some? ==> (peakStatistics.Some? &&
        DescribesPeaks(peakStatistics.value, data.value, peaks.value, time.value, samplingRate.value))
      ensures peaks.None? ==> peakStatistics == old(peakStatistics)
    {
      ghost var s0 := GetData();
      DeleteEach(ids);
      selectedChannels := FilterOut(selectedChannels, ids);
      forall ch | ch in selectedChannels
        ensures ch in channelMapping
      {
        FilterOutMember(s0.selectedChannels, ids, ch);
        FilterOutMember(s0.channelMapping, ids, ch);
      }
      if ids == [] {
        FilterOutNothing(s0.selectedChannels);
      }
      UpdateChannelStatistics();
      if data.Some? {
        ChannelStatisticsUnique(channelStatistics.value, data.value);
      }
      UpdatePeakStatistics();
    }

    /** The loop of `delete_channels` (lines 111-123): every id in turn is
        looked up in the current mapping and its column and entries are
        dropped. The order of the ids does not change the outcome (the source
        sorts them first). */
    method DeleteEach(ids: seq<int>)
      requires ShapesSynced(GetData())
      requires Distinct(ids) && forall x :: x in ids ==> x in channelMapping
      modifies this
      ensures ShapesSynced(GetData())
      ensures channelMapping == FilterOut(old(channelMapping), ids)
      ensures DerivedFollow(GetData(), old(GetData()))
      ensures ids == [] ==> GetData() == old(GetData())
      ensures selectedChannels == old(selectedChannels) && samplingRate == old(samplingRate)
      ensures channelStatistics == old(channelStatistics) && peakStatistics == old(peakStatistics)
    {
      ghost var s0 := GetData();
      DerivedFollowItself(s0);
      FilterOutNothing(s0.channelMapping);
      assert ids[..0] == [];
      var i := 0;
      while i < |ids|
        invariant 0 <= i <= |ids|
        invariant ShapesSynced(GetData())
        invariant channelMapping == FilterOut(s0.channelMapping, ids[..i])
        invariant DerivedFollow(GetData(), s0)
        invariant selectedChannels == s0.selectedChannels && samplingRate == old(samplingRate)
        invariant channelStatistics == old(channelStatistics) && peakStatistics == old(peakStatistics)
      {
        DeleteOne(ids[i], s0, ids, i);
        i := i + 1;
      }
      assert ids[..i] == ids;
      if ids == [] {
        FollowUnderSameMapping(GetData(), s0);
      }
    }

    /** One pass of the loop of `delete_channels` (lines 112-123) for the id
        `ids[i]`: its index in the current mapping, then the column and entries
        at that index dropped. */
    method DeleteOne(channel: int, ghost s0: Snapshot, ghost ids: seq<int>, ghost i: nat)
      requires i < |ids| && channel == ids[i]
      requires Distinct(ids) && forall x :: x in ids ==> x in s0.channelMapping
      requires Distinct(s0.channelMapping)
      requires ShapesSynced(GetData()) && DerivedFollow(GetData(), s0)
      requires channelMapping == FilterOut(s0.channelMapping, ids[..i])
      modifies this
      ensures ShapesSynced(GetData()) && DerivedFollow(GetData(), s0)
      ensures channelMapping == FilterOut(s0.channelMapping, ids[..i + 1])
      ensures selectedChannels == old(selectedChannels) && samplingRate == old(samplingRate)
      ensures channelStatistics == old(channelStatistics) && peakStatistics == old(peakStatistics)
    {
      ghost var current := GetData();
      DeleteStep(s0.channelMapping, channelMapping, ids, i);
      var index := IndexOf(channelMapping, channel);
      DropChannelKeepsShapes(current, index);
      DropChannelKeepsFollow(current, s0, index);
      DropChannelAt(index);
    }

    /** The body of the loop of `delete_channels` (lines 114-123): column
        `index` leaves the data and the artifacts, entry `index` leaves the
        peaks, windows, average windows and the mapping. */
    method DropChannelAt(index: nat)
      requires ShapesSynced(GetData()) && data.Some? && index < |channelMapping|
      modifies this
      ensures GetData() == DropChannel(old(GetData()), index)
      ensures samplingRate == old(samplingRate) && peakStatistics == old(peakStatistics)
      ensures channelStatistics == old(channelStatistics)
    {
      data := Some(DropColumn(data.value, index));
      if artifacts.Some? {
        artifacts := Some(DropColumn(artifacts.value, index));
      }
      if peaks.Some? {
        peaks := Some(Without(peaks.value, index));
      }
      if peakWindows.Some? {
        peakWindows := Some(Without(peakWindows.value, index));
      }
      if avgPeakWindows.Some? {
        avgPeakWindows := Some(Without(avgPeakWindows.value, index));
      }
      channelMapping := Without(channelMapping, index);
      assert GetData() == DropChannel(old(GetData()), index);
    }

    /** `keep_channels(keep)`: deletes the current ids outside `keep`, so the
        mapping left is the old one restricted to `keep`, in order. */
    method KeepChannels(keep: seq<int>)
      requires Valid()
      modifies this
      ensures Valid()
      ensures channelMapping == KeepOnly(old(channelMapping), keep)
      ensures selectedChannels == FilterOut(old(selectedChannels), FilterOut(old(channelMapping), keep))
      ensures DerivedFollow(GetData(), old(GetData()))
      ensures samplingRate == old(samplingRate)
      ensures data.Some? ==> channelStatistics == Some(ChannelStatisticsOf(data.value))
      ensures data.None? ==> channelStatistics.None?
      ensures peaks.Some? ==> (peakStatistics.Some? &&
        DescribesPeaks(peakStatistics.value, data.value, peaks.value, time.value, samplingRate.value))
      ensures peaks.None? ==> peakStatistics == old(peakStatistics)
    {
      var channelsToDelete := FilterOut(channelMapping, keep);
      KeepIsDeleteComplement(channelMapping, keep);
      forall x | x in channelsToDelete
        ensures x in channelMapping
      {
        FilterOutMember(channelMapping, keep, x);
      }
      FilterOutDistinct(channelMapping, keep);
      DeleteChannels(channelsToDelete);
    }

    /** The artifact detection the filter panel runs (filter_panel.py:108-117):
        the flags of every column, with the default segment size and penalty.
        Without data, or on a recording without columns (where the detector
        raises and the panel catches the error), the flags stay as they were. */
    method DetectArtifacts(threshold: real)
      requires Valid()
      modifies this
      ensures Valid()
      ensures data == old(data) && time == old(time) && peaks == old(peaks) && peakWindows == old(peakWindows)
      ensures data.Some? && |data.value.channels| > 0 ==>
        artifacts == Some(DetectArtifactsAllChannels(data.value, threshold, DefaultSegmentSize, DefaultPositivePenalty))
      ensures data.None? || |data.value.channels| == 0 ==> artifacts == old(artifacts)
      ensures avgPeakWindows == old(avgPeakWindows)
      ensures channelMapping == old(channelMapping) && selectedChannels == old(selectedChannels)
      ensures samplingRate == old(samplingRate) && channelStatistics == old(channelStatistics)
      ensures peakStatistics == old(peakStatistics)
    {
      if data.Some? && |data.value.channels| > 0 {
        artifacts := Some(DetectArtifactsAllChannels(data.value, threshold, DefaultSegmentSize, DefaultPositivePenalty));
      }
    }

    /** Peak detection as the filter panel sequences it (filter_panel.py:128-152):
        the peaks of every column, one window per peak, the average window of
        every channel, then the peak statistics. `findPeaks` returns ascending
        candidates, as `scipy.signal.find_peaks` does. */
    method DetectPeaks(findPeaks: PeakFinder, distance: int, prominence: real, threshold: Option<real>, windowSize: nat)
      requires Valid() && data.Some? && data.value.samples > 0
      requires forall x, k :: StrictlyIncreasing(findPeaks(x, k))
      modifies this
      ensures Valid()
      ensures data == old(data) && time == old(time) && artifacts == old(artifacts)
      ensures channelMapping == old(channelMapping) && selectedChannels == old(selectedChannels)
      ensures samplingRate == old(samplingRate) && channelStatistics == old(channelStatistics)
      ensures peaks.Some? && |peaks.value| == |data.value.channels|
      ensures forall c :: 0 <= c < |peaks.value| ==>
        peaks.value[c] == EdgeFilter(findPeaks(Negated(data.value.channels[c]), PeakCriteria(distance, prominence, threshold)),
                                     data.value.samples, windowSize)
      ensures peakWindows.Some? && forall c, k :: 0 <= c < |peaks.value| && 0 <= k < |peaks.value[c]| ==>
        k < |peakWindows.value[c]| && peakWindows.value[c][k] == Window(data.value.channels[c], peaks.value[c][k], windowSize)
      ensures avgPeakWindows.Some? && avgPeakWindows.value == AverageWindows(peakWindows.value)
      ensures peakStatistics.Some? &&
        DescribesPeaks(peakStatistics.value, data.value, peaks.value, time.value, samplingRate.value)
    {
      var m := data.value;
      var detected := SignalProcessing.DetectPeaks(m, findPeaks, distance, prominence, threshold, windowSize);
      forall c | 0 <= c < |detected|
        ensures StrictlyIncreasing(detected[c]) && AllIn(detected[c], 0, m.samples)
      {
        EdgeFilterAscending(findPeaks(Negated(m.channels[c]), PeakCriteria(distance, prominence, threshold)), m.samples, windowSize);
      }
      var windows := ExtractPeakWindows(m, detected, windowSize);
      assert forall c :: 0 <= c < |windows| ==> Rectangular(windows[c]);
      peaks := Some(detected);
      peakWindows := Some(windows);
      avgPeakWindows := Some(AverageWindows(windows));
      UpdatePeakStatistics();
    }
  }

  /** One iteration of the deletion loop on the mapping: the next id is still
      in the mapping, and removing it by its index filters one more id out. */
  lemma DeleteStep(m0: seq<int>, m: seq<int>, ids: seq<int>, i: nat)
    requires Distinct(m0) && Distinct(ids) && (forall x :: x in ids ==> x in m0) && i < |ids|
    requires m == FilterOut(m0, ids[..i])
    ensures ids[i] in m
    ensures Without(m, IndexOf(m, ids[i])) == FilterOut(m0, ids[..i + 1])
  {
    var channel := ids[i];
    assert channel !in ids[..i];
    RemoveOne(m0, ids[..i], channel);
    assert ids[..i + 1] == ids[..i] + [channel];
  }

  /** The records `compute_channel_statistics` returns for `m`. */
  function ChannelStatisticsOf(m: Matrix<real>): (r: seq<ChannelStats>)
    ensures DescribesChannels(r, m)
  {
    seq(|m.channels|, c requires 0 <= c < |m.channels| =>
      ChannelStats(c, MeanOrNaN(m.channels[c]), VarianceOrNaN(m.channels[c])))
  }

  /** The channel statistics of a matrix are determined by it. */
  lemma ChannelStatisticsUnique(stats: seq<ChannelStats>, m: Matrix<real>)
    requires DescribesChannels(stats, m)
    ensures stats == ChannelStatisticsOf(m)
  {
  }
}
