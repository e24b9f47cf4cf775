/** The state `DataManager.get_data` exposes (src/gui/data_manager.py:72-82),
    the synchronisation invariant that ties every derived structure to the
    current data matrix, and the state changes of loading, deleting one
    channel and trimming, as functions on that state. */
module SessionState {
  import opened Basics
  import opened Numeric
  import opened SignalProcessing
  import opened ChannelBookkeeping
  import opened TrimBookkeeping

  /** The dictionary returned by `get_data`. `peaks[c]`, `peakWindows[c]` and
      `avgPeakWindows[c]` belong to column `c`; `channelMapping[c]` is the
      original id of column `c`. */
  datatype Snapshot = Snapshot(
    data: Option<Matrix<real>>,
    time: Option<seq<real>>,
    artifacts: Option<Matrix<bool>>,
    peaks: Option<seq<seq<int>>>,
    peakWindows: Option<seq<seq<seq<real>>>>,
    avgPeakWindows: Option<seq<Option<seq<real>>>>,
    channelMapping: seq<int>,
    selectedChannels: seq<int>)

  /** The state before any file is loaded. */
  const Empty: Snapshot := Snapshot(None, None, None, None, None, None, [], [])

  /** One ascending list of in-range peak indices per column. */
  predicate PeaksFit(peaks: seq<seq<int>>, columns: nat, samples: nat)
  {
    |peaks| == columns &&
    forall c :: 0 <= c < |peaks| ==> AllIn(peaks[c], 0, samples) && StrictlyIncreasing(peaks[c])
  }

  /** One window per peak, all windows of a channel of one width. */
  predicate WindowsFit(windows: seq<seq<seq<real>>>, peaks: seq<seq<int>>)
  {
    |windows| == |peaks| &&
    forall c :: 0 <= c < |windows| ==> |windows[c]| == |peaks[c]| && Rectangular(windows[c])
  }

  /** The shape invariant: `columns(data) == len(channel_mapping) ==
      len(peaks) == len(peak_windows) == len(avg_peak_windows)`, the artifact
      mask has the shape of the data, `len(time) == rows(data)`, the mapping
      has no repeated id, windows exist only with peaks and average windows
      only with windows (and are their means). Without data there is no
      derived state. */
  predicate ShapesSynced(s: Snapshot)
  {
    match s.data
    case None =>
      s.time.None? && s.artifacts.None? && s.peaks.None? && s.peakWindows.None? &&
      s.avgPeakWindows.None? && s.channelMapping == []
    case Some(d) =>
      d.WellFormed() &&
      s.time.Some? && |s.time.value| == d.samples &&
      |s.channelMapping| == |d.channels| && Distinct(s.channelMapping) &&
      (s.artifacts.Some? ==>
        s.artifacts.value.WellFormed() && s.artifacts.value.samples == d.samples &&
        |s.artifacts.value.channels| == |d.channels|) &&
      (s.peaks.Some? ==> PeaksFit(s.peaks.value, |d.channels|, d.samples)) &&
      (s.peakWindows.Some? ==> s.peaks.Some? && WindowsFit(s.peakWindows.value, s.peaks.value)) &&
      (s.avgPeakWindows.Some? ==>
        s.peakWindows.Some? && s.avgPeakWindows.value == AverageWindows(s.peakWindows.value))
  }

  /** The shape invariant, and every selected channel is a current channel. */
  predicate Synced(s: Snapshot)
  {
    ShapesSynced(s) && forall ch :: ch in s.selectedChannels ==> ch in s.channelMapping
  }

  lemma EmptySynced()
    ensures Synced(Empty)
  {
  }

  // ---------------------------------------------------------------- load

  /** `np.arange(rows) / sampling_rate` (data_loader.py and line 27). */
  function LoadTime(rows: nat, samplingRate: real): (r: seq<real>)
    requires samplingRate != 0.0
    ensures |r| == rows
    ensures forall i :: 0 <= i < rows ==> r[i] == i as real / samplingRate
  {
    DividedBy(AsReals(Range(rows)), samplingRate)
  }

  /** The state after loading matrix `m`: the new data and time vector, the
      identity channel mapping, every channel selected, no derived state. */
  function Loaded(m: Matrix<real>, samplingRate: real): Snapshot
    requires samplingRate != 0.0
  {
    var mapping := Range(|m.channels|);
    Snapshot(Some(m), Some(LoadTime(m.samples, samplingRate)), None, None, None, None, mapping, mapping)
  }

  /** A load leaves a synchronised state whatever came before: the mapping is
      `[0, columns)`, the selection a copy of it, the time vector the row
      numbers divided by the rate, and there is no derived state. */
  lemma LoadedState(m: Matrix<real>, samplingRate: real)
    requires m.WellFormed() && samplingRate != 0.0
    ensures Synced(Loaded(m, samplingRate))
    ensures Loaded(m, samplingRate).channelMapping == Range(|m.channels|)
    ensures Loaded(m, samplingRate).selectedChannels == Loaded(m, samplingRate).channelMapping
    ensures forall i :: 0 <= i < m.samples ==> Loaded(m, samplingRate).time.value[i] == i as real / samplingRate
    ensures Loaded(m, samplingRate).peaks.None? && Loaded(m, samplingRate).artifacts.None?
  {
    RangeDistinct(|m.channels|);
  }

  /** `load_data` as written (lines 25-29): data, time, mapping and selection
      are replaced, but artifacts, peaks and windows are kept. */
  function LoadedAsWritten(s: Snapshot, m: Matrix<real>, samplingRate: real): (r: Snapshot)
    requires samplingRate != 0.0
    ensures r.peaks == s.peaks && r.artifacts == s.artifacts
  {
    var mapping := Range(|m.channels|);
    s.(data := Some(m), time := Some(LoadTime(m.samples, samplingRate)),
       channelMapping := mapping, selectedChannels := mapping)
  }

  /** Loading a one-channel file after peaks were detected on two channels
      leaves two peak lists for one column when derived state is kept. */
  lemma LoadedAsWrittenKeepsStalePeaks()
    ensures Synced(Snapshot(Some(Matrix(1, [[0.0], [0.0]])), Some([0.0]), None, Some([[], []]), None, None, [0, 1], [0, 1]))
    ensures !ShapesSynced(LoadedAsWritten(
              Snapshot(Some(Matrix(1, [[0.0], [0.0]])), Some([0.0]), None, Some([[], []]), None, None, [0, 1], [0, 1]),
              Matrix(1, [[0.0]]), 1.0))
  {
    var r := LoadedAsWritten(
              Snapshot(Some(Matrix(1, [[0.0], [0.0]])), Some([0.0]), None, Some([[], []]), None, None, [0, 1], [0, 1]),
              Matrix(1, [[0.0]]), 1.0);
    assert |r.peaks.value| == 2 && |r.data.value.channels| == 1;
  }

  // ------------------------------------------------------ channel delete

  /** `np.delete(m, i, axis=1)`. */
  function DropColumn<T>(m: Matrix<T>, i: nat): (r: Matrix<T>)
    requires i < |m.channels|
    ensures r.samples == m.samples && |r.channels| == |m.channels| - 1
    ensures m.WellFormed() ==> r.WellFormed()
  {
    Matrix(m.samples, Without(m.channels, i))
  }

  /** One iteration of the loop of `delete_channels` (lines 114-123): column
      `i` leaves the data and the artifact mask, entry `i` leaves peaks,
      windows, average windows and the mapping. The selection is untouched. */
  function DropChannel(s: Snapshot, i: nat): (r: Snapshot)
    requires ShapesSynced(s) && s.data.Some? && i < |s.channelMapping|
  {
    s.(data := Some(DropColumn(s.data.value, i)),
       artifacts := if s.artifacts.Some? then Some(DropColumn(s.artifacts.value, i)) else None,
       peaks := if s.peaks.Some? then Some(Without(s.peaks.value, i)) else None,
       peakWindows := if s.peakWindows.Some? then Some(Without(s.peakWindows.value, i)) else None,
       avgPeakWindows := if s.avgPeakWindows.Some? then Some(Without(s.avgPeakWindows.value, i)) else None,
       channelMapping := Without(s.channelMapping, i))
  }

  /** Removing one index from every structure at once keeps them synchronised. */
  lemma DropChannelKeepsShapes(s: Snapshot, i: nat)
    requires ShapesSynced(s) && s.data.Some? && i < |s.channelMapping|
    ensures ShapesSynced(DropChannel(s, i))
  {
    var r := DropChannel(s, i);
    assert Distinct(r.channelMapping);
    if s.peakWindows.Some? {
      assert WindowsFit(r.peakWindows.value, r.peaks.value);
    }
    if s.avgPeakWindows.Some? {
      assert r.avgPeakWindows.value == AverageWindows(r.peakWindows.value);
    }
  }

  /** Every derived structure `s` holds is index-aligned with its mapping and
      holds, for each remaining id, what `s0` held for that id; the time
      vector and the row count are those of `s0`. */
  ghost predicate DerivedFollow(s: Snapshot, s0: Snapshot)
  {
    s.time == s0.time &&
    s.data.Some? == s0.data.Some? &&
    (s.data.Some? ==>
      s.data.value.samples == s0.data.value.samples &&
      Follows(s.data.value.channels, s0.data.value.channels, s.channelMapping, s0.channelMapping)) &&
    s.artifacts.Some? == s0.artifacts.Some? &&
    (s.artifacts.Some? ==>
      s.artifacts.value.samples == s0.artifacts.value.samples &&
      Follows(s.artifacts.value.channels, s0.artifacts.value.channels, s.channelMapping, s0.channelMapping)) &&
    s.peaks.Some? == s0.peaks.Some? &&
    (s.peaks.Some? ==> Follows(s.peaks.value, s0.peaks.value, s.channelMapping, s0.channelMapping)) &&
    s.peakWindows.Some? == s0.peakWindows.Some? &&
    (s.peakWindows.Some? ==> Follows(s.peakWindows.value, s0.peakWindows.value, s.channelMapping, s0.channelMapping)) &&
    s.avgPeakWindows.Some? == s0.avgPeakWindows.Some? &&
    (s.avgPeakWindows.Some? ==> Follows(s.avgPeakWindows.value, s0.avgPeakWindows.value, s.channelMapping, s0.channelMapping))
  }

  /** A synchronised state follows itself. */
  lemma DerivedFollowItself(s: Snapshot)
    requires ShapesSynced(s)
    ensures DerivedFollow(s, s)
  {
    if s.data.Some? {
      var m := s.channelMapping;
      FollowsItself(s.data.value.channels, m);
      if s.artifacts.Some? { FollowsItself(s.artifacts.value.channels, m); }
      if s.peaks.Some? { FollowsItself(s.peaks.value, m); }
      if s.peakWindows.Some? { FollowsItself(s.peakWindows.value, m); }
      if s.avgPeakWindows.Some? { FollowsItself(s.avgPeakWindows.value, m); }
    }
  }

  /** Dropping one channel keeps every structure aligned with the mapping. */
  lemma DropChannelKeepsFollow(s: Snapshot, s0: Snapshot, i: nat)
    requires ShapesSynced(s) && s.data.Some? && i < |s.channelMapping|
    requires DerivedFollow(s, s0)
    ensures DerivedFollow(DropChannel(s, i), s0)
  {
    var m := s.channelMapping;
    var m0 := s0.channelMapping;
    FollowsWithout(s.data.value.channels, s0.data.value.channels, m, m0, i);
    if s.artifacts.Some? { FollowsWithout(s.artifacts.value.channels, s0.artifacts.value.channels, m, m0, i); }
    if s.peaks.Some? { FollowsWithout(s.peaks.value, s0.peaks.value, m, m0, i); }
    if s.peakWindows.Some? { FollowsWithout(s.peakWindows.value, s0.peakWindows.value, m, m0, i); }
    if s.avgPeakWindows.Some? { FollowsWithout(s.avgPeakWindows.value, s0.avgPeakWindows.value, m, m0, i); }
  }

  /** A state that follows `s0` under the same mapping and selection is `s0`. */
  lemma FollowUnderSameMapping(s: Snapshot, s0: Snapshot)
    requires ShapesSynced(s0) && DerivedFollow(s, s0)
    requires s.channelMapping == s0.channelMapping && s.selectedChannels == s0.selectedChannels
    ensures s == s0
  {
    var m := s0.channelMapping;
    if s.data.Some? {
      FollowsUnchanged(s.data.value.channels, s0.data.value.channels, m);
      if s.artifacts.Some? { FollowsUnchanged(s.artifacts.value.channels, s0.artifacts.value.channels, m); }
      if s.peaks.Some? { FollowsUnchanged(s.peaks.value, s0.peaks.value, m); }
      if s.peakWindows.Some? { FollowsUnchanged(s.peakWindows.value, s0.peakWindows.value, m); }
      if s.avgPeakWindows.Some? { FollowsUnchanged(s.avgPeakWindows.value, s0.avgPeakWindows.value, m); }
    }
  }

  // ---------------------------------------------------------------- trim

  /** `m[s:e]` along the rows. */
  function Rows<T>(m: Matrix<T>, s: nat, e: nat): (r: Matrix<T>)
    requires m.WellFormed() && s <= e <= m.samples
    ensures r.WellFormed() && r.samples == e - s && |r.channels| == |m.channels|
  {
    Matrix(e - s, seq(|m.channels|, c requires 0 <= c < |m.channels| => m.channels[c][s..e]))
  }

  /** Line 92 for every channel. */
  function RebaseAll(peaks: seq<seq<int>>, s: nat, e: nat): (r: seq<seq<int>>)
    ensures |r| == |peaks|
    ensures forall c :: 0 <= c < |peaks| ==> r[c] == Rebase(peaks[c], s, e)
  {
    seq(|peaks|, c requires 0 <= c < |peaks| => Rebase(peaks[c], s, e))
  }

  /** The lock-step window filter for every channel, masked by the peaks
      before re-basing; the windows kept for a channel are as many as its
      re-based peaks, and still of one width. */
  function KeepWindowsAll(windows: seq<seq<seq<real>>>, peaks: seq<seq<int>>, s: nat, e: nat): (r: seq<seq<seq<real>>>)
    requires WindowsFit(windows, peaks)
    ensures |r| == |windows|
    ensures forall c :: 0 <= c < |r| ==> r[c] == KeepWhere(windows[c], peaks[c], s, e)
    ensures WindowsFit(r, RebaseAll(peaks, s, e))
  {
    KeepWindowsFit(windows, peaks, s, e);
    seq(|windows|, c requires 0 <= c < |windows| => KeepWhere(windows[c], peaks[c], s, e))
  }

  lemma KeepWindowsFit(windows: seq<seq<seq<real>>>, peaks: seq<seq<int>>, s: nat, e: nat)
    requires WindowsFit(windows, peaks)
    ensures WindowsFit(seq(|windows|, c requires 0 <= c < |windows| => KeepWhere(windows[c], peaks[c], s, e)),
                       RebaseAll(peaks, s, e))
  {
    forall c | 0 <= c < |windows|
      ensures |KeepWhere(windows[c], peaks[c], s, e)| == |Rebase(peaks[c], s, e)|
      ensures Rectangular(KeepWhere(windows[c], peaks[c], s, e))
    {
      TrimLockStep(windows[c], peaks[c], s, e);
      KeepWhereRectangular(windows[c], peaks[c], s, e);
    }
  }

  /** Keeping some windows of one width leaves windows of that width. */
  lemma KeepWhereRectangular(ws: seq<seq<real>>, ps: seq<int>, s: int, e: int)
    requires |ws| == |ps| && Rectangular(ws)
    ensures Rectangular(KeepWhere(ws, ps, s, e))
  {
    KeepWhereAtKeptPositions(ws, ps, s, e);
  }

  /** The state after `trim_data(s, e)` (lines 85-104), with the window mask
      taken from the peaks before re-basing. */
  function Trimmed(st: Snapshot, s: nat, e: nat): (r: Snapshot)
    requires ShapesSynced(st) && st.data.Some? && s <= e <= st.data.value.samples
  {
    var windows := if st.peakWindows.Some? then Some(KeepWindowsAll(st.peakWindows.value, st.peaks.value, s, e)) else None;
    st.(data := Some(Rows(st.data.value, s, e)),
        time := Some(st.time.value[s..e]),
        artifacts := if st.artifacts.Some? then Some(Rows(st.artifacts.value, s, e)) else None,
        peaks := if st.peaks.Some? then Some(RebaseAll(st.peaks.value, s, e)) else None,
        peakWindows := windows,
        avgPeakWindows := if st.avgPeakWindows.Some? then Some(AverageWindows(windows.value)) else None)
  }

  /** Trimming keeps the state synchronised: data, time and artifacts hold
      rows `[s, e)`, the re-based peaks are ascending and in `[0, e - s)`,
      and the mapping and selection are untouched. */
  lemma TrimmedSynced(st: Snapshot, s: nat, e: nat)
    requires Synced(st) && st.data.Some? && s <= e <= st.data.value.samples
    ensures Synced(Trimmed(st, s, e))
    ensures Trimmed(st, s, e).channelMapping == st.channelMapping
    ensures Trimmed(st, s, e).selectedChannels == st.selectedChannels
  {
    var r := Trimmed(st, s, e);
    if st.peaks.Some? {
      var p := st.peaks.value;
      forall c | 0 <= c < |p|
        ensures AllIn(Rebase(p[c], s, e), 0, e - s) && StrictlyIncreasing(Rebase(p[c], s, e))
      {
        RebaseInRange(p[c], s, e);
        RebaseAscending(p[c], s, e);
      }
      assert PeaksFit(r.peaks.value, |r.data.value.channels|, r.data.value.samples);
    }
  }

  /** After a trim, a channel's peaks and windows still correspond one to one:
      entry `j` of both comes from the same original peak, and a channel's
      average window is `None` exactly when it has no window left. */
  lemma TrimmedLockStep(st: Snapshot, s: nat, e: nat, c: nat)
    requires ShapesSynced(st) && st.data.Some? && s <= e <= st.data.value.samples
    requires st.peakWindows.Some? && c < |st.peakWindows.value|
    ensures var r := Trimmed(st, s, e);
      c < |r.peaks.value| && c < |r.peakWindows.value| &&
      |r.peakWindows.value[c]| == |r.peaks.value[c]| &&
      (forall j :: 0 <= j < |r.peaks.value[c]| ==>
        exists k :: 0 <= k < |st.peaks.value[c]| &&
          r.peaks.value[c][j] == st.peaks.value[c][k] - s &&
          r.peakWindows.value[c][j] == st.peakWindows.value[c][k]) &&
      (r.avgPeakWindows.Some? ==> (r.avgPeakWindows.value[c].None? <==> |r.peakWindows.value[c]| == 0))
  {
    TrimLockStep(st.peakWindows.value[c], st.peaks.value[c], s, e);
  }
}
