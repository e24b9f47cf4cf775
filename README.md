# ephysGUI core in Dafny

A model of the analysis engine and session state behind ephysGUI, a tool for
multi-channel electrophysiology recordings. A recording is a samples-by-channels
matrix with a time vector. The tool flags artifact segments. It detects peaks
(events below the baseline), then extracts a fixed-width waveform window around
each peak and the average window of every channel. It also computes per-channel
and per-peak statistics. The user can delete or keep channels and trim the
recording to a row range. Every derived structure must then stay synchronised
with the data matrix and with the channel mapping, the list of original
hardware ids of the current columns.

The project has one module per concern:

- `Basics` (basics.dfy): `Option`, the matrix type, Python slicing and deletion on sequences, and the subsequence relation.
- `Numeric` (numeric.dfy): `np.sum`, `np.mean` and the population variance over exact reals. nan and inf are represented as `NonFinite`.
- `ArtifactDetection` (artifact_detection.dfy): segment means, the penalised z-score test, and broadcasting each flag over its segment with padding.
- `SignalProcessing` (signal_processing.dfy): `detect_peaks` with its edge filter, `extract_peak_windows`, and the mean window.
- `PeakStatistics` (peak_statistics.dfy): channel and peak statistics records.
- `ChannelBookkeeping` (channel_bookkeeping.dfy): id lookup, filtering ids out, and the alignment of a derived list with the channel mapping while columns are deleted.
- `TrimBookkeeping` (trim_bookkeeping.dfy): re-basing peaks to a row range, and the lock-step window filter.
- `SessionState` (session_state.dfy): the `get_data` snapshot, the synchronisation invariant, and load, channel drop and trim as functions on snapshots.
- `DataManagement` (data_manager.dfy): the `DataManager` class. Its fields are those of the Python class, and its methods update them in place.

The class invariant `Valid()` is `Synced(GetData())` plus a positive sampling rate once data is loaded, and at least one row whenever peaks exist (the peak statistics read the first and last time point). `Synced` states:
- `columns(data) == len(channel_mapping) == len(peaks) == len(peak_windows) == len(avg_peak_windows)`;
- the artifact mask has the shape of the data, and `len(time) == rows(data)`;
- the mapping has no repeated id, and every selected channel is a current channel;
- every channel's peaks are ascending and in range;
- windows exist only with peaks, one per peak, all of one width;
- average windows exist only with windows, and are their means.

Every state-changing method (`LoadData`, `TrimData`, `DeleteChannels`, `KeepChannels`, `DetectArtifacts`, `DetectPeaks`) preserves this invariant.

Where the model departs from the code:
- `update_peak_statistics` (src/gui/data_manager.py:41) calls `compute_peak_statistics` with three arguments. The function takes four, including `sampling_rate` (src/analysis/peak_statistics.py:37). The model passes the stored sampling rate.
- The docstring example of `compute_channel_statistics` gives a std of 2.0. That is the sample standard deviation. The code computes the population one, whose square is 8/3 for that example (`ChannelStatisticsDocExample`).
- `load_data` and `trim_data` behave differently from what the program evidently intends: a load that clears derived state, and a window filter that runs in lock-step with the peaks (see Findings). The model uses the corrected behaviour and keeps the as-written one beside it.

## Model

| member | source | states |
|---|---|---|
| Basics.Slice | src/analysis/signal_processing.py:98-100 | Python's `s[a:b]` for non-negative bounds: the plain slice when the bounds are in range; never longer than `s` |
| Basics.Without | src/gui/data_manager.py:114-123 | `del s[i]` / `np.delete`: one shorter; entries before `i` unchanged, entries after it shifted down by one |
| Basics.Range | src/gui/data_manager.py:28 | `list(range(n))`: length `n`, entry `i` is `i` |
| Numeric.Mean | src/analysis/peak_statistics.py:31 | `np.mean` of a non-empty array: the mean times the length is the sum |
| Numeric.Variance | src/analysis/peak_statistics.py:32 | the square of `np.std` (population variance) is never negative |
| Numeric.SumNonNegative | src/analysis/peak_statistics.py:32 | non-negative entries have a non-negative sum |
| Numeric.MeanOrNaN | src/analysis/peak_statistics.py:31 | `np.mean` is nan exactly for an empty array |
| Numeric.VarianceOrNaN | src/analysis/peak_statistics.py:32 | the square of `np.std` is nan exactly for an empty array |
| Numeric.SumDividedBy | src/analysis/peak_statistics.py:58 | dividing every entry by the rate divides the sum by the rate |
| Numeric.MeanDividedBy | src/analysis/peak_statistics.py:58-67 | the mean of the entries divided by `k` is the mean divided by `k` |
| Numeric.SumBounds | src/analysis/peak_statistics.py:63 | entries within `[lo, hi]` bound the sum by `n * lo` and `n * hi` |
| Numeric.MeanBounds | src/analysis/peak_statistics.py:63 | a mean lies between any lower and upper bound of its entries |
| ArtifactDetection.Segment | src/analysis/artifact_detection.py:19 | row `k` of `reshape(-1, size)`: exactly `size` samples |
| ArtifactDetection.SegmentIsSlice | src/analysis/artifact_detection.py:18-19 | full segment `k` is samples `[k * size, (k + 1) * size)` and fits in the channel |
| ArtifactDetection.SegmentMeans | src/analysis/artifact_detection.py:18-20 | one score per full segment (`n // size` of them), score `k` being the mean of segment `k`; the partial tail is not scored |
| ArtifactDetection.AdjustedZ | src/analysis/artifact_detection.py:26 | definition: a positive z-score times the penalty, any other score as is (properties in `AdjustedZKeepsSign`) |
| ArtifactDetection.AdjustedZKeepsSign | src/analysis/artifact_detection.py:26 | a positive penalty keeps the sign of the score, non-positive scores are untouched, and a penalty of at least one never shrinks the absolute score |
| ArtifactDetection.Flagged | src/analysis/artifact_detection.py:23-29 | definition: the flag test on a deviation and the variance, without a square root (agreement with the source in `FlagIsZScoreTest`) |
| ArtifactDetection.FlaggedNeedsSpread | src/analysis/artifact_detection.py:23-29 | zero variance (the source's 0/0 is nan) flags nothing; a segment at the mean is never flagged under a non-negative threshold |
| ArtifactDetection.FlagIsZScoreTest | src/analysis/artifact_detection.py:23-29 | for a non-zero standard deviation, a segment is flagged iff the absolute z-score, multiplied by the penalty only when positive, is strictly greater than the threshold |
| ArtifactDetection.SegmentFlags | src/analysis/artifact_detection.py:23-29 | one flag per segment mean |
| ArtifactDetection.Repeat | src/analysis/artifact_detection.py:32 | `np.repeat`: length `flags * size`, sample `i` carries flag `i // size` |
| ArtifactDetection.Covered | src/analysis/artifact_detection.py:18-19 | the samples in full segments never exceed the channel length |
| ArtifactDetection.PadFlags | src/analysis/artifact_detection.py:34-36 | `np.pad` with `False`: the flags first, then `False` up to the channel length |
| ArtifactDetection.DetectArtifacts | src/analysis/artifact_detection.py:18-38 | output as long as the input; every sample of a full segment carries its segment's flag; every sample past the last full segment is `False` |
| ArtifactDetection.BlockIndex | src/analysis/artifact_detection.py:32 | offset `a` of full segment `k` is a covered sample whose segment number is `k` |
| ArtifactDetection.SegmentCarriesFlag | src/analysis/artifact_detection.py:32-36 | every sample of full segment `k` carries flag `k`, so a segment's samples share one flag |
| ArtifactDetection.FewSegmentsNoArtifacts | src/analysis/artifact_detection.py:18-29 | with fewer than two full segments nothing is flagged: the z-scores are nan |
| ArtifactDetection.DetectArtifactsAllChannels | src/analysis/artifact_detection.py:40-53 | on a recording with at least one column (with none, `np.apply_along_axis` raises), the result has the data's shape, and each column is the single-channel detector applied to that column alone |
| SignalProcessing.Negated | src/analysis/signal_processing.py:67-74 | the negated channel that `find_peaks` searches has the channel's length |
| SignalProcessing.EdgeFilter | src/analysis/signal_processing.py:77 | keeps exactly the candidates `p` with `padding <= p < n - padding`: every entry kept is such a candidate, and every such candidate is kept |
| SignalProcessing.EdgeFilterSubsequence | src/analysis/signal_processing.py:77 | the entries kept are a subsequence of the candidates: the filter only drops, never reorders |
| SignalProcessing.EdgeFilterAscending | src/analysis/signal_processing.py:77 | ascending candidates, as `find_peaks` returns them, stay ascending |
| SignalProcessing.DetectPeaks | src/analysis/signal_processing.py:61-80 | one peak list per column: the edge-filtered candidates of the negated column, passing `height` only with a threshold; every peak is at least `window_size` from both ends |
| SignalProcessing.Window | src/analysis/signal_processing.py:98-102 | every window has exactly `window_size` samples |
| SignalProcessing.WindowUnpadded | src/analysis/signal_processing.py:98-101 | for an even width and a peak at least `w / 2` from both ends, the window is `data[p - w/2 .. p + w/2)` without padding |
| SignalProcessing.WindowOddEndsInZero | src/analysis/signal_processing.py:98-102 | for an odd width the last sample of every window is a padding zero |
| SignalProcessing.DetectedPeakHasFullWindow | src/analysis/signal_processing.py:77-101 | for an even width, every peak kept by `detect_peaks` gets an unpadded window from `extract_peak_windows` with the same width |
| SignalProcessing.ExtractPeakWindows | src/analysis/signal_processing.py:94-105 | one window list per channel, one window per peak in peak order (no peak dropped), each the clamped, zero-padded slice |
| SignalProcessing.ChannelWindows | src/analysis/signal_processing.py:96-103 | the inner loop: window `j` of a channel is the window of its peak `j` |
| SignalProcessing.ColumnOf | src/gui/data_manager.py:102 | definition: sample `j` of every window of a channel, one entry per window |
| SignalProcessing.MeanWindow | src/gui/data_manager.py:102 | `np.mean(windows, axis=0)` of the window width, or `None` exactly when the channel has no window |
| SignalProcessing.AverageWindows | src/gui/filter_panel.py:146-149 | one average window per channel |
| PeakStatistics.ComputeChannelStatistics | src/analysis/peak_statistics.py:26-35 | one record per column in column order, record `c` having channel `c`, the column's mean and the square of its population std |
| PeakStatistics.ChannelStatisticsDocExample | src/analysis/peak_statistics.py:20-32 | for the docstring matrix the means are 3.0 and 4.0 and the squared std is 8/3, not the 4 its std of 2.0 implies |
| PeakStatistics.Diffs | src/analysis/peak_statistics.py:57 | `np.diff`: one difference fewer than peaks |
| PeakStatistics.Frequency | src/analysis/peak_statistics.py:52-74 | `len(peaks) / (time[-1] - time[0])`: non-finite exactly when the time span is zero, otherwise the value times the span is the peak count |
| PeakStatistics.PeakRecord | src/analysis/peak_statistics.py:55-81 | record `c` has channel `c`, the channel's peak count and its frequency, and every squared spread is non-negative |
| PeakStatistics.Amplitudes | src/analysis/peak_statistics.py:56 | one amplitude per peak |
| PeakStatistics.ComputePeakStatistics | src/analysis/peak_statistics.py:51-84 | one record per channel of `peaks`, with `channel == c` and `num_peaks == len(peaks[c])`, each the record of lines 55-81 |
| PeakStatistics.DiffsTelescope | src/analysis/peak_statistics.py:57 | the inter-peak distances add up to the last peak minus the first |
| PeakStatistics.MeanInterPeakDistance | src/analysis/peak_statistics.py:55-65 | with more than one peak: `num_peaks - 1` distances, all positive for ascending peaks, and their mean is `(last - first) / (num_peaks - 1)` |
| PeakStatistics.MeanInterPeakTime | src/analysis/peak_statistics.py:58-67 | the mean inter-peak time is the mean inter-peak distance divided by the sampling rate |
| PeakStatistics.FewPeaksDefaults | src/analysis/peak_statistics.py:70-81 | with 0 or 1 peaks: amplitude is the single peak's sample or 0, and all spreads and inter-peak statistics are 0 |
| PeakStatistics.ManyPeaksAmplitude | src/analysis/peak_statistics.py:55-63 | with more than one peak the average amplitude lies between the smallest and largest sample at the peaks |
| ChannelBookkeeping.IndexOf | src/gui/data_manager.py:113 | `list.index`: the position of the first occurrence |
| ChannelBookkeeping.IndexOfDistinct | src/gui/data_manager.py:113 | in a mapping without repeated ids, id `m[j]` is found at `j` |
| ChannelBookkeeping.FilterOut | src/gui/data_manager.py:125 | `[x for x in s if x not in ids]`: never longer than `s`, and every entry is an entry of `s` outside `ids` |
| ChannelBookkeeping.FilterOutSubsequence | src/gui/data_manager.py:125 | what filtering leaves is a subsequence of `s`: entries keep their order |
| ChannelBookkeeping.FilterOutMember | src/gui/data_manager.py:125 | an id is in the result exactly when it is in `s` and not in `ids` |
| ChannelBookkeeping.FilterOutDistinct | src/gui/data_manager.py:125 | filtering a list without repetitions introduces none |
| ChannelBookkeeping.KeepOnly | src/gui/data_manager.py:130-131 | exactly the entries of `s` inside `keep` (their order in `KeepOnlySubsequence`) |
| ChannelBookkeeping.KeepOnlySubsequence | src/gui/data_manager.py:131 | what is kept is a subsequence of `s`: entries keep their order |
| ChannelBookkeeping.FilterOutSameMembers | src/gui/data_manager.py:111-113 | the result of deleting ids depends only on which ids are given, not their order (the sort at line 111 does not matter) |
| ChannelBookkeeping.FilterOutNothing | src/gui/data_manager.py:110-125 | deleting no id leaves the list unchanged |
| ChannelBookkeeping.RemoveOne | src/gui/data_manager.py:113-123 | removing the next id by its current index is the same as filtering it out of the original mapping |
| ChannelBookkeeping.FollowsItself | src/gui/data_manager.py:110-112 | before any deletion each derived list is aligned with the mapping |
| ChannelBookkeeping.FollowsWithout | src/gui/data_manager.py:114-123 | deleting the same index from a derived list and from the mapping keeps them aligned |
| ChannelBookkeeping.FollowsUnchanged | src/gui/data_manager.py:110-125 | a list aligned with the unchanged mapping is unchanged |
| ChannelBookkeeping.FilterOutComplement | src/gui/data_manager.py:130-132 | filtering out the complement of `keep` is keeping `keep` |
| ChannelBookkeeping.KeepIsDeleteComplement | src/gui/data_manager.py:130-132 | `keep_channels(K)` leaves the old mapping restricted to `K`: deleting the complement gives the same sequence as `KeepOnly` |
| ChannelBookkeeping.DeleteKeepComplementary | src/gui/data_manager.py:110-132 | deleting `X` and keeping the mapping's ids outside `X` leave the same mapping |
| TrimBookkeeping.KeptPositions | src/gui/data_manager.py:92-97 | ascending positions, each of a peak inside `[s, e)` |
| TrimBookkeeping.KeptPositionsComplete | src/gui/data_manager.py:92-97 | the position of every peak inside `[s, e)` is among the kept positions |
| TrimBookkeeping.Rebase | src/gui/data_manager.py:92 | re-basing never adds peaks |
| TrimBookkeeping.KeepWhere | src/gui/data_manager.py:97 | the lock-step filter never adds windows |
| TrimBookkeeping.RebaseAtKeptPositions | src/gui/data_manager.py:92 | re-based peak `j` is the peak at kept position `j`, minus `s` |
| TrimBookkeeping.RebaseSnoc | src/gui/data_manager.py:92 | re-basing a list with one more peak appends that peak's re-based value when it is in range |
| TrimBookkeeping.KeepWhereAtKeptPositions | src/gui/data_manager.py:97 | retained window `j` is the window at kept position `j` |
| TrimBookkeeping.KeepWhereSnoc | src/gui/data_manager.py:97 | the lock-step filter on one more window appends it exactly when its peak is in range |
| TrimBookkeeping.RebaseInRange | src/gui/data_manager.py:92 | re-based peaks lie in `[0, e - s)` |
| TrimBookkeeping.RebaseMembers | src/gui/data_manager.py:92 | `q` is a re-based peak iff `q + s` is a peak inside `[s, e)` |
| TrimBookkeeping.RebaseAscending | src/gui/data_manager.py:92 | ascending peaks stay ascending |
| TrimBookkeeping.TrimLockStep | src/gui/data_manager.py:91-97 | as many windows as re-based peaks remain, and entry `j` of both comes from the same original peak |
| TrimBookkeeping.RebaseExample | src/gui/data_manager.py:92 | `[1200, 3000, 4800, 6000]` trimmed to `[1000, 5000)` gives `[200, 2000, 3800]` |
| TrimBookkeeping.TrimWindowsAsWritten | src/gui/data_manager.py:97 | the as-written mask from re-based peaks fails exactly when there are more windows than remaining peaks |
| TrimBookkeeping.TrimWindowsAsWrittenFails | src/gui/data_manager.py:91-97 | as written, the example trim raises (four windows, three peaks); the lock-step filter keeps the three windows |
| TrimBookkeeping.TrimWindowsAsWrittenDropsWindow | src/gui/data_manager.py:91-97 | as written, a peak at 1200 trimmed to `[1000, 5000)` is kept but its window is dropped; the lock-step filter keeps it |
| SessionState.ShapesSynced | src/gui/data_manager.py:10-20 | definition: without data nothing derived exists; with data every derived structure has the data's rows and columns (the shape half of the class invariant) |
| SessionState.Synced | src/gui/data_manager.py:10-20 | definition: shapes synchronised and every selected channel is a current channel |
| SessionState.EmptySynced | src/gui/data_manager.py:10-20 | the initial state is synchronised |
| SessionState.LoadTime | src/gui/data_manager.py:25-27 | `arange(rows) / rate`: one time per row, row `i` at `i / rate` seconds |
| SessionState.Loaded | src/gui/data_manager.py:25-29 | definition: the state a load evidently intends, with fresh time and mapping and no derived state (properties in `LoadedState`) |
| SessionState.LoadedState | src/gui/data_manager.py:25-29 | after a load the state is synchronised, the mapping is `[0, columns)`, the selection a copy of it, time is row / rate, and no derived state is left |
| SessionState.LoadedAsWritten | src/gui/data_manager.py:25-29 | as written, load keeps the previous artifacts and peaks |
| SessionState.LoadedAsWrittenKeepsStalePeaks | src/gui/data_manager.py:25-29 | as written, loading a one-channel file after peak detection on two channels breaks the shape invariant |
| SessionState.DropColumn | src/gui/data_manager.py:114-116 | `np.delete(m, i, axis=1)`: same rows, one column fewer, still rectangular |
| SessionState.DropChannel | src/gui/data_manager.py:113-123 | definition: one loop iteration of `delete_channels`, dropping column / entry `i` everywhere (properties in `DropChannelKeepsShapes` and `DropChannelKeepsFollow`) |
| SessionState.DropChannelKeepsShapes | src/gui/data_manager.py:114-123 | one loop iteration of `delete_channels` keeps the shape invariant |
| SessionState.DerivedFollowItself | src/gui/data_manager.py:110-112 | before deletion, every structure is aligned with the mapping |
| SessionState.DropChannelKeepsFollow | src/gui/data_manager.py:114-123 | one loop iteration keeps every structure aligned: each remaining id keeps its column, peaks and windows |
| SessionState.FollowUnderSameMapping | src/gui/data_manager.py:110-125 | with the mapping unchanged, the aligned state is the old one |
| SessionState.Rows | src/gui/data_manager.py:85-89 | `m[s:e]`: `e - s` rows, all columns, still rectangular |
| SessionState.RebaseAll | src/gui/data_manager.py:92 | every channel's peaks re-based |
| SessionState.KeepWindowsAll | src/gui/data_manager.py:97 | every channel's windows filtered in lock-step with its peaks: one window per remaining peak, one width |
| SessionState.KeepWindowsFit | src/gui/data_manager.py:97 | the windows kept are as many as the re-based peaks and of one width |
| SessionState.KeepWhereRectangular | src/gui/data_manager.py:97 | keeping some windows of one width leaves windows of one width |
| SessionState.Trimmed | src/gui/data_manager.py:85-104 | definition: rows `[s, e)`, re-based peaks, lock-step windows and recomputed averages (properties in `TrimmedSynced` and `TrimmedLockStep`) |
| SessionState.TrimmedSynced | src/gui/data_manager.py:84-104 | trimming keeps the state synchronised and leaves mapping and selection untouched |
| SessionState.TrimmedLockStep | src/gui/data_manager.py:91-104 | after a trim, peaks and windows correspond one to one, and a channel's average window is `None` exactly when it has no window left |
| DataManagement.DataManager.GetData | src/gui/data_manager.py:72-82 | definition: the snapshot of data, time, artifacts, peaks, windows, average windows, mapping and selection |
| DataManagement.DataManager.constructor | src/gui/data_manager.py:8-20 | nothing loaded and no derived state; the invariant holds |
| DataManagement.DataManager.UpdateChannelStatistics | src/gui/data_manager.py:33-37 | channel statistics describe the current data, or are `None` without data |
| DataManagement.DataManager.UpdatePeakStatistics | src/gui/data_manager.py:39-41 | with peaks, peak statistics are recomputed from the current data, peaks, time and rate; otherwise kept |
| DataManagement.DataManager.LoadData | src/gui/data_manager.py:22-31 | a cancelled dialog changes nothing; a load gives the `Loaded` state, the rate, fresh channel statistics and no peak statistics, and keeps the invariant |
| DataManagement.DataManager.Install | src/gui/data_manager.py:25-29 | the assignments of a load give the `Loaded` state and the rate, clear the peak statistics, and establish the invariant |
| DataManagement.DataManager.TrimData | src/gui/data_manager.py:84-108 | the state becomes `Trimmed` (rows `[s, e)`, re-based peaks, lock-step windows, recomputed averages), the invariant holds, and both statistics are recomputed |
| DataManagement.DataManager.TrimRows | src/gui/data_manager.py:85-104 | the row restriction turns the state into `Trimmed` of the old one; rate and statistics untouched |
| DataManagement.DataManager.DeleteChannels | src/gui/data_manager.py:110-128 | mapping and selection lose exactly the ids; every structure keeps, for each remaining id, what it held before; no id leaves everything unchanged; statistics recomputed; the invariant holds |
| DataManagement.DataManager.DeleteEach | src/gui/data_manager.py:111-123 | the loop leaves the mapping filtered by exactly the ids, every structure aligned with it, shapes synchronised, and selection, rate and statistics untouched; no id changes nothing |
| DataManagement.DataManager.DeleteOne | src/gui/data_manager.py:112-123 | one pass keeps shapes and alignment and filters one more id out of the original mapping |
| DataManagement.DataManager.DropChannelAt | src/gui/data_manager.py:114-123 | the loop body removes column / entry `index` from every present structure and from the mapping |
| DataManagement.DataManager.KeepChannels | src/gui/data_manager.py:130-132 | the mapping becomes the old one restricted to `keep`, in order, with every structure aligned and the invariant kept; the rate is unchanged, channel statistics describe the remaining data, and peak statistics are recomputed when peaks exist |
| DataManagement.DataManager.DetectArtifacts | src/gui/filter_panel.py:108-117 | with data of at least one column, the artifact mask is the all-channel detector with default segment size and penalty; without data, or with no column (the detector raises and the panel catches the `ValueError`), the mask is kept; nothing else changes, rate and statistics included |
| DataManagement.DataManager.DetectPeaks | src/gui/filter_panel.py:119-152 | peaks, windows and average windows of every column as `detect_peaks`, `extract_peak_windows` and the mean define them, then peak statistics; data, time, artifacts, mapping, selection, rate and channel statistics unchanged; the invariant holds |
| DataManagement.DeleteStep | src/gui/data_manager.py:112-123 | the next id is still in the current mapping, and removing it filters one more id out of the original mapping |
| DataManagement.ChannelStatisticsOf | src/analysis/peak_statistics.py:26-35 | the records `compute_channel_statistics` returns describe the matrix |
| DataManagement.ChannelStatisticsUnique | src/analysis/peak_statistics.py:26-35 | the channel statistics of a matrix are determined by it |

## Left out

- The GUI (main window, panels, plots, dialogs, message boxes) and `update_callback`: presentation only.
- The filters (`apply_filter`, `apply_notch_filter`, `apply_lowpass_filter`, `apply_highpass_filter`): floating-point scipy wrappers.
- `save_statistics_to_excel` and the file dialog of `load_data`: file I/O. The chosen file reaches `LoadData` as an `Option<Matrix<real>>`.
- `np.load` in src/data_handling/data_loader.py: file I/O. Its one computed value, `arange(rows)`, is inside `LoadTime`.
- The `print` calls in `compute_peak_statistics` and the filter panel: console output.
- Floating point: the model computes over exact reals. Every nan and inf is the single value `NonFinite`, and rounding is not modelled.
- Changes to `selected_channels` made by the channel panel: not part of this model.
- SignalProcessing.DetectPeaks: `scipy.signal.find_peaks` is a function parameter. Its distance, prominence and height logic is not modelled; only the code around it is.
- PeakStatistics.ComputeChannelStatistics: the `std` entry is kept as its square (the population variance), because square roots are not modelled. The same holds for every `std_*` field of `PeakStatistics.ComputePeakStatistics`.
- ArtifactDetection.DetectArtifacts: the z-score test is decided on the variance without a square root. `FlagIsZScoreTest` proves that this agrees with the source's test whenever the standard deviation is non-zero.
- DataManagement.DataManager.DeleteChannels: requires distinct ids, all in the current mapping; otherwise `list.index` at src/gui/data_manager.py:113 raises a ValueError after the earlier ids are already deleted, and that partial deletion is not modelled. Both callers always meet it: the channel panel passes the mapping entries at distinct selected positions (src/gui/channel_panel.py:68-69), and `keep_channels` passes the mapping's ids outside `keep` (line 131; `FilterOutDistinct`).
- DataManagement.DataManager.DeleteChannels: processes the ids in the order given, not sorted in descending order (line 111). The resulting state does not depend on the order (`FilterOutSameMembers`).
- DataManagement.DataManager.TrimData: requires `0 <= s <= e <= rows`. Python's clamping of out-of-range or negative slice bounds is not modelled.
- DataManagement.DataManager.LoadData: requires a positive sampling rate. A zero rate would fill the time vector with nan and inf.
- DataManagement.DataManager.UpdatePeakStatistics: passes the stored sampling rate. The source omits it, so its three-argument call raises a TypeError whenever peaks exist, before `compute_peak_statistics` reads any time point.
- DataManagement.DataManager.DetectPeaks: requires loaded data with at least one row. Without data the panel shows an error and changes nothing (src/gui/filter_panel.py:120-122). The panel as written first sets peaks, windows and average windows to empty lists (src/gui/filter_panel.py:133-135). On a recording with at least one column it then raises a TypeError at the `detect_positive=` keyword (line 139); with no column the loop at line 137 is skipped and the three-argument call at src/gui/data_manager.py:41 raises the TypeError. The panel reports either; that failure path is not modelled. With the call signature and the rate passed as the model does, an empty recording would still raise an IndexError at `time[-1]` (src/analysis/peak_statistics.py:52), which the row requirement excludes.
- DataManagement.DataManager.TrimData: requires loaded data and, when peaks exist, a non-empty range. The source raises a TypeError slicing `None` without data. With peaks and an empty range, the source as written raises first: the IndexError of the empty window mask at src/gui/data_manager.py:97 when some channel has windows, otherwise the TypeError of the three-argument statistics call (line 41). With the rate passed as the model does, `time[-1]` would raise an IndexError (src/analysis/peak_statistics.py:52). None of these failures is modelled. These two preconditions let `Valid()` carry "peaks only on a recording with rows", so `UpdatePeakStatistics`, `DeleteChannels` and `KeepChannels` need no such requirement of their own.
- PeakStatistics.ComputePeakStatistics: requires a non-empty time vector. On an empty one the source raises an IndexError at `time[-1]` (line 52).
- DataManagement.DataManager.DetectPeaks: takes the window size as a parameter instead of `int(rate * 0.1)`. It always searches the negated signal. The panel's `detect_positive` option and its mismatched call signature are not modelled.

## Findings

| source | as written | input that shows it | evidently intended | confidence | as-written member | corrected member |
|---|---|---|---|---|---|---|
| src/gui/data_manager.py:97 | builds the window mask from `self.peaks` after line 92 has already re-based and filtered it | peaks `[1200, 3000, 4800, 6000]`, trim to `[1000, 5000)`: a 3-entry mask for 4 windows raises; peaks `[1200]`: the peak is kept as 200 but its window is dropped | windows filtered in lock-step with the peaks, by the pre-trim peaks | high, not executed | TrimBookkeeping.TrimWindowsAsWrittenFails | TrimBookkeeping.TrimLockStep |
| src/gui/data_manager.py:25-29 | `load_data` replaces data, time and mapping but keeps artifacts, peaks, windows, average windows and peak statistics | peaks detected on a 2-channel file, then a 1-channel file loaded: 2 peak lists for 1 column | a load clears all derived state | high, not executed | SessionState.LoadedAsWrittenKeepsStalePeaks | SessionState.LoadedState |
