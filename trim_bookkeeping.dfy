/** Sequence facts behind `trim_data` (src/gui/data_manager.py:84-104):
    re-basing a channel's peaks to a row range `[s, e)` and keeping its peak
    windows in lock-step with the retained peaks. */
module TrimBookkeeping {
  import opened Basics

  /** The positions `k` (in order) of the peaks `s <= ps[k] < e`. */
  function KeptPositions(ps: seq<int>, s: int, e: int): (r: seq<int>)
    ensures forall j :: 0 <= j < |r| ==> 0 <= r[j] < |ps| && s <= ps[r[j]] < e
    ensures StrictlyIncreasing(r)
    decreases |ps|
  {
    if |ps| == 0 then []
    else
      var n := |ps| - 1;
      var before := KeptPositions(ps[..n], s, e);
      if s <= ps[n] < e then before + [n] else before
  }

  /** `[p - s for p in ps if s <= p < e]` (line 92): the peaks inside the
      range, shifted to the new zero row. */
  function Rebase(ps: seq<int>, s: int, e: int): (r: seq<int>)
    ensures |r| <= |ps|
  {
    if |ps| == 0 then []
    else
      var rest := Rebase(ps[1..], s, e);
      if s <= ps[0] < e then [ps[0] - s] + rest else rest
  }

  /** The windows of the peaks inside the range, with the mask taken from
      the peaks before they are re-based (the lock-step filter). */
  function KeepWhere<T>(ws: seq<T>, ps: seq<int>, s: int, e: int): (r: seq<T>)
    requires |ws| == |ps|
    ensures |r| <= |ws|
  {
    if |ps| == 0 then []
    else
      var rest := KeepWhere(ws[1..], ps[1..], s, e);
      if s <= ps[0] < e then [ws[0]] + rest else rest
  }

  /** Re-basing keeps the peaks at `KeptPositions`, shifted by `-s`. */
  lemma {:induction false} RebaseAtKeptPositions(ps: seq<int>, s: int, e: int)
    ensures |Rebase(ps, s, e)| == |KeptPositions(ps, s, e)|
    ensures forall j :: 0 <= j < |Rebase(ps, s, e)| ==>
      Rebase(ps, s, e)[j] == ps[KeptPositions(ps, s, e)[j]] - s
    decreases |ps|
  {
    if |ps| > 0 {
      var n := |ps| - 1;
      RebaseAtKeptPositions(ps[..n], s, e);
      RebaseSnoc(ps[..n], ps[n], s, e);
      assert ps[..n] + [ps[n]] == ps;
    }
  }

  lemma {:induction false} RebaseSnoc(ps: seq<int>, p: int, s: int, e: int)
    ensures Rebase(ps + [p], s, e) == Rebase(ps, s, e) + (if s <= p < e then [p - s] else [])
    decreases |ps|
  {
    if |ps| == 0 {
      assert ps + [p] == [p];
    } else {
      assert (ps + [p])[1..] == ps[1..] + [p];
      RebaseSnoc(ps[1..], p, s, e);
    }
  }

  /** The lock-step filter keeps the windows at `KeptPositions`. */
  lemma {:induction false} KeepWhereAtKeptPositions<T>(ws: seq<T>, ps: seq<int>, s: int, e: int)
    requires |ws| == |ps|
    ensures |KeepWhere(ws, ps, s, e)| == |KeptPositions(ps, s, e)|
    ensures forall j :: 0 <= j < |KeepWhere(ws, ps, s, e)| ==>
      KeepWhere(ws, ps, s, e)[j] == ws[KeptPositions(ps, s, e)[j]]
    decreases |ps|
  {
    if |ps| > 0 {
      var n := |ps| - 1;
      var wb, pb := ws[..n], ps[..n];
      KeepWhereAtKeptPositions(wb, pb, s, e);
      KeepWhereSnoc(wb, pb, ws[n], ps[n], s, e);
      assert pb + [ps[n]] == ps;
      assert wb + [ws[n]] == ws;
      AtPositionsSnoc(ws, KeepWhere(wb, pb, s, e), KeptPositions(pb, s, e), s <= ps[n] < e);
    }
  }

  /** Appending the last entry, and its position, to entries taken from the
      positions `kb` of the prefix keeps them taken from those positions. */
  lemma AtPositionsSnoc<T>(ws: seq<T>, before: seq<T>, kb: seq<int>, kept: bool)
    requires |ws| > 0 && |before| == |kb|
    requires forall j :: 0 <= j < |kb| ==> 0 <= kb[j] < |ws| - 1 && before[j] == ws[..|ws| - 1][kb[j]]
    ensures var r, kp := before + (if kept then [ws[|ws| - 1]] else []), kb + (if kept then [|ws| - 1] else []);
      |r| == |kp| && forall j :: 0 <= j < |r| ==> r[j] == ws[kp[j]]
  {
  }

  /** Every peak inside the range has its position among `KeptPositions`. */
  lemma {:induction false} KeptPositionsComplete(ps: seq<int>, s: int, e: int)
    ensures forall k :: 0 <= k < |ps| && s <= ps[k] < e ==> k in KeptPositions(ps, s, e)
    decreases |ps|
  {
    if |ps| > 0 {
      var n := |ps| - 1;
      KeptPositionsComplete(ps[..n], s, e);
      assert forall k :: 0 <= k < n ==> ps[..n][k] == ps[k];
    }
  }

  lemma {:induction false} KeepWhereSnoc<T>(ws: seq<T>, ps: seq<int>, w: T, p: int, s: int, e: int)
    requires |ws| == |ps|
    ensures KeepWhere(ws + [w], ps + [p], s, e) == KeepWhere(ws, ps, s, e) + (if s <= p < e then [w] else [])
    decreases |ps|
  {
    if |ps| == 0 {
      assert ps + [p] == [p];
      assert ws + [w] == [w];
    } else {
      assert (ps + [p])[1..] == ps[1..] + [p];
      assert (ws + [w])[1..] == ws[1..] + [w];
      KeepWhereSnoc(ws[1..], ps[1..], w, p, s, e);
    }
  }

  /** Re-based peaks lie in `[0, e - s)`. */
  lemma RebaseInRange(ps: seq<int>, s: int, e: int)
    ensures AllIn(Rebase(ps, s, e), 0, e - s)
  {
    RebaseAtKeptPositions(ps, s, e);
  }

  /** A value is a re-based peak exactly when it came from a peak in the range. */
  lemma {:induction false} RebaseMembers(ps: seq<int>, s: int, e: int)
    ensures forall q :: q in Rebase(ps, s, e) <==> q + s in ps && s <= q + s < e
    decreases |ps|
  {
    if |ps| > 0 {
      RebaseMembers(ps[1..], s, e);
      assert forall p :: p in ps <==> p == ps[0] || p in ps[1..];
    }
  }

  /** Ascending peaks stay ascending once re-based. */
  lemma RebaseAscending(ps: seq<int>, s: int, e: int)
    requires StrictlyIncreasing(ps)
    ensures StrictlyIncreasing(Rebase(ps, s, e))
  {
    RebaseAtKeptPositions(ps, s, e);
    var r := Rebase(ps, s, e);
    var kp := KeptPositions(ps, s, e);
    forall i, j | 0 <= i < j < |r|
      ensures r[i] < r[j]
    {
      assert kp[i] < kp[j];
    }
  }

  /** Peaks and windows are filtered in lock-step: entry `j` of the re-based
      peaks and entry `j` of the retained windows come from the same original
      peak. */
  lemma TrimLockStep<T>(ws: seq<T>, ps: seq<int>, s: int, e: int)
    requires |ws| == |ps|
    ensures |KeepWhere(ws, ps, s, e)| == |Rebase(ps, s, e)|
    ensures forall j :: 0 <= j < |Rebase(ps, s, e)| ==>
      exists k :: 0 <= k < |ps| && Rebase(ps, s, e)[j] == ps[k] - s && KeepWhere(ws, ps, s, e)[j] == ws[k]
  {
    RebaseAtKeptPositions(ps, s, e);
    KeepWhereAtKeptPositions(ws, ps, s, e);
    var kp := KeptPositions(ps, s, e);
    forall j | 0 <= j < |Rebase(ps, s, e)|
      ensures exists k :: 0 <= k < |ps| && Rebase(ps, s, e)[j] == ps[k] - s && KeepWhere(ws, ps, s, e)[j] == ws[k]
    {
      var k := kp[j];
      assert Rebase(ps, s, e)[j] == ps[k] - s && KeepWhere(ws, ps, s, e)[j] == ws[k];
    }
  }

  /** The re-basing example: peaks `[1200, 3000, 4800, 6000]` trimmed to
      `[1000, 5000)` become `[200, 2000, 3800]`. */
  lemma RebaseExample()
    ensures Rebase([1200, 3000, 4800, 6000], 1000, 5000) == [200, 2000, 3800]
  {
    var ps := [1200, 3000, 4800, 6000];
    assert ps[1..] == [3000, 4800, 6000];
    assert ps[1..][1..] == [4800, 6000];
    assert ps[1..][1..][1..] == [6000];
    assert ps[1..][1..][1..][1..] == [];
  }

  /** Line 97 as written: the mask is built from `self.peaks` after line 92
      has already re-based and filtered it. numpy refuses a boolean mask whose
      length differs from the number of windows (`None` here, an IndexError);
      otherwise the shifted peaks are tested against the unshifted range. */
  function TrimWindowsAsWritten<T>(ws: seq<T>, rebased: seq<int>, s: int, e: int): (r: Option<seq<T>>)
    ensures r.Some? <==> |ws| == |rebased|
    ensures r.Some? ==> |r.value| <= |ws|
  {
    if |ws| != |rebased| then None else Some(KeepWhere(ws, rebased, s, e))
  }

  /** As written, trimming a channel with peaks `[1200, 3000, 4800, 6000]` to
      `[1000, 5000)` fails (three re-based peaks, four windows), while the
      lock-step filter keeps the three windows of the three kept peaks. */
  lemma TrimWindowsAsWrittenFails(ws: seq<real>)
    requires |ws| == 4
    ensures TrimWindowsAsWritten(ws, Rebase([1200, 3000, 4800, 6000], 1000, 5000), 1000, 5000).None?
    ensures KeepWhere(ws, [1200, 3000, 4800, 6000], 1000, 5000) == ws[..3]
  {
    RebaseExample();
    var ps := [1200, 3000, 4800, 6000];
    assert ps[1..] == [3000, 4800, 6000] && ws[1..][1..] == ws[2..];
    assert ps[1..][1..] == [4800, 6000] && ws[2..][1..] == ws[3..];
    assert ps[1..][1..][1..] == [6000];
    assert KeepWhere(ws[3..], [6000], 1000, 5000) == [];
    assert KeepWhere(ws[2..], [4800, 6000], 1000, 5000) == [ws[2]];
    assert KeepWhere(ws[1..], [3000, 4800, 6000], 1000, 5000) == [ws[1], ws[2]];
  }

  /** As written, a single peak at 1200 trimmed to `[1000, 5000)` is kept
      (re-based to 200) but its window is dropped, because 200 is tested
      against the unshifted range; the lock-step filter keeps it. */
  lemma TrimWindowsAsWrittenDropsWindow(w: real)
    ensures Rebase([1200], 1000, 5000) == [200]
    ensures TrimWindowsAsWritten([w], Rebase([1200], 1000, 5000), 1000, 5000) == Some([])
    ensures KeepWhere([w], [1200], 1000, 5000) == [w]
  {
    assert [1200][1..] == [] && [200][1..] == [] && [w][1..] == [];
    assert KeepWhere([w], [200], 1000, 5000) == KeepWhere([], [], 1000, 5000);
  }
}
