/** Sequence facts behind `delete_channels` and `keep_channels`
    (src/gui/data_manager.py:110-132): looking an original channel id up in
    the channel mapping, filtering ids out, and following a list that is
    kept index-aligned with the mapping while entries are deleted. */
module ChannelBookkeeping {
  import opened Basics

  /** `s.index(x)`: the position of the first occurrence of `x`. */
  function IndexOf<T(==)>(s: seq<T>, x: T): (r: nat)
    requires x in s
    ensures r < |s| && s[r] == x
    ensures forall j :: 0 <= j < r ==> s[j] != x
  {
    if s[0] == x then 0 else 1 + IndexOf(s[1..], x)
  }

  /** In a list without repetitions the index of entry `j` is `j`. */
  lemma IndexOfDistinct<T>(s: seq<T>, j: nat)
    requires Distinct(s) && j < |s|
    ensures IndexOf(s, s[j]) == j
  {
  }

  /** `[x for x in s if x not in ids]`: the entries of `s` outside `ids`, in
      their order. */
  function FilterOut(s: seq<int>, ids: seq<int>): (r: seq<int>)
    ensures |r| <= |s|
    ensures forall j :: 0 <= j < |r| ==> r[j] in s && r[j] !in ids
  {
    if |s| == 0 then []
    else
      var rest := FilterOut(s[1..], ids);
      if s[0] in ids then rest else [s[0]] + rest
  }

  /** An id is left exactly when it was there and is not filtered out. */
  lemma {:induction false} FilterOutMember(s: seq<int>, ids: seq<int>, x: int)
    ensures x in FilterOut(s, ids) <==> x in s && x !in ids
  {
    if |s| > 0 {
      FilterOutMember(s[1..], ids, x);
      assert x in s <==> x == s[0] || x in s[1..];
    }
  }

  /** Filtering keeps a list free of repetitions. */
  lemma {:induction false} FilterOutDistinct(s: seq<int>, ids: seq<int>)
    requires Distinct(s)
    ensures Distinct(FilterOut(s, ids))
  {
    if |s| > 0 {
      FilterOutDistinct(s[1..], ids);
      var rest := FilterOut(s[1..], ids);
      if s[0] !in ids {
        var r := [s[0]] + rest;
        assert s[0] !in s[1..];
        assert forall j :: 1 <= j < |r| ==> r[j] == rest[j - 1] && rest[j - 1] in s[1..];
      }
    }
  }

  /** What filtering leaves is in the order of `s`. */
  lemma {:induction false} FilterOutSubsequence(s: seq<int>, ids: seq<int>)
    ensures Subsequence(FilterOut(s, ids), s)
  {
    if |s| > 0 {
      var rest := FilterOut(s[1..], ids);
      FilterOutSubsequence(s[1..], ids);
      if s[0] !in ids {
        assert ([s[0]] + rest)[1..] == rest;
      }
    }
  }

  /** `[x for x in s if x in keep]`: the entries of `s` inside `keep`, in
      their order. */
  function KeepOnly(s: seq<int>, keep: seq<int>): (r: seq<int>)
    ensures |r| <= |s|
    ensures forall x :: x in r <==> x in s && x in keep
  {
    if |s| == 0 then []
    else
      var rest := KeepOnly(s[1..], keep);
      if s[0] in keep then [s[0]] + rest else rest
  }

  /** What is kept is in the order of `s`. */
  lemma {:induction false} KeepOnlySubsequence(s: seq<int>, keep: seq<int>)
    ensures Subsequence(KeepOnly(s, keep), s)
  {
    if |s| > 0 {
      var rest := KeepOnly(s[1..], keep);
      KeepOnlySubsequence(s[1..], keep);
      if s[0] in keep {
        assert ([s[0]] + rest)[1..] == rest;
      }
    }
  }

  /** Filtering depends on the ids only through which entries of `s` they
      contain: neither their order nor their repetitions matter. */
  lemma {:induction false} FilterOutSameMembers(s: seq<int>, a: seq<int>, b: seq<int>)
    requires forall i :: 0 <= i < |s| ==> (s[i] in a <==> s[i] in b)
    ensures FilterOut(s, a) == FilterOut(s, b)
  {
    if |s| > 0 {
      FilterOutSameMembers(s[1..], a, b);
      assert FilterOut(s, a) == (if s[0] in a then [] else [s[0]]) + FilterOut(s[1..], a);
      assert FilterOut(s, b) == (if s[0] in b then [] else [s[0]]) + FilterOut(s[1..], b);
    }
  }

  /** Filtering out no id changes nothing. */
  lemma {:induction false} FilterOutNothing(s: seq<int>)
    ensures FilterOut(s, []) == s
  {
    if |s| > 0 {
      FilterOutNothing(s[1..]);
    }
  }

  /** Removing, by its index, one entry `x` that is not yet filtered out of a
      list without repetitions is the same as filtering `x` out as well. */
  lemma {:induction false} RemoveOne(m: seq<int>, ids: seq<int>, x: int)
    requires Distinct(m) && x in m && x !in ids
    ensures x in FilterOut(m, ids)
    ensures Without(FilterOut(m, ids), IndexOf(FilterOut(m, ids), x)) == FilterOut(m, ids + [x])
  {
    var f := FilterOut(m, ids);
    var rest := FilterOut(m[1..], ids);
    assert f == (if m[0] in ids then [] else [m[0]]) + rest;
    if m[0] == x {
      assert x !in m[1..];
      FilterOutSameMembers(m[1..], ids + [x], ids);
      assert f == [x] + rest;
      assert IndexOf(f, x) == 0;
      assert FilterOut(m, ids + [x]) == rest;
    } else {
      assert Distinct(m[1..]);
      RemoveOne(m[1..], ids, x);
      assert FilterOut(m, ids + [x]) == (if m[0] in ids then [] else [m[0]]) + FilterOut(m[1..], ids + [x]);
      if m[0] !in ids {
        var j := IndexOf(rest, x);
        assert IndexOf(f, x) == 1 + j;
        WithoutCons(m[0], rest, j);
      }
    }
  }

  /** `xs` is kept index-aligned with the id list `m`, and entry `j` of `xs` is
      the entry that `xs0` held for the same id under the mapping `m0`. */
  ghost predicate Follows<T>(xs: seq<T>, xs0: seq<T>, m: seq<int>, m0: seq<int>)
  {
    |xs| == |m| && |xs0| == |m0| &&
    forall j :: 0 <= j < |m| ==> m[j] in m0 && xs[j] == xs0[IndexOf(m0, m[j])]
  }

  /** Every list follows itself under a mapping without repetitions. */
  lemma FollowsItself<T>(xs: seq<T>, m: seq<int>)
    requires Distinct(m) && |xs| == |m|
    ensures Follows(xs, xs, m, m)
  {
    forall j | 0 <= j < |m|
      ensures IndexOf(m, m[j]) == j
    {
      IndexOfDistinct(m, j);
    }
  }

  /** Deleting the same index from a list and from its mapping keeps it
      aligned. */
  lemma FollowsWithout<T>(xs: seq<T>, xs0: seq<T>, m: seq<int>, m0: seq<int>, i: nat)
    requires Follows(xs, xs0, m, m0) && i < |m|
    ensures Follows(Without(xs, i), xs0, Without(m, i), m0)
  {
  }

  /** A list that follows `xs0` under the unchanged mapping is `xs0`. */
  lemma FollowsUnchanged<T>(xs: seq<T>, xs0: seq<T>, m0: seq<int>)
    requires Distinct(m0) && Follows(xs, xs0, m0, m0)
    ensures xs == xs0
  {
    forall j | 0 <= j < |m0|
      ensures xs[j] == xs0[j]
    {
      IndexOfDistinct(m0, j);
    }
  }

  /** `keep_channels(keep)` deletes `[ch for ch in m if ch not in keep]`; the
      mapping left is `m` restricted to `keep`, in order. */
  lemma KeepIsDeleteComplement(m: seq<int>, keep: seq<int>)
    ensures FilterOut(m, FilterOut(m, keep)) == KeepOnly(m, keep)
  {
    forall i | 0 <= i < |m|
      ensures m[i] in FilterOut(m, keep) <==> m[i] !in keep
    {
      FilterOutMember(m, keep, m[i]);
    }
    FilterOutComplement(m, keep, FilterOut(m, keep));
  }

  lemma {:induction false} FilterOutComplement(s: seq<int>, keep: seq<int>, drop: seq<int>)
    requires forall i :: 0 <= i < |s| ==> (s[i] in drop <==> s[i] !in keep)
    ensures FilterOut(s, drop) == KeepOnly(s, keep)
  {
    if |s| > 0 {
      FilterOutComplement(s[1..], keep, drop);
      assert FilterOut(s, drop) == (if s[0] in drop then [] else [s[0]]) + FilterOut(s[1..], drop);
      assert KeepOnly(s, keep) == (if s[0] in keep then [s[0]] else []) + KeepOnly(s[1..], keep);
    }
  }

  /** Deleting a set of ids, or keeping the ids of the mapping outside it,
      leaves the same mapping. */
  lemma DeleteKeepComplementary(m: seq<int>, ids: seq<int>)
    ensures FilterOut(m, ids) == FilterOut(m, FilterOut(m, FilterOut(m, ids)))
  {
    KeepIsDeleteComplement(m, FilterOut(m, ids));
    forall i | 0 <= i < |m|
      ensures m[i] in ids <==> m[i] !in FilterOut(m, ids)
    {
      FilterOutMember(m, ids, m[i]);
    }
    FilterOutComplement(m, FilterOut(m, ids), ids);
  }
}
