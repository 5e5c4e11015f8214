/** Keyframes of a video layer and the piecewise-linear curve they define
    (VideoStudio.tsx, `calculateLayerOpacity`). A keyframe list is sorted by
    time with a stable sort before it is evaluated; before the first keyframe
    the curve is the first value, after the last it is the last value, and in
    between it interpolates linearly inside the one segment that contains t. */
module Keyframes {
  import opened Numeric

  /** The animatable properties a keyframe can name. */
  datatype Property = Opacity | Scale | X | Y

  datatype Keyframe = Keyframe(time: real, value: real, property: Property)

  ghost predicate SortedByTime(s: seq<Keyframe>)
  {
    forall i, j :: 0 <= i < j < |s| ==> s[i].time <= s[j].time
  }

  /** Inserts k before the first entry whose time is strictly greater, so that
      it lands after every entry with an equal time. */
  function InsertByTime(k: Keyframe, s: seq<Keyframe>): (r: seq<Keyframe>)
    ensures |r| == |s| + 1
  {
    if |s| == 0 then [k]
    else if k.time < s[0].time then [k] + s
    else [s[0]] + InsertByTime(k, s[1..])
  }

  lemma {:induction false} InsertByTimePermutes(k: Keyframe, s: seq<Keyframe>)
    ensures multiset(InsertByTime(k, s)) == multiset(s) + multiset{k}
    decreases |s|
  {
    if |s| > 0 && k.time >= s[0].time {
      InsertByTimePermutes(k, s[1..]);
      assert s == [s[0]] + s[1..];
    }
  }

  /** `[...keyframes].sort((a, b) => a.time - b.time)`: a stable sort by time,
      written as an insertion sort that inserts the entries in list order. */
  function SortByTime(s: seq<Keyframe>): (r: seq<Keyframe>)
    ensures |r| == |s|
  {
    if |s| == 0 then []
    else InsertByTime(s[|s| - 1], SortByTime(s[..|s| - 1]))
  }

  ghost predicate NoneBefore(lo: real, s: seq<Keyframe>)
  {
    forall i :: 0 <= i < |s| ==> lo <= s[i].time
  }

  lemma {:induction false} InsertKeepsLowerBound(k: Keyframe, s: seq<Keyframe>, lo: real)
    requires NoneBefore(lo, s) && lo <= k.time
    ensures NoneBefore(lo, InsertByTime(k, s))
    decreases |s|
  {
    if |s| > 0 && k.time >= s[0].time {
      InsertKeepsLowerBound(k, s[1..], lo);
    }
  }

  lemma {:induction false} InsertKeepsSorted(k: Keyframe, s: seq<Keyframe>)
    requires SortedByTime(s)
    ensures SortedByTime(InsertByTime(k, s))
    decreases |s|
  {
    if |s| == 0 {
    } else if k.time < s[0].time {
    } else {
      var tail := s[1..];
      assert SortedByTime(tail);
      InsertKeepsSorted(k, tail);
      InsertKeepsLowerBound(k, tail, s[0].time);
      var rest := InsertByTime(k, tail);
      var r := [s[0]] + rest;
      forall i, j | 0 <= i < j < |r|
        ensures r[i].time <= r[j].time
      {
        assert r[j] == rest[j - 1];
        if i > 0 {
          assert r[i] == rest[i - 1];
        }
      }
    }
  }

  /** The sort yields a list ordered by time that is a permutation of its input. */
  lemma {:induction false} SortByTimeSorted(s: seq<Keyframe>)
    ensures SortedByTime(SortByTime(s))
    ensures multiset(SortByTime(s)) == multiset(s)
    decreases |s|
  {
    if |s| > 0 {
      SortByTimeSorted(s[..|s| - 1]);
      InsertKeepsSorted(s[|s| - 1], SortByTime(s[..|s| - 1]));
      InsertByTimePermutes(s[|s| - 1], SortByTime(s[..|s| - 1]));
      assert s == s[..|s| - 1] + [s[|s| - 1]];
    }
  }

  lemma {:induction false} InsertAfterAll(k: Keyframe, s: seq<Keyframe>)
    requires forall i :: 0 <= i < |s| ==> s[i].time <= k.time
    ensures InsertByTime(k, s) == s + [k]
    decreases |s|
  {
    if |s| > 0 {
      InsertAfterAll(k, s[1..]);
      assert [s[0]] + (s[1..] + [k]) == s + [k];
    }
  }

  /** Stability on the input that is already in order: a list sorted by time,
      ties included, comes back from the sort unchanged. */
  lemma {:induction false} SortOfSortedIsIdentity(s: seq<Keyframe>)
    requires SortedByTime(s)
    ensures SortByTime(s) == s
    decreases |s|
  {
    if |s| > 0 {
      var init := s[..|s| - 1];
      assert SortedByTime(init);
      SortOfSortedIsIdentity(init);
      InsertAfterAll(s[|s| - 1], init);
      assert init + [s[|s| - 1]] == s;
    }
  }

  /** `start.value + (end.value - start.value) * t` with
      `t = (currentTime - start.time) / (end.time - start.time)`. */
  function Lerp(a: Keyframe, b: Keyframe, t: real): real
    requires a.time < b.time
  {
    a.value + (b.value - a.value) * ((t - a.time) / (b.time - a.time))
  }

  ghost predicate InSegment(s: seq<Keyframe>, t: real, i: int)
  {
    0 <= i < |s| - 1 && s[i].time <= t < s[i + 1].time
  }

  /** The index at which the `for` loop, started at i, takes its `break`: the
      first segment from i on whose half-open time interval contains t. */
  function SegmentFrom(s: seq<Keyframe>, t: real, i: nat): (r: Option<nat>)
    ensures r.Some? ==> i <= r.value && InSegment(s, t, r.value)
    ensures r.Some? ==> forall j :: i <= j < r.value ==> !InSegment(s, t, j)
    ensures r.None? ==> forall j :: i <= j < |s| - 1 ==> !InSegment(s, t, j)
    decreases |s| - i
  {
    if i + 1 >= |s| then None
    else if s[i].time <= t < s[i + 1].time then Some(i)
    else SegmentFrom(s, t, i + 1)
  }

  /** The factor the keyframes contribute to the opacity once sorted: 1 when
      there are none, the boundary values outside the keyframe range, the
      interpolation inside it, and 1 again when no segment is found. */
  function CurveFactor(s: seq<Keyframe>, t: real): real
  {
    if |s| == 0 then 1.0
    else if t <= s[0].time then s[0].value
    else if t >= s[|s| - 1].time then s[|s| - 1].value
    else match SegmentFrom(s, t, 0)
      case Some(i) => Lerp(s[i], s[i + 1], t)
      case None => 1.0
  }

  /** In a list sorted by time at most one segment contains a given t, and
      every segment that contains t has a non-zero time difference. */
  lemma SegmentUnique(s: seq<Keyframe>, t: real, i: int, j: int)
    requires SortedByTime(s)
    requires InSegment(s, t, i) && InSegment(s, t, j)
    ensures i == j
    ensures s[i + 1].time - s[i].time > 0.0
  {
  }

  /** Strictly inside the keyframe range of a sorted list the loop always
      breaks: some segment contains t. */
  lemma {:induction false} SegmentExists(s: seq<Keyframe>, t: real, i: nat)
    requires SortedByTime(s)
    requires i < |s| && s[i].time <= t < s[|s| - 1].time
    ensures SegmentFrom(s, t, i).Some?
    decreases |s| - i
  {
    if t < s[i + 1].time {
    } else {
      SegmentExists(s, t, i + 1);
    }
  }

  /** The curve of a sorted list inside its range: the one segment that
      contains t, interpolated. */
  lemma InteriorIsInterpolation(s: seq<Keyframe>, t: real, i: int)
    requires SortedByTime(s) && InSegment(s, t, i)
    requires s[0].time < t < s[|s| - 1].time
    ensures s[i].time < s[i + 1].time
    ensures CurveFactor(s, t) == Lerp(s[i], s[i + 1], t)
  {
    SegmentExists(s, t, 0);
    var k := SegmentFrom(s, t, 0).value;
    SegmentUnique(s, t, i, k);
  }

  lemma DivWithinUnit(n: real, d: real)
    requires 0.0 <= n <= d && d > 0.0
    ensures 0.0 <= n / d <= 1.0
  {
    var q := n / d;
    assert q * d == n;
  }

  lemma ScaleWithinUnit(c: real, f: real)
    requires c >= 0.0 && 0.0 <= f <= 1.0
    ensures 0.0 <= c * f <= c
  {
    assert c - c * f == c * (1.0 - f);
  }

  /** An interpolated value lies between the two keyframe values around it. */
  lemma LerpBetween(a: Keyframe, b: Keyframe, t: real)
    requires a.time <= t <= b.time && a.time < b.time
    ensures a.value <= b.value ==> a.value <= Lerp(a, b, t) <= b.value
    ensures b.value <= a.value ==> b.value <= Lerp(a, b, t) <= a.value
  {
    var f := (t - a.time) / (b.time - a.time);
    DivWithinUnit(t - a.time, b.time - a.time);
    if a.value <= b.value {
      ScaleWithinUnit(b.value - a.value, f);
    } else {
      ScaleWithinUnit(a.value - b.value, f);
      assert (b.value - a.value) * f == -((a.value - b.value) * f);
    }
  }

  /** With strictly increasing times the curve passes through every keyframe. */
  lemma CurvePassesThroughKeyframes(s: seq<Keyframe>, i: int)
    requires forall a, b :: 0 <= a < b < |s| ==> s[a].time < s[b].time
    requires 0 <= i < |s|
    ensures CurveFactor(s, s[i].time) == s[i].value
  {
    var t := s[i].time;
    if 0 < i < |s| - 1 {
      assert InSegment(s, t, i);
      InteriorIsInterpolation(s, t, i);
    }
  }

  /** The keyframes the curve is evaluated on: the layer's list sorted. The
      first and last entries of the sorted list are keyframes of the layer
      with the least and the greatest time. */
  lemma SortedEnds(ks: seq<Keyframe>)
    requires |ks| > 0
    ensures var s := SortByTime(ks);
            && s[0] in ks && s[|s| - 1] in ks
            && forall k | k in ks :: s[0].time <= k.time <= s[|s| - 1].time
  {
    var s := SortByTime(ks);
    SortByTimeSorted(ks);
    assert s[0] in multiset(s) && s[|s| - 1] in multiset(s);
    forall k | k in ks
      ensures s[0].time <= k.time <= s[|s| - 1].time
    {
      assert k in multiset(ks);
      assert k in multiset(s);
      var j :| 0 <= j < |s| && s[j] == k;
    }
  }

  /** The boundary rule stated on the layer's own keyframes: at or before the
      earliest time the curve holds the value of an earliest keyframe; at or
      after the latest time, and past the earliest, it holds the value of a
      latest keyframe. */
  lemma CurveOutsideRange(ks: seq<Keyframe>, t: real)
    requires |ks| > 0
    ensures var s := SortByTime(ks);
            && ((forall k | k in ks :: t <= k.time) ==> CurveFactor(s, t) == s[0].value)
            && ((forall k | k in ks :: t >= k.time) && !(forall k | k in ks :: t <= k.time)
                ==> CurveFactor(s, t) == s[|s| - 1].value)
  {
    SortedEnds(ks);
    SortByTimeSorted(ks);
    var s := SortByTime(ks);
    if (forall k | k in ks :: t >= k.time) && !(forall k | k in ks :: t <= k.time) {
      var k0 :| k0 in ks && t > k0.time;
      assert t > s[0].time;
      assert t >= s[|s| - 1].time;
    }
  }
}
