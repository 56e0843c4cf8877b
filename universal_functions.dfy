/** Sliding-window segments and the moving average built on them
    (`modules/universal_functions.py`).

    Samples are `Option<real>`: `None` is a missing sample. The source also
    compares against NaN, but `x != nan` is true of every `x`, so that half of
    the mask removes nothing and reals need no NaN. */
module UniversalFunctions {
  import opened Wrappers

  function Min(a: int, b: int): int { if a <= b then a else b }

  /** `np.sum` of a sequence of reals. */
  function Sum(s: seq<real>): real
  {
    if s == [] then 0.0 else s[0] + Sum(s[1..])
  }

  /** The mask `array != None`: keeps every present sample, in order. */
  function DropNone(xs: seq<Option<real>>): (r: seq<real>)
    ensures |r| <= |xs|
  {
    if xs == [] then []
    else (if xs[0].Some? then [xs[0].value] else []) + DropNone(xs[1..])
  }

  /** The generator's pointer loop, one step per call: the slice
      `array[left : left + w]` (Python clamps the end to the length) while
      `left + w <= len(array) + 1`. */
  function WindowsFrom(a: seq<real>, w: nat, left: nat): seq<seq<real>>
    requires w >= 1
    decreases |a| + 1 - left
  {
    if left + w > |a| + 1 then []
    else [a[left .. Min(left + w, |a|)]] + WindowsFrom(a, w, left + 1)
  }

  /** Everything `_generate_sliding_window_segments_from_an_array` yields. */
  function SlidingWindowSegments(xs: seq<Option<real>>, w: nat): seq<seq<real>>
    requires w >= 1
  {
    WindowsFrom(DropNone(xs), w, 0)
  }

  /** The number of segments for `n` kept samples and window `w`. */
  function WindowCount(n: nat, w: nat): nat
  {
    if w <= n + 1 then n + 2 - w else 0
  }

  /** Each segment's sum divided by the window size. */
  function Averages(segs: seq<seq<real>>, w: nat): (r: seq<real>)
    requires w >= 1
    ensures |r| == |segs|
  {
    if segs == [] then [] else [Sum(segs[0]) / w as real] + Averages(segs[1..], w)
  }

  /** What `create_moving_average_array` returns. */
  function MovingAverage(xs: seq<Option<real>>, w: nat): seq<real>
    requires w >= 1
  {
    Averages(SlidingWindowSegments(xs, w), w)
  }

  // ----- the generator and the moving average as the source writes them -----

  /** `_generate_sliding_window_segments_from_an_array`, materialised: the
      while loop over `left_pointer` and `right_pointer`. */
  method GenerateSlidingWindowSegments(xs: seq<Option<real>>, w: nat) returns (segs: seq<seq<real>>)
    requires w >= 1
    ensures segs == SlidingWindowSegments(xs, w)
    ensures |segs| == WindowCount(|DropNone(xs)|, w)
    ensures forall i :: 0 <= i < |segs| ==>
              segs[i] == DropNone(xs)[i .. Min(i + w, |DropNone(xs)|)]
  {
    var a := DropNone(xs);
    var left, right := 0, w;
    segs := [];
    while right <= |a| + 1
      invariant right == left + w
      invariant left <= |a| + 1
      invariant segs + WindowsFrom(a, w, left) == WindowsFrom(a, w, 0)
      decreases |a| + 1 - left
    {
      segs := segs + [a[left .. Min(right, |a|)]];
      right := right + 1;
      left := left + 1;
    }
    SegmentsCount(a, w, 0);
    forall i | 0 <= i < |segs| ensures segs[i] == a[i .. Min(i + w, |a|)] {
      SegmentsAt(a, w, 0, i);
    }
  }

  /** `create_moving_average_array`: appends `np.sum(segment) / window_size`
      for every segment the generator yields. */
  method CreateMovingAverageArray(xs: seq<Option<real>>, w: nat) returns (out: seq<real>)
    requires w >= 1
    ensures out == MovingAverage(xs, w)
    ensures |out| == WindowCount(|DropNone(xs)|, w)
    ensures forall i :: 0 <= i < |out| ==>
              out[i] == Sum(DropNone(xs)[i .. Min(i + w, |DropNone(xs)|)]) / w as real
  {
    var segs := GenerateSlidingWindowSegments(xs, w);
    out := [];
    for k := 0 to |segs|
      invariant out + Averages(segs[k..], w) == Averages(segs, w)
    {
      assert segs[k..] == [segs[k]] + segs[k + 1..];
      out := out + [Sum(segs[k]) / w as real];
    }
    assert segs[|segs|..] == [];
    forall i | 0 <= i < |out| ensures out[i] == Sum(segs[i]) / w as real {
      AveragesAt(segs, w, i);
    }
  }

  // ----- properties -----

  /** `DropNone` distributes over concatenation, so it removes exactly the
      `None` entries and keeps the others in order. */
  lemma {:induction false} DropNoneAppend(a: seq<Option<real>>, b: seq<Option<real>>)
    ensures DropNone(a + b) == DropNone(a) + DropNone(b)
  {
    if a == [] {
      assert a + b == b;
    } else {
      var head := if a[0].Some? then [a[0].value] else [];
      assert (a + b)[0] == a[0] && (a + b)[1..] == a[1..] + b;
      assert DropNone(a + b) == head + DropNone(a[1..] + b);
      DropNoneAppend(a[1..], b);
      assert DropNone(a) == head + DropNone(a[1..]);
      assert head + (DropNone(a[1..]) + DropNone(b)) == (head + DropNone(a[1..])) + DropNone(b);
    }
  }

  /** A present sample survives the filter; a missing one does not. */
  lemma DropNoneSingleton(x: Option<real>)
    ensures DropNone([x]) == if x.Some? then [x.value] else []
  {
    assert [x][1..] == [];
  }

  /** Every kept value comes from a present sample. */
  lemma {:induction false} DropNoneFrom(xs: seq<Option<real>>, k: nat)
    requires k < |DropNone(xs)|
    ensures Some(DropNone(xs)[k]) in xs
  {
    if xs[0].Some? {
      if k > 0 { DropNoneFrom(xs[1..], k - 1); }
    } else {
      DropNoneFrom(xs[1..], k);
    }
  }

  lemma {:induction false} SegmentsCount(a: seq<real>, w: nat, left: nat)
    requires w >= 1
    ensures |WindowsFrom(a, w, left)| == if left + w <= |a| + 1 then |a| + 2 - w - left else 0
    decreases |a| + 1 - left
  {
    if left + w <= |a| + 1 { SegmentsCount(a, w, left + 1); }
  }

  lemma {:induction false} SegmentsAt(a: seq<real>, w: nat, left: nat, k: nat)
    requires w >= 1
    requires k < |WindowsFrom(a, w, left)|
    ensures left + k <= |a|
    ensures WindowsFrom(a, w, left)[k] == a[left + k .. Min(left + k + w, |a|)]
    decreases |a| + 1 - left
  {
    if k > 0 { SegmentsAt(a, w, left + 1, k - 1); }
  }

  lemma {:induction false} AveragesAt(segs: seq<seq<real>>, w: nat, k: nat)
    requires w >= 1 && k < |segs|
    ensures Averages(segs, w)[k] == Sum(segs[k]) / w as real
  {
    if k > 0 { AveragesAt(segs[1..], w, k - 1); }
  }

  /** With `n` kept samples there are `n - w + 2` segments when `w <= n + 1`
      and none otherwise; segment `i` is `a[i .. min(i + w, n)]`. */
  lemma SegmentsShape(xs: seq<Option<real>>, w: nat)
    requires w >= 1
    ensures var n := |DropNone(xs)|;
            |SlidingWindowSegments(xs, w)| == (if w <= n + 1 then n - w + 2 else 0)
    ensures forall i :: 0 <= i < |SlidingWindowSegments(xs, w)| ==>
              SlidingWindowSegments(xs, w)[i] == DropNone(xs)[i .. Min(i + w, |DropNone(xs)|)]
  {
    var a := DropNone(xs);
    SegmentsCount(a, w, 0);
    forall i | 0 <= i < |SlidingWindowSegments(xs, w)|
      ensures SlidingWindowSegments(xs, w)[i] == a[i .. Min(i + w, |a|)]
    {
      SegmentsAt(a, w, 0, i);
    }
  }

  /** Every segment is a full window of `w` samples except the last one,
      which is one sample short. */
  lemma SegmentLengths(xs: seq<Option<real>>, w: nat)
    requires w >= 1
    ensures var segs := SlidingWindowSegments(xs, w);
            (forall i :: 0 <= i < |segs| - 1 ==> |segs[i]| == w) &&
            (segs != [] ==> |segs[|segs| - 1]| == w - 1)
  {
    var a := DropNone(xs);
    var segs := SlidingWindowSegments(xs, w);
    SegmentsCount(a, w, 0);
    forall i | 0 <= i < |segs| ensures |segs[i]| == Min(i + w, |a|) - i {
      SegmentsAt(a, w, 0, i);
    }
  }

  /** A window larger than the kept samples plus one gives an empty moving
      average, without failing. */
  lemma MovingAverageEmptyWhenWindowTooLarge(xs: seq<Option<real>>, w: nat)
    requires w >= 1 && w > |DropNone(xs)| + 1
    ensures MovingAverage(xs, w) == []
  {
    SegmentsCount(DropNone(xs), w, 0);
  }

  /** Output `i` is the sum of segment `i` over the window size (also for the
      short last segment), and there is one output per segment. */
  lemma MovingAverageShape(xs: seq<Option<real>>, w: nat)
    requires w >= 1
    ensures |MovingAverage(xs, w)| == WindowCount(|DropNone(xs)|, w)
    ensures forall i :: 0 <= i < |MovingAverage(xs, w)| ==>
              MovingAverage(xs, w)[i] == Sum(DropNone(xs)[i .. Min(i + w, |DropNone(xs)|)]) / w as real
  {
    var a := DropNone(xs);
    var segs := SlidingWindowSegments(xs, w);
    SegmentsShape(xs, w);
    forall i | 0 <= i < |segs| ensures MovingAverage(xs, w)[i] == Sum(segs[i]) / w as real {
      AveragesAt(segs, w, i);
    }
  }

  lemma {:induction false} SumNonNegative(s: seq<real>)
    requires forall i :: 0 <= i < |s| ==> s[i] >= 0.0
    ensures Sum(s) >= 0.0
  {
    if s != [] { SumNonNegative(s[1..]); }
  }

  /** Non-negative samples (power is never negative) give a non-negative
      moving average. */
  lemma MovingAverageNonNegative(xs: seq<Option<real>>, w: nat)
    requires w >= 1
    requires forall i :: 0 <= i < |xs| && xs[i].Some? ==> xs[i].value >= 0.0
    ensures forall i :: 0 <= i < |MovingAverage(xs, w)| ==> MovingAverage(xs, w)[i] >= 0.0
  {
    var a := DropNone(xs);
    forall k | 0 <= k < |a| ensures a[k] >= 0.0 {
      DropNoneFrom(xs, k);
    }
    MovingAverageShape(xs, w);
    forall i | 0 <= i < |MovingAverage(xs, w)| ensures MovingAverage(xs, w)[i] >= 0.0 {
      SumNonNegative(a[i .. Min(i + w, |a|)]);
    }
  }

  // ----- the short last window -----

  /** The loop guard `right_pointer <= len(array) + 1` lets one short window
      through, still divided by the full window size: two samples of 5 with
      a window of 2 average to `[5, 2.5]`. */
  lemma ShortFinalWindowExample()
    ensures MovingAverage([Some(5.0), Some(5.0)], 2) == [5.0, 2.5]
  {
    var xs := [Some(5.0), Some(5.0)];
    DropNoneAppend([Some(5.0)], [Some(5.0)]);
    DropNoneSingleton(Some(5.0));
    assert DropNone(xs) == [5.0, 5.0];
    MovingAverageShape(xs, 2);
    var ma := MovingAverage(xs, 2);
    assert [5.0, 5.0][0..2] == [5.0, 5.0];
    assert [5.0, 5.0][1..2] == [5.0];
    assert Sum([5.0]) == 5.0 by { assert [5.0][1..] == []; }
    assert Sum([5.0, 5.0]) == 10.0 by { assert [5.0, 5.0][1..] == [5.0]; }
    assert |ma| == 2 && ma[0] == 5.0 && ma[1] == 2.5;
  }
}
