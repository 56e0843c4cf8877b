/** Normalized power from a ride's sample streams, and heart-rate zones
    (`modules/power_functions.py`). */
module PowerFunctions {
  import opened Wrappers
  import opened JsonValues
  import opened UniversalFunctions

  /** The window of the normalized-power moving average. */
  const NpWindow: nat := 30

  // ----- the moving mask -----

  /** The number of `True` flags. */
  function CountTrue(mask: seq<bool>): nat
  {
    if mask == [] then 0 else (if mask[0] then 1 else 0) + CountTrue(mask[1..])
  }

  /** Boolean indexing `watts[moving]`: the samples whose aligned flag is
      set, in their original order. */
  function MaskSelect<T>(xs: seq<T>, mask: seq<bool>): (r: seq<T>)
    requires |xs| == |mask|
    ensures |r| == CountTrue(mask)
  {
    if xs == [] then [] else (if mask[0] then [xs[0]] else []) + MaskSelect(xs[1..], mask[1..])
  }

  /** Selecting from two halves is selecting from each, so the mask keeps
      exactly the flagged samples and keeps them in order. */
  lemma {:induction false} MaskSelectAppend<T>(a: seq<T>, b: seq<T>, ma: seq<bool>, mb: seq<bool>)
    requires |a| == |ma| && |b| == |mb|
    ensures MaskSelect(a + b, ma + mb) == MaskSelect(a, ma) + MaskSelect(b, mb)
  {
    if a != [] {
      assert (a + b)[1..] == a[1..] + b;
      assert (ma + mb)[1..] == ma[1..] + mb;
      MaskSelectAppend(a[1..], b, ma[1..], mb);
    } else {
      assert a + b == b && ma + mb == mb;
    }
  }

  /** One sample is kept exactly when its flag is set. */
  lemma MaskSelectSingle<T>(x: T, flag: bool)
    ensures MaskSelect([x], [flag]) == if flag then [x] else []
  {
    assert [x][1..] == [] && [flag][1..] == [];
  }

  /** Every selected sample is a sample whose flag is set. */
  lemma {:induction false} MaskSelectFrom<T>(xs: seq<T>, mask: seq<bool>, k: nat)
    requires |xs| == |mask| && k < |MaskSelect(xs, mask)|
    ensures exists i :: 0 <= i < |xs| && mask[i] && xs[i] == MaskSelect(xs, mask)[k]
  {
    if mask[0] && k == 0 {
      assert mask[0] && xs[0] == MaskSelect(xs, mask)[k];
    } else {
      var k' := if mask[0] then k - 1 else k;
      MaskSelectFrom(xs[1..], mask[1..], k');
      var i :| 0 <= i < |xs[1..]| && mask[1..][i] && xs[1..][i] == MaskSelect(xs[1..], mask[1..])[k'];
      assert mask[i + 1] && xs[i + 1] == MaskSelect(xs, mask)[k];
    }
  }

  /** A mask of all `True` keeps every sample; one of all `False` keeps none. */
  lemma {:induction false} MaskSelectUniform<T>(xs: seq<T>, mask: seq<bool>)
    requires |xs| == |mask|
    ensures (forall i :: 0 <= i < |mask| ==> mask[i]) ==> MaskSelect(xs, mask) == xs
    ensures (forall i :: 0 <= i < |mask| ==> !mask[i]) ==> MaskSelect(xs, mask) == []
  {
    if xs != [] {
      MaskSelectUniform(xs[1..], mask[1..]);
      assert xs == [xs[0]] + xs[1..];
      if forall i :: 0 <= i < |mask| ==> mask[i] {
        assert forall i :: 0 <= i < |mask[1..]| ==> mask[1..][i] by {
          forall i | 0 <= i < |mask[1..]| ensures mask[1..][i] { assert mask[1..][i] == mask[i + 1]; }
        }
      }
      if forall i :: 0 <= i < |mask| ==> !mask[i] {
        assert forall i :: 0 <= i < |mask[1..]| ==> !mask[1..][i] by {
          forall i | 0 <= i < |mask[1..]| ensures !mask[1..][i] { assert mask[1..][i] == mask[i + 1]; }
        }
      }
    }
  }

  /** The positions of the set flags, in order: what `np.nonzero` gives. */
  function TruePositions(mask: seq<bool>): (r: seq<int>)
    ensures |r| == CountTrue(mask)
    ensures forall k :: 0 <= k < |r| ==> 0 <= r[k] < |mask| && mask[r[k]]
  {
    if mask == [] then []
    else
      var rest := TruePositions(mask[1..]);
      (if mask[0] then [0] else []) + seq(|rest|, k requires 0 <= k < |rest| => rest[k] + 1)
  }

  /** The list position numpy reads for an index into `n` samples: a
      negative index counts from the end. */
  function Wrap(i: int, n: nat): int
  {
    if i < 0 then i + n else i
  }

  /** Integer indexing `xs[at]`: the sample at each position, in the order
      of `at`, repeats included; a position outside `-n .. n - 1` is
      `IndexError`. */
  function PositionSelect<T>(xs: seq<T>, at: seq<int>): (r: Result<seq<T>>)
    ensures r.Ok? <==> forall k :: 0 <= k < |at| ==> -|xs| <= at[k] < |xs|
    ensures r.Err? ==> r.error == IndexError
    ensures r.Ok? ==> |r.value| == |at| &&
                      forall k :: 0 <= k < |at| ==> 0 <= Wrap(at[k], |xs|) < |xs| && r.value[k] == xs[Wrap(at[k], |xs|)]
  {
    if at == [] then Ok([])
    else if !(-|xs| <= at[0] < |xs|) then Err(IndexError)
    else
      match PositionSelect(xs, at[1..])
      case Err(e) => Err(e)
      case Ok(rest) =>
        assert forall k :: 1 <= k < |at| ==> at[k] == at[1..][k - 1];
        Ok([xs[Wrap(at[0], |xs|)]] + rest)
  }

  /** The sample at the `k`-th set flag is the `k`-th sample the mask keeps. */
  lemma {:induction false} TruePositionPicks<T>(xs: seq<T>, mask: seq<bool>, k: nat)
    requires |xs| == |mask| && k < CountTrue(mask)
    ensures xs[TruePositions(mask)[k]] == MaskSelect(xs, mask)[k]
  {
    var rest := TruePositions(mask[1..]);
    var shifted := seq(|rest|, j requires 0 <= j < |rest| => rest[j] + 1);
    var tail := MaskSelect(xs[1..], mask[1..]);
    assert TruePositions(mask) == (if mask[0] then [0] else []) + shifted;
    assert MaskSelect(xs, mask) == (if mask[0] then [xs[0]] else []) + tail;
    if !mask[0] || k > 0 {
      var k' := if mask[0] then k - 1 else k;
      TruePositionPicks(xs[1..], mask[1..], k');
      assert TruePositions(mask)[k] == shifted[k'] == rest[k'] + 1;
      assert MaskSelect(xs, mask)[k] == tail[k'];
      assert xs[rest[k'] + 1] == xs[1..][rest[k']];
    }
  }

  /** Boolean indexing is integer indexing by the positions of the set
      flags: `xs[mask]` and `xs[np.nonzero(mask)]` agree. */
  lemma MaskIsPositions<T>(xs: seq<T>, mask: seq<bool>)
    requires |xs| == |mask|
    ensures PositionSelect(xs, TruePositions(mask)) == Ok(MaskSelect(xs, mask))
  {
    var tp := TruePositions(mask);
    var r := PositionSelect(xs, tp);
    var m := MaskSelect(xs, mask);
    assert r.Ok?;
    forall k | 0 <= k < |m| ensures r.value[k] == m[k] {
      TruePositionPicks(xs, mask, k);
      assert Wrap(tp[k], |xs|) == tp[k];
    }
    assert r.value == m;
  }

  // ----- reading the streams -----

  /** How the array `np.array(input_dict.get('moving'))` indexes the watts:
      an array of booleans is a mask, and an array of integers (a boolean
      among integers becomes 1 or 0) picks samples by position. */
  datatype Selector = Flags(mask: seq<bool>) | Positions(at: seq<int>)

  /** A value that numpy keeps in a boolean or an integer array. */
  predicate IndexLike(j: Json)
  {
    j.JBool? || j.JInt?
  }

  /** The integer numpy stores for such a value. */
  function IndexValue(j: Json): int
    requires IndexLike(j)
  {
    if j.JInt? then j.i else if j.b then 1 else 0
  }

  /** An empty list is a float array, and floats, `None`, strings and a
      missing stream make arrays that cannot index: all `IndexError`. */
  function MovingIndex(moving: Json): (r: Result<Selector>)
    ensures r.Ok? <==> moving.JList? && moving.items != [] &&
                       forall i :: 0 <= i < |moving.items| ==> IndexLike(moving.items[i])
    ensures r.Err? ==> r.error == IndexError
    ensures r.Ok? ==> (r.value.Flags? <==> forall i :: 0 <= i < |moving.items| ==> moving.items[i].JBool?)
    ensures r.Ok? && r.value.Flags? ==>
              |r.value.mask| == |moving.items| &&
              forall i :: 0 <= i < |r.value.mask| ==> moving.items[i] == JBool(r.value.mask[i])
    ensures r.Ok? && r.value.Positions? ==>
              |r.value.at| == |moving.items| &&
              forall i :: 0 <= i < |r.value.at| ==> r.value.at[i] == IndexValue(moving.items[i])
  {
    if !moving.JList? || moving.items == [] || exists i :: 0 <= i < |moving.items| && !IndexLike(moving.items[i]) then
      Err(IndexError)
    else if forall i :: 0 <= i < |moving.items| ==> moving.items[i].JBool? then
      Ok(Flags(seq(|moving.items|, i requires 0 <= i < |moving.items| => moving.items[i].b)))
    else
      Ok(Positions(seq(|moving.items|, i requires 0 <= i < |moving.items| => IndexValue(moving.items[i]))))
  }

  /** One power sample as numpy sums it: `None` is a missing reading, a
      number is its value and a boolean counts 1 or 0; any other value makes
      `np.sum` raise `TypeError`. */
  function Sample(j: Json): (r: Result<Option<real>>)
    ensures r.Ok? <==> j.JNone? || j.JInt? || j.JFloat? || j.JBool?
    ensures r.Err? ==> r.error == TypeError
    ensures r == Ok(None) <==> j.JNone?
    ensures j.JInt? ==> r == Ok(Some(j.i as real))
    ensures j.JFloat? ==> r == Ok(Some(j.r))
    ensures j.JBool? ==> r == Ok(Some(if j.b then 1.0 else 0.0))
  {
    match j
    case JNone => Ok(None)
    case JBool(b) => Ok(Some(if b then 1.0 else 0.0))
    case JInt(i) => Ok(Some(i as real))
    case JFloat(x) => Ok(Some(x))
    case _ => Err(TypeError)
  }

  /** Every sample of a stream, or the first `TypeError`. */
  function Samples(js: seq<Json>): (r: Result<seq<Option<real>>>)
    ensures r.Ok? <==> forall i :: 0 <= i < |js| ==> Sample(js[i]).Ok?
    ensures r.Ok? ==> |r.value| == |js| && forall i :: 0 <= i < |js| ==> Sample(js[i]) == Ok(r.value[i])
    ensures r.Err? ==> r.error == TypeError
  {
    if js == [] then Ok([])
    else match Sample(js[0])
      case Err(e) => Err(e)
      case Ok(x) =>
        match Samples(js[1..])
        case Err(e) => Err(e)
        case Ok(rest) =>
          assert forall i :: 1 <= i < |js| ==> js[i] == js[1..][i - 1];
          Ok([x] + rest)
  }

  /** The number of samples that the `None` filter of the sliding window
      keeps. */
  function PresentCount(js: seq<Json>): (n: nat)
    ensures n <= |js|
  {
    if js == [] then 0 else (if js[0].JNone? then 0 else 1) + PresentCount(js[1..])
  }

  /** Reading the samples keeps exactly the present ones. */
  lemma {:induction false} PresentCountOfSamples(js: seq<Json>)
    requires Samples(js).Ok?
    ensures |DropNone(Samples(js).value)| == PresentCount(js)
  {
    if js != [] {
      var s := Samples(js).value;
      assert Samples(js[1..]).Ok? by {
        forall i | 0 <= i < |js[1..]| ensures Sample(js[1..][i]).Ok? { assert js[1..][i] == js[i + 1]; }
      }
      PresentCountOfSamples(js[1..]);
      assert s == [s[0]] + Samples(js[1..]).value;
      DropNoneAppend([s[0]], Samples(js[1..]).value);
      DropNoneSingleton(s[0]);
    }
  }

  /** `np.array(input_dict.get('watts'))[boolean_array]`: the watts taken
      while moving. A mask of another length, a position outside the list
      and a missing stream (`get` gives `None`, a 0-d array) make the
      indexing raise `IndexError`. */
  function MovingWatts(d: Dict): (r: Result<seq<Json>>)
    ensures r.Err? ==> r.error == IndexError
    ensures MovingIndex(DictGet(d, "moving")).Err? || !DictGet(d, "watts").JList? ==> r.Err?
    ensures var sel := MovingIndex(DictGet(d, "moving")); var watts := DictGet(d, "watts");
            sel.Ok? && sel.value.Flags? && watts.JList? ==>
              r == if |watts.items| == |sel.value.mask| then Ok(MaskSelect(watts.items, sel.value.mask)) else Err(IndexError)
    ensures var sel := MovingIndex(DictGet(d, "moving")); var watts := DictGet(d, "watts");
            sel.Ok? && sel.value.Positions? && watts.JList? ==>
              r == PositionSelect(watts.items, sel.value.at)
  {
    var sel :- MovingIndex(DictGet(d, "moving"));
    var watts := DictGet(d, "watts");
    if !watts.JList? then Err(IndexError)
    else match sel
      case Flags(mask) => if |watts.items| != |mask| then Err(IndexError) else Ok(MaskSelect(watts.items, mask))
      case Positions(at) => PositionSelect(watts.items, at)
  }

  // ----- normalized power -----

  /** `_convert_power_array_to_normalized_power_value` over a non-empty
      moving average. The fourth-power mean, its fourth root and the
      rounding are `rootMeanFourth`. */
  function NormalizedPower(samples: seq<Option<real>>, window: nat, rootMeanFourth: seq<real> -> int): int
    requires window >= 1
  {
    rootMeanFourth(MovingAverage(samples, window))
  }

  /** `calculate_normalized_power_from_metrics_dict`. With fewer than 29
      present moving samples no window is yielded, the mean of the empty
      average is NaN and `round` raises `ValueError`; only then are the
      samples summed, which raises `TypeError` for a value that is not a
      number. */
  function CalculateNormalizedPowerFromMetricsDict(input: Json, rootMeanFourth: seq<real> -> int): (r: Result<int>)
    ensures !input.JDict? ==> r == Err(TypeError)
    ensures input.JDict? && MovingWatts(input.fields).Err? ==> r == Err(IndexError)
    ensures input.JDict? && MovingWatts(input.fields).Ok? ==>
              (r == Err(ValueError) <==> PresentCount(MovingWatts(input.fields).value) + 1 < NpWindow)
    ensures input.JDict? && MovingWatts(input.fields).Ok? && PresentCount(MovingWatts(input.fields).value) + 1 >= NpWindow ==>
              (r.Ok? <==> Samples(MovingWatts(input.fields).value).Ok?) &&
              (r.Err? ==> r.error == TypeError)
    ensures r.Ok? ==> var samples := Samples(MovingWatts(input.fields).value).value;
                      MovingAverage(samples, NpWindow) != [] &&
                      r.value == rootMeanFourth(MovingAverage(samples, NpWindow))
  {
    if !input.JDict? then Err(TypeError)
    else
      var watts :- MovingWatts(input.fields);
      if PresentCount(watts) + 1 < NpWindow then Err(ValueError)
      else
        var samples :- Samples(watts);
        PresentCountOfSamples(watts);
        MovingAverageShape(samples, NpWindow);
        Ok(NormalizedPower(samples, NpWindow, rootMeanFourth))
  }

  /** Once the samples read, `ValueError` comes exactly from an empty moving
      average. */
  lemma EmptyAverageIsValueError(input: Json, rootMeanFourth: seq<real> -> int)
    requires input.JDict? && MovingWatts(input.fields).Ok? && Samples(MovingWatts(input.fields).value).Ok?
    ensures var samples := Samples(MovingWatts(input.fields).value).value;
            CalculateNormalizedPowerFromMetricsDict(input, rootMeanFourth) == Err(ValueError) <==>
            MovingAverage(samples, NpWindow) == []
  {
    var watts := MovingWatts(input.fields).value;
    PresentCountOfSamples(watts);
    MovingAverageShape(Samples(watts).value, NpWindow);
  }

  /** Missing readings make no difference: normalized power depends only on
      the present samples, in order. */
  lemma NormalizedPowerIgnoresMissing(samples: seq<Option<real>>, window: nat, rootMeanFourth: seq<real> -> int)
    requires window >= 1
    ensures NormalizedPower(samples, window, rootMeanFourth) ==
            NormalizedPower(Present(DropNone(samples)), window, rootMeanFourth)
  {
    DropNonePresent(DropNone(samples));
  }

  /** Every value, as a present sample. */
  function Present(xs: seq<real>): (r: seq<Option<real>>)
    ensures |r| == |xs| && forall i :: 0 <= i < |xs| ==> r[i] == Some(xs[i])
  {
    seq(|xs|, i requires 0 <= i < |xs| => Some(xs[i]))
  }

  lemma {:induction false} DropNonePresent(xs: seq<real>)
    ensures DropNone(Present(xs)) == xs
  {
    if xs != [] {
      assert Present(xs)[1..] == Present(xs[1..]);
      DropNonePresent(xs[1..]);
      assert xs == [xs[0]] + xs[1..];
    }
  }

  /** A ride that barely moves, with fewer than 29 power samples while
      moving, has an empty moving average, and its normalized power raises
      `ValueError` whatever its samples are. */
  lemma StationaryRide(input: Json, rootMeanFourth: seq<real> -> int)
    requires input.JDict? && MovingWatts(input.fields).Ok?
    requires |MovingWatts(input.fields).value| + 1 < NpWindow
    ensures CalculateNormalizedPowerFromMetricsDict(input, rootMeanFourth) == Err(ValueError)
  {
  }

  // ----- heart-rate zones -----

  /** Python's `round(x, 0)` on an exact value: the nearest integer, ties to
      the even one. */
  function RoundHalfEven(x: real): (r: int)
    ensures x - 0.5 <= r as real <= x + 0.5
    ensures (r as real == x - 0.5 || r as real == x + 0.5) ==> r % 2 == 0
  {
    var f := x.Floor;
    var frac := x - f as real;
    if frac < 0.5 then f
    else if frac > 0.5 then f + 1
    else if f % 2 == 0 then f else f + 1
  }

  /** Rounding keeps order. */
  lemma RoundHalfEvenMonotone(x: real, y: real)
    requires x <= y
    ensures RoundHalfEven(x) <= RoundHalfEven(y)
  {
  }

  /** The thresholds `round(lt * p, 0)` for the fractions 0.95, 0.89 and 0.8. */
  function Threshold(lt: int, percent: int): int
  {
    RoundHalfEven(lt as real * percent as real / 100.0)
  }

  /** `identify_heart_rate_zone`; `lt` is the lactate threshold the source
      reads from its settings module. */
  function IdentifyHeartRateZone(hr: real, lt: int): (zone: int)
    ensures 1 <= zone <= 5
    ensures hr > lt as real <==> zone == 5
    ensures zone == 4 <==> hr <= lt as real && hr >= Threshold(lt, 95) as real
  {
    if hr > lt as real then 5
    else if hr >= Threshold(lt, 95) as real then 4
    else if hr >= Threshold(lt, 89) as real then 3
    else if hr >= Threshold(lt, 80) as real then 2
    else 1
  }

  /** For a non-negative threshold the cut-offs come in order. */
  lemma ThresholdsOrdered(lt: int)
    requires lt >= 0
    ensures Threshold(lt, 80) <= Threshold(lt, 89) <= Threshold(lt, 95) <= lt
  {
    RoundHalfEvenMonotone(lt as real * 80.0 / 100.0, lt as real * 89.0 / 100.0);
    RoundHalfEvenMonotone(lt as real * 89.0 / 100.0, lt as real * 95.0 / 100.0);
  }

  /** A heart rate at the threshold itself is zone 4, and zone 1 holds
      exactly below the lowest cut-off. */
  lemma ZoneBoundaries(hr: real, lt: int)
    requires lt >= 0
    ensures IdentifyHeartRateZone(lt as real, lt) == 4
    ensures IdentifyHeartRateZone(hr, lt) == 1 <==> hr < Threshold(lt, 80) as real
    ensures IdentifyHeartRateZone(hr, lt) == 2 <==> Threshold(lt, 80) as real <= hr < Threshold(lt, 89) as real
  {
    ThresholdsOrdered(lt);
  }

  /** A higher heart rate never gives a lower zone. */
  lemma ZoneMonotone(hr1: real, hr2: real, lt: int)
    requires lt >= 0 && hr1 <= hr2
    ensures IdentifyHeartRateZone(hr1, lt) <= IdentifyHeartRateZone(hr2, lt)
  {
    ThresholdsOrdered(lt);
  }

  /** With a threshold of 170 the cut-offs are 162, 151 and 136. */
  lemma ZoneExamples()
    ensures Threshold(170, 95) == 162 && Threshold(170, 89) == 151 && Threshold(170, 80) == 136
    ensures IdentifyHeartRateZone(172.0, 170) == 5
    ensures IdentifyHeartRateZone(165.0, 170) == 4
    ensures IdentifyHeartRateZone(150.0, 170) == 2
    ensures IdentifyHeartRateZone(120.0, 170) == 1
  {
    assert (170.0 * 95.0 / 100.0).Floor == 161;
    assert (170.0 * 89.0 / 100.0).Floor == 151;
    assert (170.0 * 80.0 / 100.0).Floor == 136;
  }
}
