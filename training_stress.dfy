/** The training-load curves of `modules/training_stress_balance_functions.py`:
    exponentially weighted moving averages of the daily stress, chronic over
    42 days and acute over 7. */
module TrainingStress {
  import opened Wrappers
  import opened Hub
  import opened DataFunctions
  import UniversalFunctions

  /** `ALPHA_CTL = 2 / (42 + 1)`. */
  const AlphaCtl: real := 2.0 / 43.0
  /** `ALPHA_ATL = 2 / (7 + 1)`. */
  const AlphaAtl: real := 2.0 / 8.0

  /** Both smoothing factors are proper fractions, the acute one the larger. */
  lemma AlphasInRange()
    ensures 0.0 < AlphaCtl < AlphaAtl < 1.0
  {
  }

  /** `out` is the moving average of `xs`: it starts at the first value, and
      every later entry weighs the new value by `alpha` and the entry before
      by `1 - alpha`. */
  ghost predicate IsEwma(xs: seq<real>, out: seq<real>, alpha: real)
  {
    |out| == |xs| &&
    (|xs| > 0 ==> out[0] == xs[0]) &&
    forall i :: 1 <= i < |xs| ==> out[i] == Blend(alpha, xs[i], out[i - 1])
  }

  /** One step of the average: `alpha * value + (1 - alpha) * previous`. */
  function Blend(alpha: real, value: real, previous: real): real
  {
    alpha * value + (1.0 - alpha) * previous
  }

  /** `calculate_ewma`: fills a zeroed array left to right. An empty input
      raises `IndexError` at `array[0]`. */
  method CalculateEwma(xs: seq<real>, alpha: real) returns (r: Result<seq<real>>)
    ensures r.Err? <==> xs == []
    ensures r.Err? ==> r.error == IndexError
    ensures r.Ok? ==> IsEwma(xs, r.value, alpha)
  {
    if xs == [] {
      return Err(IndexError);
    }
    var output := new real[|xs|](_ => 0.0);
    output[0] := xs[0];
    var i := 1;
    while i < |xs|
      invariant 1 <= i <= |xs|
      invariant output[0] == xs[0]
      invariant forall j :: 1 <= j < i ==> output[j] == Blend(alpha, xs[j], output[j - 1])
    {
      output[i] := Blend(alpha, xs[i], output[i - 1]);
      i := i + 1;
    }
    var out := output[..];
    assert forall j :: 0 <= j < |xs| ==> out[j] == output[j];
    return Ok(out);
  }

  /** The recurrence leaves no choice: an input has one moving average. */
  lemma {:induction false} EwmaUnique(xs: seq<real>, a: seq<real>, b: seq<real>, alpha: real)
    requires IsEwma(xs, a, alpha) && IsEwma(xs, b, alpha)
    ensures a == b
  {
    forall i | 0 <= i < |xs| ensures a[i] == b[i] {
      EwmaAgreesUpTo(xs, a, b, alpha, i);
    }
  }

  lemma {:induction false} EwmaAgreesUpTo(xs: seq<real>, a: seq<real>, b: seq<real>, alpha: real, i: nat)
    requires IsEwma(xs, a, alpha) && IsEwma(xs, b, alpha) && i < |xs|
    ensures a[i] == b[i]
  {
    if i > 0 {
      EwmaAgreesUpTo(xs, a, b, alpha, i - 1);
    }
  }

  /** A value that stays the same keeps its average at that value. */
  lemma {:induction false} EwmaOfConstant(xs: seq<real>, out: seq<real>, alpha: real, v: real, i: nat)
    requires IsEwma(xs, out, alpha) && i < |xs|
    requires forall j :: 0 <= j < |xs| ==> xs[j] == v
    ensures out[i] == v
  {
    if i > 0 {
      EwmaOfConstant(xs, out, alpha, v, i - 1);
      assert out[i] == Blend(alpha, v, v);
    }
  }

  /** With `alpha` between 0 and 1, each average lies between the least and
      the greatest value seen so far. */
  lemma {:induction false} EwmaWithinBounds(xs: seq<real>, out: seq<real>, alpha: real, lo: real, hi: real, i: nat)
    requires IsEwma(xs, out, alpha) && 0.0 <= alpha <= 1.0 && i < |xs|
    requires forall j :: 0 <= j <= i ==> lo <= xs[j] <= hi
    ensures lo <= out[i] <= hi
  {
    if i > 0 {
      EwmaWithinBounds(xs, out, alpha, lo, hi, i - 1);
      BlendBetween(alpha, xs[i], out[i - 1], lo, hi);
    }
  }

  /** A blend of two values in a range stays in it. */
  lemma BlendBetween(alpha: real, value: real, previous: real, lo: real, hi: real)
    requires 0.0 <= alpha <= 1.0 && lo <= value <= hi && lo <= previous <= hi
    ensures lo <= Blend(alpha, value, previous) <= hi
  {
    assert alpha * lo <= alpha * value <= alpha * hi;
    assert (1.0 - alpha) * lo <= (1.0 - alpha) * previous <= (1.0 - alpha) * hi;
    assert alpha * lo + (1.0 - alpha) * lo == lo && alpha * hi + (1.0 - alpha) * hi == hi;
  }

  /** Non-negative daily stress gives non-negative training loads. */
  lemma EwmaNonNegative(xs: seq<real>, out: seq<real>, alpha: real)
    requires IsEwma(xs, out, alpha) && 0.0 <= alpha <= 1.0
    requires forall j :: 0 <= j < |xs| ==> xs[j] >= 0.0
    ensures forall i :: 0 <= i < |out| ==> out[i] >= 0.0
  {
    forall i | 0 <= i < |out| ensures out[i] >= 0.0 {
      var hi := UpperBound(xs, i);
      EwmaWithinBounds(xs, out, alpha, 0.0, hi, i);
    }
  }

  /** A value no smaller than any of `xs[..i + 1]`. */
  function UpperBound(xs: seq<real>, i: nat): (hi: real)
    requires i < |xs|
    ensures forall j :: 0 <= j <= i ==> xs[j] <= hi
  {
    if i == 0 then xs[0]
    else
      var rest := UpperBound(xs, i - 1);
      if xs[i] > rest then xs[i] else rest
  }

  /** The days from the earliest kept ride through `today`; a ride after
      today falls outside the range and is dropped. */
  function SeriesToToday(recs: seq<DatedTss>, today: int): Result<seq<real>>
  {
    if recs == [] then Err(ValueError)
    else Ok(DaySeries(recs, MinDay(recs), if today >= MinDay(recs) then today - MinDay(recs) + 1 else 0))
  }

  /** `get_daily_tss_score_array` of `modules/training_stress_balance_functions.py`
      over the rides of `hub`; `now` is the time of the call. */
  function GetDailyTssScoreArray(hub: RideHub, now: int, ftp: real, rootMeanFourth: seq<real> -> int, tss: TssFunction): Result<seq<real>>
    reads hub
  {
    var rows :- CreateRideSummaryDataFrame(hub, ftp, rootMeanFourth, tss);
    var recs :- RecentRecords(rows, now);
    SeriesToToday(recs, Day(now))
  }

  /** The series runs over consecutive days from the earliest kept ride
      through today, one total per day and 0 on a day without rides; its
      entries add up to the stress of the rides up to today. */
  lemma SeriesToTodayContents(recs: seq<DatedTss>, today: int)
    ensures recs == [] <==> SeriesToToday(recs, today) == Err(ValueError)
    ensures SeriesToToday(recs, today).Ok? && today >= MinDay(recs) ==>
              var series := SeriesToToday(recs, today).value;
              |series| == today - MinDay(recs) + 1 &&
              (forall i :: 0 <= i < |series| ==> series[i] == DayTotal(recs, MinDay(recs) + i)) &&
              UniversalFunctions.Sum(series) == TotalIn(recs, MinDay(recs), today + 1)
  {
    if recs != [] && today >= MinDay(recs) {
      DaySeriesSum(recs, MinDay(recs), today - MinDay(recs) + 1);
    }
  }

  /** When no ride is after today, the series holds the whole stress of the
      kept rides. */
  lemma SeriesToTodayConserves(recs: seq<DatedTss>, today: int)
    requires recs != [] && forall k :: 0 <= k < |recs| ==> Day(recs[k].start) <= today
    ensures UniversalFunctions.Sum(SeriesToToday(recs, today).value) == TotalTss(recs)
  {
    var k :| 0 <= k < |recs| && MinDay(recs) == Day(recs[k].start);
    assert today >= MinDay(recs);
    SeriesToTodayContents(recs, today);
    TotalInAll(recs, MinDay(recs), today + 1);
    assert SeriesToToday(recs, today).Ok?;
  }

  /** The chronic and the acute training load, day by day. */
  datatype Loads = Loads(ctl: seq<real>, atl: seq<real>)

  /** `calculate_ctl_and_atl_arrays` over a daily series: both averages of
      the same days, so of the same length. */
  method CtlAndAtlOf(daily: seq<real>) returns (r: Result<Loads>)
    ensures r.Err? <==> daily == []
    ensures r.Err? ==> r.error == IndexError
    ensures r.Ok? ==> IsEwma(daily, r.value.ctl, AlphaCtl) && IsEwma(daily, r.value.atl, AlphaAtl)
    ensures r.Ok? ==> |r.value.ctl| == |r.value.atl| == |daily|
  {
    var atl := CalculateEwma(daily, AlphaAtl);
    var ctl := CalculateEwma(daily, AlphaCtl);
    if atl.Ok? && ctl.Ok? {
      r := Ok(Loads(ctl.value, atl.value));
    } else {
      r := Err(IndexError);
    }
  }

  /** `calculate_ctl_and_atl_arrays`, over the rides of `hub`. The series
      raises as `get_daily_tss_score_array` does, and an empty one makes
      `calculate_ewma` raise `IndexError`. */
  method CalculateCtlAndAtlArrays(hub: RideHub, now: int, ftp: real, rootMeanFourth: seq<real> -> int, tss: TssFunction)
    returns (r: Result<Loads>)
    ensures GetDailyTssScoreArray(hub, now, ftp, rootMeanFourth, tss).Err? ==>
              r == Err(GetDailyTssScoreArray(hub, now, ftp, rootMeanFourth, tss).error)
    ensures GetDailyTssScoreArray(hub, now, ftp, rootMeanFourth, tss) == Ok([]) ==> r == Err(IndexError)
    ensures r.Ok? ==>
              var daily := GetDailyTssScoreArray(hub, now, ftp, rootMeanFourth, tss);
              daily.Ok? && daily.value != [] &&
              IsEwma(daily.value, r.value.ctl, AlphaCtl) && IsEwma(daily.value, r.value.atl, AlphaAtl) &&
              |r.value.ctl| == |r.value.atl| == |daily.value|
  {
    var daily := GetDailyTssScoreArray(hub, now, ftp, rootMeanFourth, tss);
    if daily.Err? {
      return Err(daily.error);
    }
    r := CtlAndAtlOf(daily.value);
  }
}
