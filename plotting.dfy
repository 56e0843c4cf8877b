/** The rows that `plot_tsb_ctl_atl` of `modules/plotting.py` draws: the
    chronic and acute training loads of the latest days, and the training
    stress balance of each day, which is the previous day's form. The frame of
    loads comes from `get_ctl_and_atl_dataframe`, which is not part of this
    model, so it is a parameter here. */
module Plotting {
  import opened Wrappers
  import opened Sorting

  /** A row of the frame of training loads. */
  datatype LoadRow = LoadRow(date: int, ctl: real, atl: real)

  /** A plotted row: the loads of the day and its stress balance. */
  datatype TsbRow = TsbRow(date: int, ctl: real, atl: real, tsb: real)

  function LoadDate(r: LoadRow): int { r.date }

  function TsbDate(r: TsbRow): int { r.date }

  /** The form of a day: chronic minus acute load. */
  function Form(r: LoadRow): real { r.ctl - r.atl }

  /** The loads of a plotted row. */
  function LoadsOf(r: TsbRow): LoadRow { LoadRow(r.date, r.ctl, r.atl) }

  /** `head(n)`: the first `n` rows, or all of them when there are fewer. */
  function Head<T>(xs: seq<T>, n: nat): (r: seq<T>)
    ensures |r| == if |xs| < n then |xs| else n
    ensures r == xs[..|r|]
  {
    if |xs| <= n then xs else xs[..n]
  }

  /** The first 43 rows, oldest first. */
  function Ascending(frame: seq<LoadRow>): (r: seq<LoadRow>)
    ensures |r| == |Head(frame, 43)| && multiset(r) == multiset(Head(frame, 43))
  {
    SortBy(Head(frame, 43), LoadDate, false)
  }

  /** The stress balance column: `0` and then each earlier row's form, so
      one entry more than rows when there are none. */
  function TsbColumn(rows: seq<LoadRow>): (tsb: seq<real>)
    ensures |tsb| == if rows == [] then 1 else |rows|
    ensures tsb[0] == 0.0 && forall i :: 1 <= i < |rows| ==> tsb[i] == Form(rows[i - 1])
  {
    [0.0] + seq(if rows == [] then 0 else |rows| - 1, i requires 0 <= i < |rows| - 1 => Form(rows[i]))
  }

  /** Assigning the column to the frame. */
  function WithTsb(rows: seq<LoadRow>, tsb: seq<real>): (r: seq<TsbRow>)
    requires |tsb| == |rows|
    ensures |r| == |rows|
    ensures forall i :: 0 <= i < |rows| ==> LoadsOf(r[i]) == rows[i] && r[i].tsb == tsb[i]
  {
    seq(|rows|, i requires 0 <= i < |rows| => TsbRow(rows[i].date, rows[i].ctl, rows[i].atl, tsb[i]))
  }

  /** What the chart draws. On a frame with rows, the column is assigned
      row by row and every plotted row keeps its loads. On a frame without
      rows, pandas takes the frame's index from the assigned list, so the
      frame gets one row per entry of it whose date and loads are NaN; the
      later sort and `head(42)` keep those rows. `LoadsMissing` holds the
      stress balance of such rows. */
  datatype Chart = Plotted(rows: seq<TsbRow>) | LoadsMissing(tsb: seq<real>)

  /** `plot_tsb_ctl_atl` up to the figure: the rows it plots, newest first.
      An empty frame gets the one-entry column `[0]`, and so one row of NaN
      date and loads whose stress balance is 0. */
  function PlotRows(frame: seq<LoadRow>): (r: Chart)
    ensures r.LoadsMissing? <==> frame == []
    ensures r.LoadsMissing? ==> r.tsb == [0.0]
  {
    var plot := Ascending(frame);
    var tsb := TsbColumn(plot);
    if |tsb| != |plot| then LoadsMissing(Head(tsb, 42))
    else Plotted(Head(SortBy(WithTsb(plot, tsb), TsbDate, true), 42))
  }

  /** The first 43 rows, oldest first, with their stress balance. */
  function Tagged(frame: seq<LoadRow>): (r: seq<TsbRow>)
    requires frame != []
    ensures |r| == |Head(frame, 43)|
  {
    WithTsb(Ascending(frame), TsbColumn(Ascending(frame)))
  }

  /** At most 42 rows are plotted, newest first, each the loads of one of
      the first 43 rows of the frame. */
  lemma PlotRowsShape(frame: seq<LoadRow>)
    requires frame != []
    ensures var rows := PlotRows(frame).rows;
            |rows| == (if |frame| < 42 then |frame| else 42) &&
            SortedBy(rows, TsbDate, true) &&
            forall k :: 0 <= k < |rows| ==> LoadsOf(rows[k]) in Head(frame, 43)
  {
    var tagged := Tagged(frame);
    var sorted := SortBy(tagged, TsbDate, true);
    SortBySorted(tagged, TsbDate, true);
    var rows := Head(sorted, 42);
    assert rows == PlotRows(frame).rows;
    forall k | 0 <= k < |rows| ensures LoadsOf(rows[k]) in Head(frame, 43) {
      assert rows[k] == sorted[k];
      assert sorted[k] in multiset(tagged);
      var m :| 0 <= m < |tagged| && tagged[m] == sorted[k];
      TaggedFromHead(frame, m);
    }
  }

  /** Every tagged row carries the loads of one of the first 43 rows. */
  lemma TaggedFromHead(frame: seq<LoadRow>, m: nat)
    requires frame != [] && m < |Tagged(frame)|
    ensures LoadsOf(Tagged(frame)[m]) in Head(frame, 43)
  {
    var plot := Ascending(frame);
    assert LoadsOf(Tagged(frame)[m]) == plot[m];
    assert plot[m] in multiset(Head(frame, 43));
  }

  /** The rows in reverse order. */
  function Reverse<T>(xs: seq<T>): (r: seq<T>)
    ensures |r| == |xs|
    ensures forall k :: 0 <= k < |xs| ==> r[k] == xs[|xs| - 1 - k]
    ensures multiset(r) == multiset(xs)
  {
    if xs == [] then []
    else
      assert xs == xs[..|xs| - 1] + [xs[|xs| - 1]];
      [xs[|xs| - 1]] + Reverse(xs[..|xs| - 1])
  }

  /** Sorting rows that are oldest first, with no key twice, newest first
      reverses them. */
  lemma SortDescendingReverses<T>(xs: seq<T>, key: T -> int)
    requires SortedBy(xs, key, false) && KeysDistinct(xs, key)
    ensures SortBy(xs, key, true) == Reverse(xs)
  {
    var rev := Reverse(xs);
    assert SortedBy(rev, key, true) by {
      forall i, j | 0 <= i < j < |rev| ensures InOrder(key(rev[i]), key(rev[j]), true) {
        assert rev[i] == xs[|xs| - 1 - i] && rev[j] == xs[|xs| - 1 - j];
      }
    }
    assert KeysDistinct(rev, key) by {
      forall i, j | 0 <= i < j < |rev| ensures key(rev[i]) != key(rev[j]) {
        assert rev[i] == xs[|xs| - 1 - i] && rev[j] == xs[|xs| - 1 - j];
      }
    }
    SortBySorted(xs, key, true);
    SortedPermutationsEqual(rev, SortBy(xs, key, true), key, true);
  }

  /** Assigning a column keeps the rows' dates, so their order. */
  lemma WithTsbKeepsDates(rows: seq<LoadRow>, tsb: seq<real>)
    requires |tsb| == |rows| && SortedBy(rows, LoadDate, false) && KeysDistinct(rows, LoadDate)
    ensures SortedBy(WithTsb(rows, tsb), TsbDate, false) && KeysDistinct(WithTsb(rows, tsb), TsbDate)
  {
    var tagged := WithTsb(rows, tsb);
    assert forall i :: 0 <= i < |tagged| ==> TsbDate(tagged[i]) == LoadDate(rows[i]);
  }

  /** The first 43 rows, oldest first, keep their dates distinct. */
  lemma AscendingOldestFirst(frame: seq<LoadRow>)
    requires KeysDistinct(Head(frame, 43), LoadDate)
    ensures SortedBy(Ascending(frame), LoadDate, false) && KeysDistinct(Ascending(frame), LoadDate)
  {
    SortBySorted(Head(frame, 43), LoadDate, false);
    KeysDistinctPermuted(Head(frame, 43), Ascending(frame), LoadDate);
  }

  /** With no date twice among the first 43 rows, the plotted rows are those
      rows newest first, less the oldest when there are 43. */
  lemma PlotRowsReversed(frame: seq<LoadRow>)
    requires frame != [] && KeysDistinct(Head(frame, 43), LoadDate)
    ensures PlotRows(frame).rows == Head(Reverse(Tagged(frame)), 42)
  {
    AscendingOldestFirst(frame);
    WithTsbKeepsDates(Ascending(frame), TsbColumn(Ascending(frame)));
    SortDescendingReverses(Tagged(frame), TsbDate);
  }

  /** The one-day lag: with no date twice among the first 43 rows, each
      plotted row's stress balance is the form of the row plotted after it,
      which is the day before, and the oldest plotted row has balance 0 when
      the frame has at most 42 rows. */
  lemma PlotRowsLag(frame: seq<LoadRow>)
    requires frame != [] && KeysDistinct(Head(frame, 43), LoadDate)
    ensures var rows := PlotRows(frame).rows;
            forall k :: 0 <= k < |rows| - 1 ==> rows[k].tsb == Form(LoadsOf(rows[k + 1]))
    ensures |frame| <= 42 ==> PlotRows(frame).rows[|frame| - 1].tsb == 0.0
  {
    PlotRowsReversed(frame);
    var rows := PlotRows(frame).rows;
    var plot := Ascending(frame);
    var n := |plot|;
    forall k | 0 <= k < |rows| - 1 ensures rows[k].tsb == Form(LoadsOf(rows[k + 1])) {
      ReversedRowAt(frame, rows, k);
      ReversedRowAt(frame, rows, k + 1);
      var i := n - 1 - k;
      assert 1 <= i < n && i - 1 == n - 1 - (k + 1);
      assert rows[k].tsb == TsbColumn(plot)[i] == Form(plot[i - 1]);
    }
    if |frame| <= 42 {
      assert |rows| == |frame| == n;
      ReversedRowAt(frame, rows, |frame| - 1);
      assert n - 1 - (|frame| - 1) == 0;
    }
  }

  /** Row `k` of the first 42 tagged rows, newest first, is the `k`-th
      newest of the first 43 rows, with its stress balance. */
  lemma ReversedRowAt(frame: seq<LoadRow>, rows: seq<TsbRow>, k: nat)
    requires frame != [] && rows == Head(Reverse(Tagged(frame)), 42) && k < |rows|
    ensures var n := |Ascending(frame)|;
            k < n &&
            LoadsOf(rows[k]) == Ascending(frame)[n - 1 - k] &&
            rows[k].tsb == TsbColumn(Ascending(frame))[n - 1 - k]
  {
    var tagged := Tagged(frame);
    var plot := Ascending(frame);
    assert |tagged| == |plot|;
    HeadOfReverseAt(tagged, 42, k);
    var i := |tagged| - 1 - k;
    TaggedAt(frame, i);
    assert rows[k] == tagged[i];
  }

  /** Row `k` of the first `n` of the rows reversed is the `k`-th from the
      end. */
  lemma HeadOfReverseAt<T>(xs: seq<T>, n: nat, k: nat)
    requires k < |Head(Reverse(xs), n)|
    ensures k < |xs| && Head(Reverse(xs), n)[k] == xs[|xs| - 1 - k]
  {
    assert Head(Reverse(xs), n)[k] == Reverse(xs)[k];
  }

  /** Tagged row `i` is row `i` of the first 43, oldest first, with its
      stress balance. */
  lemma TaggedAt(frame: seq<LoadRow>, i: nat)
    requires frame != [] && i < |Tagged(frame)|
    ensures i < |Ascending(frame)| &&
            LoadsOf(Tagged(frame)[i]) == Ascending(frame)[i] &&
            Tagged(frame)[i].tsb == TsbColumn(Ascending(frame))[i]
  {
  }

  /** The first of the rows in ascending key order has the least key. */
  lemma FirstIsLeast<T>(sorted: seq<T>, xs: seq<T>, key: T -> int)
    requires sorted != [] && multiset(sorted) == multiset(xs) && SortedBy(sorted, key, false)
    ensures sorted[0] in xs && forall r :: r in xs ==> key(sorted[0]) <= key(r)
  {
    assert sorted[0] in multiset(xs);
    forall r | r in xs ensures key(sorted[0]) <= key(r) {
      assert r in multiset(sorted);
      var m :| 0 <= m < |sorted| && sorted[m] == r;
      if m > 0 {
        assert InOrder(key(sorted[0]), key(sorted[m]), false);
      }
    }
  }

  /** With 43 or more rows, plotted row `k` is the row `42 - k` of the
      first 43, oldest first. */
  lemma PlotRowsPositions(frame: seq<LoadRow>)
    requires |frame| >= 43 && KeysDistinct(Head(frame, 43), LoadDate)
    ensures |PlotRows(frame).rows| == 42 && |Ascending(frame)| == 43
    ensures forall k :: 0 <= k < 42 ==>
              LoadsOf(PlotRows(frame).rows[k]) == Ascending(frame)[42 - k] &&
              PlotRows(frame).rows[k].tsb == TsbColumn(Ascending(frame))[42 - k]
  {
    PlotRowsReversed(frame);
    var plot := Ascending(frame);
    assert |plot| == 43;
    ReversedPositions(PlotRows(frame).rows, plot, TsbColumn(plot));
  }

  /** The first 42 of 43 tagged rows, last first. */
  lemma ReversedPositions(rows: seq<TsbRow>, plot: seq<LoadRow>, tsb: seq<real>)
    requires |plot| == 43 && |tsb| == 43 && rows == Head(Reverse(WithTsb(plot, tsb)), 42)
    ensures |rows| == 42
    ensures forall k :: 0 <= k < 42 ==> LoadsOf(rows[k]) == plot[42 - k] && rows[k].tsb == tsb[42 - k]
  {
    var tagged := WithTsb(plot, tsb);
    HeadOfReverse(tagged, 42);
    forall k | 0 <= k < 42 ensures LoadsOf(rows[k]) == plot[42 - k] && rows[k].tsb == tsb[42 - k] {
      assert rows[k] == tagged[42 - k];
    }
  }

  /** All but the first of `n + 1` rows, last first. */
  lemma HeadOfReverse<T>(xs: seq<T>, n: nat)
    requires |xs| == n + 1
    ensures |Head(Reverse(xs), n)| == n
    ensures forall k :: 0 <= k < n ==> Head(Reverse(xs), n)[k] == xs[n - k]
  {
    var rev := Reverse(xs);
    assert Head(rev, n) == rev[..n];
  }

  /** With 43 or more rows, the oldest of the first 43 is not plotted but
      lends its form to the oldest plotted row. */
  lemma PlotRowsDropOldest(frame: seq<LoadRow>)
    requires |frame| >= 43 && KeysDistinct(Head(frame, 43), LoadDate)
    ensures var rows := PlotRows(frame).rows;
            exists oldest :: oldest in Head(frame, 43) &&
              (forall r :: r in Head(frame, 43) ==> oldest.date <= r.date) &&
              rows[41].tsb == Form(oldest) &&
              forall k :: 0 <= k < |rows| ==> rows[k].date != oldest.date
  {
    PlotRowsPositions(frame);
    AscendingOldestFirst(frame);
    var plot := Ascending(frame);
    var rows := PlotRows(frame).rows;
    var oldest := plot[0];
    FirstIsLeast(plot, Head(frame, 43), LoadDate);
    assert rows[41].tsb == TsbColumn(plot)[1] == Form(oldest);
    forall k | 0 <= k < |rows| ensures rows[k].date != oldest.date {
      assert LoadsOf(rows[k]) == plot[42 - k];
      assert LoadDate(plot[0]) != LoadDate(plot[42 - k]);
    }
  }
}
