/** How many labels an instrument without gaps gets, and on which days. */
module LabelCounts {
  import opened Clock
  import opened Sequences
  import opened Records
  import opened Loader
  import opened Labels

  /** The instrument has exactly one close on every trading day, all of them positive. */
  ghost predicate Dense(rows: seq<RawPITRow>, i: string) {
    && (forall r :: r in rows && CloseOf(i, r) ==> r.value > 0.0)
    && (forall t :: t in AllTimes(rows) ==> exists r :: r in rows && CloseOf(i, r) && r.eventTime == t)
  }

  /** The first labelled trading day and the number of labelled days of a dense instrument. */
  function FirstLabelled(n: int, h: int): int {
    if n <= 2 * h then 1 else n - 3 * h + 1
  }

  function LabelCount(n: int, h: int): int {
    if n <= h then 0
    else if n <= 2 * h then n - h - 1
    else if n < 3 * h - 1 then 0
    else h
  }

  function LabelTimes(labels: seq<Label>): (ts: seq<Time>)
    ensures |ts| == |labels| && forall k :: 0 <= k < |labels| ==> ts[k] == labels[k].eventTime
  {
    seq(|labels|, k requires 0 <= k < |labels| => labels[k].eventTime)
  }

  function SeriesTimes(series: seq<RawPITRow>): (ts: seq<Time>)
    ensures |ts| == |series| && forall k :: 0 <= k < |series| ==> ts[k] == series[k].eventTime
  {
    seq(|series|, k requires 0 <= k < |series| => series[k].eventTime)
  }

  /** A dense instrument's series runs through the trading days one by one. */
  lemma {:induction false} DenseSeries(rows: seq<RawPITRow>, i: string)
    requires UniqueCloses(rows) && Dense(rows, i)
    ensures SeriesTimes(Series(rows, i)) == AllTimes(rows)
  {
    var series, times := Series(rows, i), AllTimes(rows);
    SeriesRows(rows, i);
    SeriesClimbs(rows, i);
    SortedDistinctIncreasing(EventTimes(rows));
    forall t ensures t in SeriesTimes(series) <==> t in times {
      if t in SeriesTimes(series) {
        var k :| 0 <= k < |series| && SeriesTimes(series)[k] == t;
        assert series[k] in series;
      }
      if t in times {
        var r :| r in rows && CloseOf(i, r) && r.eventTime == t;
        var k :| 0 <= k < |series| && series[k] == r;
        assert SeriesTimes(series)[k] == t;
      }
    }
    IncreasingUnique(SeriesTimes(series), times);
  }

  function Clip(k: int, lo: int, hi: int): int {
    if k < lo then lo else if k < hi then k else hi
  }

  lemma {:induction false} LabelTimesAppend(xs: seq<Label>, ys: seq<Label>)
    ensures LabelTimes(xs + ys) == LabelTimes(xs) + LabelTimes(ys)
  {
  }

  /** `window` holds exactly the trading days `lo..hi`. */
  ghost predicate Spans(window: seq<Time>, times: seq<Time>, lo: nat, hi: nat) {
    forall k | 0 <= k < |times| :: times[k] in window <==> lo <= k < hi
  }

  lemma {:induction false} SliceSpans(times: seq<Time>, lo: nat, hi: nat)
    requires Increasing(times) && lo <= hi <= |times|
    ensures Spans(times[lo..hi], times, lo, hi)
  {
    forall k | 0 <= k < |times| ensures times[k] in times[lo..hi] <==> lo <= k < hi {
      if lo <= k < hi {
        assert times[lo..hi][k - lo] == times[k];
      }
    }
  }

  function IfWithin(times: seq<Time>, lo: nat, hi: nat, k: nat): seq<Time>
    requires k < |times|
  {
    if lo <= k < hi then [times[k]] else []
  }

  lemma {:induction false} DenseStep(series: seq<RawPITRow>, times: seq<Time>, window: seq<Time>, lo: nat, hi: nat, h: nat, k: nat)
    requires k + h < |series| && SeriesTimes(series) == times && Spans(window, times, lo, hi)
    requires series[k].value > 0.0
    ensures LabelTimes(LabelsUpTo(series, window, h, k + 1)) == LabelTimes(LabelsUpTo(series, window, h, k)) + IfWithin(times, lo, hi, k)
  {
    assert times[k] == series[k].eventTime;
    LabelTimesAppend(LabelsUpTo(series, window, h, k), LabelAt(series, window, h, k));
  }

  lemma {:induction false} ClipStep(times: seq<Time>, lo: nat, hi: nat, n: nat)
    requires lo <= hi <= |times| && n < |times|
    ensures times[lo..Clip(n + 1, lo, hi)] == times[lo..Clip(n, lo, hi)] + IfWithin(times, lo, hi, n)
  {
  }

  /** The trading days among the first `n` that lie in `lo..hi`. */
  function WithinUpTo(times: seq<Time>, lo: nat, hi: nat, n: nat): seq<Time>
    requires n <= |times|
  {
    if n == 0 then [] else WithinUpTo(times, lo, hi, n - 1) + IfWithin(times, lo, hi, n - 1)
  }

  lemma {:induction false} WithinIsSlice(times: seq<Time>, lo: nat, hi: nat, n: nat)
    requires lo <= hi <= |times| && n <= |times|
    ensures WithinUpTo(times, lo, hi, n) == times[lo..Clip(n, lo, hi)]
  {
    if n > 0 {
      WithinIsSlice(times, lo, hi, n - 1);
      ClipStep(times, lo, hi, n - 1);
    }
  }

  /** On a dense series the labels start at the trading days of the window that have a partner. */
  lemma {:induction false} DenseLabels(series: seq<RawPITRow>, times: seq<Time>, window: seq<Time>, lo: nat, hi: nat, h: nat, n: nat)
    requires (n > 0 ==> n - 1 + h < |series|) && n <= |times|
    requires SeriesTimes(series) == times && Spans(window, times, lo, hi)
    requires forall k :: 0 <= k < |series| ==> series[k].value > 0.0
    ensures LabelTimes(LabelsUpTo(series, window, h, n)) == WithinUpTo(times, lo, hi, n)
  {
    if n > 0 {
      DenseLabels(series, times, window, lo, hi, h, n - 1);
      DenseStep(series, times, window, lo, hi, h, n - 1);
    }
  }

  /** The days a dense instrument is labelled on, given the number of trading days and the horizon. */
  function LabelledDays(times: seq<Time>, h: int): seq<Time>
    requires h >= 1
  {
    var lo, count := FirstLabelled(|times|, h), LabelCount(|times|, h);
    if count == 0 then [] else times[lo..lo + count]
  }

  lemma {:induction false} WindowArithmetic(n: nat, h: int)
    requires h >= 1 && n > 0
    ensures var d := DecisionPosition(n, h);
            var lo, hi := Bound(d - h + 1, n), Bound(d + 1, n);
            var last := Clip(if n <= h then 0 else n - h, lo, hi);
            if lo <= hi then last - lo == LabelCount(n, h) && (lo < last ==> lo == FirstLabelled(n, h))
            else LabelCount(n, h) == 0
  {
  }

  /** The window as a range of trading days, and the part of it that gets labelled. */
  lemma {:induction false} WindowRange(times: seq<Time>, h: int) returns (lo: nat, hi: nat)
    requires h >= 1 && times != []
    ensures lo <= hi <= |times| && Window(times, h, DecisionPosition(|times|, h)) == times[lo..hi]
    ensures LabelledDays(times, h) == times[lo..Clip(if |times| <= h then 0 else |times| - h, lo, hi)]
  {
    var n, d := |times|, DecisionPosition(|times|, h);
    WindowArithmetic(n, h);
    lo, hi := Bound(d - h + 1, n), Bound(d + 1, n);
    if lo > hi {
      lo, hi := 0, 0;
    }
  }

  lemma {:induction false} DenseWindow(series: seq<RawPITRow>, times: seq<Time>, h: int)
    requires SeriesTimes(series) == times && Increasing(times) && h >= 1 && times != []
    requires forall k :: 0 <= k < |series| ==> series[k].value > 0.0
    ensures LabelTimes(SeriesLabels(series, Window(times, h, DecisionPosition(|times|, h)), h)) == LabelledDays(times, h)
  {
    var lo, hi := WindowRange(times, h);
    SliceSpans(times, lo, hi);
    DenseLabels(series, times, Window(times, h, DecisionPosition(|times|, h)), lo, hi, h, Starts(series, h));
    WithinIsSlice(times, lo, hi, Starts(series, h));
  }

  lemma {:induction false} DensePositive(rows: seq<RawPITRow>, i: string)
    requires Dense(rows, i)
    ensures forall k :: 0 <= k < |Series(rows, i)| ==> Series(rows, i)[k].value > 0.0
  {
    SeriesRows(rows, i);
    assert forall k :: 0 <= k < |Series(rows, i)| ==> Series(rows, i)[k] in Series(rows, i);
  }

  /** Completeness: a dense instrument is labelled on exactly `LabelCount` consecutive trading days. Between
      `2h + 1` and `3h - 2` trading days the slice start is negative and nothing is labelled. */
  lemma {:induction false} DenseInstrumentIsLabelled(rows: seq<RawPITRow>, h: int, s: LabelSnapshot, i: string)
    requires UniqueCloses(rows) && Dense(rows, i) && h >= 1 && IsLabelSnapshot(rows, h, s)
    ensures var window := Window(AllTimes(rows), h, Place(AllTimes(rows), s.decisionTime));
            LabelTimes(SeriesLabels(Series(rows, i), window, h)) == LabelledDays(AllTimes(rows), h)
  {
    SortedDistinctIncreasing(EventTimes(rows));
    DenseSeries(rows, i);
    DensePositive(rows, i);
    DecisionPlace(AllTimes(rows), h);
    DenseWindow(Series(rows, i), AllTimes(rows), h);
  }

  function OwnLabels(labels: seq<Label>, i: string): seq<Label> {
    Filter(labels, (l: Label) => l.instrumentId == i)
  }

  lemma {:induction false} OwnSeriesLabels(rows: seq<RawPITRow>, window: seq<Time>, h: nat, j: string, i: string)
    ensures OwnLabels(SeriesLabels(Series(rows, j), window, h), i) == if i == j then SeriesLabels(Series(rows, j), window, h) else []
  {
    var series := Series(rows, j);
    var labels := SeriesLabels(series, window, h);
    forall l | l in labels ensures l.instrumentId == j {
      var k := InLabelsUpTo(series, window, h, Starts(series, h), l);
      SeriesRows(rows, j);
      assert series[k] in series;
    }
    if i == j {
      FilterAll(labels, (l: Label) => l.instrumentId == i);
    } else {
      FilterNone(labels, (l: Label) => l.instrumentId == i);
    }
  }

  lemma {:induction false} OwnLabelsAppend(xs: seq<Label>, ys: seq<Label>, i: string)
    ensures OwnLabels(xs + ys, i) == OwnLabels(xs, i) + OwnLabels(ys, i)
  {
    FilterAppend(xs, ys, (l: Label) => l.instrumentId == i);
  }

  /** The labels of the snapshot that belong to an instrument are those of its series. */
  lemma {:induction false} LabelsOfInstrument(rows: seq<RawPITRow>, window: seq<Time>, h: nat, instruments: seq<string>, i: string)
    requires Distinct(instruments)
    ensures OwnLabels(LabelsOf(rows, window, h, instruments), i)
         == if i in instruments then SeriesLabels(Series(rows, i), window, h) else []
  {
    if instruments == [] {
      FilterNone([], (l: Label) => l.instrumentId == i);
    } else {
      var n := |instruments| - 1;
      LabelsOfInstrument(rows, window, h, instruments[..n], i);
      OwnSeriesLabels(rows, window, h, instruments[n], i);
      OwnLabelsAppend(LabelsOf(rows, window, h, instruments[..n]), SeriesLabels(Series(rows, instruments[n]), window, h), i);
      SplitLast(instruments);
    }
  }

  /** The labels of a dense instrument in the snapshot start on exactly its `LabelCount` labelled days; there
      are `h` of them iff there are more than `2h` trading days and at least `3h - 1`. */
  lemma {:induction false} DenseLabelCount(rows: seq<RawPITRow>, h: int, s: LabelSnapshot, i: string)
    requires UniqueCloses(rows) && Dense(rows, i) && h >= 1 && IsLabelSnapshot(rows, h, s)
    ensures LabelTimes(OwnLabels(s.rows, i)) == LabelledDays(AllTimes(rows), h)
    ensures |OwnLabels(s.rows, i)| == LabelCount(|AllTimes(rows)|, h)
    ensures |OwnLabels(s.rows, i)| == h <==> |AllTimes(rows)| > 2 * h && |AllTimes(rows)| >= 3 * h - 1
  {
    DenseInstrumentIsLabelled(rows, h, s, i);
    DenseIsListed(rows, i, s.decisionTime);
    SnapshotLabelsOf(rows, h, s, i);
    CountLabelledDays(OwnLabels(s.rows, i), AllTimes(rows), h);
  }

  lemma {:induction false} SnapshotLabelsOf(rows: seq<RawPITRow>, h: int, s: LabelSnapshot, i: string)
    requires h >= 1 && IsLabelSnapshot(rows, h, s) && i in Instruments(rows)
    ensures OwnLabels(s.rows, i) == SeriesLabels(Series(rows, i), Window(AllTimes(rows), h, Place(AllTimes(rows), s.decisionTime)), h)
  {
    LabelsOfInstrument(rows, Window(AllTimes(rows), h, Place(AllTimes(rows), s.decisionTime)), h, Instruments(rows), i);
  }

  lemma {:induction false} CountLabelledDays(labels: seq<Label>, times: seq<Time>, h: int)
    requires h >= 1 && LabelTimes(labels) == LabelledDays(times, h)
    ensures |labels| == LabelCount(|times|, h)
  {
  }

  lemma {:induction false} DenseIsListed(rows: seq<RawPITRow>, i: string, t: Time)
    requires Dense(rows, i) && t in AllTimes(rows)
    ensures i in Instruments(rows)
  {
    var r :| r in rows && CloseOf(i, r) && r.eventTime == t;
  }

  /** The window is empty exactly between `2h + 1` and `3h - 2` trading days, where the start of its slice is
      negative and counts from the end. */
  lemma {:induction false} WindowEmptyIff(times: seq<Time>, h: int)
    requires h >= 1 && times != []
    ensures Window(times, h, DecisionPosition(|times|, h)) == [] <==> 2 * h < |times| < 3 * h - 1
  {
    var n, d := |times|, DecisionPosition(|times|, h);
    BoundsMeetIff(n, h);
    var lo, hi := Bound(d - h + 1, n), Bound(d + 1, n);
    if lo <= hi {
      assert |Slice(times, d - h + 1, d + 1)| == hi - lo;
    }
  }

  lemma {:induction false} BoundsMeetIff(n: nat, h: int)
    requires h >= 1 && n > 0
    ensures var d := DecisionPosition(n, h);
            Bound(d - h + 1, n) >= Bound(d + 1, n) <==> 2 * h < n < 3 * h - 1
  {
  }

  lemma {:induction false} NoSeriesLabels(series: seq<RawPITRow>, h: nat, n: nat)
    requires n > 0 ==> n - 1 + h < |series|
    ensures LabelsUpTo(series, [], h, n) == []
  {
    if n > 0 {
      NoSeriesLabels(series, h, n - 1);
    }
  }

  lemma {:induction false} NoLabelsOf(rows: seq<RawPITRow>, h: nat, instruments: seq<string>)
    ensures LabelsOf(rows, [], h, instruments) == []
  {
    if instruments != [] {
      var n := |instruments| - 1;
      NoLabelsOf(rows, h, instruments[..n]);
      var series := Series(rows, instruments[n]);
      NoSeriesLabels(series, h, Starts(series, h));
    }
  }

  /** With that many trading days nothing is labelled, whatever the rows. */
  lemma {:induction false} TooFewDaysNoLabels(rows: seq<RawPITRow>, h: int, s: LabelSnapshot)
    requires IsLabelSnapshot(rows, h, s) && 2 * h < |AllTimes(rows)| < 3 * h - 1
    ensures s.rows == []
  {
    var times := AllTimes(rows);
    SortedDistinctIncreasing(EventTimes(rows));
    DecisionPlace(times, h);
    WindowEmptyIff(times, h);
    NoLabelsOf(rows, h, Instruments(rows));
  }
}
