/** When a label of `build_label_snapshot` leaks: exactly which rows make a label's return end at or before
    the decision time. */
module LabelLeaks {
  import opened Wrappers
  import opened Clock
  import opened Sequences
  import opened Records
  import opened Labels

  // ---------- positions in a filtered sequence ----------

  /** How many selected elements follow position `a`. */
  function After<T(!new)>(xs: seq<T>, p: T -> bool, a: nat): nat
    requires a < |xs|
  {
    |Filter(xs[a + 1..], p)|
  }

  /** A selected element and the number of selected ones after it fix its place among the selected ones. */
  lemma {:induction false} PlaceOf<T(!new)>(xs: seq<T>, p: T -> bool, a: nat) returns (j: nat)
    requires a < |xs| && p(xs[a])
    ensures j < |Filter(xs, p)| && Filter(xs, p)[j] == xs[a] && After(xs, p, a) == |Filter(xs, p)| - 1 - j
  {
    assert xs == xs[..a] + ([xs[a]] + xs[a + 1..]);
    FilterAppend(xs[..a], [xs[a]] + xs[a + 1..], p);
    FilterCons(xs[a], xs[a + 1..], p);
    j := |Filter(xs[..a], p)|;
  }

  lemma {:induction false} PositionOf<T(!new)>(xs: seq<T>, p: T -> bool, j: nat) returns (a: nat)
    requires j < |Filter(xs, p)|
    ensures a < |xs| && p(xs[a]) && xs[a] == Filter(xs, p)[j] && After(xs, p, a) == |Filter(xs, p)| - 1 - j
  {
    var front, last := xs[..|xs| - 1], xs[|xs| - 1];
    SplitLast(xs);
    FilterSnoc(front, last, p);
    if j == |Filter(xs, p)| - 1 && p(last) {
      a := |xs| - 1;
    } else {
      a := PositionOf(front, p, j);
      assert xs[a + 1..] == front[a + 1..] + [last];
      FilterSnoc(front[a + 1..], last, p);
    }
  }

  /** Where two sequences select the same elements, every selected element of one is one of the other, followed
      by as many. */
  lemma {:induction false} Counterpart<T(!new)>(xs: seq<T>, p: T -> bool, ys: seq<T>, q: T -> bool, a: nat) returns (b: nat)
    requires Filter(xs, p) == Filter(ys, q) && a < |xs| && p(xs[a])
    ensures b < |ys| && q(ys[b]) && ys[b] == xs[a] && After(ys, q, b) == After(xs, p, a)
  {
    var j := PlaceOf(xs, p, a);
    b := PositionOf(ys, q, j);
  }

  lemma {:induction false} CountsAdd<T(!new)>(xs: seq<T>, p: T -> bool, q: T -> bool, either: T -> bool)
    requires forall x | x in xs :: either(x) == (p(x) || q(x)) && !(p(x) && q(x))
    ensures |Filter(xs, p)| + |Filter(xs, q)| == |Filter(xs, either)|
  {
    if xs != [] {
      CountsAdd(xs[..|xs| - 1], p, q, either);
      SplitLast(xs);
    }
  }

  // ---------- followers ----------

  /** A close of instrument `i` at time `t`, or after `t` and up to `d`. */
  function AtTime(i: string, t: Time): RawPITRow -> bool {
    (r: RawPITRow) => CloseOf(i, r) && r.eventTime == t
  }

  function Between(i: string, t: Time, d: Time): RawPITRow -> bool {
    (r: RawPITRow) => CloseOf(i, r) && t < r.eventTime <= d
  }

  /** How many closes of its instrument follow row `a`, by event time and then by row order, up to `d`. */
  function Followers(rows: seq<RawPITRow>, a: nat, d: Time): nat
    requires a < |rows|
  {
    var i, t := rows[a].instrumentId, rows[a].eventTime;
    After(rows, AtTime(i, t), a) + |Filter(rows, Between(i, t, d))|
  }

  lemma {:induction false} EarlierRowOrders()
    ensures TotalPreorder(EarlierRow)
  {
  }

  lemma {:induction false} SameTies(rows: seq<RawPITRow>, i: string, t: Time)
    ensures Filter(Series(rows, i), AtTime(i, t)) == Filter(rows, AtTime(i, t))
  {
    EarlierRowOrders();
    SortStable(EarlierRow, ClosesOf(rows, i), AtTime(i, t));
    FilterFilter(rows, r => CloseOf(i, r), AtTime(i, t), AtTime(i, t));
  }

  lemma {:induction false} SameBetween(rows: seq<RawPITRow>, i: string, t: Time, d: Time)
    ensures |Filter(Series(rows, i), Between(i, t, d))| == |Filter(rows, Between(i, t, d))|
  {
    EarlierRowOrders();
    SortFilter(EarlierRow, ClosesOf(rows, i), Between(i, t, d));
    FilterFilter(rows, r => CloseOf(i, r), Between(i, t, d), Between(i, t, d));
  }

  /** Every close of the rows is a close of its series with as many followers, and conversely. */
  lemma {:induction false} InSeries(rows: seq<RawPITRow>, a: nat, i: string, d: Time) returns (k: nat)
    requires a < |rows| && CloseOf(i, rows[a])
    ensures k < |Series(rows, i)| && Series(rows, i)[k] == rows[a] && Followers(Series(rows, i), k, d) == Followers(rows, a, d)
  {
    var t := rows[a].eventTime;
    SameTies(rows, i, t);
    SameBetween(rows, i, t, d);
    k := Counterpart(rows, AtTime(i, t), Series(rows, i), AtTime(i, t), a);
  }

  lemma {:induction false} InRows(rows: seq<RawPITRow>, i: string, k: nat, d: Time) returns (a: nat)
    requires k < |Series(rows, i)|
    ensures a < |rows| && CloseOf(i, rows[a]) && Series(rows, i)[k] == rows[a] && Followers(Series(rows, i), k, d) == Followers(rows, a, d)
  {
    var series := Series(rows, i);
    SeriesRows(rows, i);
    assert series[k] in series;
    var t := series[k].eventTime;
    SameTies(rows, i, t);
    SameBetween(rows, i, t, d);
    a := Counterpart(series, AtTime(i, t), rows, AtTime(i, t), k);
  }

  // ---------- in a series ----------

  predicate UpTo(d: Time, r: RawPITRow) {
    r.eventTime <= d
  }

  /** In event-time order the rows up to `d` come first. */
  lemma {:induction false} SortedUpTo(xs: seq<RawPITRow>, d: Time, h: nat)
    requires Sorted(EarlierRow, xs) && h >= 1
    ensures |Filter(xs, r => UpTo(d, r))| >= h <==> h <= |xs| && xs[h - 1].eventTime <= d
  {
    if xs != [] {
      var front, last := xs[..|xs| - 1], xs[|xs| - 1];
      SplitLast(xs);
      SortedUpTo(front, d, h);
      FilterSnoc(front, last, r => UpTo(d, r));
      if UpTo(d, last) {
        forall x | x in xs ensures UpTo(d, x) {
          var j :| 0 <= j < |xs| && xs[j] == x;
          assert j == |xs| - 1 || EarlierRow(xs[j], xs[|xs| - 1]);
        }
        FilterAll(xs, r => UpTo(d, r));
        assert h <= |xs| ==> xs[h - 1] in xs;
      } else if h == |xs| {
        assert Filter(xs, r => UpTo(d, r)) == Filter(front, r => UpTo(d, r));
        CountBound(front, r => UpTo(d, r));
      }
    }
  }

  lemma {:induction false} CountBound<T(!new)>(xs: seq<T>, p: T -> bool)
    ensures |Filter(xs, p)| <= |xs|
  {
    if xs != [] {
      CountBound(xs[..|xs| - 1], p);
    }
  }

  /** The followers of position `k` of a series are the later positions with times up to `d`. */
  lemma {:induction false} SeriesFollowers(series: seq<RawPITRow>, i: string, k: nat, d: Time)
    requires Sorted(EarlierRow, series) && (forall r :: r in series ==> CloseOf(i, r))
    requires k < |series| && series[k].eventTime <= d
    ensures Followers(series, k, d) == |Filter(series[k + 1..], r => UpTo(d, r))|
  {
    var t, head, tail := series[k].eventTime, series[..k + 1], series[k + 1..];
    assert series[k] in series;
    assert series == head + tail;
    forall x | x in head ensures !Between(i, t, d)(x) {
      var j :| 0 <= j < |head| && head[j] == x;
      assert j == k || EarlierRow(series[j], series[k]);
    }
    FilterNone(head, Between(i, t, d));
    FilterAppend(head, tail, Between(i, t, d));
    forall x | x in tail ensures t <= x.eventTime && CloseOf(i, x) {
      var j :| 0 <= j < |tail| && tail[j] == x;
      assert series[k + 1 + j] == x && EarlierRow(series[k], series[k + 1 + j]);
      assert x in series;
    }
    CountsAdd(tail, AtTime(i, t), Between(i, t, d), r => UpTo(d, r));
  }

  lemma {:induction false} RealisedIff(series: seq<RawPITRow>, i: string, k: nat, h: nat, d: Time)
    requires Sorted(EarlierRow, series) && (forall r :: r in series ==> CloseOf(i, r))
    requires k < |series| && series[k].eventTime <= d && h >= 1
    ensures k + h < |series| && series[k + h].eventTime <= d <==> Followers(series, k, d) >= h
  {
    var tail := series[k + 1..];
    SeriesFollowers(series, i, k, d);
    SortedUpTo(tail, d, h);
    assert h <= |tail| ==> tail[h - 1] == series[k + h];
  }

  // ---------- when a label leaks ----------

  /** Position `k` of instrument `i`'s series yields label `l`. */
  ghost predicate Yields(rows: seq<RawPITRow>, window: seq<Time>, h: nat, i: string, k: nat, l: Label) {
    i in Instruments(rows) && k + h < |Series(rows, i)| && LabelAt(Series(rows, i), window, h, k) == [l]
  }

  function LabelWindow(rows: seq<RawPITRow>, s: LabelSnapshot): seq<Time>
    requires s.decisionTime in AllTimes(rows)
  {
    Window(AllTimes(rows), s.horizon, Place(AllTimes(rows), s.decisionTime))
  }

  lemma {:induction false} YieldedUpTo(series: seq<RawPITRow>, window: seq<Time>, h: nat, n: nat, k: nat, l: Label)
    requires n > 0 ==> n - 1 + h < |series|
    requires k < n && LabelAt(series, window, h, k) == [l]
    ensures l in LabelsUpTo(series, window, h, n)
  {
    if k < n - 1 {
      YieldedUpTo(series, window, h, n - 1, k, l);
    }
  }

  lemma {:induction false} YieldedOf(rows: seq<RawPITRow>, window: seq<Time>, h: nat, instruments: seq<string>, i: string, l: Label)
    requires i in instruments && l in SeriesLabels(Series(rows, i), window, h)
    ensures l in LabelsOf(rows, window, h, instruments)
  {
    var n := |instruments| - 1;
    if i != instruments[n] {
      SplitLast(instruments);
      YieldedOf(rows, window, h, instruments[..n], i, l);
    }
  }

  /** The snapshot's rows are exactly the labels the series positions yield. */
  lemma {:induction false} RowsAreYielded(rows: seq<RawPITRow>, s: LabelSnapshot, l: Label)
    requires IsLabelSnapshot(rows, s.horizon, s) && s.horizon >= 0
    ensures l in s.rows <==> exists i, k: nat :: Yields(rows, LabelWindow(rows, s), s.horizon, i, k, l)
  {
    var window, h := LabelWindow(rows, s), s.horizon;
    if l in s.rows {
      var i := InLabelsOf(rows, window, h, Instruments(rows), l);
      var k := InLabelsUpTo(Series(rows, i), window, h, Starts(Series(rows, i), h), l);
      assert Yields(rows, window, h, i, k, l);
    }
    if i, k: nat :| Yields(rows, window, h, i, k, l) {
      YieldedUpTo(Series(rows, i), window, h, Starts(Series(rows, i), h), k, l);
      YieldedOf(rows, window, h, Instruments(rows), i, l);
    }
  }

  /** The label from position `k` has its later close at or before the decision time `d`. */
  ghost predicate LeaksAt(rows: seq<RawPITRow>, window: seq<Time>, h: nat, d: Time, i: string, k: nat, l: Label) {
    Yields(rows, window, h, i, k, l) && Series(rows, i)[k + h].eventTime <= d
  }

  ghost predicate Leaks(rows: seq<RawPITRow>, s: LabelSnapshot)
    requires s.horizon >= 0 && s.decisionTime in AllTimes(rows)
  {
    exists i, k: nat, l :: LeaksAt(rows, LabelWindow(rows, s), s.horizon, s.decisionTime, i, k, l)
  }

  /** Row `a` is a positive close of a window day that `h` closes of its instrument follow up to the decision. */
  ghost predicate Overrun(rows: seq<RawPITRow>, window: seq<Time>, h: nat, d: Time, a: nat) {
    && a < |rows| && IsClose(rows[a]) && rows[a].value > 0.0
    && rows[a].eventTime in window && Followers(rows, a, d) >= h
  }

  lemma {:induction false} SeriesFacts(rows: seq<RawPITRow>, i: string)
    ensures Sorted(EarlierRow, Series(rows, i)) && forall r :: r in Series(rows, i) ==> CloseOf(i, r)
  {
    EarlierRowOrders();
    SortSorts(EarlierRow, ClosesOf(rows, i));
    SeriesRows(rows, i);
  }

  lemma {:induction false} LeakOverruns(rows: seq<RawPITRow>, window: seq<Time>, h: nat, d: Time, i: string, k: nat, l: Label) returns (a: nat)
    requires h >= 1 && (forall t :: t in window ==> t <= d) && LeaksAt(rows, window, h, d, i, k, l)
    ensures Overrun(rows, window, h, d, a)
  {
    SeriesFacts(rows, i);
    RealisedIff(Series(rows, i), i, k, h, d);
    a := InRows(rows, i, k, d);
  }

  lemma {:induction false} OverrunLeaks(rows: seq<RawPITRow>, window: seq<Time>, h: nat, d: Time, a: nat) returns (i: string, k: nat, l: Label)
    requires h >= 1 && (forall t :: t in window ==> t <= d) && Overrun(rows, window, h, d, a)
    ensures LeaksAt(rows, window, h, d, i, k, l)
  {
    i := rows[a].instrumentId;
    k := InSeries(rows, a, i, d);
    SeriesFacts(rows, i);
    RealisedIff(Series(rows, i), i, k, h, d);
    l := LabelAt(Series(rows, i), window, h, k)[0];
    assert rows[a] in rows;
    assert i in Instruments(rows);
  }

  lemma {:induction false} WindowUpToDecision(rows: seq<RawPITRow>, s: LabelSnapshot)
    requires IsLabelSnapshot(rows, s.horizon, s) && s.horizon >= 1
    ensures forall t :: t in LabelWindow(rows, s) ==> t <= s.decisionTime
  {
    SortedDistinctIncreasing(EventTimes(rows));
    forall t | t in LabelWindow(rows, s) ensures t <= s.decisionTime {
      WindowBehind(AllTimes(rows), s.horizon, t);
    }
  }

  /** A label leaks iff some instrument has a positive close on a window day that at least `h` of its closes
      follow, in event time and then row order, with event times up to the decision time. */
  lemma {:induction false} LabelsLeakIff(rows: seq<RawPITRow>, s: LabelSnapshot)
    requires IsLabelSnapshot(rows, s.horizon, s) && s.horizon >= 1
    ensures Leaks(rows, s) <==> exists a: nat :: Overrun(rows, LabelWindow(rows, s), s.horizon, s.decisionTime, a)
  {
    var window, h, d := LabelWindow(rows, s), s.horizon, s.decisionTime;
    WindowUpToDecision(rows, s);
    if Leaks(rows, s) {
      var i, k: nat, l :| LeaksAt(rows, window, h, d, i, k, l);
      var a := LeakOverruns(rows, window, h, d, i, k, l);
    }
    if a: nat :| Overrun(rows, window, h, d, a) {
      var i, k, l := OverrunLeaks(rows, window, h, d, a);
    }
  }

  lemma {:induction false} RowMakesLeak(rows: seq<RawPITRow>, s: LabelSnapshot, a: nat)
    requires IsLabelSnapshot(rows, s.horizon, s) && s.horizon >= 1
    requires Overrun(rows, LabelWindow(rows, s), s.horizon, s.decisionTime, a)
    ensures Leaks(rows, s)
  {
    LabelsLeakIff(rows, s);
  }

  lemma {:induction false} YieldIsLater(rows: seq<RawPITRow>, s: LabelSnapshot, i: string, k: nat, l: Label)
    requires UniqueCloses(rows) && IsLabelSnapshot(rows, s.horizon, s) && s.horizon >= 1
    requires Yields(rows, LabelWindow(rows, s), s.horizon, i, k, l)
    ensures s.decisionTime < Series(rows, i)[k + s.horizon].eventTime
  {
    assert Series(rows, i)[k].eventTime in LabelWindow(rows, s);
    LaterCloseIsLater(rows, s.horizon, s, i, k);
  }

  lemma {:induction false} NothingLeaks(rows: seq<RawPITRow>, window: seq<Time>, h: nat, d: Time)
    requires forall i, k: nat, l | Yields(rows, window, h, i, k, l) :: d < Series(rows, i)[k + h].eventTime
    ensures forall i, k: nat, l :: !LeaksAt(rows, window, h, d, i, k, l)
  {
  }

  /** Repeating other fields is harmless: where no instrument has two closes at one time, nothing leaks. */
  lemma {:induction false} UniqueClosesDoNotLeak(rows: seq<RawPITRow>, s: LabelSnapshot)
    requires UniqueCloses(rows) && IsLabelSnapshot(rows, s.horizon, s) && s.horizon >= 1
    ensures !Leaks(rows, s)
  {
    var window, h, d := LabelWindow(rows, s), s.horizon, s.decisionTime;
    forall i, k: nat, l | Yields(rows, window, h, i, k, l) ensures d < Series(rows, i)[k + h].eventTime {
      YieldIsLater(rows, s, i, k, l);
    }
    NothingLeaks(rows, window, h, d);
  }
}
