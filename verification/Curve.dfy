/** `backtest/service.py`, the second half of `_equity_curve`: daily aggregation, the reported curve,
    returns and metrics. */
module Curve {
  import opened Wrappers
  import opened Clock
  import opened Sequences
  import opened Drawdown
  import opened Equity
  import Contracts

  ghost predicate InTimeOrder(points: seq<Point>) {
    forall i, j | 0 <= i < j < |points| :: points[i].time < points[j].time
  }

  /** `datetime.combine(day, time.max)` */
  function EndOfDay(d: Date): Time {
    d * DAY + (DAY - 1)
  }

  /** The last value of each run of equal days, over the first `n` entries. */
  function DailyEntries(days: seq<Date>, values: seq<real>, n: nat): (es: seq<CurvePoint>)
    requires |days| == |values| && n <= |days|
    ensures n == 0 <==> es == []
    ensures n > 0 ==> es[|es| - 1] == CurvePoint(days[n - 1], values[n - 1])
  {
    if n == 0 then []
    else
      var front, last := DailyEntries(days, values, n - 1), CurvePoint(days[n - 1], values[n - 1]);
      if n > 1 && days[n - 2] == days[n - 1] then front[..|front| - 1] + [last] else front + [last]
  }

  function Days(points: seq<Point>): (ds: seq<Date>)
    ensures |ds| == |points| && forall i :: 0 <= i < |points| ==> ds[i] == Day(points[i].time)
  {
    seq(|points|, i requires 0 <= i < |points| => Day(points[i].time))
  }

  function Equities(points: seq<Point>): (vs: seq<real>)
    ensures |vs| == |points| && forall k :: 0 <= k < |points| ==> vs[k] == points[k].equity
  {
    seq(|points|, k requires 0 <= k < |points| => points[k].equity)
  }

  function AtEndOfDay(entries: seq<CurvePoint>): (ps: seq<Point>)
    ensures |ps| == |entries|
    ensures forall k :: 0 <= k < |ps| ==> ps[k] == Point(EndOfDay(entries[k].date), entries[k].equity)
  {
    seq(|entries|, k requires 0 <= k < |entries| => Point(EndOfDay(entries[k].date), entries[k].equity))
  }

  /** The last point of each day, stamped with the end of that day. */
  function DailyCloses(points: seq<Point>): seq<Point> {
    AtEndOfDay(DailyEntries(Days(points), Equities(points), |points|))
  }

  ghost predicate NonDecreasing(days: seq<Date>) {
    forall i, j | 0 <= i < j < |days| :: days[i] <= days[j]
  }

  lemma {:induction false} DaysInOrder(points: seq<Point>)
    requires InTimeOrder(points)
    ensures NonDecreasing(Days(points))
  {
    forall i, j | 0 <= i < j < |points| ensures Days(points)[i] <= Days(points)[j] {
      DayMonotone(points[i].time, points[j].time);
    }
  }

  /** The items of a day-indexed dict. */
  function Items(keys: seq<Date>, daily: map<Date, real>): (es: seq<CurvePoint>)
    requires forall i :: 0 <= i < |keys| ==> keys[i] in daily
    ensures |es| == |keys| && forall i :: 0 <= i < |keys| ==> es[i] == CurvePoint(keys[i], daily[keys[i]])
  {
    seq(|keys|, i requires 0 <= i < |keys| => CurvePoint(keys[i], daily[keys[i]]))
  }

  /** The `daily` dict after the first points: one entry per day, the latest day last. */
  ghost predicate Collected(dict: Dict<Date, real>, days: seq<Date>, values: seq<real>, n: nat)
    requires |days| == |values| && n <= |days|
  {
    && (forall d :: d in dict.keys <==> d in dict.items)
    && Increasing(dict.keys)
    && Items(dict.keys, dict.items) == DailyEntries(days, values, n)
  }

  /** The daily branch of `_equity_curve`: the last equity of each day, in day order. */
  method AggregateDaily(points: seq<Point>) returns (daily: seq<Point>)
    requires InTimeOrder(points)
    ensures daily == DailyCloses(points)
  {
    var dict: Dict<Date, real> := Dict([], map[]);
    ghost var days, values := Days(points), Equities(points);
    DaysInOrder(points);
    for k := 0 to |points|
      invariant Collected(dict, days, values, k)
    {
      var day, value := Day(points[k].time), points[k].equity;
      CollectStep(dict, days, values, k);
      dict := Assign(dict, day, value);
    }
    SortedDistinctIncreasing(dict.keys);
    IncreasingUnique(SortedDistinct(dict.keys), dict.keys);
    daily := AtEndOfDay(Items(SortedDistinct(dict.keys), dict.items));
  }

  /** One dict assignment `daily[day] = value`. */
  function Assign(dict: Dict<Date, real>, day: Date, value: real): Dict<Date, real> {
    Dict(if day in dict.items then dict.keys else dict.keys + [day], dict.items[day := value])
  }

  lemma {:induction false} CollectStep(dict: Dict<Date, real>, days: seq<Date>, values: seq<real>, k: nat)
    requires |days| == |values| && k < |days| && NonDecreasing(days)
    requires Collected(dict, days, values, k)
    ensures Collected(Assign(dict, days[k], values[k]), days, values, k + 1)
  {
    var m := |dict.keys| - 1;
    if k > 0 {
      assert Items(dict.keys, dict.items)[m].date == days[k - 1];
    }
    if k > 0 && days[k - 1] == days[k] {
      CollectSame(dict, days, values, k);
    } else {
      assert days[k] !in dict.keys;
      CollectNew(dict, days, values, k);
    }
  }

  lemma {:induction false} CollectSame(dict: Dict<Date, real>, days: seq<Date>, values: seq<real>, k: nat)
    requires |days| == |values| && 0 < k < |days| && days[k - 1] == days[k]
    requires Collected(dict, days, values, k)
    requires dict.keys != [] && dict.keys[|dict.keys| - 1] == days[k]
    ensures Collected(Assign(dict, days[k], values[k]), days, values, k + 1)
  {
    assert dict.keys[|dict.keys| - 1] in dict.keys;
    ItemsReplaced(dict.keys, dict.items, days[k], values[k]);
  }

  /** Assigning the last key replaces the last item. */
  lemma {:induction false} ItemsReplaced(keys: seq<Date>, daily: map<Date, real>, d: Date, x: real)
    requires (forall i :: 0 <= i < |keys| ==> keys[i] in daily) && Increasing(keys)
    requires keys != [] && keys[|keys| - 1] == d
    ensures Items(keys, daily[d := x]) == Items(keys, daily)[..|keys| - 1] + [CurvePoint(d, x)]
  {
  }

  /** Assigning a new key appends an item. */
  lemma {:induction false} ItemsAppended(keys: seq<Date>, daily: map<Date, real>, d: Date, x: real)
    requires (forall i :: 0 <= i < |keys| ==> keys[i] in daily) && d !in keys
    ensures Items(keys + [d], daily[d := x]) == Items(keys, daily) + [CurvePoint(d, x)]
  {
  }

  lemma {:induction false} CollectNew(dict: Dict<Date, real>, days: seq<Date>, values: seq<real>, k: nat)
    requires |days| == |values| && k < |days| && (k > 0 ==> days[k - 1] < days[k])
    requires Collected(dict, days, values, k)
    requires days[k] !in dict.keys && (dict.keys != [] ==> dict.keys[|dict.keys| - 1] < days[k])
    ensures Collected(Assign(dict, days[k], values[k]), days, values, k + 1)
  {
    ItemsAppended(dict.keys, dict.items, days[k], values[k]);
  }

  // ---------- returns and metrics ----------

  /** The equity a return is measured from: the point before, or the initial cash. */
  function Previous(cash: real, values: seq<real>, k: nat): real
    requires k < |values|
  {
    if k == 0 then cash else values[k - 1]
  }

  /** One return per point that follows a positive equity. */
  function Returns(cash: real, values: seq<real>): seq<real> {
    if values == [] then []
    else
      var n := |values| - 1;
      var previous := Previous(cash, values, n);
      Returns(cash, values[..n]) + (if previous > 0.0 then [values[n] / previous - 1.0] else [])
  }

  function Sum(xs: seq<real>): real {
    if xs == [] then 0.0 else Sum(xs[..|xs| - 1]) + xs[|xs| - 1]
  }

  function Sq(x: real): real {
    x * x
  }

  function SquaredDeviations(xs: seq<real>, mean: real): real {
    if xs == [] then 0.0
    else SquaredDeviations(xs[..|xs| - 1], mean) + Sq(xs[|xs| - 1] - mean)
  }

  /** The Sharpe ratio's ingredients, present when the ratio is reported. */
  function Sharpe(rs: seq<real>): Option<Dispersion> {
    if |rs| < 2 then None
    else
      var mean := Sum(rs) / |rs| as real;
      var variance := SquaredDeviations(rs, mean) / (|rs| - 1) as real;
      if variance > 0.0 then Some(Dispersion(mean, variance)) else None
  }

  function CurveOf(points: seq<Point>): (c: seq<CurvePoint>)
    ensures |c| == |points| && forall k :: 0 <= k < |points| ==> c[k] == CurvePoint(Day(points[k].time), points[k].equity)
  {
    seq(|points|, k requires 0 <= k < |points| => CurvePoint(Day(points[k].time), points[k].equity))
  }

  /** The loop that turns points into the curve and the returns. */
  method CurveAndReturns(cash: real, points: seq<Point>) returns (curve: seq<CurvePoint>, rs: seq<real>)
    ensures curve == CurveOf(points)
    ensures rs == Returns(cash, Equities(points))
  {
    curve, rs := [], [];
    var previous := cash;
    for k := 0 to |points|
      invariant curve == CurveOf(points[..k])
      invariant rs == Returns(cash, Equities(points[..k]))
      invariant previous == if k == 0 then cash else points[k - 1].equity
    {
      var value := points[k].equity;
      assert Equities(points[..k + 1])[..k] == Equities(points[..k]);
      if previous > 0.0 {
        rs := rs + [value / previous - 1.0];
      }
      previous := value;
      curve := curve + [CurvePoint(Day(points[k].time), value)];
    }
    assert points[..|points|] == points;
  }

  /** The points the curve reports. */
  function Reported(points: seq<Point>, aggregateDaily: bool): seq<Point> {
    if aggregateDaily then DailyCloses(points) else points
  }

  function TotalReturn(cash: real, equity: real): real
    requires cash > 0.0
  {
    equity / cash - 1.0
  }

  function MetricsOf(cash: real, points: seq<Point>, aggregateDaily: bool, tradeCount: nat): Metrics
    requires cash > 0.0
  {
    if points == [] then Metrics(0.0, None, 0.0, tradeCount)
    else
      Metrics(TotalReturn(cash, FinalEquity(cash, points)),
              Sharpe(Returns(cash, Equities(Reported(points, aggregateDaily)))),
              MaxDrawdown(EquityPath(cash, points)),
              tradeCount)
  }

  /** Every instrument code splits into a symbol and a known venue. */
  method AllSupported(instruments: seq<string>) returns (ok: bool)
    ensures ok <==> forall i :: i in instruments ==> Contracts.Venue(i).Some?
  {
    for n := 0 to |instruments|
      invariant forall k :: 0 <= k < n ==> Contracts.Venue(instruments[k]).Some?
    {
      if Contracts.Venue(instruments[n]).None? {
        assert instruments[n] in instruments;
        return false;
      }
    }
    return true;
  }

  /** All points of a panel. */
  function PanelPoints(p: Panel): seq<Point>
    requires p.Valid()
  {
    Points(p, Timeline(p))
  }

  lemma {:induction false} TimelineOrdered(p: Panel)
    requires p.Valid()
    ensures Increasing(Timeline(p))
    ensures InTimeOrder(PanelPoints(p))
  {
    SortedDistinctIncreasing(AllStamps(p.instruments, p.bars));
  }

  /** `_equity_curve`. Its caller has checked that the initial cash is positive. */
  method EquityCurve(bars: Dict<string, seq<Bar>>, targets: Dict<string, map<Time, int>>,
                     initialCash: real, tradeCount: nat, aggregateDaily: bool)
    returns (r: Result<(seq<CurvePoint>, Metrics), BacktestError>)
    requires bars.Valid() && targets.Valid() && initialCash > 0.0
    ensures r.Err? <==> exists i :: i in bars.keys && Contracts.Venue(i).None?
    ensures r.Err? ==> r.error == UnsupportedInstrument
    ensures var points := PanelPoints(Panel(bars.keys, bars.items, targets.items, initialCash));
            r.Ok? ==> r.value == (CurveOf(Reported(points, aggregateDaily)), MetricsOf(initialCash, points, aggregateDaily, tradeCount))
  {
    var supported := AllSupported(bars.keys);
    if !supported {
      return Err(UnsupportedInstrument);
    }
    var p := Panel(bars.keys, bars.items, targets.items, initialCash);
    var curve, metrics := Report(p, targets.keys, tradeCount, aggregateDaily);
    return Ok((curve, metrics));
  }

  /** The body of `_equity_curve` once the multipliers are known. */
  method Report(p: Panel, targetOrder: seq<string>, tradeCount: nat, aggregateDaily: bool)
    returns (curve: seq<CurvePoint>, metrics: Metrics)
    requires p.Valid() && p.cash > 0.0
    requires forall i :: i in targetOrder <==> i in p.targets
    ensures curve == CurveOf(Reported(PanelPoints(p), aggregateDaily))
    ensures metrics == MetricsOf(p.cash, PanelPoints(p), aggregateDaily, tradeCount)
  {
    var times := Timeline(p);
    if times == [] {
      return [], Metrics(0.0, None, 0.0, tradeCount);
    }
    var equity, maxDrawdown, points := MarkToMarket(p, targetOrder, times);
    var reported := points;
    TimelineOrdered(p);
    if aggregateDaily {
      reported := AggregateDaily(points);
    }
    var rs;
    curve, rs := CurveAndReturns(p.cash, reported);
    metrics := Metrics(TotalReturn(p.cash, equity), Sharpe(rs), maxDrawdown, tradeCount);
  }

  // ---------- daily aggregation ----------

  /** The index of the last entry of each run of equal days among the first `n`. */
  function LastUpTo(days: seq<Date>, n: nat): (at: seq<int>)
    requires n <= |days|
    ensures n > 0 ==> at != [] && at[|at| - 1] == n - 1
    ensures forall k :: 0 <= k < |at| ==> 0 <= at[k] < n
  {
    if n == 0 then []
    else
      var before := LastUpTo(days, n - 1);
      if n > 1 && days[n - 2] == days[n - 1] then before[..|before| - 1] + [n - 1] else before + [n - 1]
  }

  function LastAt(days: seq<Date>): (at: seq<int>)
    ensures days != [] ==> at != [] && at[|at| - 1] == |days| - 1
    ensures forall k :: 0 <= k < |at| ==> 0 <= at[k] < |days|
  {
    LastUpTo(days, |days|)
  }

  /** Entry `i` is the last one of its day. */
  ghost predicate LastOfDay(days: seq<Date>, i: nat) {
    i < |days| && forall j | i < j < |days| :: days[i] < days[j]
  }

  lemma {:induction false} LastUpToIncreasing(days: seq<Date>, n: nat)
    requires n <= |days|
    ensures Increasing(LastUpTo(days, n))
  {
    if n > 1 {
      LastUpToIncreasing(days, n - 1);
      var before := LastUpTo(days, n - 1);
      IncreasingSnoc(before, n - 1);
      IncreasingSnoc(before[..|before| - 1], n - 1);
    }
  }

  lemma {:induction false} IncreasingSnoc(xs: seq<int>, x: int)
    requires Increasing(xs) && forall k :: 0 <= k < |xs| ==> xs[k] < x
    ensures Increasing(xs + [x])
  {
  }

  lemma {:induction false} LastAtIncreasing(days: seq<Date>)
    ensures Increasing(LastAt(days))
  {
    LastUpToIncreasing(days, |days|);
  }

  /** Entry `i` is the last one of its day among the first `n`. */
  ghost predicate LastAmong(days: seq<Date>, n: nat, i: int)
    requires n <= |days|
  {
    0 <= i < n && forall j | i < j < n :: days[i] < days[j]
  }

  lemma {:induction false} LastAmongSnoc(days: seq<Date>, n: nat, i: int)
    requires 1 < n <= |days| && NonDecreasing(days) && LastAmong(days, n - 1, i)
    requires i < n - 2 || days[n - 2] < days[n - 1]
    ensures LastAmong(days, n, i)
  {
    assert i < n - 2 ==> days[i] < days[n - 2];
    assert days[n - 2] <= days[n - 1];
  }

  lemma {:induction false} LastUpToIsLast(days: seq<Date>, n: nat, k: nat)
    requires NonDecreasing(days) && n <= |days| && k < |LastUpTo(days, n)|
    ensures LastAmong(days, n, LastUpTo(days, n)[k])
  {
    if n > 1 && k < |LastUpTo(days, n)| - 1 {
      LastUpToIsLast(days, n - 1, k);
      LastUpToIncreasing(days, n - 1);
      NotLast(days, n, k);
      LastAmongSnoc(days, n, LastUpTo(days, n)[k]);
    }
  }

  lemma {:induction false} NotLast(days: seq<Date>, n: nat, k: nat)
    requires 1 < n <= |days| && NonDecreasing(days) && k < |LastUpTo(days, n)| - 1
    requires Increasing(LastUpTo(days, n - 1))
    ensures k < |LastUpTo(days, n - 1)| && LastUpTo(days, n)[k] == LastUpTo(days, n - 1)[k]
    ensures LastUpTo(days, n)[k] < n - 2 || days[n - 2] < days[n - 1]
  {
    assert days[n - 2] <= days[n - 1];
  }

  lemma {:induction false} LastUpToCovers(days: seq<Date>, n: nat, i: nat) returns (k: nat)
    requires n <= |days| && i < n
    ensures k < |LastUpTo(days, n)| && i <= LastUpTo(days, n)[k] && days[LastUpTo(days, n)[k]] == days[i]
  {
    var at := LastUpTo(days, n);
    if i == n - 1 {
      k := |at| - 1;
    } else {
      k := LastUpToCovers(days, n - 1, i);
      var before := LastUpTo(days, n - 1);
      assert before[|before| - 1] == n - 2;
      if k == |at| - 1 {
        assert at[k] == n - 1 && days[n - 2] == days[n - 1];
      } else {
        assert at[k] == before[k];
      }
    }
  }

  /** The selected entries are the last ones of their days, and every day is selected. */
  lemma {:induction false} LastAtSelectsEveryDay(days: seq<Date>)
    requires NonDecreasing(days)
    ensures Increasing(LastAt(days))
    ensures forall k | 0 <= k < |LastAt(days)| :: LastOfDay(days, LastAt(days)[k])
    ensures forall i | 0 <= i < |days| :: exists k :: 0 <= k < |LastAt(days)| && days[LastAt(days)[k]] == days[i]
  {
    LastAtIncreasing(days);
    forall k | 0 <= k < |LastAt(days)| ensures LastOfDay(days, LastAt(days)[k]) {
      LastUpToIsLast(days, |days|, k);
    }
    forall i | 0 <= i < |days| ensures exists k :: 0 <= k < |LastAt(days)| && days[LastAt(days)[k]] == days[i] {
      var k := LastUpToCovers(days, |days|, i);
    }
  }

  /** The entries are the values at the given indices. */
  ghost predicate Picked(days: seq<Date>, values: seq<real>, es: seq<CurvePoint>, at: seq<int>) {
    && |days| == |values| && |es| == |at|
    && (forall k | 0 <= k < |at| :: 0 <= at[k] < |days| && es[k] == CurvePoint(days[at[k]], values[at[k]]))
  }

  lemma {:induction false} EntriesAreLast(days: seq<Date>, values: seq<real>, n: nat)
    requires |days| == |values| && n <= |days|
    ensures Picked(days, values, DailyEntries(days, values, n), LastUpTo(days, n))
  {
    if n > 0 {
      EntriesAreLast(days, values, n - 1);
      var es, at := DailyEntries(days, values, n - 1), LastUpTo(days, n - 1);
      var same := n > 1 && days[n - 2] == days[n - 1];
      PickFewer(days, values, es, at, same);
      PickMore(days, values, Keep(es, same), Keep(at, same), n - 1);
      EntriesStep(days, values, n);
    }
  }

  /** All elements, or all but the last. */
  function Keep<T>(xs: seq<T>, replace: bool): seq<T> {
    if replace && xs != [] then xs[..|xs| - 1] else xs
  }

  lemma {:induction false} EntriesStep(days: seq<Date>, values: seq<real>, n: nat)
    requires |days| == |values| && 0 < n <= |days|
    ensures var same := n > 1 && days[n - 2] == days[n - 1];
            && DailyEntries(days, values, n) == Keep(DailyEntries(days, values, n - 1), same) + [CurvePoint(days[n - 1], values[n - 1])]
            && LastUpTo(days, n) == Keep(LastUpTo(days, n - 1), same) + [n - 1]
  {
  }

  lemma {:induction false} PickFewer(days: seq<Date>, values: seq<real>, es: seq<CurvePoint>, at: seq<int>, replace: bool)
    requires Picked(days, values, es, at)
    ensures Picked(days, values, Keep(es, replace), Keep(at, replace))
  {
  }

  lemma {:induction false} PickMore(days: seq<Date>, values: seq<real>, es: seq<CurvePoint>, at: seq<int>, i: nat)
    requires Picked(days, values, es, at) && i < |days|
    ensures Picked(days, values, es + [CurvePoint(days[i], values[i])], at + [i])
  {
  }

  /** Aggregation reports, in order, exactly the equity of the last point of every day. */
  lemma {:induction false} DailyIsLastOfDay(points: seq<Point>)
    ensures |DailyCloses(points)| == |LastAt(Days(points))|
    ensures forall k | 0 <= k < |DailyCloses(points)| ::
              DailyCloses(points)[k] == Point(EndOfDay(Days(points)[LastAt(Days(points))[k]]), points[LastAt(Days(points))[k]].equity)
  {
    EntriesAreLast(Days(points), Equities(points), |points|);
  }

  /** The curve entry of an end-of-day point carries that day. */
  lemma {:induction false} EndOfDayHasItsDay(d: Date)
    ensures Day(EndOfDay(d)) == d
  {
  }

  /** The last reported equity is the final one. */
  lemma {:induction false} DailyEndsAtFinal(points: seq<Point>)
    requires points != []
    ensures DailyCloses(points) != []
    ensures DailyCloses(points)[|DailyCloses(points)| - 1].equity == points[|points| - 1].equity
  {
    DailyIsLastOfDay(points);
  }

  /** While equity is non-negative, the drawdown of the daily curve never exceeds the reported one, which runs
      over all points. */
  lemma {:induction false} DailyDrawdownIsSmaller(cash: real, points: seq<Point>)
    requires cash > 0.0 && forall i | 0 <= i < |points| :: points[i].equity >= 0.0
    ensures MaxDrawdown(EquityPath(cash, DailyCloses(points))) <= MaxDrawdown(EquityPath(cash, points))
  {
    var e, d := EquityPath(cash, points), EquityPath(cash, DailyCloses(points));
    var sampled := DailySamples(cash, points);
    forall i | 0 <= i < |e| ensures e[i] >= 0.0 {
      assert i > 0 ==> e[i] == points[i - 1].equity;
    }
    SampledDrawdownIsSmaller(e, d, sampled);
  }

  /** On any path: it does not exceed the reported one exactly when every daily equity below zero is matched by
      a fall of the full path. */
  lemma {:induction false} DailyDrawdownIsSmallerIff(cash: real, points: seq<Point>)
    requires cash > 0.0
    ensures var e, d := EquityPath(cash, points), EquityPath(cash, DailyCloses(points));
            MaxDrawdown(d) <= MaxDrawdown(e) <==> forall k: nat | k < |d| && d[k] < 0.0 :: MatchedByProduct(e, d, k)
  {
    var sampled := DailySamples(cash, points);
    SampledDrawdownIsSmallerIff(EquityPath(cash, points), EquityPath(cash, DailyCloses(points)), sampled);
  }

  /** From cash 100, equities 200 and 50 on day 0 and -50 on day 1: the reported drawdown is 1.25, falling from
      200, and that of the daily curve 1.5, falling from 100. */
  lemma {:induction false} DailyDrawdownCanExceed(points: seq<Point>)
    requires points == [Point(0, 200.0), Point(1, 50.0), Point(DAY, -50.0)]
    ensures InTimeOrder(points)
    ensures MaxDrawdown(EquityPath(100.0, points)) == 1.25
    ensures MaxDrawdown(EquityPath(100.0, DailyCloses(points))) == 1.5
  {
    FallingPaths(points);
    FallsFromTwoHundred(EquityPath(100.0, points));
    FallsFromHundred(EquityPath(100.0, DailyCloses(points)));
  }

  lemma {:induction false} FallingPaths(points: seq<Point>)
    requires points == [Point(0, 200.0), Point(1, 50.0), Point(DAY, -50.0)]
    ensures EquityPath(100.0, points) == [100.0, 200.0, 50.0, -50.0]
    ensures EquityPath(100.0, DailyCloses(points)) == [100.0, 50.0, -50.0]
  {
    FallingDays(points[0], points[1], points[2]);
    assert points == [points[0], points[1], points[2]];
    var daily := DailyCloses(points);
    assert |daily| == 2 && daily[0].equity == 50.0 && daily[1].equity == -50.0;
  }

  lemma {:induction false} FallingDays(a: Point, b: Point, c: Point)
    requires Day(a.time) == Day(b.time) < Day(c.time)
    ensures DailyCurve([a, b, c]) == [CurvePoint(Day(b.time), b.equity), CurvePoint(Day(c.time), c.equity)]
  {
    assert [a, b, c] == [a, b] + [c] && [a, b] == [a] + [b] && [a] == [] + [a];
    DailyCurveSnoc([], a);
    DailyCurveSnoc([a], b);
    DailyCurveSnoc([a, b], c);
  }

  lemma {:induction false} FallsFromHundred(e: seq<real>)
    requires e == [100.0, 50.0, -50.0]
    ensures MaxDrawdown(e) == 1.5
  {
    NegativeEquityBreaksBruteForce();
  }

  lemma {:induction false} FallsFromTwoHundred(e: seq<real>)
    requires e == [100.0, 200.0, 50.0, -50.0]
    ensures MaxDrawdown(e) == 1.25
  {
    var fall := RelativeFall();
    assert fall(200.0, 200.0) == 0.0 && fall(200.0, 50.0) == 0.75 && fall(200.0, -50.0) == 1.25;
    PeakSteps(e, fall);
  }

  lemma {:induction false} PeakSteps(e: seq<real>, fall: (real, real) -> real)
    requires e == [100.0, 200.0, 50.0, -50.0]
    requires fall(200.0, 200.0) == 0.0 && fall(200.0, 50.0) == 0.75 && fall(200.0, -50.0) == 1.25
    ensures MaxFall(e, fall) == 1.25
  {
    var e3, e2 := e[..3], e[..2];
    assert e3[..2] == e2 && e2[..1] == [100.0];
    assert Peak(e2[..1]) == 100.0;
    assert Peak(e2) == 200.0 && MaxFall(e2, fall) == 0.0;
    assert Peak(e3) == 200.0 && MaxFall(e3, fall) == 0.75;
    assert Peak(e) == 200.0;
  }

  lemma {:induction false} DailySamples(cash: real, points: seq<Point>) returns (sampled: seq<int>)
    ensures Samples(EquityPath(cash, points), EquityPath(cash, DailyCloses(points)), sampled)
  {
    DailyIsLastOfDay(points);
    LastAtIncreasing(Days(points));
    sampled := ShiftSamples(cash, points, DailyCloses(points), LastAt(Days(points)));
  }

  lemma {:induction false} ShiftSamples(cash: real, points: seq<Point>, daily: seq<Point>, at: seq<int>) returns (sampled: seq<int>)
    requires |daily| == |at| && Increasing(at)
    requires forall k :: 0 <= k < |at| ==> 0 <= at[k] < |points| && daily[k].equity == points[at[k]].equity
    ensures Samples(EquityPath(cash, points), EquityPath(cash, daily), sampled)
  {
    sampled := Shifted(at);
    var e, d := EquityPath(cash, points), EquityPath(cash, daily);
    forall k | 0 <= k < |d| ensures 0 <= sampled[k] < |e| && d[k] == e[sampled[k]] {
      if k > 0 {
        PathAt(cash, daily, k - 1);
        PathAt(cash, points, at[k - 1]);
      }
    }
    ShiftedIncreases(at);
  }

  /** Index 0, and then every index one further. */
  function Shifted(at: seq<int>): (r: seq<int>)
    ensures |r| == |at| + 1 && r[0] == 0 && forall k :: 0 < k <= |at| ==> r[k] == at[k - 1] + 1
  {
    seq(|at| + 1, k requires 0 <= k <= |at| => if k == 0 then 0 else at[k - 1] + 1)
  }

  lemma {:induction false} ShiftedIncreases(at: seq<int>)
    requires Increasing(at) && forall k :: 0 <= k < |at| ==> 0 <= at[k]
    ensures forall k, l | 0 <= k < l < |Shifted(at)| :: Shifted(at)[k] <= Shifted(at)[l]
  {
    forall k, l | 0 <= k < l < |Shifted(at)| ensures Shifted(at)[k] <= Shifted(at)[l] {
      assert k > 0 ==> at[k - 1] < at[l - 1];
    }
  }

  lemma {:induction false} PathAt(cash: real, points: seq<Point>, k: nat)
    requires k < |points|
    ensures EquityPath(cash, points)[k + 1] == points[k].equity
  {
  }

  // ---------- what the early part of the curve depends on ----------

  /** The entries for days before `d`. */
  function EntriesBefore(entries: seq<CurvePoint>, d: Date): seq<CurvePoint> {
    Filter(entries, (e: CurvePoint) => e.date < d)
  }

  function PointsBefore(points: seq<Point>, d: Date): seq<Point> {
    Filter(points, (p: Point) => Day(p.time) < d)
  }

  lemma {:induction false} CurveSnoc(points: seq<Point>, p: Point)
    ensures CurveOf(points + [p]) == CurveOf(points) + [CurvePoint(Day(p.time), p.equity)]
  {
  }

  /** The entries of the daily curve. */
  function DailyCurve(points: seq<Point>): (es: seq<CurvePoint>)
    ensures points == [] <==> es == []
    ensures points != [] ==> es[|es| - 1] == CurvePoint(Day(points[|points| - 1].time), points[|points| - 1].equity)
  {
    DailyEntries(Days(points), Equities(points), |points|)
  }

  lemma {:induction false} DailyCurveIsReported(points: seq<Point>)
    ensures CurveOf(DailyCloses(points)) == DailyCurve(points)
  {
    var es := DailyCurve(points);
    forall k | 0 <= k < |es| ensures CurveOf(AtEndOfDay(es))[k] == es[k] {
      EndOfDayHasItsDay(es[k].date);
    }
  }

  ghost predicate DatesIncrease(es: seq<CurvePoint>) {
    forall k, l | 0 <= k < l < |es| :: es[k].date < es[l].date
  }

  /** The curve has an entry for day `d`. */
  ghost predicate Lists(es: seq<CurvePoint>, d: Date) {
    exists k :: 0 <= k < |es| && es[k].date == d
  }

  /** A point lies on day `d`. */
  ghost predicate OnDay(points: seq<Point>, d: Date) {
    exists j :: 0 <= j < |points| && Day(points[j].time) == d
  }

  /** Daily entries have different days, in order. */
  lemma {:induction false} DailyDatesIncrease(points: seq<Point>)
    requires InTimeOrder(points)
    ensures DatesIncrease(DailyCurve(points))
  {
    var days := Days(points);
    DaysInOrder(points);
    LastAtIncreasing(days);
    EntriesAreLast(days, Equities(points), |points|);
    var at, es := LastAt(days), DailyCurve(points);
    forall k, l | 0 <= k < l < |es| ensures es[k].date < es[l].date {
      LastUpToIsLast(days, |days|, k);
    }
  }

  /** These are exactly the days of the points. */
  lemma {:induction false} DailyCurveDays(points: seq<Point>, d: Date)
    ensures Lists(DailyCurve(points), d) <==> OnDay(points, d)
  {
    var days := Days(points);
    EntriesAreLast(days, Equities(points), |points|);
    var at, es := LastAt(days), DailyCurve(points);
    if Lists(es, d) {
      var k :| 0 <= k < |es| && es[k].date == d;
      assert Day(points[at[k]].time) == days[at[k]];
    }
    if OnDay(points, d) {
      var j :| 0 <= j < |points| && Day(points[j].time) == d;
      var k := LastUpToCovers(days, |days|, j);
      assert es[k].date == days[at[k]];
    }
  }

  lemma {:induction false} EntriesPrefix(days: seq<Date>, values: seq<real>, moreDays: seq<Date>, moreValues: seq<real>, n: nat)
    requires |days| == |values| && |moreDays| == |moreValues| && n <= |days| && n <= |moreDays|
    requires forall k :: 0 <= k < n ==> days[k] == moreDays[k] && values[k] == moreValues[k]
    ensures DailyEntries(days, values, n) == DailyEntries(moreDays, moreValues, n)
  {
    if n > 0 {
      EntriesPrefix(days, values, moreDays, moreValues, n - 1);
      assert n > 1 ==> days[n - 2] == moreDays[n - 2];
    }
  }

  lemma {:induction false} DailyCurveSnoc(points: seq<Point>, p: Point)
    ensures var es, last := DailyCurve(points), CurvePoint(Day(p.time), p.equity);
            DailyCurve(points + [p])
            == if points != [] && Day(points[|points| - 1].time) == Day(p.time) then es[..|es| - 1] + [last] else es + [last]
  {
    var n, longer := |points|, points + [p];
    assert forall k :: 0 <= k < n ==> longer[k] == points[k];
    EntriesPrefix(Days(points), Equities(points), Days(longer), Equities(longer), n);
  }

  /** A later day's point leaves the entries before `d` alone, with or without replacing the last one. */
  lemma {:induction false} LateEntry(es: seq<CurvePoint>, last: CurvePoint, d: Date)
    requires last.date >= d
    ensures EntriesBefore(es + [last], d) == EntriesBefore(es, d)
    ensures es != [] && es[|es| - 1].date == last.date ==> EntriesBefore(es[..|es| - 1] + [last], d) == EntriesBefore(es, d)
  {
    FilterSnoc(es, last, (e: CurvePoint) => e.date < d);
    if es != [] {
      var front := es[..|es| - 1];
      SplitLast(es);
      FilterSnoc(front, last, (e: CurvePoint) => e.date < d);
      FilterSnoc(front, es[|es| - 1], (e: CurvePoint) => e.date < d);
    }
  }

  /** The curve's entries before day `d` are the curve of the points before day `d`: nothing of `d` or later
      reaches them, with or without daily aggregation. */
  lemma {:induction false} CurveBefore(points: seq<Point>, d: Date, aggregateDaily: bool)
    requires InTimeOrder(points)
    ensures EntriesBefore(CurveOf(Reported(points, aggregateDaily)), d) == CurveOf(Reported(PointsBefore(points, d), aggregateDaily))
  {
    DailyCurveIsReported(points);
    DailyCurveIsReported(PointsBefore(points, d));
    if aggregateDaily {
      DailyBefore(points, d);
    } else {
      PlainBefore(points, d);
    }
  }

  lemma {:induction false} PlainBefore(points: seq<Point>, d: Date)
    ensures EntriesBefore(CurveOf(points), d) == CurveOf(PointsBefore(points, d))
  {
    if points != [] {
      var front, last := points[..|points| - 1], points[|points| - 1];
      SplitLast(points);
      PlainBefore(front, d);
      CurveSnoc(front, last);
      FilterSnoc(front, last, (p: Point) => Day(p.time) < d);
      FilterSnoc(CurveOf(front), CurvePoint(Day(last.time), last.equity), (e: CurvePoint) => e.date < d);
      CurveSnoc(PointsBefore(front, d), last);
    }
  }

  lemma {:induction false} DailyBefore(points: seq<Point>, d: Date)
    requires InTimeOrder(points)
    ensures EntriesBefore(DailyCurve(points), d) == DailyCurve(PointsBefore(points, d))
  {
    if points != [] {
      var front, last := points[..|points| - 1], points[|points| - 1];
      SplitLast(points);
      if Day(last.time) >= d {
        DailyBefore(front, d);
        DailyCurveSnoc(front, last);
        FilterSnoc(front, last, (p: Point) => Day(p.time) < d);
        LateEntry(DailyCurve(front), CurvePoint(Day(last.time), last.equity), d);
      } else {
        AllBefore(points, d);
      }
    }
  }

  lemma {:induction false} AllBefore(points: seq<Point>, d: Date)
    requires InTimeOrder(points) && points != [] && Day(points[|points| - 1].time) < d
    ensures PointsBefore(points, d) == points
    ensures EntriesBefore(DailyCurve(points), d) == DailyCurve(points)
  {
    forall p | p in points ensures Day(p.time) < d {
      var k :| 0 <= k < |points| && points[k] == p;
      DayMonotone(p.time, points[|points| - 1].time);
    }
    FilterAll(points, (p: Point) => Day(p.time) < d);
    EntriesAreLast(Days(points), Equities(points), |points|);
    forall e | e in DailyCurve(points) ensures e.date < d {
      var k :| 0 <= k < |DailyCurve(points)| && DailyCurve(points)[k] == e;
      assert e.date == Day(points[LastUpTo(Days(points), |points|)[k]].time);
      assert points[LastUpTo(Days(points), |points|)[k]] in points;
    }
    FilterAll(DailyCurve(points), (e: CurvePoint) => e.date < d);
  }

  // ---------- returns ----------

  function Growth(rs: seq<real>): real {
    if rs == [] then 1.0 else Compound(Growth(rs[..|rs| - 1]), rs[|rs| - 1])
  }

  function Compound(growth: real, r: real): real {
    growth * (1.0 + r)
  }

  lemma {:induction false} GrowthSnoc(rs: seq<real>, r: real)
    ensures Growth(rs + [r]) == Compound(Growth(rs), r)
  {
    assert (rs + [r])[..|rs|] == rs;
  }

  lemma {:induction false} GrowthOfOne(r: real)
    ensures Growth([r]) == 1.0 + r
  {
    GrowthSnoc([], r);
    assert [] + [r] == [r];
  }

  lemma {:induction false} ChainRatios(cash: real, before: real, now: real)
    requires cash > 0.0 && before > 0.0
    ensures Compound(before / cash, now / before - 1.0) == now / cash
  {
    var a, b := before / cash, now / before;
    assert a * cash == before && b * before == now;
    assert (a * b) * cash == b * (a * cash) == now;
    DivideBack(a * b, cash, now);
  }

  lemma {:induction false} DivideBack(x: real, c: real, y: real)
    requires c > 0.0 && x * c == y
    ensures x == y / c
  {
  }

  /** While every equity but the last is positive, the compounded returns are the final equity over cash. */
  lemma {:induction false} ReturnsCompound(cash: real, values: seq<real>)
    requires cash > 0.0 && values != [] && forall k | 0 <= k < |values| - 1 :: values[k] > 0.0
    ensures Growth(Returns(cash, values)) == values[|values| - 1] / cash
    ensures |Returns(cash, values)| == |values|
  {
    var n := |values| - 1;
    var front := values[..n];
    var r := values[n] / Previous(cash, values, n) - 1.0;
    assert Returns(cash, values) == Returns(cash, front) + [r];
    if n == 0 {
      assert Returns(cash, front) == [];
      GrowthOfOne(r);
    } else {
      ReturnsCompound(cash, front);
      GrowthSnoc(Returns(cash, front), r);
      ChainRatios(cash, values[n - 1], values[n]);
    }
  }

  /** Equity that touches zero and recovers breaks this: from cash 100, equities 0 and 50 compound to nothing. */
  lemma {:induction false} RuinBreaksCompounding()
    ensures Growth(Returns(100.0, [0.0, 50.0])) == 0.0 && 50.0 / 100.0 != 0.0
  {
    var r := 0.0 / 100.0 - 1.0;
    assert r == -1.0;
    assert [0.0, 50.0][..1] == [0.0] && [0.0][..0] == [];
    assert Returns(100.0, [0.0]) == [r];
    assert Returns(100.0, [0.0, 50.0]) == [r];
    GrowthOfOne(r);
  }

  /** With or without daily aggregation, compounding the curve's returns gives one plus the reported total
      return, as long as equity stays positive before the end. */
  lemma {:induction false} TotalReturnIsCompounded(cash: real, points: seq<Point>, aggregateDaily: bool, tradeCount: nat)
    requires cash > 0.0 && points != [] && forall k | 0 <= k < |points| - 1 :: points[k].equity > 0.0
    ensures Growth(Returns(cash, Equities(Reported(points, aggregateDaily))))
         == 1.0 + MetricsOf(cash, points, aggregateDaily, tradeCount).totalReturn
  {
    ReportedCompounds(cash, points, aggregateDaily);
    MetricsReturn(cash, points, aggregateDaily, tradeCount);
  }

  lemma {:induction false} MetricsReturn(cash: real, points: seq<Point>, aggregateDaily: bool, tradeCount: nat)
    requires cash > 0.0 && points != []
    ensures MetricsOf(cash, points, aggregateDaily, tradeCount).totalReturn == TotalReturn(cash, FinalEquity(cash, points))
  {
  }

  lemma {:induction false} ReportedCompounds(cash: real, points: seq<Point>, aggregateDaily: bool)
    requires cash > 0.0 && points != [] && forall k | 0 <= k < |points| - 1 :: points[k].equity > 0.0
    ensures Growth(Returns(cash, Equities(Reported(points, aggregateDaily)))) == 1.0 + TotalReturn(cash, FinalEquity(cash, points))
  {
    ReportedEquities(points, aggregateDaily);
    CompoundsTo(cash, Equities(Reported(points, aggregateDaily)), FinalEquity(cash, points));
  }

  lemma {:induction false} CompoundsTo(cash: real, values: seq<real>, final: real)
    requires cash > 0.0 && values != [] && forall k | 0 <= k < |values| - 1 :: values[k] > 0.0
    requires values[|values| - 1] == final
    ensures Growth(Returns(cash, values)) == 1.0 + TotalReturn(cash, final)
  {
    ReturnsCompound(cash, values);
  }

  lemma {:induction false} ReportedEquities(points: seq<Point>, aggregateDaily: bool)
    requires points != [] && forall k | 0 <= k < |points| - 1 :: points[k].equity > 0.0
    ensures var values := Equities(Reported(points, aggregateDaily));
            && values != [] && values[|values| - 1] == points[|points| - 1].equity
            && forall k | 0 <= k < |values| - 1 :: values[k] > 0.0
  {
    if aggregateDaily {
      DailyEndsAtFinal(points);
      DailyIsLastOfDay(points);
      LastAtIncreasing(Days(points));
      var daily, at := DailyCloses(points), LastAt(Days(points));
      forall k | 0 <= k < |daily| - 1 ensures Equities(daily)[k] > 0.0 {
        assert at[k] < at[|at| - 1] == |points| - 1;
      }
    }
  }

  // ---------- the Sharpe ratio ----------

  lemma {:induction false} DeviationsVanish(xs: seq<real>, mean: real)
    ensures SquaredDeviations(xs, mean) >= 0.0
    ensures SquaredDeviations(xs, mean) == 0.0 <==> forall i | 0 <= i < |xs| :: xs[i] == mean
  {
    if xs != [] {
      var n := |xs| - 1;
      var front, last := SquaredDeviations(xs[..n], mean), Sq(xs[n] - mean);
      DeviationsVanish(xs[..n], mean);
      SquareSign(xs[n] - mean);
      assert SquaredDeviations(xs, mean) == front + last;
      assert forall i :: 0 <= i < n ==> xs[..n][i] == xs[i];
    }
  }

  lemma {:induction false} PositiveSquare(x: real)
    requires x > 0.0
    ensures Sq(x) > 0.0
  {
    var s := Sq(x);
    assert s / x == x;
    assert s == (s / x) * x;
  }

  lemma {:induction false} NegativeSquare(x: real)
    requires x < 0.0
    ensures Sq(x) > 0.0
  {
    var y := -x;
    PositiveSquare(y);
    assert Sq(y) == Sq(x);
  }

  lemma {:induction false} SquareSign(x: real)
    ensures x == 0.0 ==> Sq(x) == 0.0
    ensures x != 0.0 ==> Sq(x) > 0.0
  {
    if x > 0.0 {
      PositiveSquare(x);
    } else if x < 0.0 {
      NegativeSquare(x);
    }
  }

  lemma {:induction false} SumOfEqual(xs: seq<real>, c: real)
    requires forall i | 0 <= i < |xs| :: xs[i] == c
    ensures Sum(xs) == |xs| as real * c
  {
    if xs != [] {
      SumOfEqual(xs[..|xs| - 1], c);
      assert (|xs| - 1) as real * c + c == |xs| as real * c;
    }
  }

  /** A Sharpe ratio is reported iff two of the returns differ. */
  lemma {:induction false} SharpeReportedIff(rs: seq<real>)
    ensures Sharpe(rs).Some? <==> exists i, j :: 0 <= i < j < |rs| && rs[i] != rs[j]
  {
    if |rs| >= 2 {
      var n, s := |rs| as real, Sum(rs);
      var mean := s / n;
      DeviationsVanish(rs, mean);
      var d := SquaredDeviations(rs, mean);
      assert d / (|rs| - 1) as real > 0.0 <==> d > 0.0 by {
        PositiveQuotient(d, (|rs| - 1) as real);
      }
      if forall i | 0 <= i < |rs| :: rs[i] == rs[0] {
        SumOfEqual(rs, rs[0]);
        MeanOfEqual(s, n, rs[0]);
      } else {
        var i :| 0 <= i < |rs| && rs[i] != rs[0];
        assert 0 < i;
        assert !(rs[i] == mean && rs[0] == mean);
      }
    }
  }

  lemma {:induction false} PositiveQuotient(d: real, n: real)
    requires d >= 0.0 && n > 0.0
    ensures d / n > 0.0 <==> d > 0.0
  {
    var q := d / n;
    assert q * n == d;
  }

  lemma {:induction false} MeanOfEqual(s: real, n: real, c: real)
    requires n > 0.0 && s == n * c
    ensures s / n == c
  {
  }
}
