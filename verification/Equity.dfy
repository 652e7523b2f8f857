/** `backtest/service.py`, `_equity_curve`: mark-to-market equity over the merged timeline of all
    instruments, its running drawdown, daily aggregation and returns. */
module Equity {
  import opened Wrappers
  import opened Clock
  import opened Sequences
  import opened Drawdown
  import Contracts
  import Resolver

  type Bar = Resolver.Bar

  datatype BacktestError =
    | NonPositiveLot | NonPositiveCash | EndBeforeStart | BadFrequency | NoInstruments
    | InvalidBar | NoMarketData | UnsupportedInstrument | MixedVenues

  datatype Point = Point(time: Time, equity: real)

  datatype CurvePoint = CurvePoint(date: Date, equity: real)

  /** The two numbers the Sharpe ratio is formed from. */
  datatype Dispersion = Dispersion(mean: real, variance: real)

  datatype Metrics = Metrics(totalReturn: real, sharpe: Option<Dispersion>, maxDrawdown: real, tradeCount: nat)

  /** What the loop runs on: instruments in dict order, their bars, and the target map of each. */
  datatype Panel = Panel(instruments: seq<string>, bars: map<string, seq<Bar>>, targets: map<string, map<Time, int>>, cash: real)
  {
    ghost predicate Valid() {
      Distinct(instruments) && forall i :: i in instruments ==> i in bars
    }

    function Series(i: string): map<Time, real>
      requires i in bars
    {
      CloseMap(bars[i])
    }

    function TargetsOf(i: string): map<Time, int> {
      if i in targets then targets[i] else map[]
    }
  }

  /** `{bar.timestamp: bar.close for bar in bars}` */
  function CloseMap(bars: seq<Bar>): (m: map<Time, real>)
    ensures forall t :: t in m <==> exists b :: b in bars && b.timestamp == t
  {
    if bars == [] then map[]
    else
      var last := bars[|bars| - 1];
      assert bars == bars[..|bars| - 1] + [last];
      CloseMap(bars[..|bars| - 1])[last.timestamp := last.close]
  }

  function Stamps(bars: seq<Bar>): (ts: seq<Time>)
    ensures |ts| == |bars| && forall i :: 0 <= i < |bars| ==> ts[i] == bars[i].timestamp
  {
    seq(|bars|, i requires 0 <= i < |bars| => bars[i].timestamp)
  }

  function AllStamps(instruments: seq<string>, bars: map<string, seq<Bar>>): (ts: seq<Time>)
    requires forall i :: i in instruments ==> i in bars
    ensures forall t :: t in ts <==> exists i :: i in instruments && t in CloseMap(bars[i])
  {
    if instruments == [] then []
    else
      var last := instruments[|instruments| - 1];
      assert instruments == instruments[..|instruments| - 1] + [last];
      StampsAreTimes(bars[last]);
      AllStamps(instruments[..|instruments| - 1], bars) + Stamps(bars[last])
  }

  lemma {:induction false} StampsAreTimes(bars: seq<Bar>)
    ensures forall t :: t in Stamps(bars) <==> t in CloseMap(bars)
  {
    forall t ensures t in Stamps(bars) <==> t in CloseMap(bars) {
      if t in Stamps(bars) {
        var i :| 0 <= i < |bars| && Stamps(bars)[i] == t;
        assert bars[i] in bars;
      }
      if t in CloseMap(bars) {
        var b :| b in bars && b.timestamp == t;
        var i :| 0 <= i < |bars| && bars[i] == b;
        assert Stamps(bars)[i] == t;
      }
    }
  }

  /** The merged timeline: every bar time of every instrument once, ascending. */
  function Timeline(p: Panel): seq<Time>
    requires p.Valid()
  {
    SortedDistinct(AllStamps(p.instruments, p.bars))
  }

  // ---------- specification of the loop ----------

  /** The last own close up to the end of `hist`. */
  function LastClose(series: map<Time, real>, hist: seq<Time>): Option<real> {
    if hist == [] then None
    else
      var t := hist[|hist| - 1];
      if t in series then Some(series[t]) else LastClose(series, hist[..|hist| - 1])
  }

  /** The position held after the targets at the end of `hist` have taken effect. */
  function Position(byBar: map<Time, int>, hist: seq<Time>): int {
    if hist == [] then 0
    else
      var t := hist[|hist| - 1];
      if t in byBar then byBar[t] else Position(byBar, hist[..|hist| - 1])
  }

  /** Profit of one instrument at time `t` after `hist`: the position held into `t` times the move of its
      last close. */
  function StepPnl(series: map<Time, real>, byBar: map<Time, int>, multiplier: int, hist: seq<Time>, t: Time): real {
    match LastClose(series, hist)
    case None => 0.0
    case Some(previous) =>
      var close := if t in series then series[t] else previous;
      Scaled(multiplier, Worth(Position(byBar, hist), close - previous))
  }

  function Worth(position: int, price: real): real {
    position as real * price
  }

  function Scaled(multiplier: int, x: real): real {
    x * multiplier as real
  }

  function TotalStepPnl(p: Panel, instruments: seq<string>, hist: seq<Time>, t: Time): real
    requires forall i :: i in instruments ==> i in p.bars
  {
    if instruments == [] then 0.0
    else
      var i := instruments[|instruments| - 1];
      TotalStepPnl(p, instruments[..|instruments| - 1], hist, t)
      + StepPnl(p.Series(i), p.TargetsOf(i), Contracts.Multiplier(i), hist, t)
  }

  /** Equity after the points of `hist`. */
  function EquityAfter(p: Panel, hist: seq<Time>): real
    requires p.Valid()
  {
    if hist == [] then p.cash
    else
      var front := hist[..|hist| - 1];
      EquityAfter(p, front) + TotalStepPnl(p, p.instruments, front, hist[|hist| - 1])
  }

  /** One point per time of the timeline. */
  function Points(p: Panel, times: seq<Time>): (ps: seq<Point>)
    requires p.Valid()
    ensures |ps| == |times|
    ensures forall k :: 0 <= k < |ps| ==> ps[k] == Point(times[k], EquityAfter(p, times[..k + 1]))
  {
    seq(|times|, k requires 0 <= k < |times| => Point(times[k], EquityAfter(p, times[..k + 1])))
  }

  /** The equity after the last point. */
  function FinalEquity(cash: real, points: seq<Point>): real {
    if points == [] then cash else points[|points| - 1].equity
  }

  /** Initial cash followed by the equity of each point: the path the drawdown runs over. */
  function EquityPath(cash: real, points: seq<Point>): (e: seq<real>)
    ensures |e| == |points| + 1 && e[0] == cash
    ensures forall k :: 0 <= k < |points| ==> e[k + 1] == points[k].equity
  {
    [cash] + seq(|points|, k requires 0 <= k < |points| => points[k].equity)
  }

  lemma {:induction false} PathSnoc(cash: real, points: seq<Point>, q: Point)
    ensures EquityPath(cash, points + [q]) == EquityPath(cash, points) + [q.equity]
    ensures Peak(EquityPath(cash, points + [q])) == Max(Peak(EquityPath(cash, points)), q.equity)
    ensures var peak := Peak(EquityPath(cash, points + [q]));
            MaxDrawdown(EquityPath(cash, points + [q]))
            == if peak > 0.0 then Max(MaxDrawdown(EquityPath(cash, points)), (peak - q.equity) / peak)
               else MaxDrawdown(EquityPath(cash, points))
  {
    var before, after := EquityPath(cash, points), EquityPath(cash, points + [q]);
    assert after == before + [q.equity];
    assert after[..|after| - 1] == before;
  }

  // ---------- the loops ----------

  /** `lastClose` holds instrument `i`'s last close up to the end of `hist`. */
  ghost predicate Tracked(p: Panel, i: string, lastClose: map<string, real>, hist: seq<Time>) {
    i in p.bars && match LastClose(p.Series(i), hist)
                   case None => i !in lastClose
                   case Some(c) => i in lastClose && lastClose[i] == c
  }

  ghost predicate PositionTracked(p: Panel, i: string, currentPos: map<string, int>, hist: seq<Time>) {
    (if i in currentPos then currentPos[i] else 0) == Position(p.TargetsOf(i), hist)
  }

  ghost predicate ClosesTracked(p: Panel, lastClose: map<string, real>, hist: seq<Time>) {
    forall i :: i in p.instruments ==> Tracked(p, i, lastClose, hist)
  }

  ghost predicate PositionsTracked(p: Panel, currentPos: map<string, int>, hist: seq<Time>) {
    forall i :: PositionTracked(p, i, currentPos, hist)
  }

  /** One instrument at time `ts`: its profit, and its last close from then on. */
  method MarkInstrument(p: Panel, i: string, ghost hist: seq<Time>, ts: Time, lastClose: map<string, real>, currentPos: map<string, int>)
    returns (pnl: real, close: Option<real>)
    requires Tracked(p, i, lastClose, hist) && PositionTracked(p, i, currentPos, hist)
    ensures pnl == StepPnl(p.Series(i), p.TargetsOf(i), Contracts.Multiplier(i), hist, ts)
    ensures close == LastClose(p.Series(i), hist + [ts])
    ensures close.None? ==> i !in lastClose
  {
    assert (hist + [ts])[..|hist|] == hist;
    var series := p.Series(i);
    var previous := if i in lastClose then Some(lastClose[i]) else None;
    close := if ts in series then Some(series[ts]) else previous;
    pnl := 0.0;
    if close.Some? && previous.Some? {
      var pos := if i in currentPos then currentPos[i] else 0;
      pnl := Scaled(Contracts.Multiplier(i), Worth(pos, close.value - previous.value));
    }
  }

  /** The inner loop over instruments at time `ts`. */
  method MarkInstruments(p: Panel, ghost hist: seq<Time>, ts: Time, lastClose: map<string, real>, currentPos: map<string, int>)
    returns (pnl: real, closes: map<string, real>)
    requires p.Valid()
    requires ClosesTracked(p, lastClose, hist) && PositionsTracked(p, currentPos, hist)
    ensures pnl == TotalStepPnl(p, p.instruments, hist, ts)
    ensures ClosesTracked(p, closes, hist + [ts])
  {
    pnl, closes := 0.0, lastClose;
    for n := 0 to |p.instruments|
      invariant pnl == TotalStepPnl(p, p.instruments[..n], hist, ts)
      invariant Progress(p, closes, n, hist, ts)
    {
      var instrument := p.instruments[n];
      TotalSnoc(p, n, hist, ts);
      var gain, close := MarkInstrument(p, instrument, hist, ts, closes, currentPos);
      pnl := pnl + gain;
      ProgressStep(p, closes, close, n, hist, ts);
      if close.Some? {
        closes := closes[instrument := close.value];
      }
    }
    assert p.instruments[..|p.instruments|] == p.instruments;
  }

  /** The first `n` instruments are tracked up to `ts`, the others up to the end of `hist`. */
  ghost predicate Progress(p: Panel, closes: map<string, real>, n: nat, hist: seq<Time>, ts: Time)
    requires n <= |p.instruments|
  {
    && (forall k :: 0 <= k < n ==> Tracked(p, p.instruments[k], closes, hist + [ts]))
    && (forall k :: n <= k < |p.instruments| ==> Tracked(p, p.instruments[k], closes, hist))
  }

  lemma {:induction false} ProgressStep(p: Panel, closes: map<string, real>, close: Option<real>, n: nat, hist: seq<Time>, ts: Time)
    requires p.Valid() && n < |p.instruments| && Progress(p, closes, n, hist, ts)
    requires close == LastClose(p.Series(p.instruments[n]), hist + [ts])
    requires close.None? ==> p.instruments[n] !in closes
    ensures Progress(p, if close.Some? then closes[p.instruments[n] := close.value] else closes, n + 1, hist, ts)
  {
    var i := p.instruments[n];
    var after := if close.Some? then closes[i := close.value] else closes;
    forall j, h | j != i && Tracked(p, j, closes, h) ensures Tracked(p, j, after, h) {
    }
    assert forall k :: 0 <= k < |p.instruments| && k != n ==> p.instruments[k] != i;
  }

  lemma {:induction false} TotalSnoc(p: Panel, n: int, hist: seq<Time>, t: Time)
    requires p.Valid() && 0 <= n < |p.instruments|
    ensures var i := p.instruments[n];
            TotalStepPnl(p, p.instruments[..n + 1], hist, t)
            == TotalStepPnl(p, p.instruments[..n], hist, t)
               + StepPnl(p.Series(i), p.TargetsOf(i), Contracts.Multiplier(i), hist, t)
  {
    assert p.instruments[..n + 1][..n] == p.instruments[..n];
  }

  /** The loop that puts the targets of time `ts` into effect. */
  method TakeTargets(p: Panel, targetOrder: seq<string>, ghost hist: seq<Time>, ts: Time, currentPos: map<string, int>)
    returns (positions: map<string, int>)
    requires forall i :: i in targetOrder <==> i in p.targets
    requires PositionsTracked(p, currentPos, hist)
    ensures PositionsTracked(p, positions, hist + [ts])
  {
    positions := currentPos;
    for n := 0 to |targetOrder|
      invariant forall i :: i in targetOrder[..n] ==> PositionTracked(p, i, positions, hist + [ts])
      invariant forall i :: i !in targetOrder[..n] ==> PositionTracked(p, i, positions, hist)
    {
      var instrument := targetOrder[n];
      ghost var before := positions;
      if ts in p.targets[instrument] {
        positions := positions[instrument := p.targets[instrument][ts]];
      }
      assert (hist + [ts])[..|hist|] == hist;
      assert targetOrder[..n + 1] == targetOrder[..n] + [instrument];
      forall i | i in targetOrder[..n + 1] ensures PositionTracked(p, i, positions, hist + [ts]) {
        assert i != instrument ==> PositionTracked(p, i, before, hist + [ts]);
        assert instrument !in targetOrder[..n] ==> PositionTracked(p, instrument, before, hist);
      }
      forall i | i !in targetOrder[..n + 1] ensures PositionTracked(p, i, positions, hist) {
        assert PositionTracked(p, i, before, hist);
      }
    }
    assert targetOrder[..|targetOrder|] == targetOrder;
    assert (hist + [ts])[..|hist|] == hist;
    forall i ensures PositionTracked(p, i, positions, hist + [ts]) {
      assert i !in targetOrder ==> PositionTracked(p, i, positions, hist);
    }
  }

  ghost predicate DrawdownTracked(cash: real, points: seq<Point>, peak: real, maxDrawdown: real) {
    var path := EquityPath(cash, points);
    peak == Peak(path) && maxDrawdown == MaxDrawdown(path)
  }

  /** The running peak and drawdown after one more point. */
  method TrackDrawdown(cash: real, ghost points: seq<Point>, q: Point, peak: real, maxDrawdown: real)
    returns (newPeak: real, newDrawdown: real)
    requires DrawdownTracked(cash, points, peak, maxDrawdown)
    ensures DrawdownTracked(cash, points + [q], newPeak, newDrawdown)
  {
    newPeak := Max(peak, q.equity);
    newDrawdown := maxDrawdown;
    if newPeak > 0.0 {
      newDrawdown := Max(maxDrawdown, (newPeak - q.equity) / newPeak);
    }
    PathSnoc(cash, points, q);
  }

  /** The variables of the main loop. */
  datatype Marks = Marks(equity: real, peak: real, maxDrawdown: real, points: seq<Point>,
                         lastClose: map<string, real>, currentPos: map<string, int>)

  /** The loop's state after the times of `hist`. */
  ghost predicate Marked(p: Panel, hist: seq<Time>, m: Marks)
    requires p.Valid()
  {
    && m.points == Points(p, hist) && m.equity == EquityAfter(p, hist)
    && DrawdownTracked(p.cash, m.points, m.peak, m.maxDrawdown)
    && ClosesTracked(p, m.lastClose, hist) && PositionsTracked(p, m.currentPos, hist)
  }

  /** The body of the main loop: book the profit of `ts`, record the point, then let the targets take effect. */
  method MarkTime(p: Panel, targetOrder: seq<string>, ghost hist: seq<Time>, ts: Time, m: Marks) returns (n: Marks)
    requires p.Valid() && Marked(p, hist, m)
    requires forall i :: i in targetOrder <==> i in p.targets
    ensures Marked(p, hist + [ts], n)
  {
    var pnl, lastClose := MarkInstruments(p, hist, ts, m.lastClose, m.currentPos);
    var equity := m.equity + pnl;
    var peak, maxDrawdown := TrackDrawdown(p.cash, m.points, Point(ts, equity), m.peak, m.maxDrawdown);
    var points := m.points + [Point(ts, equity)];
    var currentPos := TakeTargets(p, targetOrder, hist, ts, m.currentPos);
    n := Marks(equity, peak, maxDrawdown, points, lastClose, currentPos);
    MarkedNext(p, hist, ts, m, n);
  }

  /** The parts of the next state make it up. */
  lemma {:induction false} MarkedNext(p: Panel, hist: seq<Time>, ts: Time, m: Marks, n: Marks)
    requires p.Valid() && m.points == Points(p, hist) && m.equity == EquityAfter(p, hist)
    requires n.equity == m.equity + TotalStepPnl(p, p.instruments, hist, ts) && n.points == m.points + [Point(ts, n.equity)]
    requires DrawdownTracked(p.cash, n.points, n.peak, n.maxDrawdown)
    requires ClosesTracked(p, n.lastClose, hist + [ts]) && PositionsTracked(p, n.currentPos, hist + [ts])
    ensures Marked(p, hist + [ts], n)
  {
    PointsSnoc(p, hist, ts);
  }

  lemma {:induction false} MarkedAtStart(p: Panel, times: seq<Time>)
    requires p.Valid()
    ensures MarkedUpTo(p, times, 0, Marks(p.cash, p.cash, 0.0, [], map[], map[]))
  {
    assert times[..0] == [];
  }

  /** The main loop: equity, running peak and running drawdown over the timeline. */
  method MarkToMarket(p: Panel, targetOrder: seq<string>, times: seq<Time>)
    returns (equity: real, maxDrawdown: real, points: seq<Point>)
    requires p.Valid()
    requires forall i :: i in targetOrder <==> i in p.targets
    ensures points == Points(p, times)
    ensures equity == FinalEquity(p.cash, points)
    ensures maxDrawdown == MaxDrawdown(EquityPath(p.cash, points))
  {
    var m := MarkTimes(p, targetOrder, times);
    MarkedAtEnd(p, times, m);
    return m.equity, m.maxDrawdown, m.points;
  }

  /** The loop's state after the first `k` times. */
  ghost predicate MarkedUpTo(p: Panel, times: seq<Time>, k: nat, m: Marks)
    requires p.Valid() && k <= |times|
  {
    Marked(p, times[..k], m)
  }

  method MarkTimes(p: Panel, targetOrder: seq<string>, times: seq<Time>) returns (m: Marks)
    requires p.Valid()
    requires forall i :: i in targetOrder <==> i in p.targets
    ensures MarkedUpTo(p, times, |times|, m)
  {
    m := Marks(p.cash, p.cash, 0.0, [], map[], map[]);
    MarkedAtStart(p, times);
    for k := 0 to |times|
      invariant MarkedUpTo(p, times, k, m)
    {
      m := MarkTime(p, targetOrder, times[..k], times[k], m);
      MarkedFurther(p, times, k, m);
    }
  }

  lemma {:induction false} MarkedFurther(p: Panel, times: seq<Time>, k: nat, m: Marks)
    requires p.Valid() && k < |times| && Marked(p, times[..k] + [times[k]], m)
    ensures MarkedUpTo(p, times, k + 1, m)
  {
    assert times[..k + 1] == times[..k] + [times[k]];
  }

  lemma {:induction false} MarkedAtEnd(p: Panel, times: seq<Time>, m: Marks)
    requires p.Valid() && MarkedUpTo(p, times, |times|, m)
    ensures m.points == Points(p, times) && m.equity == FinalEquity(p.cash, m.points)
    ensures m.maxDrawdown == MaxDrawdown(EquityPath(p.cash, m.points))
  {
    assert times[..|times|] == times;
    LastPoint(p, times);
  }

  lemma {:induction false} LastPoint(p: Panel, times: seq<Time>)
    requires p.Valid()
    ensures FinalEquity(p.cash, Points(p, times)) == EquityAfter(p, times)
  {
    assert times[..|times|] == times;
  }

  lemma {:induction false} PointsSnoc(p: Panel, hist: seq<Time>, ts: Time)
    requires p.Valid()
    ensures EquityAfter(p, hist + [ts]) == EquityAfter(p, hist) + TotalStepPnl(p, p.instruments, hist, ts)
    ensures Points(p, hist + [ts]) == Points(p, hist) + [Point(ts, EquityAfter(p, hist + [ts]))]
  {
    var longer := hist + [ts];
    assert longer[..|hist|] == hist;
    var a, b := Points(p, longer), Points(p, hist) + [Point(ts, EquityAfter(p, longer))];
    forall j | 0 <= j < |a| ensures a[j] == b[j] {
      if j < |hist| {
        assert longer[..j + 1] == hist[..j + 1];
      } else {
        assert longer[..j + 1] == longer;
      }
    }
  }
}
