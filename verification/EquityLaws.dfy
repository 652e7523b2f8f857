/** What `_equity_curve` guarantees over whole runs: no look-ahead, and a ledger identity that ties the
    merged timeline back to each instrument's own bars. */
module EquityLaws {
  import opened Wrappers
  import opened Clock
  import opened Sequences
  import opened Drawdown
  import opened Equity
  import opened Curve
  import Contracts

  // ---------- no look-ahead ----------

  /** Both panels hold the same instruments and cash, and agree on every close and every target up to `t`. */
  ghost predicate AgreeUpTo(p: Panel, q: Panel, t: Time)
    requires p.Valid() && q.Valid()
  {
    && p.instruments == q.instruments && p.cash == q.cash
    && (forall i, s | i in p.instruments && s <= t ::
          && (s in p.Series(i) <==> s in q.Series(i))
          && (s in p.Series(i) ==> p.Series(i)[s] == q.Series(i)[s])
          && (s in p.TargetsOf(i) <==> s in q.TargetsOf(i))
          && (s in p.TargetsOf(i) ==> p.TargetsOf(i)[s] == q.TargetsOf(i)[s]))
  }

  lemma {:induction false} SameLastClose(a: map<Time, real>, b: map<Time, real>, hist: seq<Time>)
    requires forall s | s in hist :: (s in a <==> s in b) && (s in a ==> a[s] == b[s])
    ensures LastClose(a, hist) == LastClose(b, hist)
  {
    if hist != [] {
      assert hist[|hist| - 1] in hist;
      SameLastClose(a, b, hist[..|hist| - 1]);
    }
  }

  lemma {:induction false} SamePosition(a: map<Time, int>, b: map<Time, int>, hist: seq<Time>)
    requires forall s | s in hist :: (s in a <==> s in b) && (s in a ==> a[s] == b[s])
    ensures Position(a, hist) == Position(b, hist)
  {
    if hist != [] {
      assert hist[|hist| - 1] in hist;
      SamePosition(a, b, hist[..|hist| - 1]);
    }
  }

  lemma {:induction false} SameStepPnl(p: Panel, q: Panel, i: string, hist: seq<Time>, t: Time)
    requires p.Valid() && q.Valid() && AgreeUpTo(p, q, t) && i in p.instruments
    requires forall s :: s in hist ==> s <= t
    ensures StepPnl(p.Series(i), p.TargetsOf(i), Contracts.Multiplier(i), hist, t)
         == StepPnl(q.Series(i), q.TargetsOf(i), Contracts.Multiplier(i), hist, t)
  {
    SameLastClose(p.Series(i), q.Series(i), hist);
    SamePosition(p.TargetsOf(i), q.TargetsOf(i), hist);
  }

  function OwnStep(p: Panel, i: string, hist: seq<Time>, t: Time): real
    requires i in p.bars
  {
    StepPnl(p.Series(i), p.TargetsOf(i), Contracts.Multiplier(i), hist, t)
  }

  lemma {:induction false} SameTotals(p: Panel, q: Panel, instruments: seq<string>, hist: seq<Time>, t: Time)
    requires forall i :: i in instruments ==> i in p.bars && i in q.bars && OwnStep(p, i, hist, t) == OwnStep(q, i, hist, t)
    ensures TotalStepPnl(p, instruments, hist, t) == TotalStepPnl(q, instruments, hist, t)
  {
    if instruments != [] {
      SplitLast(instruments);
      SameTotals(p, q, instruments[..|instruments| - 1], hist, t);
      assert instruments[|instruments| - 1] in instruments;
    }
  }

  lemma {:induction false} SameTotalStep(p: Panel, q: Panel, hist: seq<Time>, t: Time)
    requires p.Valid() && q.Valid() && AgreeUpTo(p, q, t)
    requires forall s :: s in hist ==> s <= t
    ensures TotalStepPnl(p, p.instruments, hist, t) == TotalStepPnl(q, q.instruments, hist, t)
  {
    forall i | i in p.instruments ensures OwnStep(p, i, hist, t) == OwnStep(q, i, hist, t) {
      SameStepPnl(p, q, i, hist, t);
    }
    SameTotals(p, q, p.instruments, hist, t);
  }

  lemma {:induction false} AgreeEarlier(p: Panel, q: Panel, s: Time, t: Time)
    requires p.Valid() && q.Valid() && AgreeUpTo(p, q, t) && s <= t
    ensures AgreeUpTo(p, q, s)
  {
  }

  lemma {:induction false} SameEquity(p: Panel, q: Panel, hist: seq<Time>)
    requires p.Valid() && q.Valid() && Increasing(hist)
    requires p.cash == q.cash
    requires hist != [] ==> AgreeUpTo(p, q, hist[|hist| - 1])
    ensures EquityAfter(p, hist) == EquityAfter(q, hist)
  {
    if hist != [] {
      var n := |hist| - 1;
      var front, t := hist[..n], hist[n];
      if n > 0 {
        AgreeEarlier(p, q, front[n - 1], t);
      }
      SameEquity(p, q, front);
      SameTotalStep(p, q, front, t);
    }
  }

  lemma {:induction false} SameTimelineUpTo(p: Panel, q: Panel, t: Time)
    requires p.Valid() && q.Valid() && AgreeUpTo(p, q, t)
    ensures CountUpTo(Timeline(p), t) == CountUpTo(Timeline(q), t)
    ensures Timeline(p)[..CountUpTo(Timeline(p), t)] == Timeline(q)[..CountUpTo(Timeline(q), t)]
  {
    TimelineOrdered(p);
    TimelineOrdered(q);
    forall s | s <= t ensures s in Timeline(p) <==> s in Timeline(q) {
      assert s in Timeline(p) <==> exists i :: i in p.instruments && s in p.Series(i);
      assert s in Timeline(q) <==> exists i :: i in q.instruments && s in q.Series(i);
    }
    SamePrefixUpTo(Timeline(p), Timeline(q), t);
  }

  lemma {:induction false} SamePoint(p: Panel, q: Panel, ps: seq<Time>, qs: seq<Time>, n: nat, k: nat, t: Time)
    requires p.Valid() && q.Valid() && AgreeUpTo(p, q, t)
    requires Increasing(ps) && n <= |ps| && n <= |qs| && ps[..n] == qs[..n] && k < n && ps[k] <= t
    ensures Points(p, ps)[k] == Points(q, qs)[k]
  {
    assert ps[k] == ps[..n][k] == qs[..n][k] == qs[k];
    assert ps[..k + 1] == ps[..n][..k + 1];
    assert qs[..k + 1] == qs[..n][..k + 1];
    AgreeEarlier(p, q, ps[k], t);
    SameEquity(p, q, ps[..k + 1]);
  }

  /** No look-ahead: if two runs agree on all closes and targets up to `t`, then up to `t` they have the same
      timeline and the same equity points, whatever comes later. */
  lemma {:induction false} NoLookAhead(p: Panel, q: Panel, t: Time)
    requires p.Valid() && q.Valid() && AgreeUpTo(p, q, t)
    ensures CountUpTo(Timeline(p), t) == CountUpTo(Timeline(q), t)
    ensures PanelPoints(p)[..CountUpTo(Timeline(p), t)] == PanelPoints(q)[..CountUpTo(Timeline(p), t)]
  {
    SameTimelineUpTo(p, q, t);
    TimelineOrdered(p);
    CountUpToCuts(Timeline(p), t);
    var ps, qs, n := Timeline(p), Timeline(q), CountUpTo(Timeline(p), t);
    forall k | 0 <= k < n ensures Points(p, ps)[k] == Points(q, qs)[k] {
      SamePoint(p, q, ps, qs, n, k, t);
    }
  }

  /** The running peak and running drawdown shown at `t` are therefore the same too. */
  lemma {:induction false} NoLookAheadInDrawdown(p: Panel, q: Panel, t: Time)
    requires p.Valid() && q.Valid() && AgreeUpTo(p, q, t)
    ensures var n := CountUpTo(Timeline(p), t);
            && n <= |PanelPoints(p)| && n <= |PanelPoints(q)|
            && Peak(EquityPath(p.cash, PanelPoints(p)[..n])) == Peak(EquityPath(q.cash, PanelPoints(q)[..n]))
            && MaxDrawdown(EquityPath(p.cash, PanelPoints(p)[..n])) == MaxDrawdown(EquityPath(q.cash, PanelPoints(q)[..n]))
  {
    NoLookAhead(p, q, t);
  }

  // ---------- the ledger of one instrument ----------

  /** The position after the instrument's own bar `n - 1`. */
  function Holding(bars: seq<Bar>, byBar: map<Time, int>, n: nat): int
    requires n <= |bars|
  {
    if n == 0 then 0 else if bars[n - 1].timestamp in byBar then byBar[bars[n - 1].timestamp] else 0
  }

  /** What the trades at the first `n` own bars cost: each trades the change of position at that bar's close. */
  function TradeCost(bars: seq<Bar>, byBar: map<Time, int>, n: nat): real
    requires n <= |bars|
  {
    if n == 0 then 0.0
    else TradeCost(bars, byBar, n - 1) + Worth(Holding(bars, byBar, n) - Holding(bars, byBar, n - 1), bars[n - 1].close)
  }

  /** Money spent on trades turned around, plus the position valued at the last close. */
  function Ledger(bars: seq<Bar>, byBar: map<Time, int>, n: nat): real
    requires n <= |bars|
  {
    if n == 0 then 0.0
    else Worth(Holding(bars, byBar, n), bars[n - 1].close) - TradeCost(bars, byBar, n)
  }

  lemma {:induction false} WorthOfTrade(after: int, before: int, price: real)
    ensures Worth(after - before, price) == Worth(after, price) - Worth(before, price)
  {
  }

  lemma {:induction false} WorthOfMove(position: int, now: real, before: real)
    ensures Worth(position, now - before) == Worth(position, now) - Worth(position, before)
  {
  }

  /** One more own bar adds the profit of the position held into it. */
  lemma {:induction false} LedgerStep(bars: seq<Bar>, byBar: map<Time, int>, n: nat)
    requires n < |bars|
    ensures n == 0 ==> Ledger(bars, byBar, n + 1) == 0.0
    ensures n > 0 ==> Ledger(bars, byBar, n + 1) == Ledger(bars, byBar, n) + Worth(Holding(bars, byBar, n), bars[n].close - bars[n - 1].close)
  {
    var before, after := Holding(bars, byBar, n), Holding(bars, byBar, n + 1);
    if n == 0 {
      var w := Worth(after, bars[0].close);
      assert Worth(after - before, bars[0].close) == w;
      assert TradeCost(bars, byBar, 0) == 0.0;
      assert TradeCost(bars, byBar, 1) == w;
    } else {
      WorthOfTrade(after, before, bars[n].close);
      WorthOfMove(before, bars[n].close, bars[n - 1].close);
    }
  }

  /** The instrument's bars are its own times, and the panel's targets are exactly at those times, as
      `run_factor_backtest` wires them. */
  ghost predicate Wired(bars: seq<Bar>, byBar: map<Time, int>) {
    && (forall i, j | 0 <= i < j < |bars| :: bars[i].timestamp < bars[j].timestamp)
    && (forall t :: t in byBar <==> t in Stamps(bars))
  }

  /** The first `n` own bars are the ones inside `hist`. */
  ghost predicate OwnBars(bars: seq<Bar>, hist: seq<Time>, n: nat) {
    && n <= |bars|
    && (forall j | 0 <= j < |bars| :: j < n <==> bars[j].timestamp in hist)
  }

  lemma {:induction false} DistinctCloseMapAt(bars: seq<Bar>, j: nat)
    requires forall i, j | 0 <= i < j < |bars| :: bars[i].timestamp < bars[j].timestamp
    requires j < |bars|
    ensures bars[j].timestamp in CloseMap(bars) && CloseMap(bars)[bars[j].timestamp] == bars[j].close
  {
    if j < |bars| - 1 {
      DistinctCloseMapAt(bars[..|bars| - 1], j);
    }
  }

  /** The history up to a time that is not an own bar leaves close and position as they were; at an own bar
      they become that bar's close and target. */
  lemma {:induction false} TrackOwnBars(bars: seq<Bar>, byBar: map<Time, int>, hist: seq<Time>, n: nat)
    requires Wired(bars, byBar) && Increasing(hist) && OwnBars(bars, hist, n)
    ensures LastClose(CloseMap(bars), hist) == if n == 0 then None else Some(bars[n - 1].close)
    ensures Position(byBar, hist) == Holding(bars, byBar, n)
  {
    if hist == [] {
      assert |bars| > 0 ==> (0 < n <==> bars[0].timestamp in hist);
    } else {
      var m := OwnBarsBefore(bars, hist, n);
      TrackOwnBars(bars, byBar, hist[..|hist| - 1], m);
      TimeOf(bars, byBar, hist[|hist| - 1], m, n);
      TrackStep(bars, CloseMap(bars), byBar, hist, m, n);
    }
  }

  /** What the close and target maps say at time `t`: the m-th own bar, or nothing. */
  ghost predicate AtTime(bars: seq<Bar>, series: map<Time, real>, byBar: map<Time, int>, t: Time, m: nat, n: nat)
    requires m <= n <= |bars|
  {
    if m < n then t in series && series[t] == bars[m].close && t in byBar && byBar[t] == Holding(bars, byBar, m + 1)
    else t !in series && t !in byBar
  }

  lemma {:induction false} TimeOf(bars: seq<Bar>, byBar: map<Time, int>, t: Time, m: nat, n: nat)
    requires Wired(bars, byBar) && m <= n <= m + 1 && n <= |bars|
    requires m < n ==> bars[m].timestamp == t
    requires m == n ==> t !in Stamps(bars)
    ensures AtTime(bars, CloseMap(bars), byBar, t, m, n)
  {
    if m < n {
      OwnTime(bars, byBar, m);
    } else {
      ForeignTime(bars, byBar, t);
    }
  }

  lemma {:induction false} TrackStep(bars: seq<Bar>, series: map<Time, real>, byBar: map<Time, int>, hist: seq<Time>, m: nat, n: nat)
    requires hist != [] && m <= n <= m + 1 && n <= |bars| && AtTime(bars, series, byBar, hist[|hist| - 1], m, n)
    requires LastClose(series, hist[..|hist| - 1]) == if m == 0 then None else Some(bars[m - 1].close)
    requires Position(byBar, hist[..|hist| - 1]) == Holding(bars, byBar, m)
    ensures LastClose(series, hist) == if n == 0 then None else Some(bars[n - 1].close)
    ensures Position(byBar, hist) == Holding(bars, byBar, n)
  {
  }

  lemma {:induction false} OwnTime(bars: seq<Bar>, byBar: map<Time, int>, m: nat)
    requires Wired(bars, byBar) && m < |bars|
    ensures bars[m].timestamp in CloseMap(bars) && CloseMap(bars)[bars[m].timestamp] == bars[m].close
    ensures bars[m].timestamp in byBar && byBar[bars[m].timestamp] == Holding(bars, byBar, m + 1)
  {
    DistinctCloseMapAt(bars, m);
    assert Stamps(bars)[m] == bars[m].timestamp;
  }

  lemma {:induction false} ForeignTime(bars: seq<Bar>, byBar: map<Time, int>, t: Time)
    requires Wired(bars, byBar) && t !in Stamps(bars)
    ensures t !in CloseMap(bars) && t !in byBar
  {
    StampsAreTimes(bars);
  }

  lemma {:induction false} OwnBarsBefore(bars: seq<Bar>, hist: seq<Time>, n: nat) returns (m: nat)
    requires forall i, j | 0 <= i < j < |bars| :: bars[i].timestamp < bars[j].timestamp
    requires Increasing(hist) && hist != [] && OwnBars(bars, hist, n)
    ensures OwnBars(bars, hist[..|hist| - 1], m) && m <= n <= m + 1
    ensures m < n ==> bars[m].timestamp == hist[|hist| - 1]
    ensures m == n ==> hist[|hist| - 1] !in Stamps(bars)
  {
    var t := hist[|hist| - 1];
    EarlierTimes(hist);
    if n > 0 && bars[n - 1].timestamp == t {
      m := n - 1;
    } else {
      m := n;
      assert n > 0 ==> bars[n - 1].timestamp in hist;
      forall j | 0 <= j < |bars| ensures bars[j].timestamp != t {
        assert j < n - 1 ==> bars[j].timestamp < bars[n - 1].timestamp;
        assert j < n || bars[j].timestamp !in hist;
      }
    }
  }

  lemma {:induction false} EarlierTimes(hist: seq<Time>)
    requires Increasing(hist) && hist != []
    ensures forall s :: s in hist[..|hist| - 1] <==> s in hist && s != hist[|hist| - 1]
    ensures forall s :: s in hist ==> s <= hist[|hist| - 1]
  {
    SplitLast(hist);
  }

  // ---------- the ledger identity ----------

  /** Profit of one instrument accumulated over `hist`. */
  function Contribution(series: map<Time, real>, byBar: map<Time, int>, multiplier: int, hist: seq<Time>): real {
    if hist == [] then 0.0
    else
      var front := hist[..|hist| - 1];
      Contribution(series, byBar, multiplier, front) + StepPnl(series, byBar, multiplier, front, hist[|hist| - 1])
  }

  lemma {:induction false} ScaledSum(multiplier: int, x: real, y: real)
    ensures Scaled(multiplier, x + y) == Scaled(multiplier, x) + Scaled(multiplier, y)
    ensures Scaled(multiplier, 0.0) == 0.0
  {
  }

  lemma {:induction false} WorthOfNoMove(position: int)
    ensures Worth(position, 0.0) == 0.0
  {
  }

  lemma {:induction false} NoOwnBars(bars: seq<Bar>, n: nat)
    requires OwnBars(bars, [], n)
    ensures n == 0
  {
    assert |bars| > 0 ==> (0 < n <==> bars[0].timestamp in []);
  }

  /** Marking an instrument on the merged timeline accumulates exactly its own ledger: the times of other
      instruments, where its close is carried forward, add nothing. */
  lemma {:induction false} ContributionIsLedger(bars: seq<Bar>, byBar: map<Time, int>, multiplier: int, hist: seq<Time>, n: nat)
    requires Wired(bars, byBar) && Increasing(hist) && OwnBars(bars, hist, n)
    ensures Contribution(CloseMap(bars), byBar, multiplier, hist) == Scaled(multiplier, Ledger(bars, byBar, n))
  {
    if hist == [] {
      NoOwnBars(bars, n);
      ScaledSum(multiplier, 0.0, 0.0);
    } else {
      var front, t := hist[..|hist| - 1], hist[|hist| - 1];
      var m := OwnBarsBefore(bars, hist, n);
      ContributionIsLedger(bars, byBar, multiplier, front, m);
      TrackOwnBars(bars, byBar, front, m);
      TimeOf(bars, byBar, t, m, n);
      ContributionStep(bars, CloseMap(bars), byBar, multiplier, front, t, m, n);
    }
  }

  lemma {:induction false} ContributionStep(bars: seq<Bar>, series: map<Time, real>, byBar: map<Time, int>, multiplier: int, front: seq<Time>, t: Time, m: nat, n: nat)
    requires m <= n <= m + 1 && n <= |bars| && AtTime(bars, series, byBar, t, m, n)
    requires m < n ==> bars[m].timestamp == t
    requires LastClose(series, front) == if m == 0 then None else Some(bars[m - 1].close)
    requires Position(byBar, front) == Holding(bars, byBar, m)
    ensures Scaled(multiplier, Ledger(bars, byBar, m)) + StepPnl(series, byBar, multiplier, front, t)
         == Scaled(multiplier, Ledger(bars, byBar, n))
  {
    if m < n {
      StepAtOwnBar(bars, series, byBar, multiplier, front, m);
    } else {
      StepWithoutMove(series, byBar, multiplier, front, t);
    }
  }

  lemma {:induction false} StepAtOwnBar(bars: seq<Bar>, series: map<Time, real>, byBar: map<Time, int>, multiplier: int, front: seq<Time>, m: nat)
    requires m < |bars| && bars[m].timestamp in series && series[bars[m].timestamp] == bars[m].close
    requires LastClose(series, front) == if m == 0 then None else Some(bars[m - 1].close)
    requires Position(byBar, front) == Holding(bars, byBar, m)
    ensures Scaled(multiplier, Ledger(bars, byBar, m)) + StepPnl(series, byBar, multiplier, front, bars[m].timestamp)
         == Scaled(multiplier, Ledger(bars, byBar, m + 1))
  {
    LedgerStep(bars, byBar, m);
    if m > 0 {
      ScaledSum(multiplier, Ledger(bars, byBar, m), Worth(Holding(bars, byBar, m), bars[m].close - bars[m - 1].close));
    } else {
      ScaledSum(multiplier, 0.0, 0.0);
    }
  }

  lemma {:induction false} StepWithoutMove(series: map<Time, real>, byBar: map<Time, int>, multiplier: int, hist: seq<Time>, t: Time)
    requires t !in series
    ensures StepPnl(series, byBar, multiplier, hist, t) == 0.0
  {
    WorthOfNoMove(Position(byBar, hist));
    ScaledSum(multiplier, 0.0, 0.0);
  }

  /** The ledgers of the first `n` instruments, each over its own bars up to `t`. */
  function LedgerTotal(p: Panel, n: nat, t: Time): real
    requires p.Valid() && n <= |p.instruments|
  {
    if n == 0 then 0.0
    else
      var i := p.instruments[n - 1];
      LedgerTotal(p, n - 1, t)
      + Scaled(Contracts.Multiplier(i), Ledger(p.bars[i], p.TargetsOf(i), CountUpTo(Stamps(p.bars[i]), t)))
  }

  function ContributionTotal(p: Panel, n: nat, hist: seq<Time>): real
    requires p.Valid() && n <= |p.instruments|
  {
    if n == 0 then 0.0
    else
      var i := p.instruments[n - 1];
      ContributionTotal(p, n - 1, hist)
      + Contribution(p.Series(i), p.TargetsOf(i), Contracts.Multiplier(i), hist)
  }

  lemma {:induction false} ContributionGrows(series: map<Time, real>, byBar: map<Time, int>, multiplier: int, hist: seq<Time>)
    requires hist != []
    ensures var front, t := hist[..|hist| - 1], hist[|hist| - 1];
            Contribution(series, byBar, multiplier, hist)
            == Contribution(series, byBar, multiplier, front) + StepPnl(series, byBar, multiplier, front, t)
  {
  }

  lemma {:induction false} ContributionTotalStep(p: Panel, n: nat, hist: seq<Time>)
    requires p.Valid() && n <= |p.instruments| && hist != []
    ensures var front, t := hist[..|hist| - 1], hist[|hist| - 1];
            ContributionTotal(p, n, hist) == ContributionTotal(p, n, front) + TotalStepPnl(p, p.instruments[..n], front, t)
  {
    if n > 0 {
      var front, t, i := hist[..|hist| - 1], hist[|hist| - 1], p.instruments[n - 1];
      ContributionTotalStep(p, n - 1, hist);
      TotalSnoc(p, n - 1, front, t);
      ContributionGrows(p.Series(i), p.TargetsOf(i), Contracts.Multiplier(i), hist);
    }
  }

  lemma {:induction false} EquityIsContributions(p: Panel, hist: seq<Time>)
    requires p.Valid()
    ensures EquityAfter(p, hist) == p.cash + ContributionTotal(p, |p.instruments|, hist)
  {
    if hist == [] {
      NoContributions(p, |p.instruments|);
    } else {
      EquityIsContributions(p, hist[..|hist| - 1]);
      ContributionTotalStep(p, |p.instruments|, hist);
      assert p.instruments[..|p.instruments|] == p.instruments;
    }
  }

  lemma {:induction false} NoContributions(p: Panel, n: nat)
    requires p.Valid() && n <= |p.instruments|
    ensures ContributionTotal(p, n, []) == 0.0
  {
    if n > 0 {
      NoContributions(p, n - 1);
    }
  }

  ghost predicate AllWired(p: Panel)
    requires p.Valid()
  {
    forall i :: i in p.instruments ==> Wired(p.bars[i], p.TargetsOf(i))
  }

  /** The times up to `t` are the timeline's first ones. */
  lemma {:induction false} UpToIff(times: seq<Time>, t: Time, s: Time)
    requires Increasing(times) && s in times
    ensures s <= t <==> s in times[..CountUpTo(times, t)]
  {
    CountUpToCuts(times, t);
    var n := CountUpTo(times, t);
    var a :| 0 <= a < |times| && times[a] == s;
    if s <= t {
      assert times[..n][a] == s;
    }
    if s in times[..n] {
      var b :| 0 <= b < n && times[..n][b] == s;
      assert times[b] == s;
    }
  }

  lemma {:induction false} OwnBarsUpTo(p: Panel, i: string, t: Time)
    requires p.Valid() && AllWired(p) && i in p.instruments
    ensures OwnBars(p.bars[i], Timeline(p)[..CountUpTo(Timeline(p), t)], CountUpTo(Stamps(p.bars[i]), t))
  {
    var stamps := Stamps(p.bars[i]);
    TimelineOrdered(p);
    assert Wired(p.bars[i], p.TargetsOf(i));
    CountUpToCuts(stamps, t);
    StampsAreTimes(p.bars[i]);
    forall j | 0 <= j < |stamps| ensures stamps[j] <= t <==> stamps[j] in Timeline(p)[..CountUpTo(Timeline(p), t)] {
      assert stamps[j] in stamps && stamps[j] in p.Series(i);
      UpToIff(Timeline(p), t, stamps[j]);
    }
  }

  lemma {:induction false} OwnContribution(p: Panel, i: string, t: Time)
    requires p.Valid() && AllWired(p) && i in p.instruments
    ensures Contribution(p.Series(i), p.TargetsOf(i), Contracts.Multiplier(i), Timeline(p)[..CountUpTo(Timeline(p), t)])
         == Scaled(Contracts.Multiplier(i), Ledger(p.bars[i], p.TargetsOf(i), CountUpTo(Stamps(p.bars[i]), t)))
  {
    var times := Timeline(p);
    TimelineOrdered(p);
    OwnBarsUpTo(p, i, t);
    ContributionIsLedger(p.bars[i], p.TargetsOf(i), Contracts.Multiplier(i), times[..CountUpTo(times, t)],
                         CountUpTo(Stamps(p.bars[i]), t));
  }

  lemma {:induction false} ContributionsAreLedgers(p: Panel, n: nat, t: Time)
    requires p.Valid() && AllWired(p) && n <= |p.instruments|
    ensures ContributionTotal(p, n, Timeline(p)[..CountUpTo(Timeline(p), t)]) == LedgerTotal(p, n, t)
  {
    if n > 0 {
      ContributionsAreLedgers(p, n - 1, t);
      OwnContribution(p, p.instruments[n - 1], t);
    }
  }

  /** The equity after all times up to `t`. */
  function EquityAt(p: Panel, t: Time): real
    requires p.Valid()
  {
    EquityAfter(p, Timeline(p)[..CountUpTo(Timeline(p), t)])
  }

  lemma {:induction false} PointIsEquityAt(p: Panel, k: nat)
    requires p.Valid() && k < |Timeline(p)|
    ensures PanelPoints(p)[k] == Point(Timeline(p)[k], EquityAt(p, Timeline(p)[k]))
  {
    TimelineOrdered(p);
    CountUpToOwn(Timeline(p), k);
  }

  /** At any time, equity is the initial cash plus the ledgers up to that time. */
  lemma {:induction false} EquityIsLedgers(p: Panel, t: Time)
    requires p.Valid() && AllWired(p)
    ensures EquityAt(p, t) == p.cash + LedgerTotal(p, |p.instruments|, t)
  {
    EquityIsContributions(p, Timeline(p)[..CountUpTo(Timeline(p), t)]);
    ContributionsAreLedgers(p, |p.instruments|, t);
  }

  /** Ledger identity: the equity at every point is the initial cash plus, per instrument, its multiplier
      times (the position valued at its last close minus what its trades cost), computed from its own bars
      up to that time alone. Interleaving instruments and carrying closes forward neither creates nor loses
      profit. */
  lemma {:induction false} LedgerIdentity(p: Panel, k: nat)
    requires p.Valid() && AllWired(p) && k < |Timeline(p)|
    ensures PanelPoints(p)[k].equity == p.cash + LedgerTotal(p, |p.instruments|, Timeline(p)[k])
  {
    PointIsEquityAt(p, k);
    EquityIsLedgers(p, Timeline(p)[k]);
  }
}
