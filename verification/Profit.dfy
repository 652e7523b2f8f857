/** The equity of a run in plain arithmetic: cash plus, for every bar an instrument was held into, the position
    times the price change times the contract multiplier. */
module Profit {
  import opened Wrappers
  import opened Clock
  import opened Sequences
  import opened Equity
  import opened Curve
  import opened EquityLaws
  import Contracts

  /** Every bar has a target. */
  ghost predicate Targeted(bars: seq<Bar>, byBar: map<Time, int>) {
    forall b :: b in bars ==> b.timestamp in byBar
  }

  /** The profit an instrument makes over its first `n` own bars, counting those up to `t`. */
  ghost function BarProfits(bars: seq<Bar>, byBar: map<Time, int>, multiplier: int, t: Time, n: nat): real
    requires n <= |bars| && Targeted(bars, byBar)
  {
    if n <= 1 then 0.0
    else
      var held := byBar[bars[n - 2].timestamp];
      BarProfits(bars, byBar, multiplier, t, n - 1)
      + (if bars[n - 1].timestamp <= t then held as real * (bars[n - 1].close - bars[n - 2].close) * multiplier as real else 0.0)
  }

  /** The profits of some instruments of a panel. */
  ghost function PanelProfits(p: Panel, instruments: seq<string>, t: Time): real
    requires p.Valid() && AllWired(p) && forall i :: i in instruments ==> i in p.instruments
  {
    if instruments == [] then 0.0
    else
      var n := |instruments| - 1;
      WiredAtBars(p, instruments[n]);
      PanelProfits(p, instruments[..n], t)
      + BarProfits(p.bars[instruments[n]], p.TargetsOf(instruments[n]), Contracts.Multiplier(instruments[n]), t, |p.bars[instruments[n]]|)
  }

  lemma {:induction false} WiredAtBars(p: Panel, i: string)
    requires p.Valid() && AllWired(p) && i in p.instruments
    ensures Targeted(p.bars[i], p.TargetsOf(i))
  {
    var bars := p.bars[i];
    assert Wired(bars, p.TargetsOf(i));
    forall b | b in bars ensures b.timestamp in p.TargetsOf(i) {
      var k :| 0 <= k < |bars| && bars[k] == b;
      assert Stamps(bars)[k] == b.timestamp;
    }
  }

  lemma {:induction false} BarProfit(position: int, change: real, multiplier: int)
    ensures Scaled(multiplier, Worth(position, change)) == position as real * change * multiplier as real
  {
  }

  /** The ledger after `n` own bars is the profit of these bars, when they are the ones up to `t`. */
  lemma {:induction false} LedgerIsProfit(bars: seq<Bar>, byBar: map<Time, int>, multiplier: int, t: Time, n: nat)
    requires Wired(bars, byBar) && n <= |bars| && Targeted(bars, byBar)
    requires forall k | 0 <= k < n :: bars[k].timestamp <= t
    ensures Scaled(multiplier, Ledger(bars, byBar, n)) == BarProfits(bars, byBar, multiplier, t, n)
  {
    if n <= 1 {
      LedgerStart(bars, byBar, multiplier, n);
    } else {
      LedgerIsProfit(bars, byBar, multiplier, t, n - 1);
      LedgerScaledStep(bars, byBar, multiplier, n);
      NextBarProfit(bars, byBar, multiplier, t, n);
    }
  }

  lemma {:induction false} LedgerScaledStep(bars: seq<Bar>, byBar: map<Time, int>, multiplier: int, n: nat)
    requires 1 < n <= |bars| && Targeted(bars, byBar)
    ensures Scaled(multiplier, Ledger(bars, byBar, n))
         == Scaled(multiplier, Ledger(bars, byBar, n - 1))
            + Scaled(multiplier, Worth(byBar[bars[n - 2].timestamp], bars[n - 1].close - bars[n - 2].close))
  {
    LedgerStep(bars, byBar, n - 1);
    ScaledSum(multiplier, Ledger(bars, byBar, n - 1), Worth(byBar[bars[n - 2].timestamp], bars[n - 1].close - bars[n - 2].close));
  }

  lemma {:induction false} NextBarProfit(bars: seq<Bar>, byBar: map<Time, int>, multiplier: int, t: Time, n: nat)
    requires 1 < n <= |bars| && Targeted(bars, byBar) && bars[n - 1].timestamp <= t
    ensures BarProfits(bars, byBar, multiplier, t, n)
         == BarProfits(bars, byBar, multiplier, t, n - 1)
            + Scaled(multiplier, Worth(byBar[bars[n - 2].timestamp], bars[n - 1].close - bars[n - 2].close))
  {
    BarProfit(byBar[bars[n - 2].timestamp], bars[n - 1].close - bars[n - 2].close, multiplier);
  }

  lemma {:induction false} LedgerStart(bars: seq<Bar>, byBar: map<Time, int>, multiplier: int, n: nat)
    requires n <= 1 && n <= |bars|
    ensures Scaled(multiplier, Ledger(bars, byBar, n)) == 0.0
  {
    if n == 1 {
      LedgerStep(bars, byBar, 0);
    }
    ScaledSum(multiplier, 0.0, 0.0);
  }

  /** Later bars do not count. */
  lemma {:induction false} LaterBarsAddNothing(bars: seq<Bar>, byBar: map<Time, int>, multiplier: int, t: Time, m: nat, n: nat)
    requires m <= n <= |bars| && Targeted(bars, byBar)
    requires forall k | m <= k < n :: bars[k].timestamp > t
    ensures BarProfits(bars, byBar, multiplier, t, n) == BarProfits(bars, byBar, multiplier, t, m)
  {
    if m < n {
      LaterBarsAddNothing(bars, byBar, multiplier, t, m, n - 1);
    }
  }

  lemma {:induction false} OwnProfit(p: Panel, i: string, t: Time)
    requires p.Valid() && AllWired(p) && i in p.instruments && Targeted(p.bars[i], p.TargetsOf(i))
    ensures Scaled(Contracts.Multiplier(i), Ledger(p.bars[i], p.TargetsOf(i), CountUpTo(Stamps(p.bars[i]), t)))
         == BarProfits(p.bars[i], p.TargetsOf(i), Contracts.Multiplier(i), t, |p.bars[i]|)
  {
    var bars, n := p.bars[i], CountUpTo(Stamps(p.bars[i]), t);
    assert Wired(bars, p.TargetsOf(i));
    CountUpToCuts(Stamps(bars), t);
    forall k | 0 <= k < |bars| ensures k < n <==> bars[k].timestamp <= t {
      assert Stamps(bars)[k] == bars[k].timestamp;
    }
    LedgerIsProfit(bars, p.TargetsOf(i), Contracts.Multiplier(i), t, n);
    LaterBarsAddNothing(bars, p.TargetsOf(i), Contracts.Multiplier(i), t, n, |bars|);
  }

  lemma {:induction false} LedgersAreProfits(p: Panel, n: nat, t: Time)
    requires p.Valid() && AllWired(p) && n <= |p.instruments|
    ensures LedgerTotal(p, n, t) == PanelProfits(p, p.instruments[..n], t)
  {
    if n > 0 {
      LedgersAreProfits(p, n - 1, t);
      assert p.instruments[..n][..n - 1] == p.instruments[..n - 1];
      WiredAtBars(p, p.instruments[n - 1]);
      OwnProfit(p, p.instruments[n - 1], t);
    }
  }

  /** At every time equity is the cash plus, per instrument, the sum over its own bars so far of the position held
      into the bar times the move of its close times the multiplier. */
  lemma {:induction false} EquityIsProfits(p: Panel, t: Time)
    requires p.Valid() && AllWired(p)
    ensures EquityAt(p, t) == p.cash + PanelProfits(p, p.instruments, t)
  {
    EquityIsLedgers(p, t);
    LedgersAreProfits(p, |p.instruments|, t);
    assert p.instruments[..|p.instruments|] == p.instruments;
  }

  /** So is every point the loop reports. */
  lemma {:induction false} PointIsProfits(p: Panel, k: nat)
    requires p.Valid() && AllWired(p) && k < |PanelPoints(p)|
    ensures PanelPoints(p)[k].equity == p.cash + PanelProfits(p, p.instruments, PanelPoints(p)[k].time)
  {
    PointIsEquityAt(p, k);
    EquityIsProfits(p, PanelPoints(p)[k].time);
  }

  // ---------- one lot ----------

  /** The target is one lot at the own bars from `j` on and before `k`. */
  ghost predicate HoldsOneLot(bars: seq<Bar>, byBar: map<Time, int>, j: nat, k: nat)
    requires k <= |bars|
  {
    forall n | j <= n < k :: bars[n].timestamp in byBar && byBar[bars[n].timestamp] == 1
  }

  /** One long lot held from own bar `j` into bar `n - 1` earns the move of the close times the multiplier. */
  lemma {:induction false} LotEarnsMove(bars: seq<Bar>, byBar: map<Time, int>, multiplier: int, t: Time, j: nat, n: nat)
    requires j < n <= |bars| && Targeted(bars, byBar)
    requires HoldsOneLot(bars, byBar, j, n - 1)
    requires forall k | j <= k < n :: bars[k].timestamp <= t
    ensures EarnsMove(BarProfits(bars, byBar, multiplier, t, n) - BarProfits(bars, byBar, multiplier, t, j + 1),
                      bars[j].close, bars[n - 1].close, multiplier)
  {
    if j + 1 < n {
      LotEarnsMove(bars, byBar, multiplier, t, j, n - 1);
      MovesAdd(bars[n - 1].close, bars[n - 2].close, bars[j].close, multiplier as real);
    }
  }

  /** The gain is the move between two closes times the multiplier. */
  predicate EarnsMove(gain: real, from: real, to: real, multiplier: int) {
    gain == (to - from) * multiplier as real
  }

  lemma {:induction false} MovesAdd(c: real, b: real, a: real, m: real)
    ensures (b - a) * m + 1.0 * (c - b) * m == (c - a) * m
  {
  }

  lemma {:induction false} SameBarsCount(bars: seq<Bar>, byBar: map<Time, int>, multiplier: int, s: Time, t: Time, n: nat)
    requires n <= |bars| && Targeted(bars, byBar)
    requires forall k | 0 <= k < n :: bars[k].timestamp <= s && bars[k].timestamp <= t
    ensures BarProfits(bars, byBar, multiplier, s, n) == BarProfits(bars, byBar, multiplier, t, n)
  {
    if n > 1 {
      SameBarsCount(bars, byBar, multiplier, s, t, n - 1);
    }
  }

  lemma {:induction false} SoleInstrument(p: Panel, i: string, m: int, t: Time)
    requires p.Valid() && AllWired(p) && p.instruments == [i] && m == Contracts.Multiplier(i)
    ensures Targeted(p.bars[i], p.TargetsOf(i))
    ensures EquityAt(p, t) == p.cash + BarProfits(p.bars[i], p.TargetsOf(i), m, t, |p.bars[i]|)
  {
    WiredAtBars(p, i);
    EquityIsProfits(p, t);
    assert [i][..0] == [];
    assert PanelProfits(p, [], t) == 0.0;
  }

  ghost predicate TimesIncrease(bars: seq<Bar>) {
    forall i, j | 0 <= i < j < |bars| :: bars[i].timestamp < bars[j].timestamp
  }

  lemma {:induction false} LotOnBars(bars: seq<Bar>, byBar: map<Time, int>, m: int, j: nat, k: nat)
    requires j <= k < |bars| && TimesIncrease(bars) && Targeted(bars, byBar)
    requires HoldsOneLot(bars, byBar, j, k)
    ensures EarnsMove(BarProfits(bars, byBar, m, bars[k].timestamp, |bars|) - BarProfits(bars, byBar, m, bars[j].timestamp, |bars|),
                      bars[j].close, bars[k].close, m)
  {
    var s, t := bars[j].timestamp, bars[k].timestamp;
    LaterBarsAddNothing(bars, byBar, m, s, j + 1, |bars|);
    LaterBarsAddNothing(bars, byBar, m, t, k + 1, |bars|);
    SameBarsCount(bars, byBar, m, s, t, j + 1);
    LotEarnsMove(bars, byBar, m, t, j, k + 1);
  }

  /** In a run of one instrument, one long lot carried from the close of own bar `j` to that of own bar `k`
      changes equity by the multiplier times the difference of the closes. */
  lemma {:induction false} OneLotCarried(p: Panel, i: string, j: nat, k: nat)
    requires p.Valid() && AllWired(p) && p.instruments == [i] && j <= k < |p.bars[i]|
    requires HoldsOneLot(p.bars[i], p.TargetsOf(i), j, k)
    ensures EquityAt(p, p.bars[i][k].timestamp) - EquityAt(p, p.bars[i][j].timestamp)
         == (p.bars[i][k].close - p.bars[i][j].close) * Contracts.Multiplier(i) as real
  {
    OneLotMoves(p, i, Contracts.Multiplier(i), j, k);
  }

  lemma {:induction false} OneLotMoves(p: Panel, i: string, m: int, j: nat, k: nat)
    requires p.Valid() && AllWired(p) && p.instruments == [i] && j <= k < |p.bars[i]| && m == Contracts.Multiplier(i)
    requires HoldsOneLot(p.bars[i], p.TargetsOf(i), j, k)
    ensures EquityAt(p, p.bars[i][k].timestamp) - EquityAt(p, p.bars[i][j].timestamp)
         == (p.bars[i][k].close - p.bars[i][j].close) * m as real
  {
    SoleInstrument(p, i, m, p.bars[i][j].timestamp);
    SoleInstrument(p, i, m, p.bars[i][k].timestamp);
    SoleLot(p, i, m, j, k);
  }

  lemma {:induction false} SoleLot(p: Panel, i: string, m: int, j: nat, k: nat)
    requires p.Valid() && AllWired(p) && i in p.instruments && j <= k < |p.bars[i]|
    requires HoldsOneLot(p.bars[i], p.TargetsOf(i), j, k)
    ensures Targeted(p.bars[i], p.TargetsOf(i))
    ensures var bars, byBar := p.bars[i], p.TargetsOf(i);
            EarnsMove(BarProfits(bars, byBar, m, bars[k].timestamp, |bars|) - BarProfits(bars, byBar, m, bars[j].timestamp, |bars|),
                      bars[j].close, bars[k].close, m)
  {
    WiredAtBars(p, i);
    assert Wired(p.bars[i], p.TargetsOf(i));
    LotOnBars(p.bars[i], p.TargetsOf(i), m, j, k);
  }

  /** Before the second bar there is nothing but the cash. */
  lemma {:induction false} FirstBarIsCash(p: Panel, i: string)
    requires p.Valid() && AllWired(p) && p.instruments == [i] && p.bars[i] != []
    ensures EquityAt(p, p.bars[i][0].timestamp) == p.cash
  {
    var bars := p.bars[i];
    assert Wired(bars, p.TargetsOf(i));
    SoleInstrument(p, i, Contracts.Multiplier(i), bars[0].timestamp);
    LaterBarsAddNothing(bars, p.TargetsOf(i), Contracts.Multiplier(i), bars[0].timestamp, 1, |bars|);
  }

  /** One lot of rebar, ten tonnes, gaining ten a tonne: cash 1000 becomes 1100. */
  lemma {:induction false} RebarGains(p: Panel, i: string)
    requires i == "RB2610.SHF" && p.Valid() && AllWired(p) && p.cash == 1000.0 && p.instruments == [i] && |p.bars[i]| == 2
    requires p.bars[i][0].close == 100.0 && p.bars[i][1].close == 110.0
    requires p.bars[i][0].timestamp in p.TargetsOf(i) && p.TargetsOf(i)[p.bars[i][0].timestamp] == 1
    ensures EquityAt(p, p.bars[i][1].timestamp) == 1100.0
  {
    Contracts.RebarMultiplier(i);
    FirstBarIsCash(p, i);
    OneLotCarried(p, i, 0, 1);
  }
}
