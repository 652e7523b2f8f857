/** Two equity runs that hold different instruments: what they still agree on up to a time. */
module PanelAgreement {
  import opened Wrappers
  import opened Clock
  import opened Sequences
  import opened Drawdown
  import opened Equity
  import opened Curve
  import opened EquityLaws
  import Contracts

  /** The panels agree on the cash and, up to `t`, on every close and target of the instruments both hold. */
  ghost predicate AgreeOnShared(p: Panel, q: Panel, t: Time)
    requires p.Valid() && q.Valid()
  {
    && p.cash == q.cash
    && (forall i, s | i in p.instruments && i in q.instruments && s <= t :: SameAt(p, q, i, s))
  }

  ghost predicate SameAt(p: Panel, q: Panel, i: string, s: Time)
    requires i in p.bars && i in q.bars
  {
    && (s in p.Series(i) <==> s in q.Series(i))
    && (s in p.Series(i) ==> p.Series(i)[s] == q.Series(i)[s])
    && (s in p.TargetsOf(i) <==> s in q.TargetsOf(i))
    && (s in p.TargetsOf(i) ==> p.TargetsOf(i)[s] == q.TargetsOf(i)[s])
  }

  /** Up to `t`, the instruments only `p` holds have no position. */
  ghost predicate NewcomersFlat(p: Panel, q: Panel, t: Time) {
    forall i, s :: i in p.instruments && i !in q.instruments && s <= t && s in p.TargetsOf(i) ==> p.TargetsOf(i)[s] == 0
  }

  // ---------- sums over instruments ----------

  function Total(f: string -> real, instruments: seq<string>): real {
    if instruments == [] then 0.0
    else Total(f, instruments[..|instruments| - 1]) + f(instruments[|instruments| - 1])
  }

  lemma {:induction false} TotalAppend(f: string -> real, a: seq<string>, b: seq<string>)
    ensures Total(f, a + b) == Total(f, a) + Total(f, b)
  {
    if b == [] {
      assert a + b == a;
    } else {
      var n := |b| - 1;
      assert (a + b)[..|a + b| - 1] == a + b[..n];
      TotalAppend(f, a, b[..n]);
    }
  }

  lemma {:induction false} TotalOfOne(f: string -> real, i: string)
    ensures Total(f, [i]) == f(i)
  {
    assert [i][..0] == [];
  }

  lemma {:induction false} TotalAgrees(f: string -> real, g: string -> real, instruments: seq<string>)
    requires forall i :: i in instruments ==> f(i) == g(i)
    ensures Total(f, instruments) == Total(g, instruments)
  {
    if instruments != [] {
      TotalAgrees(f, g, instruments[..|instruments| - 1]);
    }
  }

  /** Instruments that add nothing can be left out. */
  lemma {:induction false} TotalOfFilter(f: string -> real, instruments: seq<string>, keep: string -> bool)
    requires forall i :: i in instruments && !keep(i) ==> f(i) == 0.0
    ensures Total(f, Filter(instruments, keep)) == Total(f, instruments)
  {
    if instruments != [] {
      var front, last := instruments[..|instruments| - 1], instruments[|instruments| - 1];
      SplitLast(instruments);
      TotalOfFilter(f, front, keep);
      FilterSnoc(front, last, keep);
      TotalAppend(f, Filter(front, keep), [last]);
      TotalOfOne(f, last);
    }
  }

  /** The order of the instruments does not matter. */
  lemma {:induction false} TotalPermuted(f: string -> real, a: seq<string>, b: seq<string>)
    requires multiset(a) == multiset(b)
    ensures Total(f, a) == Total(f, b)
  {
    assert |multiset(a)| == |a| && |multiset(b)| == |b|;
    if a != [] {
      var front, last := a[..|a| - 1], a[|a| - 1];
      SplitLast(a);
      SameElements(a, b);
      assert last in a;
      var k :| 0 <= k < |b| && b[k] == last;
      var rest := b[..k] + b[k + 1..];
      assert multiset(front) == multiset(a) - multiset{last};
      BagWithout(b, k);
      TotalPermuted(f, front, rest);
      TotalWithout(f, b, k);
      TotalOfOne(f, last);
    }
  }

  lemma {:induction false} BagWithout(b: seq<string>, k: nat)
    requires k < |b|
    ensures multiset(b[..k] + b[k + 1..]) == multiset(b) - multiset{b[k]}
  {
    assert b == b[..k] + [b[k]] + b[k + 1..];
  }

  lemma {:induction false} TotalWithout(f: string -> real, b: seq<string>, k: nat)
    requires k < |b|
    ensures Total(f, b) == Total(f, b[..k] + b[k + 1..]) + f(b[k])
  {
    var x := b[k];
    assert b == b[..k] + [x] + b[k + 1..];
    TotalAppend(f, b[..k], b[k + 1..]);
    TotalAppend(f, b[..k], [x]);
    TotalAppend(f, b[..k] + [x], b[k + 1..]);
    TotalOfOne(f, x);
  }

  // ---------- ledgers ----------

  /** The scaled ledger of an instrument up to `t`. */
  function LedgerOf(p: Panel, i: string, t: Time): real
    requires i in p.bars
  {
    Scaled(Contracts.Multiplier(i), Ledger(p.bars[i], p.TargetsOf(i), CountUpTo(Stamps(p.bars[i]), t)))
  }

  /** Every instrument's ledger, zero for one the panel does not hold. */
  function Ledgers(p: Panel, t: Time): string -> real {
    (i: string) => if i in p.bars then LedgerOf(p, i, t) else 0.0
  }

  lemma {:induction false} LedgersAddUp(p: Panel, n: nat, t: Time)
    requires p.Valid() && n <= |p.instruments|
    ensures LedgerTotal(p, n, t) == Total(Ledgers(p, t), p.instruments[..n])
  {
    if n > 0 {
      LedgersAddUp(p, n - 1, t);
      assert p.instruments[..n][..n - 1] == p.instruments[..n - 1];
    }
  }

  /** Two instruments' ledgers over their first `n` bars agree when those bars and targets do. */
  lemma {:induction false} SameLedger(a: seq<Bar>, byA: map<Time, int>, b: seq<Bar>, byB: map<Time, int>, n: nat)
    requires n <= |a| && n <= |b|
    requires forall j: nat | j < n :: SameOwnBar(a, byA, b, byB, j)
    ensures TradeCost(a, byA, n) == TradeCost(b, byB, n)
    ensures Holding(a, byA, n) == Holding(b, byB, n)
    ensures Ledger(a, byA, n) == Ledger(b, byB, n)
  {
    if n > 0 {
      SameLedger(a, byA, b, byB, n - 1);
      assert SameOwnBar(a, byA, b, byB, n - 1);
    }
  }

  ghost predicate SameOwnBar(a: seq<Bar>, byA: map<Time, int>, b: seq<Bar>, byB: map<Time, int>, j: nat)
    requires j < |a| && j < |b|
  {
    && a[j].timestamp == b[j].timestamp && a[j].close == b[j].close
    && Holding(a, byA, j + 1) == Holding(b, byB, j + 1)
  }

  /** The panels' bars of a shared instrument have the same times up to `s`. */
  lemma {:induction false} SharedTimes(p: Panel, q: Panel, i: string, s: Time, t: Time)
    requires p.Valid() && q.Valid() && AllWired(p) && AllWired(q) && AgreeOnShared(p, q, t)
    requires i in p.instruments && i in q.instruments && s <= t
    ensures var n := CountUpTo(Stamps(p.bars[i]), s);
            && n == CountUpTo(Stamps(q.bars[i]), s)
            && Stamps(p.bars[i])[..n] == Stamps(q.bars[i])[..n]
  {
    assert Wired(p.bars[i], p.TargetsOf(i)) && Wired(q.bars[i], q.TargetsOf(i));
    StampsAreTimes(p.bars[i]);
    StampsAreTimes(q.bars[i]);
    forall x | x <= s ensures x in Stamps(p.bars[i]) <==> x in Stamps(q.bars[i]) {
      assert SameAt(p, q, i, x);
    }
    SamePrefixUpTo(Stamps(p.bars[i]), Stamps(q.bars[i]), s);
  }

  lemma {:induction false} SameIndex<T>(xs: seq<T>, ys: seq<T>, n: nat, k: nat)
    requires k < n <= |xs| && n <= |ys| && xs[..n] == ys[..n]
    ensures xs[k] == ys[k]
  {
    assert xs[k] == xs[..n][k] && ys[k] == ys[..n][k];
  }

  lemma {:induction false} SharedBar(p: Panel, q: Panel, i: string, j: nat)
    requires i in p.bars && i in q.bars && j < |p.bars[i]| && j < |q.bars[i]|
    requires Wired(p.bars[i], p.TargetsOf(i)) && Wired(q.bars[i], q.TargetsOf(i))
    requires p.bars[i][j].timestamp == q.bars[i][j].timestamp && SameAt(p, q, i, p.bars[i][j].timestamp)
    ensures SameOwnBar(p.bars[i], p.TargetsOf(i), q.bars[i], q.TargetsOf(i), j)
  {
    OwnTime(p.bars[i], p.TargetsOf(i), j);
    OwnTime(q.bars[i], q.TargetsOf(i), j);
  }

  lemma {:induction false} SharedLedger(p: Panel, q: Panel, i: string, s: Time, t: Time)
    requires p.Valid() && q.Valid() && AllWired(p) && AllWired(q) && AgreeOnShared(p, q, t)
    requires i in p.instruments && i in q.instruments && s <= t
    ensures LedgerOf(p, i, s) == LedgerOf(q, i, s)
  {
    SharedTimes(p, q, i, s, t);
    var a, b := p.bars[i], q.bars[i];
    var n := CountUpTo(Stamps(a), s);
    assert Wired(a, p.TargetsOf(i)) && Wired(b, q.TargetsOf(i));
    CountUpToCuts(Stamps(a), s);
    forall j: nat | j < n ensures SameOwnBar(a, p.TargetsOf(i), b, q.TargetsOf(i), j) {
      SameIndex(Stamps(a), Stamps(b), n, j);
      assert Stamps(a)[j] <= s;
      SharedBar(p, q, i, j);
    }
    SameLedger(a, p.TargetsOf(i), b, q.TargetsOf(i), n);
  }

  /** Without a position nothing is traded. */
  lemma {:induction false} FlatLedger(bars: seq<Bar>, byBar: map<Time, int>, n: nat)
    requires n <= |bars| && forall j | 0 < j <= n :: Holding(bars, byBar, j) == 0
    ensures TradeCost(bars, byBar, n) == 0.0 && Ledger(bars, byBar, n) == 0.0
  {
    if n > 0 {
      FlatLedger(bars, byBar, n - 1);
      assert Holding(bars, byBar, n) == 0 && Holding(bars, byBar, n - 1) == 0;
      WorthOfNothing(bars[n - 1].close);
    }
  }

  lemma {:induction false} WorthOfNothing(price: real)
    ensures Worth(0, price) == 0.0
  {
  }

  lemma {:induction false} NewcomerLedger(p: Panel, q: Panel, i: string, s: Time, t: Time)
    requires p.Valid() && q.Valid() && AllWired(p) && NewcomersFlat(p, q, t)
    requires i in p.instruments && i !in q.instruments && s <= t
    ensures LedgerOf(p, i, s) == 0.0
  {
    var a, n := p.bars[i], CountUpTo(Stamps(p.bars[i]), s);
    assert Wired(a, p.TargetsOf(i));
    CountUpToCuts(Stamps(a), s);
    forall j | 0 < j <= n ensures Holding(a, p.TargetsOf(i), j) == 0 {
      assert Stamps(a)[j - 1] <= s;
    }
    FlatLedger(a, p.TargetsOf(i), n);
    ScaledSum(Contracts.Multiplier(i), 0.0, 0.0);
  }

  /** The ledgers of `p` add up to those of the instruments both panels hold. */
  lemma {:induction false} SharedLedgersSuffice(p: Panel, q: Panel, s: Time, t: Time)
    requires p.Valid() && q.Valid() && AllWired(p) && NewcomersFlat(p, q, t) && s <= t
    ensures LedgerTotal(p, |p.instruments|, s) == Total(Ledgers(p, s), Filter(p.instruments, i => i in q.instruments))
  {
    LedgersAddUp(p, |p.instruments|, s);
    assert p.instruments[..|p.instruments|] == p.instruments;
    forall i | i in p.instruments && i !in q.instruments ensures Ledgers(p, s)(i) == 0.0 {
      NewcomerLedger(p, q, i, s, t);
    }
    TotalOfFilter(Ledgers(p, s), p.instruments, i => i in q.instruments);
  }

  /** What the instruments of only one panel do cannot move equity up to `t` while they have no position. */
  lemma {:induction false} SharedEquity(p: Panel, q: Panel, s: Time, t: Time)
    requires p.Valid() && q.Valid() && AllWired(p) && AllWired(q) && s <= t
    requires AgreeOnShared(p, q, t) && NewcomersFlat(p, q, t) && NewcomersFlat(q, p, t)
    ensures EquityAt(p, s) == EquityAt(q, s)
  {
    EquityIsLedgers(p, s);
    EquityIsLedgers(q, s);
    SharedLedgersSuffice(p, q, s, t);
    SharedLedgersSuffice(q, p, s, t);
    var a, b := Filter(p.instruments, i => i in q.instruments), Filter(q.instruments, i => i in p.instruments);
    FilterDistinct(p.instruments, i => i in q.instruments);
    FilterDistinct(q.instruments, i => i in p.instruments);
    DistinctSameMultiset(a, b);
    TotalPermuted(Ledgers(q, s), a, b);
    forall i | i in a ensures Ledgers(p, s)(i) == Ledgers(q, s)(i) {
      SharedLedger(p, q, i, s, t);
    }
    TotalAgrees(Ledgers(p, s), Ledgers(q, s), a);
  }

  // ---------- running peak and running drawdown ----------

  /** The initial cash and the equity of every point up to `t`. */
  function PathUpTo(p: Panel, t: Time): (e: seq<real>)
    requires p.Valid()
    ensures e != [] && e[0] == p.cash
  {
    EquityPath(p.cash, PanelPoints(p)[..CountUpTo(Timeline(p), t)])
  }

  /** The path up to `t` ends with the equity at `t`. */
  lemma {:induction false} PathEnd(p: Panel, t: Time)
    requires p.Valid()
    ensures PathUpTo(p, t)[|PathUpTo(p, t)| - 1] == EquityAt(p, t)
  {
    PathIsPointsPath(p, t);
    PointsPathEnd(p, Timeline(p), CountUpTo(Timeline(p), t));
  }

  lemma {:induction false} PathIsPointsPath(p: Panel, t: Time)
    requires p.Valid()
    ensures PathUpTo(p, t) == EquityPath(p.cash, Points(p, Timeline(p))[..CountUpTo(Timeline(p), t)])
  {
  }

  lemma {:induction false} PointsPathEnd(p: Panel, times: seq<Time>, n: nat)
    requires p.Valid() && n <= |times|
    ensures EquityPath(p.cash, Points(p, times)[..n])[n] == EquityAfter(p, times[..n])
  {
    if n > 0 {
      assert Points(p, times)[..n][n - 1] == Points(p, times)[n - 1];
    }
  }

  /** Earlier times give a prefix of the path. */
  lemma {:induction false} PathPrefix(cash: real, points: seq<Point>, j: nat, n: nat)
    requires j <= n <= |points|
    ensures EquityPath(cash, points[..n])[..j + 1] == EquityPath(cash, points[..j])
    ensures EquityPath(cash, points[..n])[j] == EquityPath(cash, points[..j])[j]
  {
    var a, b := EquityPath(cash, points[..n]), EquityPath(cash, points[..j]);
    forall i | 0 <= i <= j ensures a[i] == b[i] {
      assert i > 0 ==> points[..n][i - 1] == points[i - 1] == points[..j][i - 1];
    }
  }

  lemma {:induction false} CountGrows(times: seq<Time>, s: Time, t: Time)
    requires Increasing(times) && s <= t
    ensures CountUpTo(times, s) <= CountUpTo(times, t)
  {
    CountUpToCuts(times, s);
    CountUpToCuts(times, t);
    var j := CountUpTo(times, s);
    assert j > 0 ==> times[j - 1] <= t;
  }

  /** The path up to an earlier time is a prefix, whose end is the equity at that time. */
  lemma {:induction false} PathGrows(p: Panel, s: Time, t: Time) returns (j: int)
    requires p.Valid() && s <= t
    ensures 0 <= j < |PathUpTo(p, t)| && j == CountUpTo(Timeline(p), s)
    ensures PathUpTo(p, s) == PathUpTo(p, t)[..j + 1] && PathUpTo(p, t)[j] == EquityAt(p, s)
  {
    TimelineOrdered(p);
    CountGrows(Timeline(p), s, t);
    j := CountUpTo(Timeline(p), s);
    PathPrefix(p.cash, PanelPoints(p), j, CountUpTo(Timeline(p), t));
    PathEnd(p, s);
  }

  /** After its first element, the j-th element of the path up to `t` is the equity at the j-th bar time, and
      ends the path up to that time. */
  lemma {:induction false} PathAtTime(p: Panel, t: Time, j: int) returns (s: Time)
    requires p.Valid() && 0 < j < |PathUpTo(p, t)|
    ensures s <= t && PathUpTo(p, s) == PathUpTo(p, t)[..j + 1] && PathUpTo(p, t)[j] == EquityAt(p, s)
  {
    TimelineOrdered(p);
    CountUpToCuts(Timeline(p), t);
    s := Timeline(p)[j - 1];
    CountUpToOwn(Timeline(p), j - 1);
    var k := PathGrows(p, s, t);
  }

  /** The runs' equities agree at every time up to `t`. */
  ghost predicate EquityAgrees(p: Panel, q: Panel, t: Time)
    requires p.Valid() && q.Valid()
  {
    p.cash == q.cash && forall s | s <= t :: EquityAt(p, s) == EquityAt(q, s)
  }

  lemma {:induction false} PathValueOccurs(p: Panel, q: Panel, t: Time, j: int) returns (k: int)
    requires p.Valid() && q.Valid() && EquityAgrees(p, q, t) && 0 <= j < |PathUpTo(p, t)|
    ensures 0 <= k < |PathUpTo(q, t)| && PathUpTo(q, t)[k] == PathUpTo(p, t)[j]
  {
    if j == 0 {
      k := 0;
    } else {
      var s := PathAtTime(p, t, j);
      k := PathGrows(q, s, t);
    }
  }

  lemma {:induction false} PeakNoHigher(p: Panel, q: Panel, t: Time)
    requires p.Valid() && q.Valid() && EquityAgrees(p, q, t)
    ensures Peak(PathUpTo(p, t)) <= Peak(PathUpTo(q, t))
  {
    PeakIsMaximum(PathUpTo(p, t));
    PeakIsMaximum(PathUpTo(q, t));
    var j :| 0 <= j < |PathUpTo(p, t)| && PathUpTo(p, t)[j] == Peak(PathUpTo(p, t));
    var k := PathValueOccurs(p, q, t, j);
  }

  lemma {:induction false} SamePeak(p: Panel, q: Panel, t: Time)
    requires p.Valid() && q.Valid() && EquityAgrees(p, q, t)
    ensures Peak(PathUpTo(p, t)) == Peak(PathUpTo(q, t))
  {
    PeakNoHigher(p, q, t);
    PeakNoHigher(q, p, t);
  }

  /** Every fall from the running peak of one run is one of the other. */
  lemma {:induction false} FallOccurs(p: Panel, q: Panel, t: Time, j: int) returns (k: int)
    requires p.Valid() && q.Valid() && EquityAgrees(p, q, t) && 0 <= j < |PathUpTo(p, t)|
    ensures 0 <= k < |PathUpTo(q, t)| && PathUpTo(q, t)[k] == PathUpTo(p, t)[j]
    ensures Peak(PathUpTo(q, t)[..k + 1]) == Peak(PathUpTo(p, t)[..j + 1])
  {
    if j == 0 {
      k := 0;
      assert PathUpTo(q, t)[..0 + 1] == [q.cash] && PathUpTo(p, t)[..0 + 1] == [p.cash];
    } else {
      var s := PathAtTime(p, t, j);
      k := PathGrows(q, s, t);
      SamePeak(p, q, s);
    }
  }

  lemma {:induction false} DrawdownNoLarger(p: Panel, q: Panel, t: Time)
    requires p.Valid() && q.Valid() && EquityAgrees(p, q, t) && p.cash > 0.0
    ensures MaxDrawdown(PathUpTo(p, t)) <= MaxDrawdown(PathUpTo(q, t))
  {
    DrawdownIsFallFromPeak(PathUpTo(p, t));
    DrawdownIsFallFromPeak(PathUpTo(q, t));
    var j :| 0 <= j < |PathUpTo(p, t)| && RelativeFall()(Peak(PathUpTo(p, t)[..j + 1]), PathUpTo(p, t)[j]) == MaxDrawdown(PathUpTo(p, t));
    var k := FallOccurs(p, q, t, j);
  }

  /** Nor can they move the running peak and the running drawdown, wherever the other run has its points. */
  lemma {:induction false} SharedDrawdown(p: Panel, q: Panel, s: Time, t: Time)
    requires p.Valid() && q.Valid() && AllWired(p) && AllWired(q) && s <= t && p.cash > 0.0
    requires AgreeOnShared(p, q, t) && NewcomersFlat(p, q, t) && NewcomersFlat(q, p, t)
    ensures Peak(PathUpTo(p, s)) == Peak(PathUpTo(q, s))
    ensures MaxDrawdown(PathUpTo(p, s)) == MaxDrawdown(PathUpTo(q, s))
  {
    forall r | r <= s ensures EquityAt(p, r) == EquityAt(q, r) {
      SharedEquity(p, q, r, t);
    }
    SamePeak(p, q, s);
    DrawdownNoLarger(p, q, s);
    DrawdownNoLarger(q, p, s);
  }

  // ---------- when the points agree as well ----------

  /** Up to `t`, every bar time of an instrument only `p` holds is a bar time of `q`. */
  ghost predicate TimesCovered(p: Panel, q: Panel, t: Time)
    requires p.Valid() && q.Valid()
  {
    forall i, s :: i in p.instruments && i !in q.instruments && s <= t && s in p.Series(i) ==>
      exists j :: j in q.instruments && s in q.Series(j)
  }

  lemma {:induction false} TimesInclude(p: Panel, q: Panel, t: Time)
    requires p.Valid() && q.Valid() && AgreeOnShared(p, q, t) && TimesCovered(p, q, t)
    ensures forall s | s <= t && s in Timeline(p) :: s in Timeline(q)
  {
    forall s | s <= t && s in Timeline(p) ensures s in Timeline(q) {
      var i :| i in p.instruments && s in p.Series(i);
      if i in q.instruments {
        assert SameAt(p, q, i, s);
        assert s in q.Series(i);
      }
    }
  }

  lemma {:induction false} AgreeSymmetric(p: Panel, q: Panel, t: Time)
    requires p.Valid() && q.Valid() && AgreeOnShared(p, q, t)
    ensures AgreeOnShared(q, p, t)
  {
    forall i, s | i in p.instruments && i in q.instruments && s <= t ensures SameAt(q, p, i, s) {
      assert SameAt(p, q, i, s);
    }
  }

  /** The points up to `t` are the same exactly when the newcomers bring no time of their own. */
  lemma {:induction false} PointsAgreeIff(p: Panel, q: Panel, t: Time)
    requires p.Valid() && q.Valid() && AllWired(p) && AllWired(q)
    requires AgreeOnShared(p, q, t) && NewcomersFlat(p, q, t) && NewcomersFlat(q, p, t)
    ensures PanelPoints(p)[..CountUpTo(Timeline(p), t)] == PanelPoints(q)[..CountUpTo(Timeline(q), t)]
            <==> TimesCovered(p, q, t) && TimesCovered(q, p, t)
  {
    var m, n := CountUpTo(Timeline(p), t), CountUpTo(Timeline(q), t);
    TimelineOrdered(p);
    TimelineOrdered(q);
    if TimesCovered(p, q, t) && TimesCovered(q, p, t) {
      SamePoints(p, q, t);
    } else if PanelPoints(p)[..m] == PanelPoints(q)[..n] {
      SamePointsSameTimes(p, q, t);
      SamePointsSameTimes(q, p, t);
    }
  }

  lemma {:induction false} SameTimes(p: Panel, q: Panel, t: Time)
    requires p.Valid() && q.Valid() && AgreeOnShared(p, q, t) && TimesCovered(p, q, t) && TimesCovered(q, p, t)
    ensures var n := CountUpTo(Timeline(p), t);
            n == CountUpTo(Timeline(q), t) && Timeline(p)[..n] == Timeline(q)[..n]
  {
    TimelineOrdered(p);
    TimelineOrdered(q);
    AgreeSymmetric(p, q, t);
    TimesInclude(p, q, t);
    TimesInclude(q, p, t);
    SamePrefixUpTo(Timeline(p), Timeline(q), t);
  }

  lemma {:induction false} SamePoints(p: Panel, q: Panel, t: Time)
    requires p.Valid() && q.Valid() && AllWired(p) && AllWired(q)
    requires AgreeOnShared(p, q, t) && NewcomersFlat(p, q, t) && NewcomersFlat(q, p, t)
    requires TimesCovered(p, q, t) && TimesCovered(q, p, t)
    ensures PanelPoints(p)[..CountUpTo(Timeline(p), t)] == PanelPoints(q)[..CountUpTo(Timeline(q), t)]
  {
    SameTimes(p, q, t);
    var n := CountUpTo(Timeline(p), t);
    TimelineOrdered(p);
    CountUpToCuts(Timeline(p), t);
    forall k | 0 <= k < n ensures PanelPoints(p)[k] == PanelPoints(q)[k] {
      SameIndex(Timeline(p), Timeline(q), n, k);
      SharedPoint(p, q, k, k, t);
    }
  }

  /** Points at the same time up to `t` are the same. */
  lemma {:induction false} SharedPoint(p: Panel, q: Panel, k: nat, l: nat, t: Time)
    requires p.Valid() && q.Valid() && AllWired(p) && AllWired(q)
    requires AgreeOnShared(p, q, t) && NewcomersFlat(p, q, t) && NewcomersFlat(q, p, t)
    requires k < |PanelPoints(p)| && l < |PanelPoints(q)| && PanelPoints(p)[k].time == PanelPoints(q)[l].time <= t
    ensures PanelPoints(p)[k] == PanelPoints(q)[l]
  {
    PointIsEquityAt(p, k);
    PointIsEquityAt(q, l);
    SharedEquity(p, q, PanelPoints(p)[k].time, t);
  }

  lemma {:induction false} SamePointsSameTimes(p: Panel, q: Panel, t: Time)
    requires p.Valid() && q.Valid()
    requires PanelPoints(p)[..CountUpTo(Timeline(p), t)] == PanelPoints(q)[..CountUpTo(Timeline(q), t)]
    ensures TimesCovered(p, q, t)
  {
    forall i, s | i in p.instruments && s <= t && s in p.Series(i)
      ensures exists j :: j in q.instruments && s in q.Series(j)
    {
      assert s in Timeline(p);
      PointHasTime(p, s, t);
      TimeOfPoint(q, PanelPoints(p)[..CountUpTo(Timeline(p), t)], s, t);
    }
  }

  lemma {:induction false} TimeOfPoint(q: Panel, points: seq<Point>, s: Time, t: Time)
    requires q.Valid() && points == PanelPoints(q)[..CountUpTo(Timeline(q), t)]
    requires exists k :: 0 <= k < |points| && points[k].time == s
    ensures exists j :: j in q.instruments && s in q.Series(j)
  {
    var k :| 0 <= k < |points| && points[k].time == s;
    assert Timeline(q)[k] == s;
    assert s in Timeline(q);
  }

  lemma {:induction false} PointHasTime(p: Panel, s: Time, t: Time)
    requires p.Valid() && s in Timeline(p) && s <= t
    ensures var points := PanelPoints(p)[..CountUpTo(Timeline(p), t)];
            exists k :: 0 <= k < |points| && points[k].time == s
  {
    TimelineOrdered(p);
    CountUpToCuts(Timeline(p), t);
    var k :| 0 <= k < |Timeline(p)| && Timeline(p)[k] == s;
    assert PanelPoints(p)[..CountUpTo(Timeline(p), t)][k].time == s;
  }
}
