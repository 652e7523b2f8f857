/** The running peak and maximum drawdown that `_equity_curve` keeps in one pass, over an equity
    sequence whose first element is the initial cash. */
module Drawdown {

  function Max(a: real, b: real): real {
    if a >= b then a else b
  }

  function Peak(e: seq<real>): real
    requires e != []
  {
    if |e| == 1 then e[0] else Max(Peak(e[..|e| - 1]), e[|e| - 1])
  }

  /** The relative fall from a positive peak. */
  function RelativeFall(): (real, real) -> real {
    (peak, x) => if peak > 0.0 then (peak - x) / peak else 0.0
  }

  /** One step per point: raise the peak, then compare the fall from it. */
  function MaxFall(e: seq<real>, fall: (real, real) -> real): real
    requires e != []
  {
    if |e| == 1 then 0.0
    else
      var before, peak, last := MaxFall(e[..|e| - 1], fall), Peak(e), e[|e| - 1];
      if peak > 0.0 then Max(before, fall(peak, last)) else before
  }

  function MaxDrawdown(e: seq<real>): real
    requires e != []
  {
    MaxFall(e, RelativeFall())
  }

  /** `d` is the largest fall from a positive point to a later or equal one. */
  ghost predicate IsLargestFall(e: seq<real>, fall: (real, real) -> real, d: real) {
    && (forall i, j | 0 <= i <= j < |e| && e[i] > 0.0 :: fall(e[i], e[j]) <= d)
    && (exists i, j :: 0 <= i <= j < |e| && e[i] > 0.0 && fall(e[i], e[j]) == d)
  }

  /** `d` is the largest fall from a running peak. */
  ghost predicate IsLargestFallFromPeak(e: seq<real>, fall: (real, real) -> real, d: real) {
    && (forall j | 0 <= j < |e| :: fall(Peak(e[..j + 1]), e[j]) <= d)
    && (exists j :: 0 <= j < |e| && fall(Peak(e[..j + 1]), e[j]) == d)
  }

  lemma {:induction false} PeakIsMaximum(e: seq<real>)
    requires e != []
    ensures forall i | 0 <= i < |e| :: e[i] <= Peak(e)
    ensures exists i :: 0 <= i < |e| && e[i] == Peak(e)
  {
    if |e| > 1 {
      var front := e[..|e| - 1];
      PeakIsMaximum(front);
      forall i | 0 <= i < |e| ensures e[i] <= Peak(e) {
        assert i < |front| ==> e[i] == front[i];
      }
      var i :| 0 <= i < |front| && front[i] == Peak(front);
      assert e[i] == front[i];
      assert Peak(e) == e[i] || Peak(e) == e[|e| - 1];
    } else {
      assert e[0] == Peak(e);
    }
  }

  /** For every path: the one-pass result is the largest fall from a running peak. */
  lemma {:induction false} OnePassFromPeaks(e: seq<real>, fall: (real, real) -> real)
    requires e != [] && e[0] > 0.0
    requires fall(e[0], e[0]) == 0.0
    ensures Peak(e) > 0.0
    ensures IsLargestFallFromPeak(e, fall, MaxFall(e, fall))
  {
    PeakIsMaximum(e);
    if |e| > 1 {
      OnePassFromPeaks(e[..|e| - 1], fall);
      OneMorePoint(e, fall, MaxFall(e[..|e| - 1], fall));
    } else {
      assert e[..0 + 1] == e;
      assert fall(Peak(e[..0 + 1]), e[0]) == 0.0;
    }
  }

  lemma {:induction false} OneMorePoint(e: seq<real>, fall: (real, real) -> real, before: real)
    requires |e| > 1 && IsLargestFallFromPeak(e[..|e| - 1], fall, before)
    ensures IsLargestFallFromPeak(e, fall, Max(before, fall(Peak(e), e[|e| - 1])))
  {
    var n := |e| - 1;
    assert e[..n + 1] == e;
    forall j | 0 <= j < n ensures fall(Peak(e[..n][..j + 1]), e[..n][j]) == fall(Peak(e[..j + 1]), e[j]) {
      assert e[..n][..j + 1] == e[..j + 1];
    }
    var j :| 0 <= j < n && fall(Peak(e[..n][..j + 1]), e[..n][j]) == before;
    LargestOfTwo(e, fall, before, fall(Peak(e), e[n]), j);
  }

  lemma {:induction false} LargestOfTwo(e: seq<real>, fall: (real, real) -> real, before: real, last: real, j: nat)
    requires j < |e| - 1 && fall(Peak(e[..j + 1]), e[j]) == before
    requires forall i | 0 <= i < |e| - 1 :: fall(Peak(e[..i + 1]), e[i]) <= before
    requires fall(Peak(e[..|e| - 1 + 1]), e[|e| - 1]) == last
    ensures IsLargestFallFromPeak(e, fall, Max(before, last))
  {
  }

  /** From a higher peak the fall to the same non-negative value is no smaller. */
  ghost predicate GrowsWithPeak(fall: (real, real) -> real) {
    forall low, high, x | 0.0 < low <= high && x >= 0.0 :: fall(low, x) <= fall(high, x)
  }

  lemma {:induction false} OnePassIsLargest(e: seq<real>, fall: (real, real) -> real)
    requires e != [] && e[0] > 0.0 && fall(e[0], e[0]) == 0.0
    requires forall i | 0 <= i < |e| :: e[i] >= 0.0
    requires GrowsWithPeak(fall)
    ensures IsLargestFall(e, fall, MaxFall(e, fall))
  {
    OnePassFromPeaks(e, fall);
    var d := MaxFall(e, fall);
    forall i, j | 0 <= i <= j < |e| && e[i] > 0.0 ensures fall(e[i], e[j]) <= d {
      var prefix := e[..j + 1];
      PeakIsMaximum(prefix);
      assert prefix[i] == e[i];
      assert fall(e[i], e[j]) <= fall(Peak(prefix), e[j]);
    }
    PeakFallIsPair(e, fall, d);
  }

  // ---------- the relative fall ----------

  lemma {:induction false} Split(p: real, x: real)
    requires p > 0.0
    ensures (p - x) / p == 1.0 - x / p
  {
    assert p / p == 1.0;
    assert (p - x) / p == p / p - x / p;
  }

  lemma {:induction false} DivideByMore(x: real, low: real, high: real)
    requires 0.0 < low <= high && x >= 0.0
    ensures x / high <= x / low
  {
    var q := x / low;
    assert q * low == x;
    assert q >= 0.0;
    assert q * high >= q * low by { MulMonotone(q, low, high); }
    var r := x / high;
    assert r * high == x;
    if r > q {
      MulStrict(q, r, high);
    }
  }

  lemma {:induction false} MulMonotone(q: real, low: real, high: real)
    requires q >= 0.0 && low <= high
    ensures q * low <= q * high
  {
  }

  lemma {:induction false} MulStrict(q: real, r: real, c: real)
    requires q < r && c > 0.0
    ensures q * c < r * c
  {
  }

  lemma {:induction false} RelativeFallGrowsWithPeak()
    ensures GrowsWithPeak(RelativeFall())
    ensures forall p | p > 0.0 :: RelativeFall()(p, p) == 0.0
  {
    forall low, high, x | 0.0 < low <= high && x >= 0.0 ensures RelativeFall()(low, x) <= RelativeFall()(high, x) {
      Split(low, x);
      Split(high, x);
      DivideByMore(x, low, high);
    }
    forall p | p > 0.0 ensures RelativeFall()(p, p) == 0.0 {
      assert (p - p) / p == 0.0;
    }
  }

  lemma {:induction false} FallBeyondOne(p: real, x: real)
    requires p > 0.0
    ensures RelativeFall()(p, x) > 1.0 <==> x < 0.0
  {
    Split(p, x);
    var q := x / p;
    assert q * p == x;
  }

  /** For every equity path from positive cash: the reported drawdown is the largest relative fall from
      the running peak. */
  lemma {:induction false} DrawdownIsFallFromPeak(e: seq<real>)
    requires e != [] && e[0] > 0.0
    ensures IsLargestFallFromPeak(e, RelativeFall(), MaxDrawdown(e))
  {
    RelativeFallGrowsWithPeak();
    OnePassFromPeaks(e, RelativeFall());
  }

  /** While equity stays non-negative, it is the largest relative fall over all pairs of points. */
  lemma {:induction false} DrawdownIsBruteForce(e: seq<real>)
    requires e != [] && e[0] > 0.0 && forall i | 0 <= i < |e| :: e[i] >= 0.0
    ensures IsLargestFall(e, RelativeFall(), MaxDrawdown(e))
  {
    RelativeFallGrowsWithPeak();
    OnePassIsLargest(e, RelativeFall());
  }

  /** Once equity turns negative the pairwise maximum can exceed the one-pass result: along 100, 50, -50
      the pass reports 1.5 while the fall from the second point is 2. */
  lemma {:induction false} NegativeEquityBreaksBruteForce()
    ensures var e := [100.0, 50.0, -50.0];
            MaxDrawdown(e) == 1.5 && RelativeFall()(e[1], e[2]) == 2.0 && !IsLargestFall(e, RelativeFall(), MaxDrawdown(e))
  {
    var e := [100.0, 50.0, -50.0];
    assert e[..2] == [100.0, 50.0] && e[..2][..1] == [100.0];
    var fall := RelativeFall();
    assert fall(100.0, 50.0) == 0.5 && fall(100.0, -50.0) == 1.5 && fall(50.0, -50.0) == 2.0;
    assert Peak(e[..2]) == 100.0 && Peak(e) == 100.0;
    assert MaxFall(e[..2], fall) == 0.5;
    assert !(fall(e[1], e[2]) <= MaxFall(e, fall));
  }

  /** A drawdown beyond 100% is reported exactly when equity has been negative. */
  lemma {:induction false} DrawdownBeyondOneIff(e: seq<real>)
    requires e != [] && e[0] > 0.0
    ensures MaxDrawdown(e) > 1.0 <==> exists j :: 0 <= j < |e| && e[j] < 0.0
  {
    DrawdownIsFallFromPeak(e);
    forall j | 0 <= j < |e| ensures RelativeFall()(Peak(e[..j + 1]), e[j]) > 1.0 <==> e[j] < 0.0 {
      PeakIsMaximum(e[..j + 1]);
      assert e[..j + 1][0] == e[0];
      FallBeyondOne(Peak(e[..j + 1]), e[j]);
    }
  }

  lemma {:induction false} MulOrder(u: real, v: real, c: real)
    requires c > 0.0
    ensures v <= u <==> v * c <= u * c
  {
    if u < v {
      MulStrict(u, v, c);
    } else {
      assert c * v <= c * u by { MulMonotone(c, v, u); }
    }
  }

  lemma {:induction false} CrossMultiply(u: real, p: real, v: real, q: real)
    ensures v * q * p == v * (p * q) && u * p * q == u * (p * q)
  {
  }

  /** Falls are compared by cross-multiplying. */
  lemma {:induction false} FallOrder(p: real, x: real, q: real, y: real)
    requires p > 0.0 && q > 0.0
    ensures RelativeFall()(p, x) <= RelativeFall()(q, y) <==> y * p <= x * q
  {
    Split(p, x);
    Split(q, y);
    var u, v := x / p, y / q;
    assert u * p == x && v * q == y;
    CrossMultiply(u, p, v, q);
    assert p * q > 0.0 by { MulStrict(0.0, p, q); }
    MulOrder(u, v, p * q);
  }

  /** Only below zero a fall exceeds one, and then it shrinks as the peak grows. */
  ghost predicate ShrinksBelowZero(fall: (real, real) -> real) {
    && (forall p, x | p > 0.0 :: fall(p, x) > 1.0 <==> x < 0.0)
    && (forall p, q, x | 0.0 < p < q && x < 0.0 :: fall(p, x) > fall(q, x))
  }

  lemma {:induction false} RelativeFallShrinksBelowZero()
    ensures ShrinksBelowZero(RelativeFall())
  {
    forall p, x | p > 0.0 ensures RelativeFall()(p, x) > 1.0 <==> x < 0.0 {
      FallBeyondOne(p, x);
    }
    forall p, q, x | 0.0 < p < q && x < 0.0 ensures RelativeFall()(p, x) > RelativeFall()(q, x) {
      FallOrder(p, x, q, x);
      MulStrict(p, q, -x);
    }
  }

  /** Point `j` is negative, no positive point before it differs from the initial cash, and no fall below
      zero is larger than the one from the cash to it. */
  ghost predicate WorstFall(e: seq<real>, fall: (real, real) -> real, j: int) {
    && 0 <= j < |e| && e[j] < 0.0
    && (forall i | 0 <= i < j && e[i] > 0.0 :: e[i] == e[0])
    && (forall i, k | 0 <= i < k < |e| && e[i] > 0.0 > e[k] :: fall(e[i], e[k]) <= fall(e[0], e[j]))
  }

  /** The same without division. */
  ghost predicate WorstFromCash(e: seq<real>, j: int) {
    && 0 <= j < |e| && e[j] < 0.0
    && (forall i | 0 <= i < j && e[i] > 0.0 :: e[i] == e[0])
    && (forall i, k | 0 <= i < k < |e| && e[i] > 0.0 > e[k] :: e[k] * e[0] >= e[j] * e[i])
  }

  lemma {:induction false} WorstWithoutDivision(e: seq<real>, j: int)
    requires e != [] && e[0] > 0.0
    ensures WorstFall(e, RelativeFall(), j) <==> WorstFromCash(e, j)
  {
    if 0 <= j < |e| {
      forall i, k | 0 <= i < k < |e| && e[i] > 0.0 > e[k]
        ensures RelativeFall()(e[i], e[k]) <= RelativeFall()(e[0], e[j]) <==> e[k] * e[0] >= e[j] * e[i]
      {
        FallOrder(e[i], e[k], e[0], e[j]);
      }
    }
  }

  /** The one-pass result is the largest relative fall over all pairs of points exactly when equity stays
      non-negative, or some fall from the initial cash is the worst one and no other positive value precedes it. */
  lemma {:induction false} DrawdownIsBruteForceIff(e: seq<real>)
    requires e != [] && e[0] > 0.0
    ensures IsLargestFall(e, RelativeFall(), MaxDrawdown(e)) <==>
              (forall i | 0 <= i < |e| :: e[i] >= 0.0) || (exists j :: WorstFromCash(e, j))
  {
    RelativeFallShrinksBelowZero();
    DrawdownIsFallFromPeak(e);
    if forall i | 0 <= i < |e| :: e[i] >= 0.0 {
      DrawdownIsBruteForce(e);
    } else if IsLargestFall(e, RelativeFall(), MaxDrawdown(e)) {
      DrawdownBeyondOneIff(e);
      var j := LargestIsWorst(e, RelativeFall(), MaxDrawdown(e));
      WorstWithoutDivision(e, j);
    } else if j :| WorstFromCash(e, j) {
      WorstWithoutDivision(e, j);
      WorstIsLargest(e, RelativeFall(), MaxDrawdown(e), j);
    }
  }

  /** Among pairs, the largest fall `d` from a running peak is attained at a worst point. */
  lemma {:induction false} LargestIsWorst(e: seq<real>, fall: (real, real) -> real, d: real) returns (j: int)
    requires e != [] && e[0] > 0.0 && ShrinksBelowZero(fall) && d > 1.0
    requires IsLargestFallFromPeak(e, fall, d) && IsLargestFall(e, fall, d)
    ensures WorstFall(e, fall, j)
  {
    j :| 0 <= j < |e| && fall(Peak(e[..j + 1]), e[j]) == d;
    var prefix := e[..j + 1];
    PeakIsMaximum(prefix);
    assert prefix[0] == e[0];
    forall i | 0 <= i < j && e[i] > 0.0 ensures e[i] == Peak(prefix) {
      assert prefix[i] == e[i];
      assert fall(e[i], e[j]) <= d;
    }
    assert fall(e[0], e[j]) == d;
  }

  lemma {:induction false} WorstIsLargest(e: seq<real>, fall: (real, real) -> real, d: real, j: int)
    requires e != [] && e[0] > 0.0 && ShrinksBelowZero(fall)
    requires IsLargestFallFromPeak(e, fall, d) && WorstFall(e, fall, j)
    ensures IsLargestFall(e, fall, d)
  {
    PeakIsCash(e, j);
    assert 1.0 < fall(e[0], e[j]) <= d;
    forall i, k | 0 <= i <= k < |e| && e[i] > 0.0 ensures fall(e[i], e[k]) <= d {
      if e[k] >= 0.0 {
        assert !(fall(e[i], e[k]) > 1.0);
      } else {
        assert fall(e[i], e[k]) <= fall(e[0], e[j]);
      }
    }
    PeakFallIsPair(e, fall, d);
  }

  lemma {:induction false} PeakIsCash(e: seq<real>, j: int)
    requires 0 <= j < |e| && e[0] > 0.0 > e[j]
    requires forall i | 0 <= i < j && e[i] > 0.0 :: e[i] == e[0]
    ensures Peak(e[..j + 1]) == e[0]
  {
    var prefix := e[..j + 1];
    PeakIsMaximum(prefix);
    assert prefix[0] == e[0];
    var top :| 0 <= top < |prefix| && prefix[top] == Peak(prefix);
    assert e[top] == prefix[top];
  }

  /** A fall from a running peak is a fall between two points. */
  lemma {:induction false} PeakFallIsPair(e: seq<real>, fall: (real, real) -> real, d: real)
    requires e != [] && e[0] > 0.0 && IsLargestFallFromPeak(e, fall, d)
    ensures exists i, j :: 0 <= i <= j < |e| && e[i] > 0.0 && fall(e[i], e[j]) == d
  {
    var j :| 0 <= j < |e| && fall(Peak(e[..j + 1]), e[j]) == d;
    PeakIsMaximum(e[..j + 1]);
    var i :| 0 <= i < |e[..j + 1]| && e[..j + 1][i] == Peak(e[..j + 1]);
    assert e[..j + 1][0] == e[0] && e[i] == e[..j + 1][i];
    assert fall(e[i], e[j]) == d;
  }

  /** `d` picks points of `e` in order: its k-th point is point `at[k]`. */
  ghost predicate Samples(e: seq<real>, d: seq<real>, at: seq<int>) {
    && |at| == |d|
    && (forall k | 0 <= k < |d| :: 0 <= at[k] < |e| && d[k] == e[at[k]])
    && (forall k, l | 0 <= k < l < |d| :: at[k] <= at[l])
  }

  /** A drawdown recomputed from fewer points of a non-negative path never exceeds the full one. */
  lemma {:induction false} SampledDrawdownIsSmaller(e: seq<real>, d: seq<real>, at: seq<int>)
    requires e != [] && e[0] > 0.0 && forall i | 0 <= i < |e| :: e[i] >= 0.0
    requires d != [] && d[0] > 0.0 && Samples(e, d, at)
    ensures MaxDrawdown(d) <= MaxDrawdown(e)
  {
    DrawdownIsBruteForce(e);
    forall k | 0 <= k < |d| ensures d[k] >= 0.0 {
      assert d[k] == e[at[k]];
    }
    DrawdownIsBruteForce(d);
    LargestOfSamples(e, d, at, RelativeFall(), MaxDrawdown(e), MaxDrawdown(d));
  }

  lemma {:induction false} LargestOfSamples(e: seq<real>, d: seq<real>, at: seq<int>, fall: (real, real) -> real, a: real, b: real)
    requires Samples(e, d, at) && IsLargestFall(e, fall, a) && IsLargestFall(d, fall, b)
    ensures b <= a
  {
    var k, l :| 0 <= k <= l < |d| && d[k] > 0.0 && fall(d[k], d[l]) == b;
    assert k == l || at[k] <= at[l];
    assert fall(e[at[k]], e[at[l]]) == b;
  }

  /** The fall of `e` from its running peak at `j` is no smaller than that of `d` at `k`. */
  predicate FallCovers(e: seq<real>, j: nat, d: seq<real>, k: nat, fall: (real, real) -> real)
    requires j < |e| && k < |d|
  {
    fall(Peak(d[..k + 1]), d[k]) <= fall(Peak(e[..j + 1]), e[j])
  }

  /** The same for relative falls, without division. */
  predicate ProductCovers(e: seq<real>, j: nat, d: seq<real>, k: nat)
    requires j < |e| && k < |d|
  {
    e[j] * Peak(d[..k + 1]) <= d[k] * Peak(e[..j + 1])
  }

  /** Some fall of `e` is no smaller than that of `d` at `k`. */
  ghost predicate Matched(e: seq<real>, d: seq<real>, fall: (real, real) -> real, k: nat)
    requires k < |d|
  {
    exists j: nat :: j < |e| && FallCovers(e, j, d, k, fall)
  }

  ghost predicate MatchedByProduct(e: seq<real>, d: seq<real>, k: nat)
    requires k < |d|
  {
    exists j: nat :: j < |e| && ProductCovers(e, j, d, k)
  }

  lemma {:induction false} PrefixPeakPositive(e: seq<real>, j: nat)
    requires j < |e| && e[0] > 0.0
    ensures Peak(e[..j + 1]) > 0.0
  {
    PeakIsMaximum(e[..j + 1]);
    assert e[..j + 1][0] == e[0];
  }

  lemma {:induction false} CoversWithoutDivision(e: seq<real>, j: nat, d: seq<real>, k: nat)
    requires j < |e| && e[0] > 0.0 && k < |d| && d[0] > 0.0
    ensures FallCovers(e, j, d, k, RelativeFall()) <==> ProductCovers(e, j, d, k)
  {
    PrefixPeakPositive(d, k);
    PrefixPeakPositive(e, j);
    FallOrder(Peak(d[..k + 1]), d[k], Peak(e[..j + 1]), e[j]);
  }

  lemma {:induction false} MatchedWithoutDivision(e: seq<real>, d: seq<real>, k: nat)
    requires e != [] && e[0] > 0.0 && k < |d| && d[0] > 0.0
    ensures Matched(e, d, RelativeFall(), k) <==> MatchedByProduct(e, d, k)
  {
    forall j: nat | j < |e| ensures FallCovers(e, j, d, k, RelativeFall()) <==> ProductCovers(e, j, d, k) {
      CoversWithoutDivision(e, j, d, k);
    }
  }

  /** A sampled peak is at most the full path's peak at the same point. */
  lemma {:induction false} SampledPeak(e: seq<real>, d: seq<real>, at: seq<int>, k: nat)
    requires Samples(e, d, at) && k < |d|
    ensures Peak(d[..k + 1]) <= Peak(e[..at[k] + 1])
  {
    PeakIsMaximum(d[..k + 1]);
    PeakIsMaximum(e[..at[k] + 1]);
    var l :| 0 <= l < |d[..k + 1]| && d[..k + 1][l] == Peak(d[..k + 1]);
    assert l == k || at[l] <= at[k];
    assert e[..at[k] + 1][at[l]] == e[at[l]] == d[l];
  }

  /** A non-negative sampled point is always matched: the full path falls from a higher peak to it. */
  lemma {:induction false} SolventIsMatched(e: seq<real>, d: seq<real>, at: seq<int>, fall: (real, real) -> real, k: nat)
    requires Samples(e, d, at) && GrowsWithPeak(fall) && k < |d| && d[0] > 0.0 && d[k] >= 0.0
    ensures Matched(e, d, fall, k)
  {
    SampledPeak(e, d, at, k);
    PrefixPeakPositive(d, k);
    assert FallCovers(e, at[k], d, k, fall);
  }

  lemma {:induction false} SampledFallsIff(e: seq<real>, d: seq<real>, at: seq<int>, fall: (real, real) -> real, a: real, b: real)
    requires Samples(e, d, at) && d != [] && d[0] > 0.0 && GrowsWithPeak(fall)
    requires IsLargestFallFromPeak(e, fall, a) && IsLargestFallFromPeak(d, fall, b)
    ensures b <= a <==> forall k: nat | k < |d| && d[k] < 0.0 :: Matched(e, d, fall, k)
  {
    var j :| 0 <= j < |e| && fall(Peak(e[..j + 1]), e[j]) == a;
    var k: nat :| k < |d| && fall(Peak(d[..k + 1]), d[k]) == b;
    if b <= a {
      forall l: nat | l < |d| ensures Matched(e, d, fall, l) {
        assert FallCovers(e, j, d, l, fall);
      }
    } else if d[k] >= 0.0 {
      SolventIsMatched(e, d, at, fall, k);
    }
  }

  /** The exact condition on any path: every sampled point below zero is matched by a fall of the full path. */
  lemma {:induction false} SampledDrawdownIsSmallerIff(e: seq<real>, d: seq<real>, at: seq<int>)
    requires e != [] && e[0] > 0.0 && d != [] && d[0] > 0.0 && Samples(e, d, at)
    ensures MaxDrawdown(d) <= MaxDrawdown(e) <==> forall k: nat | k < |d| && d[k] < 0.0 :: MatchedByProduct(e, d, k)
  {
    RelativeFallGrowsWithPeak();
    DrawdownIsFallFromPeak(e);
    DrawdownIsFallFromPeak(d);
    SampledFallsIff(e, d, at, RelativeFall(), MaxDrawdown(e), MaxDrawdown(d));
    forall k: nat | k < |d| ensures Matched(e, d, RelativeFall(), k) <==> MatchedByProduct(e, d, k) {
      MatchedWithoutDivision(e, d, k);
    }
  }
}
