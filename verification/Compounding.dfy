/** When the returns of `_equity_curve` compound to the total return although equity was not always positive. */
module Compounding {
  import opened Drawdown
  import opened Curve

  /** Growth `g` carried along from `start` to `now`. */
  function Carried(g: real, start: real, now: real): real
    requires start > 0.0
  {
    g * (now / start)
  }

  lemma {:induction false} CarriedNowhere(g: real, start: real)
    requires start > 0.0
    ensures Carried(g, start, start) == g
  {
    assert start / start == 1.0;
  }

  lemma {:induction false} CarriedOn(g: real, start: real, before: real, now: real)
    requires start > 0.0 && before > 0.0
    ensures Compound(Carried(g, start, before), now / before - 1.0) == Carried(g, start, now)
  {
    ChainRatios(start, before, now);
    Associate(g, before / start, now / before);
  }

  lemma {:induction false} Associate(g: real, a: real, c: real)
    ensures Compound(g * a, c - 1.0) == g * Compound(a, c - 1.0)
  {
    assert (g * a) * c == g * (a * c);
  }

  lemma {:induction false} ReturnsStep(cash: real, values: seq<real>, n: nat)
    requires 0 < n == |values| - 1
    ensures values[n - 1] <= 0.0 ==> Returns(cash, values) == Returns(cash, values[..n])
    ensures values[n - 1] > 0.0 ==>
              Growth(Returns(cash, values)) == Compound(Growth(Returns(cash, values[..n])), values[n] / values[n - 1] - 1.0)
  {
    if values[n - 1] > 0.0 {
      GrowthSnoc(Returns(cash, values[..n]), values[n] / values[n - 1] - 1.0);
    }
  }

  /** `b` is the last value before the end that no return is measured from. */
  ghost predicate LastBreak(values: seq<real>, b: nat) {
    b + 1 < |values| && values[b] <= 0.0 && forall k | b < k < |values| - 1 :: values[k] > 0.0
  }

  lemma {:induction false} EarlierBreak(values: seq<real>, b: nat)
    requires LastBreak(values, b) && b + 2 < |values|
    ensures LastBreak(values[..|values| - 1], b)
  {
  }

  /** Growth stands still over the break, and then follows equity from the next value on. */
  lemma {:induction false} GrowthAfterBreak(cash: real, values: seq<real>, b: nat)
    requires LastBreak(values, b)
    ensures var n, g := |values| - 1, Growth(Returns(cash, values[..b + 1]));
            Growth(Returns(cash, values)) == if b + 1 == n then g else Carried(g, values[b + 1], values[n])
  {
    var n := |values| - 1;
    ReturnsStep(cash, values, n);
    if b + 1 < n {
      EarlierBreak(values, b);
      GrowthAfterBreak(cash, values[..n], b);
      assert values[..n][..b + 1] == values[..b + 1];
      var g := Growth(Returns(cash, values[..b + 1]));
      if b + 1 == n - 1 {
        CarriedNowhere(g, values[b + 1]);
      }
      CarriedOn(g, values[b + 1], values[n - 1], values[n]);
    }
  }

  lemma {:induction false} CarriedIff(g: real, cash: real, start: real, now: real)
    requires cash > 0.0 && start > 0.0
    ensures Carried(g, start, now) == now / cash <==> cash * g == start || now == 0.0
  {
    var u, v := now / start, now / cash;
    assert u * start == now && v * cash == now;
    CrossMultiplied(g, cash, start, u, v, now);
  }

  lemma {:induction false} CrossMultiplied(g: real, cash: real, start: real, u: real, v: real, now: real)
    requires cash > 0.0 && start > 0.0 && u * start == now && v * cash == now
    ensures g * u == v <==> cash * g == start || now == 0.0
  {
    assert g * u == v <==> (g * u) * cash == v * cash by {
      CancelFactor(cash, g * u, v);
    }
    assert (g * u) * cash == u * (cash * g);
    assert u == 0.0 <==> now == 0.0;
    if u != 0.0 {
      CancelFactor(u, cash * g, start);
    }
  }

  lemma {:induction false} CancelFactor(u: real, a: real, b: real)
    requires u != 0.0
    ensures a * u == b * u <==> a == b
    ensures u * a == u * b <==> a == b
  {
    assert (a - b) * u == a * u - b * u;
    if a * u == b * u {
      ZeroFactor(a - b, u);
    }
  }

  lemma {:induction false} ZeroFactor(x: real, u: real)
    requires x * u == 0.0 && u != 0.0
    ensures x == 0.0
  {
  }

  lemma {:induction false} RatioIff(g: real, cash: real, now: real)
    requires cash > 0.0
    ensures g == now / cash <==> cash * g == now
  {
    if cash * g == now {
      DivideBack(g, cash, now);
    }
  }

  /** The growth `g` amounts to the equity `x`, from `cash`. */
  predicate Amounts(g: real, cash: real, x: real) {
    cash * g == x
  }

  lemma {:induction false} AmountsIff(g: real, cash: real, x: real)
    requires cash > 0.0
    ensures Amounts(g, cash, x) <==> g == x / cash
  {
    RatioIff(g, cash, x);
  }

  lemma {:induction false} CarriedAmountsIff(g: real, cash: real, start: real, now: real)
    requires cash > 0.0 && start > 0.0
    ensures Amounts(Carried(g, start, now), cash, now) <==> Amounts(g, cash, start) || now == 0.0
  {
    CarriedIff(g, cash, start, now);
    RatioIff(Carried(g, start, now), cash, now);
  }

  /** With a last break `b`, the returns compound to the final equity iff the next value is exactly what they had
      compounded to, or equity, having recovered, ends in zero. Without one they always do. */
  lemma {:induction false} ReturnsCompoundIff(cash: real, values: seq<real>, b: nat)
    requires cash > 0.0 && LastBreak(values, b)
    ensures Amounts(Growth(Returns(cash, values)), cash, values[|values| - 1])
            <==> || Amounts(Growth(Returns(cash, values[..b + 1])), cash, values[b + 1])
                 || (b + 2 < |values| && values[|values| - 1] == 0.0)
  {
    GrowthAfterBreak(cash, values, b);
    if b + 2 < |values| {
      CarriedAmountsIff(Growth(Returns(cash, values[..b + 1])), cash, values[b + 1], values[|values| - 1]);
    }
  }
}
