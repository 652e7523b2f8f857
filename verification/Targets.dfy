/** `backtest/service.py`, `_targets_by_bar`: factor values become the position to hold at each bar. */
module Targets {
  import opened Wrappers
  import opened Clock
  import opened Sequences

  /** A factor value and its day; Python compares the pairs lexicographically. */
  datatype Signal = Signal(day: Date, value: real)

  predicate SignalLe(a: Signal, b: Signal) {
    a.day < b.day || (a.day == b.day && a.value <= b.value)
  }

  predicate NoLater(a: Time, b: Time) {
    a <= b
  }

  /** The lexicographically greatest signal from strictly before `day`. */
  function LatestBefore(values: seq<Signal>, day: Date): (r: Option<Signal>)
    ensures r.None? <==> forall v :: v in values ==> v.day >= day
    ensures r.Some? ==> r.value in values && r.value.day < day
    ensures r.Some? ==> forall v :: v in values && v.day < day ==> SignalLe(v, r.value)
  {
    if values == [] then None
    else
      var rest := LatestBefore(values[1..], day);
      assert values == [values[0]] + values[1..];
      if values[0].day < day && (rest.None? || SignalLe(rest.value, values[0])) then Some(values[0]) else rest
  }

  function Target(values: seq<Signal>, day: Date, lotSize: int): int {
    match LatestBefore(values, day)
    case None => 0
    case Some(s) => if s.value == 0.0 then 0 else if s.value > 0.0 then lotSize else -lotSize
  }

  /** Every bar time with its target. */
  function TargetMap(values: seq<Signal>, barTimes: seq<Time>, lotSize: int): map<Time, int> {
    map t | t in barTimes :: Target(values, Day(t), lotSize)
  }

  /** `_targets_by_bar`: every bar's target from the signals before its day. */
  method TargetsByBar(values: seq<Signal>, barTimes: seq<Time>, lotSize: int) returns (targets: map<Time, int>)
    ensures targets == TargetMap(values, barTimes, lotSize)
  {
    var ordered := StableSort(SignalLe, values);
    SortSignals(values);
    var sortedTimes := StableSort(NoLater, barTimes);
    targets := map[];
    for i := 0 to |sortedTimes|
      invariant targets == TargetMap(values, sortedTimes[..i], lotSize)
    {
      var barTime := sortedTimes[i];
      var value := ScanSignals(ordered, Day(barTime));
      LatestIgnoresOrder(ordered, values, Day(barTime));
      TargetMapStep(values, sortedTimes, i, lotSize);
      if value.None? || value.value == 0.0 {
        targets := targets[barTime := 0];
      } else {
        targets := targets[barTime := if value.value > 0.0 then lotSize else -lotSize];
      }
    }
    TargetMapOfSorted(values, barTimes, sortedTimes, lotSize);
  }

  lemma {:induction false} TargetMapStep(values: seq<Signal>, times: seq<Time>, i: int, lotSize: int)
    requires 0 <= i < |times|
    ensures TargetMap(values, times[..i + 1], lotSize)
         == TargetMap(values, times[..i], lotSize)[times[i] := Target(values, Day(times[i]), lotSize)]
  {
    assert times[..i + 1] == times[..i] + [times[i]];
  }

  lemma {:induction false} TargetMapOfSorted(values: seq<Signal>, times: seq<Time>, sorted: seq<Time>, lotSize: int)
    requires multiset(sorted) == multiset(times)
    ensures TargetMap(values, sorted[..|sorted|], lotSize) == TargetMap(values, times, lotSize)
  {
    assert sorted[..|sorted|] == sorted;
    SameElements(sorted, times);
  }

  /** The inner loop: walk the sorted signals and stop at the first one not before the bar's day. */
  method ScanSignals(ordered: seq<Signal>, barDay: Date) returns (value: Option<real>)
    requires Sorted(SignalLe, ordered)
    ensures value == match LatestBefore(ordered, barDay) case None => None case Some(s) => Some(s.value)
  {
    value := None;
    var cut := |ordered|;
    for j := 0 to |ordered|
      invariant cut == |ordered|
      invariant forall k :: 0 <= k < j ==> ordered[k].day < barDay
      invariant value == if j == 0 then None else Some(ordered[j - 1].value)
    {
      if ordered[j].day >= barDay {
        LastOfPrefix(ordered, j, barDay);
        return;
      }
      value := Some(ordered[j].value);
    }
    LastOfPrefix(ordered, |ordered|, barDay);
  }

  lemma {:induction false} SortSignals(values: seq<Signal>)
    ensures Sorted(SignalLe, StableSort(SignalLe, values))
    ensures forall v :: v in StableSort(SignalLe, values) <==> v in values
  {
    SignalLeOrders();
    SortSorts(SignalLe, values);
    SameElements(StableSort(SignalLe, values), values);
  }

  lemma {:induction false} SignalLeOrders()
    ensures TotalPreorder(SignalLe)
  {
  }

  /** In sorted order, the last signal before the cut is the latest one before the day. */
  lemma {:induction false} LastOfPrefix(ordered: seq<Signal>, cut: int, day: Date)
    requires Sorted(SignalLe, ordered) && 0 <= cut <= |ordered|
    requires forall k :: 0 <= k < cut ==> ordered[k].day < day
    requires cut < |ordered| ==> ordered[cut].day >= day
    ensures LatestBefore(ordered, day) == if cut == 0 then None else Some(ordered[cut - 1])
  {
    forall k | cut <= k < |ordered| ensures ordered[k].day >= day {
      assert k == cut || SignalLe(ordered[cut], ordered[k]);
    }
    if cut == 0 {
      forall v | v in ordered ensures v.day >= day {
        var k :| 0 <= k < |ordered| && ordered[k] == v;
      }
    } else {
      assert ordered[cut - 1] in ordered;
      LastIsLatest(ordered, cut, day, LatestBefore(ordered, day).value);
    }
  }

  lemma {:induction false} LastIsLatest(ordered: seq<Signal>, cut: int, day: Date, s: Signal)
    requires Sorted(SignalLe, ordered) && 0 < cut <= |ordered| && ordered[cut - 1].day < day
    requires forall k | cut <= k < |ordered| :: ordered[k].day >= day
    requires s in ordered && s.day < day && SignalLe(ordered[cut - 1], s)
    ensures s == ordered[cut - 1]
  {
    var k :| 0 <= k < |ordered| && ordered[k] == s;
    assert k == cut - 1 || SignalLe(ordered[k], ordered[cut - 1]);
  }

  lemma {:induction false} LatestIgnoresOrder(values: seq<Signal>, others: seq<Signal>, day: Date)
    requires forall v: Signal :: v.day < day ==> (v in values <==> v in others)
    ensures LatestBefore(values, day) == LatestBefore(others, day)
  {
    var a, b := LatestBefore(values, day), LatestBefore(others, day);
    if a.Some? {
      assert a.value in others;
    }
    if b.Some? {
      assert b.value in values;
    }
  }

  /** A bar's target depends only on which signals precede its day: not on their order, not on repeats,
      and not on anything from that day or later. */
  lemma {:induction false} TargetSeesOnlyThePast(values: seq<Signal>, others: seq<Signal>, day: Date, lotSize: int)
    requires forall v: Signal :: v.day < day ==> (v in values <==> v in others)
    ensures Target(values, day, lotSize) == Target(others, day, lotSize)
  {
    LatestIgnoresOrder(values, others, day);
  }

  /** The position is long, short or flat by the sign of the most recent earlier signal. */
  lemma {:induction false} TargetIsSignOfLatest(values: seq<Signal>, day: Date, lotSize: int, s: Signal)
    requires s in values && s.day < day
    requires forall v :: v in values && v.day < day ==> SignalLe(v, s)
    ensures Target(values, day, lotSize) == if s.value > 0.0 then lotSize else if s.value < 0.0 then -lotSize else 0
  {
    var r := LatestBefore(values, day);
    assert SignalLe(r.value, s) && SignalLe(s, r.value);
  }

  /** Between two days without a signal from the first on and before the second, the target does not change. */
  lemma {:induction false} TargetChangesOnlyAfterSignals(values: seq<Signal>, d: Date, e: Date, lotSize: int)
    requires d <= e && forall v :: v in values ==> !(d <= v.day < e)
    ensures Target(values, d, lotSize) == Target(values, e, lotSize)
  {
    var a, b := LatestBefore(values, d), LatestBefore(values, e);
    if a.Some? && b.Some? {
      assert SignalLe(a.value, b.value) && SignalLe(b.value, a.value);
    }
  }

  /** The target stays the same from one bar to a later one unless a signal falls on a day in between, the
      first bar's day included; so it is constant within a day. */
  lemma {:induction false} TargetsHoldBetweenSignals(values: seq<Signal>, barTimes: seq<Time>, lotSize: int, s: Time, t: Time)
    requires s in barTimes && t in barTimes && s <= t
    requires Day(s) == Day(t) || forall v :: v in values ==> !(Day(s) <= v.day < Day(t))
    ensures TargetMap(values, barTimes, lotSize)[s] == TargetMap(values, barTimes, lotSize)[t]
  {
    DayMonotone(s, t);
    TargetChangesOnlyAfterSignals(values, Day(s), Day(t), lotSize);
  }

  /** The target read off the signal before the pointer. */
  function TargetBefore(ordered: seq<Signal>, j: nat, lotSize: int): int
    requires j <= |ordered|
  {
    if j == 0 || ordered[j - 1].value == 0.0 then 0 else if ordered[j - 1].value > 0.0 then lotSize else -lotSize
  }

  lemma {:induction false} PointerGivesTarget(values: seq<Signal>, ordered: seq<Signal>, j: nat, day: Date, lotSize: int)
    requires Sorted(SignalLe, ordered) && (forall v :: v in ordered <==> v in values)
    requires j <= |ordered| && (forall k :: 0 <= k < j ==> ordered[k].day < day)
    requires j < |ordered| ==> ordered[j].day >= day
    ensures TargetBefore(ordered, j, lotSize) == Target(values, day, lotSize)
  {
    LastOfPrefix(ordered, j, day);
    LatestIgnoresOrder(ordered, values, day);
  }

  lemma {:induction false} SortedDays(times: seq<Time>)
    requires Sorted(NoLater, times)
    ensures forall i, j | 0 <= i < j < |times| :: Day(times[i]) <= Day(times[j])
  {
    forall i, j | 0 <= i < j < |times| ensures Day(times[i]) <= Day(times[j]) {
      assert NoLater(times[i], times[j]);
      DayMonotone(times[i], times[j]);
    }
  }

  lemma {:induction false} NoLaterOrders()
    ensures TotalPreorder(NoLater)
  {
  }

  /** The reference: one pass over the sorted bar times with one pointer into the sorted signals. It gives the
      map that `_targets_by_bar` builds by scanning the signals again for every bar. */
  method MergeTargets(values: seq<Signal>, barTimes: seq<Time>, lotSize: int) returns (targets: map<Time, int>)
    ensures targets == TargetMap(values, barTimes, lotSize)
  {
    var ordered := StableSort(SignalLe, values);
    SortSignals(values);
    var times := StableSort(NoLater, barTimes);
    NoLaterOrders();
    SortSorts(NoLater, barTimes);
    SortedDays(times);
    targets := map[];
    var j := 0;
    for i := 0 to |times|
      invariant targets == TargetMap(values, times[..i], lotSize)
      invariant 0 <= j <= |ordered|
      invariant forall k :: 0 <= k < j ==> i > 0 && ordered[k].day < Day(times[i - 1])
    {
      assert i > 0 ==> Day(times[i - 1]) <= Day(times[i]);
      j := Advance(ordered, j, Day(times[i]));
      PointerGivesTarget(values, ordered, j, Day(times[i]), lotSize);
      TargetMapStep(values, times, i, lotSize);
      targets := targets[times[i] := TargetBefore(ordered, j, lotSize)];
    }
    TargetMapOfSorted(values, barTimes, times, lotSize);
  }

  /** Moves the pointer past all signals before `day`. */
  method Advance(ordered: seq<Signal>, from: nat, day: Date) returns (j: nat)
    requires from <= |ordered| && forall k :: 0 <= k < from ==> ordered[k].day < day
    ensures from <= j <= |ordered|
    ensures forall k :: 0 <= k < j ==> ordered[k].day < day
    ensures j < |ordered| ==> ordered[j].day >= day
  {
    j := from;
    while j < |ordered| && ordered[j].day < day
      invariant from <= j <= |ordered|
      invariant forall k :: 0 <= k < j ==> ordered[k].day < day
    {
      j := j + 1;
    }
  }

  /** In plain terms: of the signals from days before the bar's day take those of the latest day, and of these the
      largest value; the target is one lot in its direction. */
  lemma {:induction false} TargetByLargestLatest(values: seq<Signal>, day: Date, lotSize: int, s: Signal)
    requires s in values && s.day < day
    requires forall v :: v in values && v.day < day ==> v.day < s.day || (v.day == s.day && v.value <= s.value)
    ensures s.value > 0.0 ==> Target(values, day, lotSize) == lotSize
    ensures s.value < 0.0 ==> Target(values, day, lotSize) == -lotSize
    ensures s.value == 0.0 ==> Target(values, day, lotSize) == 0
  {
    var r := LatestBefore(values, day);
    assert SignalLe(s, r.value);
  }

  /** Without such a signal there is no position. */
  lemma {:induction false} NoSignalNoTarget(values: seq<Signal>, day: Date, lotSize: int)
    requires forall v :: v in values ==> v.day >= day
    ensures Target(values, day, lotSize) == 0
  {
  }
}
