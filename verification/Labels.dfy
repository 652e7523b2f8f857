/** `data_gateway/provisioning.py`, `build_label_snapshot`: the label snapshot of future returns, its index
    arithmetic, and why no label leaks. */
module Labels {
  import opened Wrappers
  import opened Clock
  import opened Sequences
  import opened Records
  import opened Revisions
  import opened Loader

  datatype Label = Label(instrumentId: string, eventTime: Time, availableTime: Time, value: real)

  datatype LabelSnapshot = LabelSnapshot(decisionTime: Time, horizon: int, rows: seq<Label>)

  datatype ProvisionError = NoData | DuplicateKey | IndexOutOfRange

  // ---------- Python indexing ----------

  /** `xs[i]`; out of range raises IndexError. */
  function At<T>(xs: seq<T>, i: int): Option<T> {
    if 0 <= i < |xs| then Some(xs[i])
    else if -|xs| <= i < 0 then Some(xs[|xs| + i])
    else None
  }

  /** A slice bound: negative bounds count from the end, and all bounds are clipped. */
  function Bound(i: int, n: nat): (b: nat)
    ensures b <= n
  {
    if i < 0 then (if i + n < 0 then 0 else i + n) else if i < n then i else n
  }

  /** `xs[a:b]` */
  function Slice<T>(xs: seq<T>, a: int, b: int): seq<T> {
    if Bound(a, |xs|) <= Bound(b, |xs|) then xs[Bound(a, |xs|)..Bound(b, |xs|)] else []
  }

  /** `xs.index(x)` */
  function Place(xs: seq<Time>, x: Time): (p: nat)
    requires x in xs
    ensures p < |xs| && xs[p] == x
    ensures forall i :: 0 <= i < p ==> xs[i] != x
  {
    if xs[0] == x then 0 else 1 + Place(xs[1..], x)
  }

  // ---------- the specification ----------

  predicate IsClose(r: RawPITRow) {
    r.field == "market.eod.close"
  }

  function EventTimes(rows: seq<RawPITRow>): (ts: seq<Time>)
    ensures |ts| == |rows| && forall i :: 0 <= i < |rows| ==> ts[i] == rows[i].eventTime
  {
    seq(|rows|, i requires 0 <= i < |rows| => rows[i].eventTime)
  }

  /** The market's trading days: all event times, of whatever field, in order. */
  function AllTimes(rows: seq<RawPITRow>): (ts: seq<Time>)
    ensures forall t :: t in ts <==> exists r :: r in rows && r.eventTime == t
  {
    var ts := EventTimes(rows);
    assert forall r :: r in rows ==> r.eventTime in ts by {
      forall r | r in rows ensures r.eventTime in ts {
        var i :| 0 <= i < |rows| && rows[i] == r;
        assert ts[i] == r.eventTime;
      }
    }
    SortedDistinct(ts)
  }

  /** The decision time for a horizon, or the IndexError of computing it. */
  function DecisionTime(times: seq<Time>, h: int): Option<Time> {
    if |times| <= 2 * h then (if |times| > h then At(times, h) else At(times, -1))
    else At(times, -(2 * h))
  }

  /** The event times that may start a label. */
  function Window(times: seq<Time>, h: int, d: nat): seq<Time> {
    Slice(times, d - h + 1, d + 1)
  }

  predicate EarlierRow(a: RawPITRow, b: RawPITRow) {
    a.eventTime <= b.eventTime
  }

  predicate CloseOf(i: string, r: RawPITRow) {
    IsClose(r) && r.instrumentId == i
  }

  function ClosesOf(rows: seq<RawPITRow>, i: string): seq<RawPITRow> {
    Filter(rows, r => CloseOf(i, r))
  }

  /** An instrument's closes in event-time order. */
  function Series(rows: seq<RawPITRow>, i: string): seq<RawPITRow> {
    StableSort(EarlierRow, ClosesOf(rows, i))
  }

  function ForwardReturn(c0: real, c5: real): real
    requires c0 > 0.0
  {
    (c5 - c0) / c0
  }

  /** The label that starts at position `i` of a series, if any. */
  function LabelAt(series: seq<RawPITRow>, window: seq<Time>, h: nat, i: nat): seq<Label>
    requires i + h < |series|
  {
    var t0, t5 := series[i], series[i + h];
    if t0.eventTime in window && t0.value > 0.0
    then [Label(t0.instrumentId, t0.eventTime, t5.availableTime, ForwardReturn(t0.value, t5.value))]
    else []
  }

  /** The labels that start at the first `n` positions. */
  function LabelsUpTo(series: seq<RawPITRow>, window: seq<Time>, h: nat, n: nat): seq<Label>
    requires n > 0 ==> n - 1 + h < |series|
  {
    if n == 0 then [] else LabelsUpTo(series, window, h, n - 1) + LabelAt(series, window, h, n - 1)
  }

  /** `range(len(series) - horizon)` */
  function Starts(series: seq<RawPITRow>, h: nat): nat {
    if |series| <= h then 0 else |series| - h
  }

  function SeriesLabels(series: seq<RawPITRow>, window: seq<Time>, h: nat): seq<Label> {
    LabelsUpTo(series, window, h, Starts(series, h))
  }

  /** Instruments with a close, in the order the rows introduce them. */
  function Instruments(rows: seq<RawPITRow>): seq<string> {
    FirstSeen(Filter(rows, IsClose), (r: RawPITRow) => r.instrumentId)
  }

  function LabelsOf(rows: seq<RawPITRow>, window: seq<Time>, h: nat, instruments: seq<string>): seq<Label> {
    if instruments == [] then []
    else
      var n := |instruments| - 1;
      LabelsOf(rows, window, h, instruments[..n]) + SeriesLabels(Series(rows, instruments[n]), window, h)
  }

  /** The snapshot a successful build returns. */
  ghost predicate IsLabelSnapshot(rows: seq<RawPITRow>, h: int, s: LabelSnapshot) {
    var times := AllTimes(rows);
    && DecisionTime(times, h) == Some(s.decisionTime) && s.horizon == h
    && s.decisionTime in times
    && (h >= 0 ==> s.rows == LabelsOf(rows, Window(times, h, Place(times, s.decisionTime)), h, Instruments(rows)))
    && (h < 0 ==> s.rows == [])
  }

  // ---------- the implementation ----------

  /** `build_label_snapshot`. With a negative horizon every series raises, so any close makes it raise. */
  method BuildLabelSnapshot(rows: seq<RawPITRow>, h: int) returns (r: Result<LabelSnapshot, ProvisionError>)
    ensures r.Ok? ==> IsLabelSnapshot(rows, h, r.value)
    ensures r.Err? ==> r.error == IndexOutOfRange
    ensures r.Err? <==> DecisionTime(AllTimes(rows), h).None? || (h < 0 && exists c :: c in rows && IsClose(c))
  {
    var closes := CollectCloses(rows);
    var times := AllTimes(rows);
    var decision := DecisionTime(times, h);
    if decision.None? {
      return Err(IndexOutOfRange);
    }
    var window := Window(times, h, Place(times, decision.value));
    var labels := LabelInstruments(rows, closes, window, h);
    SomeInstrumentIff(rows);
    return if labels.None? then Err(IndexOutOfRange) else Ok(LabelSnapshot(decision.value, h, labels.value));
  }

  lemma {:induction false} SomeInstrumentIff(rows: seq<RawPITRow>)
    ensures Instruments(rows) != [] <==> exists c :: c in rows && IsClose(c)
  {
    assert forall c :: c in rows && IsClose(c) ==> c.instrumentId in Instruments(rows);
    if Instruments(rows) != [] {
      assert Instruments(rows)[0] in Instruments(rows);
    }
  }

  /** The loop over the instruments; `None` where indexing a series raises. */
  method LabelInstruments(rows: seq<RawPITRow>, closes: Dict<string, seq<RawPITRow>>, window: seq<Time>, h: int)
    returns (labels: Option<seq<Label>>)
    requires Collected(rows, closes)
    ensures labels.None? <==> h < 0 && Instruments(rows) != []
    ensures labels.Some? ==> labels.value == if h < 0 then [] else LabelsOf(rows, window, h, Instruments(rows))
  {
    var instruments := closes.keys;
    var found: seq<Label> := [];
    for k := 0 to |instruments|
      invariant LabelledSoFar(rows, window, h, instruments, k, found)
    {
      var i := instruments[k];
      var series := SortedSeries(rows, closes, i);
      var some := LabelSeries(series, window, h);
      if some.None? {
        return None;
      }
      LabelledFurther(rows, window, h, instruments, k, found);
      found := found + some.value;
    }
    LabelledAll(rows, window, h, instruments, found);
    return Some(found);
  }

  /** `series.sort(key=lambda r: r.event_time)` */
  method SortedSeries(ghost rows: seq<RawPITRow>, closes: Dict<string, seq<RawPITRow>>, i: string) returns (series: seq<RawPITRow>)
    requires Collected(rows, closes) && i in closes.keys
    ensures series == Series(rows, i)
  {
    series := StableSort(EarlierRow, closes.items[i]);
  }

  lemma {:induction false} LabelledAll(rows: seq<RawPITRow>, window: seq<Time>, h: int, instruments: seq<string>, found: seq<Label>)
    requires LabelledSoFar(rows, window, h, instruments, |instruments|, found)
    ensures h < 0 ==> instruments == [] && found == []
    ensures h >= 0 ==> found == LabelsOf(rows, window, h, instruments)
  {
    assert instruments[..|instruments|] == instruments;
  }

  /** The labels of the first `k` instruments; with a negative horizon the first one already raises. */
  ghost predicate LabelledSoFar(rows: seq<RawPITRow>, window: seq<Time>, h: int, instruments: seq<string>, k: nat, found: seq<Label>)
    requires k <= |instruments|
  {
    if h < 0 then k == 0 && found == [] else found == LabelsOf(rows, window, h, instruments[..k])
  }

  lemma {:induction false} LabelledFurther(rows: seq<RawPITRow>, window: seq<Time>, h: int, instruments: seq<string>, k: nat, found: seq<Label>)
    requires k < |instruments| && h >= 0 && LabelledSoFar(rows, window, h, instruments, k, found)
    ensures LabelledSoFar(rows, window, h, instruments, k + 1, found + SeriesLabels(Series(rows, instruments[k]), window, h))
  {
    LabelsOfStep(rows, window, h, instruments, k);
  }

  lemma {:induction false} LabelsOfStep(rows: seq<RawPITRow>, window: seq<Time>, h: nat, instruments: seq<string>, k: nat)
    requires k < |instruments|
    ensures LabelsOf(rows, window, h, instruments[..k + 1])
         == LabelsOf(rows, window, h, instruments[..k]) + SeriesLabels(Series(rows, instruments[k]), window, h)
  {
    assert instruments[..k + 1][..k] == instruments[..k];
  }

  /** The loop that groups closes by instrument. */
  method CollectCloses(rows: seq<RawPITRow>) returns (closes: Dict<string, seq<RawPITRow>>)
    ensures Collected(rows, closes)
  {
    closes := Dict([], map[]);
    for n := 0 to |rows|
      invariant Collected(rows[..n], closes)
    {
      var row := rows[n];
      assert rows[..n + 1] == rows[..n] + [row];
      CollectStep(rows[..n], row, closes);
      if IsClose(row) {
        closes := AddClose(closes, row);
      }
    }
    assert rows[..|rows|] == rows;
  }

  /** `closes.setdefault(row.instrument_id, []).append(row)` */
  function AddClose(closes: Dict<string, seq<RawPITRow>>, row: RawPITRow): Dict<string, seq<RawPITRow>> {
    var i := row.instrumentId;
    if i in closes.items then Dict(closes.keys, closes.items[i := closes.items[i] + [row]])
    else Dict(closes.keys + [i], closes.items[i := [row]])
  }

  ghost predicate Collected(rows: seq<RawPITRow>, closes: Dict<string, seq<RawPITRow>>) {
    && closes.keys == Instruments(rows)
    && (forall i :: i in closes.keys <==> i in closes.items)
    && (forall i :: i in closes.keys ==> closes.items[i] == ClosesOf(rows, i))
  }

  lemma {:induction false} NoCloseYet(rows: seq<RawPITRow>, i: string)
    requires i !in Instruments(rows)
    ensures ClosesOf(rows, i) == []
  {
    FilterNone(rows, r => CloseOf(i, r));
  }

  lemma {:induction false} ClosesSnoc(rows: seq<RawPITRow>, row: RawPITRow, i: string)
    ensures ClosesOf(rows + [row], i) == if CloseOf(i, row) then ClosesOf(rows, i) + [row] else ClosesOf(rows, i)
  {
    FilterSnoc(rows, row, r => CloseOf(i, r));
  }

  lemma {:induction false} CollectStep(rows: seq<RawPITRow>, row: RawPITRow, closes: Dict<string, seq<RawPITRow>>)
    requires Collected(rows, closes)
    ensures Collected(rows + [row], if IsClose(row) then AddClose(closes, row) else closes)
  {
    var next := if IsClose(row) then AddClose(closes, row) else closes;
    InstrumentsSnoc(rows, row);
    forall i | i in next.keys ensures next.items[i] == ClosesOf(rows + [row], i) {
      if i !in Instruments(rows) {
        NoCloseYet(rows, i);
      }
      AddedClose(rows, row, closes, i);
    }
  }

  lemma {:induction false} AddedClose(rows: seq<RawPITRow>, row: RawPITRow, closes: Dict<string, seq<RawPITRow>>, i: string)
    requires ClosesOf(rows, i) == if i in closes.items then closes.items[i] else []
    requires IsClose(row) || i in closes.items
    requires i == row.instrumentId || i in closes.items
    ensures (if IsClose(row) then AddClose(closes, row) else closes).items[i] == ClosesOf(rows + [row], i)
  {
    ClosesSnoc(rows, row, i);
  }

  lemma {:induction false} InstrumentsSnoc(rows: seq<RawPITRow>, row: RawPITRow)
    ensures Instruments(rows + [row])
         == if IsClose(row) && row.instrumentId !in Instruments(rows) then Instruments(rows) + [row.instrumentId] else Instruments(rows)
  {
    FilterSnoc(rows, row, IsClose);
    FirstSeenSnoc(Filter(rows, IsClose), row, (r: RawPITRow) => r.instrumentId);
  }

  /** The loop over one series: `range(len(series) - horizon)` with Python indexing, so a negative horizon runs
      past the end. */
  method LabelSeries(series: seq<RawPITRow>, window: seq<Time>, h: int) returns (labels: Option<seq<Label>>)
    ensures h < 0 ==> labels.None?
    ensures h >= 0 ==> labels == Some(SeriesLabels(series, window, h))
  {
    var found: seq<Label> := [];
    var i := 0;
    while i < |series| - h
      invariant h < 0 ==> 0 <= i <= |series|
      invariant h >= 0 ==> 0 <= i <= Starts(series, h) && found == LabelsUpTo(series, window, h, i)
    {
      var t0 := At(series, i);
      if t0.None? {
        return None;
      }
      if t0.value.eventTime in window {
        var t5 := At(series, i + h);
        if t5.None? {
          return None;
        }
        if t0.value.value > 0.0 {
          found := found + [Label(t0.value.instrumentId, t0.value.eventTime, t5.value.availableTime,
                                  ForwardReturn(t0.value.value, t5.value.value))];
        }
      }
      i := i + 1;
    }
    return Some(found);
  }

  // ---------- no label leaks ----------

  /** `l` is the return of one instrument from a close the decision already knows to a later close that
      neither happened nor was available by the decision time. */
  ghost predicate LabelOf(l: Label, t0: RawPITRow, t5: RawPITRow) {
    && IsClose(t0) && IsClose(t5) && l.instrumentId == t0.instrumentId == t5.instrumentId
    && l.eventTime == t0.eventTime && l.availableTime == t5.availableTime
    && t0.value > 0.0 && l.value == ForwardReturn(t0.value, t5.value)
  }

  ghost predicate Climbing(series: seq<RawPITRow>) {
    forall i, j | 0 <= i < j < |series| :: series[i].eventTime < series[j].eventTime
  }

  lemma {:induction false} InLabelsUpTo(series: seq<RawPITRow>, window: seq<Time>, h: nat, n: nat, l: Label) returns (i: nat)
    requires n > 0 ==> n - 1 + h < |series|
    requires l in LabelsUpTo(series, window, h, n)
    ensures i < n && LabelAt(series, window, h, i) == [l]
  {
    if l in LabelsUpTo(series, window, h, n - 1) {
      i := InLabelsUpTo(series, window, h, n - 1, l);
    } else {
      i := n - 1;
    }
  }

  lemma {:induction false} InLabelsOf(rows: seq<RawPITRow>, window: seq<Time>, h: nat, instruments: seq<string>, l: Label) returns (i: string)
    requires l in LabelsOf(rows, window, h, instruments)
    ensures i in instruments && l in SeriesLabels(Series(rows, i), window, h)
  {
    var n := |instruments| - 1;
    if l in LabelsOf(rows, window, h, instruments[..n]) {
      i := InLabelsOf(rows, window, h, instruments[..n], l);
    } else {
      i := instruments[n];
    }
  }

  lemma {:induction false} SeriesRows(rows: seq<RawPITRow>, i: string)
    ensures forall r :: r in Series(rows, i) <==> r in rows && CloseOf(i, r)
  {
    SameElements(Series(rows, i), ClosesOf(rows, i));
  }

  /** No instrument has two closes at one event time. */
  ghost predicate UniqueCloses(rows: seq<RawPITRow>) {
    forall a, b | 0 <= a < b < |rows| && IsClose(rows[a]) && IsClose(rows[b]) && rows[a].instrumentId == rows[b].instrumentId ::
      rows[a].eventTime != rows[b].eventTime
  }

  lemma {:induction false} UniqueKeysUniqueCloses(rows: seq<RawPITRow>)
    requires UniqueKeys(rows)
    ensures UniqueCloses(rows)
  {
    forall a, b | 0 <= a < b < |rows| && IsClose(rows[a]) && IsClose(rows[b]) && rows[a].instrumentId == rows[b].instrumentId
      ensures rows[a].eventTime != rows[b].eventTime
    {
      assert ObsKeyOf(rows[a]) != ObsKeyOf(rows[b]);
    }
  }

  lemma {:induction false} ClosesDiffer(rows: seq<RawPITRow>, i: string)
    requires UniqueCloses(rows)
    ensures forall j, k | 0 <= j < k < |ClosesOf(rows, i)| :: ClosesOf(rows, i)[j].eventTime != ClosesOf(rows, i)[k].eventTime
  {
    var closes := ClosesOf(rows, i);
    forall j, k | 0 <= j < k < |closes| ensures closes[j].eventTime != closes[k].eventTime {
      var a, b := FilterIndices(rows, r => CloseOf(i, r), j, k);
      assert closes[j] in closes && closes[k] in closes;
    }
  }

  /** Without repeated closes a series has strictly increasing event times. */
  lemma {:induction false} SeriesClimbs(rows: seq<RawPITRow>, i: string)
    requires UniqueCloses(rows)
    ensures Climbing(Series(rows, i))
  {
    var closes, series := ClosesOf(rows, i), Series(rows, i);
    SortSorts(EarlierRow, closes);
    ClosesDiffer(rows, i);
    SameElements(series, closes);
    forall j, k | 0 <= j < k < |series| ensures series[j].eventTime < series[k].eventTime {
      assert EarlierRow(series[j], series[k]);
      if series[j].eventTime == series[k].eventTime {
        assert series[j] in closes && series[k] in closes;
        assert series[j] == series[k];
        TwiceCounts(series, j, k);
        DistinctCount(closes, series[j]);
      }
    }
  }

  /** Moving `k` places along a climbing series moves at least `k` places along the trading days. */
  lemma {:induction false} PlaceClimbs(series: seq<RawPITRow>, times: seq<Time>, i: nat, k: nat)
    requires Climbing(series) && Increasing(times)
    requires forall r :: r in series ==> r.eventTime in times
    requires i + k < |series|
    ensures Place(times, series[i].eventTime) + k <= Place(times, series[i + k].eventTime)
  {
    if k > 0 {
      PlaceClimbs(series, times, i, k - 1);
      var s, t := series[i + k - 1].eventTime, series[i + k].eventTime;
      assert s < t;
      assert times[Place(times, s)] < times[Place(times, t)];
    }
  }

  function DecisionPosition(n: int, h: int): int {
    if n <= h then n - 1 else if n <= 2 * h then h else n - 2 * h
  }

  lemma {:induction false} DecisionPlace(times: seq<Time>, h: int)
    requires Increasing(times) && DecisionTime(times, h).Some?
    ensures DecisionTime(times, h).value in times
    ensures h >= 1 ==> Place(times, DecisionTime(times, h).value) == DecisionPosition(|times|, h)
  {
  }

  /** Every window time is at or before the decision, and its place plus the horizon is past the decision,
      also where the start of the slice is negative. */
  lemma {:induction false} WindowBehind(times: seq<Time>, h: int, t: Time)
    requires Increasing(times) && h >= 1 && DecisionTime(times, h).Some?
    requires DecisionTime(times, h).value in times
    requires t in Window(times, h, Place(times, DecisionTime(times, h).value))
    ensures t in times && t <= DecisionTime(times, h).value
    ensures Place(times, t) + h > Place(times, DecisionTime(times, h).value)
  {
    DecisionPlace(times, h);
    var d := Place(times, DecisionTime(times, h).value);
    var p := InSlice(times, d - h + 1, d + 1, t);
    PlaceOfIndex(times, p);
    assert d - h + 1 <= p <= d by {
      SliceBounds(|times|, h, d, p);
    }
    assert p < d ==> times[p] < times[d];
  }

  lemma {:induction false} InSlice(times: seq<Time>, a: int, b: int, t: Time) returns (p: nat)
    requires t in Slice(times, a, b)
    ensures Bound(a, |times|) <= p < Bound(b, |times|) && times[p] == t
  {
    var j :| 0 <= j < |Slice(times, a, b)| && Slice(times, a, b)[j] == t;
    p := Bound(a, |times|) + j;
  }

  /** A negative start of the window's slice leaves it empty or counts from the end, past the decision. */
  lemma {:induction false} SliceBounds(n: nat, h: int, d: nat, p: nat)
    requires h >= 1 && d == DecisionPosition(n, h) && d < n
    requires Bound(d - h + 1, n) <= p < Bound(d + 1, n)
    ensures d - h + 1 <= p <= d
  {
  }

  lemma {:induction false} PlaceOfIndex(times: seq<Time>, p: nat)
    requires Increasing(times) && p < |times|
    ensures Place(times, times[p]) == p
  {
  }

  /** Without repeated closes, `h` places after a close of a window day lies a close after the decision. */
  lemma {:induction false} LaterCloseIsLater(rows: seq<RawPITRow>, h: int, s: LabelSnapshot, i: string, k: nat)
    requires UniqueCloses(rows) && IsLabelSnapshot(rows, h, s) && h >= 1 && k + h < |Series(rows, i)|
    requires Series(rows, i)[k].eventTime in Window(AllTimes(rows), h, Place(AllTimes(rows), s.decisionTime))
    ensures Series(rows, i)[k].eventTime <= s.decisionTime < Series(rows, i)[k + h].eventTime
  {
    var times, series := AllTimes(rows), Series(rows, i);
    SortedDistinctIncreasing(EventTimes(rows));
    SeriesRows(rows, i);
    SeriesClimbs(rows, i);
    assert series[k] in series && series[k + h] in series;
    WindowBehind(times, h, series[k].eventTime);
    PlaceClimbs(series, times, k, h);
    var d, e := Place(times, s.decisionTime), Place(times, series[k + h].eventTime);
    assert d < e;
    assert times[d] < times[e];
  }

  /** No label leaks: for rows without repeated closes, every label of every horizon starts at or before the
      decision time and is realised and available strictly after it, whatever dates instruments miss. */
  lemma {:induction false} NoLabelLeaks(rows: seq<RawPITRow>, h: int, s: LabelSnapshot, l: Label) returns (t0: RawPITRow, t5: RawPITRow)
    requires UniqueCloses(rows) && (forall r :: r in rows ==> r.Valid())
    requires IsLabelSnapshot(rows, h, s) && h >= 1 && l in s.rows
    ensures t0 in rows && t5 in rows && LabelOf(l, t0, t5)
    ensures t0.eventTime <= s.decisionTime < t5.eventTime <= l.availableTime
  {
    var times := AllTimes(rows);
    var window := Window(times, h, Place(times, s.decisionTime));
    var i := InLabelsOf(rows, window, h, Instruments(rows), l);
    var series := Series(rows, i);
    var k := InLabelsUpTo(series, window, h, Starts(series, h), l);
    t0, t5 := series[k], series[k + h];
    SeriesRows(rows, i);
    assert t0 in series && t5 in series;
    LaterCloseIsLater(rows, h, s, i, k);
  }

  /** A horizon below one never labels anything. */
  lemma {:induction false} NoLabelsWithoutHorizon(rows: seq<RawPITRow>, h: int, s: LabelSnapshot)
    requires IsLabelSnapshot(rows, h, s) && h < 1
    ensures s.rows == []
  {
    if h == 0 && s.rows != [] {
      var window := Window(AllTimes(rows), 0, Place(AllTimes(rows), s.decisionTime));
      var i := InLabelsOf(rows, window, 0, Instruments(rows), s.rows[0]);
      var k := InLabelsUpTo(Series(rows, i), window, 0, Starts(Series(rows, i), 0), s.rows[0]);
    }
  }
}
