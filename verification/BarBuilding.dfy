/** `backtest/service.py`, `_build_bars`: point-in-time rows grouped into one bar series per instrument. */
module BarBuilding {
  import opened Wrappers
  import opened Clock
  import opened Sequences
  import opened Records
  import opened Resolver
  import Revisions
  import Text

  datatype BarField = Open | High | Low | Close | Volume

  /** The bar column a row feeds, after removing the frequency prefix from its field name. */
  function FieldOf(field: string, prefix: string): Option<BarField> {
    match Text.RemovePrefix(field, prefix + ".")
    case "open" => Some(Open)
    case "high" => Some(High)
    case "low" => Some(Low)
    case "close" => Some(Close)
    case "volume" => Some(Volume)
    case _ => None
  }

  datatype Slot = Slot(instrumentId: string, time: Time)

  predicate Feeds(r: PITRow, prefix: string, s: Slot, f: BarField) {
    r.instrumentId == s.instrumentId && r.eventTime == s.time && r.value.Some? && FieldOf(r.field, prefix) == Some(f)
  }

  /** The value the last feeding row gives to a column of a bar. */
  function LastField(rows: seq<PITRow>, prefix: string, s: Slot, f: BarField): Option<real> {
    if rows == [] then None
    else
      var r := rows[|rows| - 1];
      if Feeds(r, prefix, s, f) then r.value else LastField(rows[..|rows| - 1], prefix, s, f)
  }

  function OrElse(o: Option<real>, d: real): real {
    match o case None => d case Some(x) => x
  }

  /** The bar of an instrument at a time: none without a close; other prices default to the close, volume
      to zero. */
  function BarAt(rows: seq<PITRow>, prefix: string, s: Slot): Option<Bar> {
    match LastField(rows, prefix, s, Close)
    case None => None
    case Some(close) =>
      Some(Bar(s.time, OrElse(LastField(rows, prefix, s, Open), close), OrElse(LastField(rows, prefix, s, High), close),
               OrElse(LastField(rows, prefix, s, Low), close), close, OrElse(LastField(rows, prefix, s, Volume), 0.0),
               map[], None))
  }

  /** The series of an instrument: exactly the bars of its times, ascending. */
  ghost predicate IsSeries(rows: seq<PITRow>, prefix: string, i: string, bars: seq<Bar>) {
    && Ascending(bars)
    && (forall j | 0 <= j < |bars| :: BarAt(rows, prefix, Slot(i, bars[j].timestamp)) == Some(bars[j]))
    && (forall t :: BarAt(rows, prefix, Slot(i, t)).Some? ==> exists j :: 0 <= j < |bars| && bars[j].timestamp == t)
  }

  // ---------- grouping ----------

  function Columns(grouped: Dict<Slot, map<BarField, real>>, s: Slot): map<BarField, real> {
    if s in grouped.items then grouped.items[s] else map[]
  }

  function Lookup(m: map<BarField, real>, f: BarField): Option<real> {
    if f in m then Some(m[f]) else None
  }

  /** The `grouped` dict holds, for every wanted instrument, the last value of every column. */
  ghost predicate Grouped(grouped: Dict<Slot, map<BarField, real>>, rows: seq<PITRow>, prefix: string, wanted: seq<string>) {
    && Distinct(grouped.keys)
    && (forall s :: s in grouped.keys <==> s in grouped.items)
    && (forall s :: s in grouped.keys ==> s.instrumentId in wanted)
    && (forall s, f :: Lookup(Columns(grouped, s), f) == if s.instrumentId in wanted then LastField(rows, prefix, s, f) else None)
  }

  /** The loop that groups row values by instrument, time and field. */
  method GroupRows(rows: seq<PITRow>, wanted: seq<string>, prefix: string) returns (grouped: Dict<Slot, map<BarField, real>>)
    ensures Grouped(grouped, rows, prefix, wanted)
  {
    grouped := Dict([], map[]);
    for n := 0 to |rows|
      invariant Grouped(grouped, rows[..n], prefix, wanted)
    {
      var row := rows[n];
      var field := FieldOf(row.field, prefix);
      GroupStep(grouped, rows, n, prefix, wanted);
      if row.instrumentId in wanted && row.value.Some? && field.Some? {
        grouped := Store(grouped, Slot(row.instrumentId, row.eventTime), field.value, row.value.value);
      }
    }
    assert rows[..|rows|] == rows;
  }

  /** `grouped.setdefault(slot, {})[field] = value` */
  function Store(grouped: Dict<Slot, map<BarField, real>>, s: Slot, f: BarField, x: real): Dict<Slot, map<BarField, real>> {
    Dict(if s in grouped.items then grouped.keys else grouped.keys + [s], grouped.items[s := Columns(grouped, s)[f := x]])
  }

  lemma {:induction false} LastFieldSnoc(rows: seq<PITRow>, n: int, prefix: string, s: Slot, f: BarField)
    requires 0 <= n < |rows|
    ensures LastField(rows[..n + 1], prefix, s, f)
         == if Feeds(rows[n], prefix, s, f) then rows[n].value else LastField(rows[..n], prefix, s, f)
  {
    assert rows[..n + 1][..n] == rows[..n];
  }

  lemma {:induction false} GroupStep(grouped: Dict<Slot, map<BarField, real>>, rows: seq<PITRow>, n: int, prefix: string, wanted: seq<string>)
    requires 0 <= n < |rows| && Grouped(grouped, rows[..n], prefix, wanted)
    ensures var row := rows[n];
            var field := FieldOf(row.field, prefix);
            Grouped(if row.instrumentId in wanted && row.value.Some? && field.Some?
                    then Store(grouped, Slot(row.instrumentId, row.eventTime), field.value, row.value.value)
                    else grouped,
                    rows[..n + 1], prefix, wanted)
  {
    var row := rows[n];
    var field := FieldOf(row.field, prefix);
    var stored := row.instrumentId in wanted && row.value.Some? && field.Some?;
    var slot := Slot(row.instrumentId, row.eventTime);
    var after := if stored then Store(grouped, slot, field.value, row.value.value) else grouped;
    forall s, f
      ensures Lookup(Columns(after, s), f) == if s.instrumentId in wanted then LastField(rows[..n + 1], prefix, s, f) else None
    {
      LastFieldSnoc(rows, n, prefix, s, f);
      assert Lookup(Columns(grouped, s), f) == if s.instrumentId in wanted then LastField(rows[..n], prefix, s, f) else None;
    }
  }

  // ---------- one series per instrument ----------

  /** The bar of a group, if it has a close. */
  function BarOf(s: Slot, columns: map<BarField, real>): Option<Bar> {
    if Close !in columns then None
    else
      var close := columns[Close];
      Some(Bar(s.time, OrElse(Lookup(columns, Open), close), OrElse(Lookup(columns, High), close),
               OrElse(Lookup(columns, Low), close), close, OrElse(Lookup(columns, Volume), 0.0), map[], None))
  }

  lemma {:induction false} BarOfGroup(grouped: Dict<Slot, map<BarField, real>>, rows: seq<PITRow>, prefix: string, wanted: seq<string>, s: Slot)
    requires Grouped(grouped, rows, prefix, wanted)
    ensures BarOf(s, Columns(grouped, s)) == if s.instrumentId in wanted then BarAt(rows, prefix, s) else None
  {
    forall f ensures Lookup(Columns(grouped, s), f) == if s.instrumentId in wanted then LastField(rows, prefix, s, f) else None {
    }
    assert Lookup(Columns(grouped, s), Close) == if s.instrumentId in wanted then LastField(rows, prefix, s, Close) else None;
  }

  /** The bars of instrument `i` among the given groups, in group order. */
  function BarsOf(slots: seq<Slot>, grouped: map<Slot, map<BarField, real>>, i: string): (bars: seq<Bar>)
    requires forall s :: s in slots ==> s in grouped
  {
    if slots == [] then []
    else
      var front, s := slots[..|slots| - 1], slots[|slots| - 1];
      var bar := BarOf(s, grouped[s]);
      assert slots == front + [s];
      BarsOf(front, grouped, i) + (if s.instrumentId == i && bar.Some? then [bar.value] else [])
  }

  lemma {:induction false} BarsOfTimes(slots: seq<Slot>, grouped: map<Slot, map<BarField, real>>, i: string, bar: Bar)
    requires forall s :: s in slots ==> s in grouped
    ensures bar in BarsOf(slots, grouped, i)
            <==> Slot(i, bar.timestamp) in slots && BarOf(Slot(i, bar.timestamp), grouped[Slot(i, bar.timestamp)]) == Some(bar)
  {
    if slots != [] {
      var front, s := slots[..|slots| - 1], slots[|slots| - 1];
      assert slots == front + [s];
      BarsOfTimes(front, grouped, i, bar);
    }
  }

  ghost predicate DistinctTimes(bars: seq<Bar>) {
    forall j, k | 0 <= j < k < |bars| :: bars[j].timestamp != bars[k].timestamp
  }

  ghost predicate Ascending(bars: seq<Bar>) {
    forall j, k | 0 <= j < k < |bars| :: bars[j].timestamp < bars[k].timestamp
  }

  lemma {:induction false} BarsOfDistinct(slots: seq<Slot>, grouped: map<Slot, map<BarField, real>>, i: string)
    requires Distinct(slots) && forall s :: s in slots ==> s in grouped
    ensures DistinctTimes(BarsOf(slots, grouped, i))
  {
    if slots != [] {
      var front, s := slots[..|slots| - 1], slots[|slots| - 1];
      assert slots == front + [s];
      BarsOfDistinct(front, grouped, i);
      var before := BarsOf(front, grouped, i);
      forall j | 0 <= j < |before| ensures before[j].timestamp != s.time || s.instrumentId != i {
        BarsOfTimes(front, grouped, i, before[j]);
        assert before[j] in before;
      }
    }
  }

  lemma {:induction false} InBarsOf(grouped: Dict<Slot, map<BarField, real>>, rows: seq<PITRow>, prefix: string, wanted: seq<string>, i: string, bar: Bar)
    requires Grouped(grouped, rows, prefix, wanted) && i in wanted
    ensures bar in BarsOf(grouped.keys, grouped.items, i) <==> BarAt(rows, prefix, Slot(i, bar.timestamp)) == Some(bar)
  {
    BarsOfTimes(grouped.keys, grouped.items, i, bar);
    BarOfGroup(grouped, rows, prefix, wanted, Slot(i, bar.timestamp));
  }

  lemma {:induction false} SortedBarsIncrease(bars: seq<Bar>)
    requires DistinctTimes(bars)
    ensures forall b :: b in StableSort(TimeLe, bars) <==> b in bars
    ensures Ascending(StableSort(TimeLe, bars))
  {
    var sorted := StableSort(TimeLe, bars);
    SameElements(sorted, bars);
    TimeLeOrders();
    SortSorts(TimeLe, bars);
    StrictlySorted(bars, sorted);
  }

  /** Sorting an instrument's bars by time yields its series. */
  lemma {:induction false} SortedBarsAreSeries(grouped: Dict<Slot, map<BarField, real>>, rows: seq<PITRow>, prefix: string, wanted: seq<string>, i: string)
    requires Grouped(grouped, rows, prefix, wanted) && i in wanted
    ensures IsSeries(rows, prefix, i, StableSort(TimeLe, BarsOf(grouped.keys, grouped.items, i)))
  {
    var bars := BarsOf(grouped.keys, grouped.items, i);
    BarsOfDistinct(grouped.keys, grouped.items, i);
    SortedBarsIncrease(bars);
    forall bar: Bar ensures bar in bars <==> BarAt(rows, prefix, Slot(i, bar.timestamp)) == Some(bar) {
      InBarsOf(grouped, rows, prefix, wanted, i, bar);
    }
    AllBarsAreSeries(rows, prefix, i, bars, StableSort(TimeLe, bars));
  }

  lemma {:induction false} AllBarsAreSeries(rows: seq<PITRow>, prefix: string, i: string, bars: seq<Bar>, sorted: seq<Bar>)
    requires forall bar: Bar :: bar in bars <==> BarAt(rows, prefix, Slot(i, bar.timestamp)) == Some(bar)
    requires forall b :: b in sorted <==> b in bars
    requires Ascending(sorted)
    ensures IsSeries(rows, prefix, i, sorted)
  {
    forall j | 0 <= j < |sorted| ensures BarAt(rows, prefix, Slot(i, sorted[j].timestamp)) == Some(sorted[j]) {
      assert sorted[j] in bars;
    }
    forall t | BarAt(rows, prefix, Slot(i, t)).Some? ensures exists j :: 0 <= j < |sorted| && sorted[j].timestamp == t {
      var bar := BarAt(rows, prefix, Slot(i, t)).value;
      assert bar.timestamp == t;
      assert bar in bars && bar in sorted;
    }
  }

  /** Sorting bars with different timestamps orders them strictly. */
  lemma {:induction false} StrictlySorted(bars: seq<Bar>, sorted: seq<Bar>)
    requires multiset(bars) == multiset(sorted) && Sorted(TimeLe, sorted)
    requires DistinctTimes(bars)
    ensures Ascending(sorted)
  {
    SameElements(bars, sorted);
    forall j, k | 0 <= j < k < |sorted| ensures sorted[j].timestamp < sorted[k].timestamp {
      assert TimeLe(sorted[j], sorted[k]);
      if sorted[j].timestamp == sorted[k].timestamp {
        assert sorted[j] in bars && sorted[k] in bars;
        assert sorted[j] == sorted[k];
        TwiceCounts(sorted, j, k);
        DistinctCount(bars, sorted[j]);
      }
    }
  }

  /** A wanted instrument has a bar that violates the bar invariant; building it raises. */
  ghost predicate HasInvalidBar(rows: seq<PITRow>, prefix: string, wanted: seq<string>) {
    exists i, t :: i in wanted && BarAt(rows, prefix, Slot(i, t)).Some? && !BarAt(rows, prefix, Slot(i, t)).value.Valid()
  }

  /** The requested instruments without repetitions, in request order: the keys of the dict that collects. */
  function Once(instrumentIds: seq<string>): (ks: seq<string>)
    ensures forall i :: i in ks <==> i in instrumentIds
    ensures Distinct(ks)
  {
    var ks := Revisions.FirstSeen(instrumentIds, (i: string) => i);
    assert forall i :: i in ks <==> exists j :: j in instrumentIds && j == i;
    ks
  }

  /** Every requested instrument that has bars, once and in request order, with its series. */
  ghost predicate IsBarDict(rows: seq<PITRow>, prefix: string, instrumentIds: seq<string>, d: Dict<string, seq<Bar>>) {
    && d.Valid()
    && d.keys == Filter(Once(instrumentIds), i => i in d.items)
    && (forall i :: i in d.keys ==> i in instrumentIds && d.items[i] != [] && IsSeries(rows, prefix, i, d.items[i]))
    && (forall i :: i in instrumentIds && i !in d.keys ==> IsSeries(rows, prefix, i, []))
  }

  /** The bar series of every instrument that has one; `None` where a bar is rejected. */
  method BuildBars(rows: seq<PITRow>, instrumentIds: seq<string>, prefix: string) returns (r: Option<Dict<string, seq<Bar>>>)
    ensures r.None? <==> HasInvalidBar(rows, prefix, instrumentIds)
    ensures r.Some? ==> IsBarDict(rows, prefix, instrumentIds, r.value)
  {
    var grouped := GroupRows(rows, instrumentIds, prefix);
    var split := SplitByInstrument(instrumentIds, grouped);
    if split.None? {
      ghost var n :| 0 <= n < |grouped.keys| && !ValidAt(grouped, n);
      RejectedBar(grouped, rows, prefix, instrumentIds, n);
      return None;
    }
    AllValid(grouped, rows, prefix, instrumentIds);
    AssembledIsBarDict(grouped, rows, prefix, instrumentIds, split.value);
    return Some(Assemble(instrumentIds, split.value));
  }

  /** `{instrument: tuple(sorted(bars)) ... if bars}` */
  function Assemble(instrumentIds: seq<string>, per: map<string, seq<Bar>>): Dict<string, seq<Bar>> {
    Dict(Filter(Once(instrumentIds), i => i in per && per[i] != []),
         map i | i in per && per[i] != [] :: StableSort(TimeLe, per[i]))
  }

  lemma {:induction false} AssembledIsBarDict(grouped: Dict<Slot, map<BarField, real>>, rows: seq<PITRow>, prefix: string, wanted: seq<string>, per: map<string, seq<Bar>>)
    requires Grouped(grouped, rows, prefix, wanted) && SplitSoFar(per, grouped, wanted, |grouped.keys|)
    ensures IsBarDict(rows, prefix, wanted, Assemble(wanted, per))
  {
    assert grouped.keys[..|grouped.keys|] == grouped.keys;
    forall i | i in wanted ensures IsSeries(rows, prefix, i, StableSort(TimeLe, per[i])) {
      SortedBarsAreSeries(grouped, rows, prefix, wanted, i);
    }
    AssembledKeys(wanted, per);
  }

  lemma {:induction false} AssembledKeys(wanted: seq<string>, per: map<string, seq<Bar>>)
    requires forall i :: i in per <==> i in wanted
    ensures Assemble(wanted, per).Valid()
    ensures forall i :: i in Assemble(wanted, per).keys <==> i in wanted && per[i] != []
    ensures Assemble(wanted, per).keys == Filter(Once(wanted), i => i in Assemble(wanted, per).items)
  {
    FilterDistinct(Once(wanted), i => i in per && per[i] != []);
    FilterSame(Once(wanted), i => i in per && per[i] != [], i => i in Assemble(wanted, per).items);
  }

  ghost predicate Listed(grouped: Dict<Slot, map<BarField, real>>, wanted: seq<string>) {
    forall s :: s in grouped.keys ==> s in grouped.items && s.instrumentId in wanted
  }

  /** The loop over the groups: every wanted instrument's bars, or `None` once a bar is rejected. */
  method SplitByInstrument(wanted: seq<string>, grouped: Dict<Slot, map<BarField, real>>)
    returns (per: Option<map<string, seq<Bar>>>)
    requires Listed(grouped, wanted)
    ensures per.None? <==> exists n :: 0 <= n < |grouped.keys| && !ValidAt(grouped, n)
    ensures per.Some? ==> SplitSoFar(per.value, grouped, wanted, |grouped.keys|)
  {
    var bars: map<string, seq<Bar>> := map i | i in wanted :: [];
    for n := 0 to |grouped.keys|
      invariant SplitSoFar(bars, grouped, wanted, n)
      invariant forall m | 0 <= m < n :: ValidAt(grouped, m)
    {
      var s := grouped.keys[n];
      assert s in grouped.keys;
      var bar := BarOf(s, grouped.items[s]);
      if bar.Some? && !bar.value.Valid() {
        assert !ValidAt(grouped, n);
        return None;
      }
      SplitStep(bars, grouped, wanted, n);
      if bar.Some? {
        bars := bars[s.instrumentId := bars[s.instrumentId] + [bar.value]];
      }
    }
    return Some(bars);
  }

  ghost predicate SplitSoFar(bars: map<string, seq<Bar>>, grouped: Dict<Slot, map<BarField, real>>, wanted: seq<string>, n: nat)
    requires n <= |grouped.keys| && forall s :: s in grouped.keys ==> s in grouped.items
  {
    && (forall i :: i in bars <==> i in wanted)
    && (forall i :: i in wanted ==> bars[i] == BarsOf(grouped.keys[..n], grouped.items, i))
  }

  lemma {:induction false} SplitStep(bars: map<string, seq<Bar>>, grouped: Dict<Slot, map<BarField, real>>, wanted: seq<string>, n: nat)
    requires n < |grouped.keys| && (forall s :: s in grouped.keys ==> s in grouped.items)
    requires SplitSoFar(bars, grouped, wanted, n) && grouped.keys[n].instrumentId in wanted
    ensures var s := grouped.keys[n];
            var bar := BarOf(s, grouped.items[s]);
            SplitSoFar(if bar.Some? then bars[s.instrumentId := bars[s.instrumentId] + [bar.value]] else bars, grouped, wanted, n + 1)
  {
    forall i | i in wanted {
      BarsOfSnoc(grouped.keys, n, grouped.items, i);
    }
  }

  lemma {:induction false} RejectedBar(grouped: Dict<Slot, map<BarField, real>>, rows: seq<PITRow>, prefix: string, wanted: seq<string>, n: nat)
    requires Grouped(grouped, rows, prefix, wanted) && n < |grouped.keys| && !ValidAt(grouped, n)
    ensures HasInvalidBar(rows, prefix, wanted)
  {
    var s := grouped.keys[n];
    assert s in grouped.keys;
    BarOfGroup(grouped, rows, prefix, wanted, s);
    assert BarAt(rows, prefix, Slot(s.instrumentId, s.time)).Some?;
  }

  lemma {:induction false} AllValid(grouped: Dict<Slot, map<BarField, real>>, rows: seq<PITRow>, prefix: string, wanted: seq<string>)
    requires Grouped(grouped, rows, prefix, wanted) && forall m | 0 <= m < |grouped.keys| :: ValidAt(grouped, m)
    ensures !HasInvalidBar(rows, prefix, wanted)
  {
    forall i, t | i in wanted && BarAt(rows, prefix, Slot(i, t)).Some? ensures BarAt(rows, prefix, Slot(i, t)).value.Valid() {
      BarOfGroup(grouped, rows, prefix, wanted, Slot(i, t));
      var m :| 0 <= m < |grouped.keys| && grouped.keys[m] == Slot(i, t);
      assert ValidAt(grouped, m);
    }
  }

  lemma {:induction false} BarsOfSnoc(slots: seq<Slot>, n: int, grouped: map<Slot, map<BarField, real>>, i: string)
    requires 0 <= n < |slots| && forall s :: s in slots ==> s in grouped
    ensures BarsOf(slots[..n + 1], grouped, i)
         == BarsOf(slots[..n], grouped, i)
            + (if slots[n].instrumentId == i && BarOf(slots[n], grouped[slots[n]]).Some? then [BarOf(slots[n], grouped[slots[n]]).value] else [])
  {
    assert slots[..n + 1][..n] == slots[..n];
  }

  ghost predicate ValidAt(grouped: Dict<Slot, map<BarField, real>>, m: int)
    requires 0 <= m < |grouped.keys| && forall s :: s in grouped.keys ==> s in grouped.items
  {
    var bar := BarOf(grouped.keys[m], grouped.items[grouped.keys[m]]);
    bar.Some? ==> bar.value.Valid()
  }

  // ---------- what a series depends on ----------

  /** A series is determined by the rows. */
  lemma {:induction false} SeriesUnique(rows: seq<PITRow>, prefix: string, i: string, a: seq<Bar>, b: seq<Bar>)
    requires IsSeries(rows, prefix, i, a) && IsSeries(rows, prefix, i, b)
    ensures a == b
  {
    var ta, tb := seq(|a|, j requires 0 <= j < |a| => a[j].timestamp), seq(|b|, j requires 0 <= j < |b| => b[j].timestamp);
    forall t ensures t in ta <==> t in tb {
      SeriesTimes(rows, prefix, i, a, ta, t);
      SeriesTimes(rows, prefix, i, b, tb, t);
    }
    IncreasingUnique(ta, tb);
    forall j | 0 <= j < |a| ensures a[j] == b[j] {
      assert a[j].timestamp == ta[j] == tb[j] == b[j].timestamp;
    }
  }

  lemma {:induction false} SeriesTimes(rows: seq<PITRow>, prefix: string, i: string, a: seq<Bar>, ta: seq<Time>, t: Time)
    requires IsSeries(rows, prefix, i, a)
    requires |ta| == |a| && forall j :: 0 <= j < |a| ==> ta[j] == a[j].timestamp
    ensures t in ta <==> BarAt(rows, prefix, Slot(i, t)).Some?
  {
    if t in ta {
      var j :| 0 <= j < |ta| && ta[j] == t;
      assert BarAt(rows, prefix, Slot(i, a[j].timestamp)) == Some(a[j]);
    }
    if BarAt(rows, prefix, Slot(i, t)).Some? {
      var j :| 0 <= j < |a| && a[j].timestamp == t;
      assert ta[j] == t;
    }
  }

  /** A bar depends only on the rows of its own time. */
  lemma {:induction false} LastFieldOfFilter(rows: seq<PITRow>, keep: PITRow -> bool, prefix: string, s: Slot, f: BarField)
    requires forall r :: r in rows && r.eventTime == s.time ==> keep(r)
    ensures LastField(Filter(rows, keep), prefix, s, f) == LastField(rows, prefix, s, f)
  {
    if rows != [] {
      var front, r := rows[..|rows| - 1], rows[|rows| - 1];
      SplitLast(rows);
      LastFieldOfFilter(front, keep, prefix, s, f);
      FilterSnoc(front, r, keep);
      LastFieldAppend(front, r, prefix, s, f);
      LastFieldAppend(Filter(front, keep), r, prefix, s, f);
    }
  }

  lemma {:induction false} LastFieldAppend(rows: seq<PITRow>, r: PITRow, prefix: string, s: Slot, f: BarField)
    ensures LastField(rows + [r], prefix, s, f) == if Feeds(r, prefix, s, f) then r.value else LastField(rows, prefix, s, f)
  {
    assert (rows + [r])[..|rows|] == rows;
  }

  lemma {:induction false} BarAtOfFilter(rows: seq<PITRow>, keep: PITRow -> bool, prefix: string, s: Slot)
    requires forall r :: r in rows && r.eventTime == s.time ==> keep(r)
    ensures BarAt(Filter(rows, keep), prefix, s) == BarAt(rows, prefix, s)
  {
    forall f ensures LastField(Filter(rows, keep), prefix, s, f) == LastField(rows, prefix, s, f) {
      LastFieldOfFilter(rows, keep, prefix, s, f);
    }
  }
}
