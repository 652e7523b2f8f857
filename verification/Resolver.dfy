/** `data_gateway/resolver.py`: the bar record, OHLCV resampling and trading-date assignment. */
module Resolver {
  import opened Wrappers
  import opened Clock
  import opened Sequences

  /** The vendor's extra columns; a bucket keeps the first three. */
  datatype ExtraField = Hold | Settle | Amount | Other(name: string)

  datatype Bar = Bar(
    timestamp: Time, open: real, high: real, low: real, close: real, volume: real,
    extra: map<ExtraField, real>, tradingDate: Option<Date>)
  {
    /** What `Bar.__post_init__` enforces. */
    predicate Valid() {
      && open >= 0.0 && high >= 0.0 && low >= 0.0 && close >= 0.0 && volume >= 0.0
      && high >= low
      && (tradingDate.Some? ==> tradingDate.value >= Day(timestamp))
    }
  }

  datatype BarError = NonPositiveMinutes | EmptyCalendar

  predicate TimeLe(a: Bar, b: Bar) {
    a.timestamp <= b.timestamp
  }

  lemma {:induction false} TimeLeOrders()
    ensures TotalPreorder(TimeLe)
  {
  }

  /** `a` divided by `m`, rounded up. */
  function Ceiling(a: int, m: int): int
    requires m >= 1
  {
    (a + m - 1) / m
  }

  /** The minute of day rounded up to a multiple of `minutes`, counted in multiples. */
  function BucketKey(t: Time, minutes: int): int
    requires minutes >= 1
  {
    Ceiling(MinuteOfDay(t), minutes)
  }

  const EXTRA_FIELDS: seq<ExtraField> := [Hold, Settle, Amount]

  // ---------- the aggregate of one bucket ----------

  function MaxHigh(bucket: seq<Bar>): real
    requires bucket != []
  {
    var last := bucket[|bucket| - 1].high;
    if |bucket| == 1 then last
    else
      var m := MaxHigh(bucket[..|bucket| - 1]);
      if m >= last then m else last
  }

  function MinLow(bucket: seq<Bar>): real
    requires bucket != []
  {
    var last := bucket[|bucket| - 1].low;
    if |bucket| == 1 then last
    else
      var m := MinLow(bucket[..|bucket| - 1]);
      if m <= last then m else last
  }

  function TotalVolume(bars: seq<Bar>): real {
    if bars == [] then 0.0 else TotalVolume(bars[..|bars| - 1]) + bars[|bars| - 1].volume
  }

  /** The value of an extra field in the last bar that carries it. */
  function LastExtra(bucket: seq<Bar>, field: ExtraField): Option<real> {
    if bucket == [] then None
    else
      var last := bucket[|bucket| - 1];
      if field in last.extra then Some(last.extra[field]) else LastExtra(bucket[..|bucket| - 1], field)
  }

  function Aggregate(bucket: seq<Bar>): Bar
    requires bucket != []
  {
    var first, last := bucket[0], bucket[|bucket| - 1];
    Bar(last.timestamp, first.open, MaxHigh(bucket), MinLow(bucket), last.close, TotalVolume(bucket),
        map field | field in {Hold, Settle, Amount} && LastExtra(bucket, field).Some? :: LastExtra(bucket, field).value,
        last.tradingDate)
  }

  /** The extras a bucket keeps among the given fields. */
  function KeptExtra(bucket: seq<Bar>, fields: seq<ExtraField>): map<ExtraField, real> {
    map field | field in fields && LastExtra(bucket, field).Some? :: LastExtra(bucket, field).value
  }

  /** `[bar.extra[key] for bar in bucket if key in bar.extra]` */
  method CollectValues(bucket: seq<Bar>, key: ExtraField) returns (values: seq<real>)
    ensures LastExtra(bucket, key) == if values == [] then None else Some(values[|values| - 1])
  {
    values := [];
    for j := 0 to |bucket|
      invariant LastExtra(bucket[..j], key) == if values == [] then None else Some(values[|values| - 1])
    {
      assert bucket[..j + 1][..j] == bucket[..j];
      if key in bucket[j].extra {
        values := values + [bucket[j].extra[key]];
      }
    }
    assert bucket[..|bucket|] == bucket;
  }

  method CollectExtra(bucket: seq<Bar>) returns (extra: map<ExtraField, real>)
    ensures extra == KeptExtra(bucket, EXTRA_FIELDS)
  {
    extra := map[];
    for i := 0 to |EXTRA_FIELDS|
      invariant extra == KeptExtra(bucket, EXTRA_FIELDS[..i])
    {
      var key := EXTRA_FIELDS[i];
      var values := CollectValues(bucket, key);
      assert EXTRA_FIELDS[..i + 1] == EXTRA_FIELDS[..i] + [key];
      if values != [] {
        extra := extra[key := values[|values| - 1]];
      }
    }
    assert EXTRA_FIELDS[..|EXTRA_FIELDS|] == EXTRA_FIELDS;
  }

  /** `_aggregate_bucket`: one bar for a whole bucket. */
  method AggregateBucket(bucket: seq<Bar>) returns (bar: Bar)
    requires bucket != []
    ensures bar == Aggregate(bucket)
  {
    var first, last := bucket[0], bucket[|bucket| - 1];
    var extra := CollectExtra(bucket);
    assert extra == Aggregate(bucket).extra;
    bar := Bar(last.timestamp, first.open, MaxHigh(bucket), MinLow(bucket), last.close, TotalVolume(bucket),
               extra, last.tradingDate);
  }

  // ---------- buckets ----------

  /** How bars are keyed when resampling to `minutes`. */
  function KeyOf(minutes: int): Time -> int
    requires minutes >= 1
  {
    t => BucketKey(t, minutes)
  }

  function Join(bs: seq<seq<Bar>>, b: Bar): seq<seq<Bar>>
    requires bs != []
  {
    bs[..|bs| - 1] + [bs[|bs| - 1] + [b]]
  }

  /** Consecutive bars with equal keys, as the loop over the sorted bars forms them. */
  function Buckets(bars: seq<Bar>, key: Time -> int): (bs: seq<seq<Bar>>)
    ensures bars != [] ==> bs != []
    ensures forall i :: 0 <= i < |bs| ==> bs[i] != []
  {
    if bars == [] then []
    else
      var n := |bars| - 1;
      var bs: seq<seq<Bar>> := Buckets(bars[..n], key);
      if n > 0 && key(bars[n - 1].timestamp) == key(bars[n].timestamp)
      then Join(bs, bars[n])
      else bs + [[bars[n]]]
  }

  lemma {:induction false} BucketsStep(bars: seq<Bar>, i: int, key: Time -> int)
    requires 0 <= i < |bars|
    ensures var bs := Buckets(bars[..i], key);
            var grown := if i > 0 && key(bars[i - 1].timestamp) == key(bars[i].timestamp) then bs else bs + [[]];
            Buckets(bars[..i + 1], key) == grown[|grown| - 1 := grown[|grown| - 1] + [bars[i]]]
  {
    assert bars[..i + 1][..i] == bars[..i];
    assert [] + [bars[i]] == [bars[i]];
  }

  function AggregateAll(bs: seq<seq<Bar>>): (r: seq<Bar>)
    requires forall i :: 0 <= i < |bs| ==> bs[i] != []
    ensures |r| == |bs|
    ensures forall i :: 0 <= i < |bs| ==> r[i] == Aggregate(bs[i])
  {
    seq(|bs|, i requires 0 <= i < |bs| => Aggregate(bs[i]))
  }

  /** The result of `resample_bars`. */
  function Resample(bars: seq<Bar>, minutes: int): seq<Bar>
    requires minutes >= 1
  {
    AggregateAll(Buckets(StableSort(TimeLe, bars), KeyOf(minutes)))
  }

  /** `resample_bars`: collects runs of equal keys and aggregates each. */
  method ResampleBars(bars: seq<Bar>, minutes: int) returns (r: Result<seq<Bar>, BarError>)
    ensures r == if bars == [] then Ok([])
                 else if minutes < 1 then Err(NonPositiveMinutes)
                 else Ok(Resample(bars, minutes))
  {
    if bars == [] {
      return Ok([]);
    }
    if minutes < 1 {
      return Err(NonPositiveMinutes);
    }
    var ordered := StableSort(TimeLe, bars);
    var keyOf := KeyOf(minutes);
    var buckets: seq<seq<Bar>> := [];
    var currentKey: Option<int> := None;
    for i := 0 to |ordered|
      invariant buckets == Buckets(ordered[..i], keyOf)
      invariant currentKey == if i == 0 then None else Some(keyOf(ordered[i - 1].timestamp))
    {
      var key := keyOf(ordered[i].timestamp);
      BucketsStep(ordered, i, keyOf);
      if currentKey.None? || key != currentKey.value {
        buckets := buckets + [[]];
        currentKey := Some(key);
      }
      var n := |buckets| - 1;
      buckets := buckets[n := buckets[n] + [ordered[i]]];
    }
    assert ordered[..|ordered|] == ordered;
    var out := AggregateEach(buckets);
    return Ok(out);
  }

  /** `tuple(_aggregate_bucket(bucket) for bucket in buckets)` */
  method AggregateEach(buckets: seq<seq<Bar>>) returns (out: seq<Bar>)
    requires forall i :: 0 <= i < |buckets| ==> buckets[i] != []
    ensures out == AggregateAll(buckets)
  {
    out := [];
    for i := 0 to |buckets|
      invariant out == AggregateAll(buckets[..i])
    {
      var bar := AggregateBucket(buckets[i]);
      out := out + [bar];
    }
    assert buckets[..|buckets|] == buckets;
  }

  // ---------- resampling as a fold of an associative merge ----------

  /** A bucket of one bar. */
  function Single(b: Bar): Bar {
    b.(extra := map field | field in b.extra && !field.Other? :: b.extra[field])
  }

  /** A bar followed by another bar of the same bucket. */
  function Merge(x: Bar, y: Bar): Bar {
    Bar(y.timestamp, x.open, if x.high >= y.high then x.high else y.high, if x.low <= y.low then x.low else y.low,
        y.close, x.volume + y.volume, x.extra + y.extra, y.tradingDate)
  }

  function Push(out: seq<Bar>, b: Bar, key: Time -> int): (r: seq<Bar>)
    ensures r != [] && r[|r| - 1].timestamp == b.timestamp
  {
    var n := |out| - 1;
    if out != [] && key(out[n].timestamp) == key(b.timestamp)
    then out[..n] + [Merge(out[n], Single(b))]
    else out + [Single(b)]
  }

  function Fold(bars: seq<Bar>, key: Time -> int): (r: seq<Bar>)
    ensures bars == [] <==> r == []
    ensures bars != [] ==> r[|r| - 1].timestamp == bars[|bars| - 1].timestamp
  {
    if bars == [] then [] else Push(Fold(bars[..|bars| - 1], key), bars[|bars| - 1], key)
  }

  lemma {:induction false} AggregateSnoc(bucket: seq<Bar>, b: Bar)
    requires bucket != []
    ensures Aggregate(bucket + [b]) == Merge(Aggregate(bucket), Single(b))
  {
    assert (bucket + [b])[..|bucket|] == bucket;
    assert Aggregate(bucket + [b]).extra == Merge(Aggregate(bucket), Single(b)).extra;
  }

  lemma {:induction false} AggregateSingle(b: Bar)
    ensures Aggregate([b]) == Single(b)
  {
    assert [b][..0] == [];
    assert TotalVolume([b]) == 0.0 + b.volume;
    assert forall field :: LastExtra([b], field) == if field in b.extra then Some(b.extra[field]) else None;
    assert Aggregate([b]).extra == Single(b).extra;
  }

  lemma {:induction false} AggregateJoin(bs: seq<seq<Bar>>, b: Bar)
    requires bs != [] && forall i :: 0 <= i < |bs| ==> bs[i] != []
    ensures forall i :: 0 <= i < |Join(bs, b)| ==> Join(bs, b)[i] != []
    ensures var out := AggregateAll(bs);
            AggregateAll(Join(bs, b)) == out[..|bs| - 1] + [Merge(out[|bs| - 1], Single(b))]
  {
    AggregateSnoc(bs[|bs| - 1], b);
  }

  lemma {:induction false} AggregateOpen(bs: seq<seq<Bar>>, b: Bar)
    requires forall i :: 0 <= i < |bs| ==> bs[i] != []
    ensures AggregateAll(bs + [[b]]) == AggregateAll(bs) + [Single(b)]
  {
    AggregateSingle(b);
  }

  /** Collecting buckets and aggregating them is one pass of merging. */
  lemma {:induction false} BucketsAreFold(bars: seq<Bar>, key: Time -> int)
    ensures AggregateAll(Buckets(bars, key)) == Fold(bars, key)
  {
    if bars != [] {
      var n := |bars| - 1;
      BucketsAreFold(bars[..n], key);
      var bs: seq<seq<Bar>> := Buckets(bars[..n], key);
      if n > 0 && key(bars[n - 1].timestamp) == key(bars[n].timestamp) {
        AggregateJoin(bs, bars[n]);
      } else {
        AggregateOpen(bs, bars[n]);
      }
    }
  }

  /** Rounding up to `m` and then to `m * q` is rounding up to `m * q`: bars that share a fine bucket
      share the coarse one. */
  lemma {:induction false} NestedCeiling(a: int, m: int, q: int)
    requires a >= 0 && m >= 1 && q >= 1
    ensures m * q >= 1
    ensures Ceiling(a, m * q) == Ceiling(Ceiling(a, m), q)
  {
    var c := Ceiling(a, m);
    var d := Ceiling(c, q);
    CeilingBounds(a, m);
    CeilingBounds(c, q);
    ProductPositive(m, q);
    NestedBounds(a, m, q, c, d);
    CeilingUnique(a, m * q, d);
  }

  lemma {:induction false} NestedBounds(a: int, m: int, q: int, c: int, d: int)
    requires m >= 1 && (c - 1) * m < a <= c * m && (d - 1) * q < c <= d * q
    ensures (d - 1) * (m * q) < a <= d * (m * q)
  {
    UpperBound(a, m, q, c, d);
    LowerBound(a, m, q, c, d);
  }

  lemma {:induction false} UpperBound(a: int, m: int, q: int, c: int, d: int)
    requires m >= 1 && a <= c * m && c <= d * q
    ensures a <= d * (m * q)
  {
    MulMonotone(c, d * q, m);
    Regroup(d, q, m);
  }

  lemma {:induction false} LowerBound(a: int, m: int, q: int, c: int, d: int)
    requires m >= 1 && (c - 1) * m < a && (d - 1) * q <= c - 1
    ensures (d - 1) * (m * q) < a
  {
    MulMonotone((d - 1) * q, c - 1, m);
    Regroup(d - 1, q, m);
  }

  lemma {:induction false} Regroup(d: int, q: int, m: int)
    ensures (d * q) * m == d * (m * q)
  {
  }

  lemma {:induction false} ProductPositive(m: int, q: int)
    requires m >= 1 && q >= 1
    ensures m * q >= 1
  {
  }

  lemma {:induction false} MulMonotone(x: int, y: int, m: int)
    requires x <= y && m >= 0
    ensures x * m <= y * m
  {
  }

  lemma {:induction false} CeilingBounds(a: int, m: int)
    requires m >= 1
    ensures (Ceiling(a, m) - 1) * m < a <= Ceiling(a, m) * m
  {
    var c := Ceiling(a, m);
    assert a + m - 1 == c * m + (a + m - 1) % m;
  }

  lemma {:induction false} CeilingUnique(a: int, m: int, d: int)
    requires m >= 1 && (d - 1) * m < a <= d * m
    ensures Ceiling(a, m) == d
  {
    CeilingBounds(a, m);
    MultiplesBetween(a, m, Ceiling(a, m), d);
  }

  /** Only one multiple of `m` is the first to reach `a`. */
  lemma {:induction false} MultiplesBetween(a: int, m: int, c: int, d: int)
    requires m >= 1 && (c - 1) * m < a <= c * m && (d - 1) * m < a <= d * m
    ensures c == d
  {
    if c < d {
      MulMonotone(c, d - 1, m);
    } else if d < c {
      MulMonotone(d, c - 1, m);
    }
  }

  /** Bars that share a fine key share the coarse key. */
  ghost predicate Refines(fine: Time -> int, coarse: Time -> int) {
    forall s: Time, t: Time | fine(s) == fine(t) :: coarse(s) == coarse(t)
  }

  lemma {:induction false} FinerMinutesRefine(m: int, q: int)
    requires m >= 1 && q >= 1 && m * q >= 1
    ensures Refines(KeyOf(m), KeyOf(m * q))
  {
    var p := m * q;
    forall t: Time ensures BucketKey(t, p) == Ceiling(BucketKey(t, m), q) {
      NestedCeiling(MinuteOfDay(t), m, q);
    }
    CoarserKeys(m, q, p);
  }

  lemma {:induction false} CoarserKeys(m: int, q: int, p: int)
    requires m >= 1 && q >= 1 && p >= 1
    requires forall t: Time :: BucketKey(t, p) == Ceiling(BucketKey(t, m), q)
    ensures Refines(KeyOf(m), KeyOf(p))
  {
    forall s: Time, t: Time | KeyOf(m)(s) == KeyOf(m)(t) ensures KeyOf(p)(s) == KeyOf(p)(t) {
      assert BucketKey(s, m) == BucketKey(t, m);
      assert BucketKey(s, p) == BucketKey(t, p);
    }
  }

  lemma {:induction false} MergeAssociative(x: Bar, y: Bar, z: Bar)
    ensures Merge(Merge(x, y), z) == Merge(x, Merge(y, z))
  {
    assert (x.extra + y.extra) + z.extra == x.extra + (y.extra + z.extra);
  }

  /** Folded bars already carry only the extra fields that a bucket keeps. */
  ghost predicate Trimmed(b: Bar) {
    forall k :: k in b.extra ==> !k.Other?
  }

  lemma {:induction false} SingleOfTrimmed(b: Bar)
    requires Trimmed(b)
    ensures Single(b) == b
  {
    assert Single(b).extra == b.extra;
  }

  lemma {:induction false} PushTrimmed(out: seq<Bar>, b: Bar, key: Time -> int)
    requires forall i :: 0 <= i < |out| ==> Trimmed(out[i])
    ensures forall i :: 0 <= i < |Push(out, b, key)| ==> Trimmed(Push(out, b, key)[i])
  {
  }

  lemma {:induction false} FoldTrimmed(bars: seq<Bar>, key: Time -> int)
    ensures forall i :: 0 <= i < |Fold(bars, key)| ==> Trimmed(Fold(bars, key)[i])
  {
    if bars != [] {
      FoldTrimmed(bars[..|bars| - 1], key);
      PushTrimmed(Fold(bars[..|bars| - 1], key), bars[|bars| - 1], key);
    }
  }

  /** A bar that joins the last fine bar joins the coarse bar that contains it. */
  lemma {:induction false} PushThrough(out: seq<Bar>, last: Bar, b: Bar, fine: Time -> int, coarse: Time -> int)
    requires Refines(fine, coarse) && Trimmed(last)
    requires fine(last.timestamp) == fine(b.timestamp)
    ensures Push(out, Merge(last, Single(b)), coarse) == Push(Push(out, last, coarse), b, coarse)
  {
    SingleOfTrimmed(last);
    SingleOfTrimmed(Single(b));
    SingleOfTrimmed(Merge(last, Single(b)));
    if out != [] {
      MergeAssociative(out[|out| - 1], last, Single(b));
    }
  }

  lemma {:induction false} FoldSnoc(bars: seq<Bar>, b: Bar, key: Time -> int)
    ensures Fold(bars + [b], key) == Push(Fold(bars, key), b, key)
  {
    assert (bars + [b])[..|bars|] == bars;
  }

  lemma {:induction false} FoldComposes(bars: seq<Bar>, fine: Time -> int, coarse: Time -> int)
    requires Refines(fine, coarse)
    ensures Fold(Fold(bars, fine), coarse) == Fold(bars, coarse)
  {
    if bars != [] {
      var front, b := bars[..|bars| - 1], bars[|bars| - 1];
      FoldComposes(front, fine, coarse);
      FoldTrimmed(front, fine);
      FoldStep(Fold(front, fine), b, fine, coarse);
    }
  }

  /** One bar pushed onto the fine series and then refolded is the bar pushed onto the coarse series. */
  lemma {:induction false} FoldStep(out: seq<Bar>, b: Bar, fine: Time -> int, coarse: Time -> int)
    requires Refines(fine, coarse) && (out != [] ==> Trimmed(out[|out| - 1]))
    ensures Fold(Push(out, b, fine), coarse) == Push(Fold(out, coarse), b, coarse)
  {
    if out != [] && fine(out[|out| - 1].timestamp) == fine(b.timestamp) {
      SplitLast(out);
      FoldJoin(out[..|out| - 1], out[|out| - 1], b, fine, coarse);
    } else {
      FoldOpen(out, b, fine, coarse);
    }
  }

  lemma {:induction false} FoldOpen(out: seq<Bar>, b: Bar, fine: Time -> int, coarse: Time -> int)
    requires out == [] || fine(out[|out| - 1].timestamp) != fine(b.timestamp)
    ensures Fold(Push(out, b, fine), coarse) == Push(Fold(out, coarse), b, coarse)
  {
    PushOpen(out, b, fine);
    FoldSnoc(out, Single(b), coarse);
    PushSingle(Fold(out, coarse), b, coarse);
  }

  lemma {:induction false} PushJoin(front: seq<Bar>, last: Bar, b: Bar, key: Time -> int)
    requires key(last.timestamp) == key(b.timestamp)
    ensures Push(front + [last], b, key) == front + [Merge(last, Single(b))]
  {
    assert (front + [last])[..|front|] == front;
  }

  lemma {:induction false} PushOpen(out: seq<Bar>, b: Bar, key: Time -> int)
    requires out == [] || key(out[|out| - 1].timestamp) != key(b.timestamp)
    ensures Push(out, b, key) == out + [Single(b)]
  {
  }

  lemma {:induction false} PushSingle(out: seq<Bar>, b: Bar, key: Time -> int)
    ensures Push(out, Single(b), key) == Push(out, b, key)
  {
    SingleOfTrimmed(Single(b));
  }

  lemma {:induction false} FoldJoin(front: seq<Bar>, last: Bar, b: Bar, fine: Time -> int, coarse: Time -> int)
    requires Refines(fine, coarse) && Trimmed(last) && fine(last.timestamp) == fine(b.timestamp)
    ensures Fold(Push(front + [last], b, fine), coarse) == Push(Fold(front + [last], coarse), b, coarse)
  {
    PushJoin(front, last, b, fine);
    FoldSnoc(front, Merge(last, Single(b)), coarse);
    FoldSnoc(front, last, coarse);
    PushThrough(Fold(front, coarse), last, b, fine, coarse);
  }

  lemma {:induction false} PushSorted(out: seq<Bar>, b: Bar, key: Time -> int)
    requires Sorted(TimeLe, out) && forall i | 0 <= i < |out| :: out[i].timestamp <= b.timestamp
    ensures Sorted(TimeLe, Push(out, b, key))
  {
  }

  lemma {:induction false} FoldSorted(bars: seq<Bar>, key: Time -> int)
    requires Sorted(TimeLe, bars)
    ensures Sorted(TimeLe, Fold(bars, key))
  {
    if bars != [] {
      var n := |bars| - 1;
      FoldSorted(bars[..n], key);
      var out := Fold(bars[..n], key);
      forall i | 0 <= i < |out| ensures out[i].timestamp <= bars[n].timestamp {
        assert i == |out| - 1 || TimeLe(out[i], out[|out| - 1]);
        assert TimeLe(bars[n - 1], bars[n]);
      }
      PushSorted(out, bars[n], key);
    }
  }

  /** Resampling to `m` minutes and then to `m * q` minutes is resampling directly to `m * q` minutes,
      in every field of every bar. */
  lemma {:induction false} ResamplingComposes(bars: seq<Bar>, m: int, q: int)
    requires m >= 1 && q >= 1
    ensures m * q >= 1 && Resample(Resample(bars, m), m * q) == Resample(bars, m * q)
  {
    ProductPositive(m, q);
    var ordered, fine, coarse := StableSort(TimeLe, bars), KeyOf(m), KeyOf(m * q);
    TimeLeOrders();
    SortSorts(TimeLe, bars);
    BucketsAreFold(ordered, fine);
    FoldSorted(ordered, fine);
    SortOfSorted(TimeLe, Fold(ordered, fine));
    BucketsAreFold(Fold(ordered, fine), coarse);
    BucketsAreFold(ordered, coarse);
    FinerMinutesRefine(m, q);
    FoldComposes(ordered, fine, coarse);
  }

  // ---------- buckets partition the input ----------

  function Concat(bs: seq<seq<Bar>>): seq<Bar> {
    if bs == [] then [] else Concat(bs[..|bs| - 1]) + bs[|bs| - 1]
  }

  /** Every bucket has a single key and neighbours have different keys. */
  ghost predicate MaximalRuns(bs: seq<seq<Bar>>, key: Time -> int) {
    && (forall i, j | 0 <= i < |bs| && 0 <= j < |bs[i]| :: key(bs[i][j].timestamp) == key(bs[i][0].timestamp))
    && (forall i | 0 <= i < |bs| - 1 && bs[i] != [] && bs[i + 1] != [] :: key(bs[i][0].timestamp) != key(bs[i + 1][0].timestamp))
  }

  lemma {:induction false} ConcatSnoc(bs: seq<seq<Bar>>, b: seq<Bar>)
    ensures Concat(bs + [b]) == Concat(bs) + b
  {
    assert (bs + [b])[..|bs|] == bs;
  }

  lemma {:induction false} ConcatJoin(bs: seq<seq<Bar>>, b: Bar)
    requires bs != []
    ensures Concat(Join(bs, b)) == Concat(bs) + [b]
  {
    var front, last := bs[..|bs| - 1], bs[|bs| - 1];
    assert bs == front + [last];
    ConcatSnoc(front, last);
    ConcatSnoc(front, last + [b]);
  }

  lemma {:induction false} RunsJoin(bs: seq<seq<Bar>>, b: Bar, key: Time -> int)
    requires bs != [] && bs[|bs| - 1] != [] && MaximalRuns(bs, key)
    requires key(bs[|bs| - 1][0].timestamp) == key(b.timestamp)
    ensures MaximalRuns(Join(bs, b), key)
  {
    var bs': seq<seq<Bar>> := Join(bs, b);
    var m := |bs| - 1;
    forall i: int, j: int | 0 <= i < |bs'| && 0 <= j < |bs'[i]| ensures key(bs'[i][j].timestamp) == key(bs'[i][0].timestamp) {
      if i == m {
        assert bs'[i][0] == bs[i][0];
        assert j < |bs[i]| ==> bs'[i][j] == bs[i][j];
      } else {
        assert bs'[i] == bs[i];
      }
    }
    forall i | 0 <= i < |bs'| - 1 && bs'[i] != [] && bs'[i + 1] != []
      ensures key(bs'[i][0].timestamp) != key(bs'[i + 1][0].timestamp)
    {
      assert bs'[i] == bs[i] && bs'[i + 1][0] == bs[i + 1][0];
    }
  }

  lemma {:induction false} RunsOpen(bs: seq<seq<Bar>>, b: Bar, key: Time -> int)
    requires MaximalRuns(bs, key)
    requires bs != [] && bs[|bs| - 1] != [] ==> key(bs[|bs| - 1][0].timestamp) != key(b.timestamp)
    ensures MaximalRuns(bs + [[b]], key)
  {
  }

  lemma {:induction false} BucketEnds(bars: seq<Bar>, key: Time -> int)
    requires bars != []
    ensures var bs := Buckets(bars, key);
            bs[0][0] == bars[0] && bs[|bs| - 1][|bs[|bs| - 1]| - 1] == bars[|bars| - 1]
  {
    if |bars| > 1 {
      BucketEnds(bars[..|bars| - 1], key);
    }
  }

  /** The buckets are the maximal runs of equal keys, and joined together they are the input. */
  lemma {:induction false} BucketsPartition(bars: seq<Bar>, key: Time -> int)
    ensures Concat(Buckets(bars, key)) == bars && MaximalRuns(Buckets(bars, key), key)
  {
    BucketsConcat(bars, key);
    BucketsAreRuns(bars, key);
  }

  lemma {:induction false} BucketsConcat(bars: seq<Bar>, key: Time -> int)
    ensures Concat(Buckets(bars, key)) == bars
  {
    if bars != [] {
      var n := |bars| - 1;
      BucketsConcat(bars[..n], key);
      SplitLast(bars);
      if n > 0 && key(bars[n - 1].timestamp) == key(bars[n].timestamp) {
        ConcatJoin(Buckets(bars[..n], key), bars[n]);
      } else {
        ConcatSnoc(Buckets(bars[..n], key), [bars[n]]);
      }
    }
  }

  lemma {:induction false} BucketsAreRuns(bars: seq<Bar>, key: Time -> int)
    ensures MaximalRuns(Buckets(bars, key), key)
  {
    if bars != [] {
      var n := |bars| - 1;
      BucketsAreRuns(bars[..n], key);
      var bs: seq<seq<Bar>> := Buckets(bars[..n], key);
      if n > 0 {
        BucketEnds(bars[..n], key);
        LastKey(bs, bars[n - 1], key);
      }
      if n > 0 && key(bars[n - 1].timestamp) == key(bars[n].timestamp) {
        RunsJoin(bs, bars[n], key);
      } else {
        RunsOpen(bs, bars[n], key);
      }
    }
  }

  lemma {:induction false} LastKey(bs: seq<seq<Bar>>, b: Bar, key: Time -> int)
    requires MaximalRuns(bs, key) && bs != [] && bs[|bs| - 1] != [] && bs[|bs| - 1][|bs[|bs| - 1]| - 1] == b
    ensures key(bs[|bs| - 1][0].timestamp) == key(b.timestamp)
  {
  }

  lemma {:induction false} VolumeAppend(xs: seq<Bar>, ys: seq<Bar>)
    ensures TotalVolume(xs + ys) == TotalVolume(xs) + TotalVolume(ys)
  {
    if ys == [] {
      assert xs + ys == xs;
    } else {
      var front := ys[..|ys| - 1];
      assert (xs + ys)[..|xs + ys| - 1] == xs + front;
      VolumeAppend(xs, front);
    }
  }

  lemma {:induction false} InsertVolume(b: Bar, bars: seq<Bar>)
    ensures TotalVolume(Insert(TimeLe, b, bars)) == b.volume + TotalVolume(bars)
  {
    assert TotalVolume([b]) == b.volume by { assert [b][..0] == []; }
    if bars == [] {
    } else if TimeLe(b, bars[0]) {
      VolumeAppend([b], bars);
    } else {
      assert TotalVolume([bars[0]]) == bars[0].volume by { assert [bars[0]][..0] == []; }
      InsertVolume(b, bars[1..]);
      VolumeAppend([bars[0]], Insert(TimeLe, b, bars[1..]));
      assert bars == [bars[0]] + bars[1..];
      VolumeAppend([bars[0]], bars[1..]);
    }
  }

  lemma {:induction false} SortVolume(bars: seq<Bar>)
    ensures TotalVolume(StableSort(TimeLe, bars)) == TotalVolume(bars)
  {
    if bars != [] {
      SortVolume(bars[1..]);
      InsertVolume(bars[0], StableSort(TimeLe, bars[1..]));
      assert TotalVolume([bars[0]]) == bars[0].volume by { assert [bars[0]][..0] == []; }
      assert bars == [bars[0]] + bars[1..];
      VolumeAppend([bars[0]], bars[1..]);
    }
  }

  lemma {:induction false} AggregateVolume(bs: seq<seq<Bar>>)
    requires forall i :: 0 <= i < |bs| ==> bs[i] != []
    ensures TotalVolume(AggregateAll(bs)) == TotalVolume(Concat(bs))
  {
    if bs != [] {
      var front := bs[..|bs| - 1];
      AggregateVolume(front);
      assert AggregateAll(bs)[..|bs| - 1] == AggregateAll(front);
      VolumeAppend(Concat(front), bs[|bs| - 1]);
    }
  }

  /** Resampling loses no volume, and the series keeps its first open, last close, last timestamp and
      last trading date. */
  lemma {:induction false} ResamplingConserves(bars: seq<Bar>, minutes: int)
    requires minutes >= 1 && bars != []
    ensures var ordered, r := StableSort(TimeLe, bars), Resample(bars, minutes);
            && TotalVolume(r) == TotalVolume(bars)
            && r != [] && r[0].open == ordered[0].open
            && r[|r| - 1].close == ordered[|ordered| - 1].close
            && r[|r| - 1].timestamp == ordered[|ordered| - 1].timestamp
            && r[|r| - 1].tradingDate == ordered[|ordered| - 1].tradingDate
  {
    var ordered := StableSort(TimeLe, bars);
    SortVolume(bars);
    BucketsPartition(ordered, KeyOf(minutes));
    BucketEnds(ordered, KeyOf(minutes));
    AggregateVolume(Buckets(ordered, KeyOf(minutes)));
  }

  lemma {:induction false} ExtremesAttained(bucket: seq<Bar>)
    requires bucket != []
    ensures forall b :: b in bucket ==> b.low >= MinLow(bucket) && b.high <= MaxHigh(bucket)
    ensures exists b :: b in bucket && b.high == MaxHigh(bucket)
    ensures exists b :: b in bucket && b.low == MinLow(bucket)
  {
    var front, last := bucket[..|bucket| - 1], bucket[|bucket| - 1];
    assert bucket == front + [last];
    if front != [] {
      ExtremesAttained(front);
      var h :| h in front && h.high == MaxHigh(front);
      var l :| l in front && l.low == MinLow(front);
      assert h in bucket && l in bucket && last in bucket;
    }
  }

  lemma {:induction false} VolumeNonNegative(bars: seq<Bar>)
    requires forall b :: b in bars ==> b.Valid()
    ensures TotalVolume(bars) >= 0.0
  {
    if bars != [] {
      assert bars[|bars| - 1] in bars;
      VolumeNonNegative(bars[..|bars| - 1]);
    }
  }

  /** Aggregating valid bars never raises: the bucket's bar satisfies the bar invariant, its high and
      low are attained and bound every bar of the bucket. */
  lemma {:induction false} AggregateKeepsInvariant(bucket: seq<Bar>)
    requires bucket != [] && forall b :: b in bucket ==> b.Valid()
    ensures Aggregate(bucket).Valid()
    ensures forall b :: b in bucket ==> Aggregate(bucket).low <= b.low && b.high <= Aggregate(bucket).high
    ensures exists b :: b in bucket && b.high == Aggregate(bucket).high
    ensures exists b :: b in bucket && b.low == Aggregate(bucket).low
  {
    ExtremesAttained(bucket);
    VolumeNonNegative(bucket);
    assert bucket[0] in bucket && bucket[|bucket| - 1] in bucket;
  }

  lemma {:induction false} InConcat(bs: seq<seq<Bar>>, i: int, b: Bar)
    requires 0 <= i < |bs| && b in bs[i]
    ensures b in Concat(bs)
  {
    if i < |bs| - 1 {
      InConcat(bs[..|bs| - 1], i, b);
    }
  }

  lemma {:induction false} ResamplingKeepsInvariant(bars: seq<Bar>, minutes: int)
    requires minutes >= 1 && forall b :: b in bars ==> b.Valid()
    ensures forall i :: 0 <= i < |Resample(bars, minutes)| ==> Resample(bars, minutes)[i].Valid()
  {
    var ordered := StableSort(TimeLe, bars);
    SameElements(ordered, bars);
    var bs := Buckets(ordered, KeyOf(minutes));
    BucketsPartition(ordered, KeyOf(minutes));
    forall i | 0 <= i < |bs| ensures Aggregate(bs[i]).Valid() {
      forall b: Bar | b in bs[i] ensures b.Valid() {
        InConcat(bs, i, b);
      }
      AggregateKeepsInvariant(bs[i]);
    }
  }

  // ---------- one bucket, one window ----------

  /** Every bucket lies inside one window of one day. */
  ghost predicate OneDayPerBucket(bs: seq<seq<Bar>>) {
    forall i, j | 0 <= i < |bs| && 0 <= j < |bs[i]| :: Day(bs[i][j].timestamp) == Day(bs[i][0].timestamp)
  }

  /** Two neighbours in time order come from different days but have the same time-of-day key. */
  ghost predicate StraddlesDays(ordered: seq<Bar>, key: Time -> int) {
    exists i :: 0 < i < |ordered| && key(ordered[i - 1].timestamp) == key(ordered[i].timestamp)
                && Day(ordered[i - 1].timestamp) != Day(ordered[i].timestamp)
  }

  lemma {:induction false} OneDayIff(ordered: seq<Bar>, key: Time -> int)
    ensures OneDayPerBucket(Buckets(ordered, key)) <==> !StraddlesDays(ordered, key)
  {
    if ordered != [] {
      var n := |ordered| - 1;
      var front := ordered[..n];
      OneDayIff(front, key);
      var bs := Buckets(front, key);
      if n > 0 {
        BucketEnds(front, key);
      }
      assert StraddlesDays(ordered, key) <==>
        StraddlesDays(front, key)
        || (n > 0 && key(ordered[n - 1].timestamp) == key(ordered[n].timestamp)
            && Day(ordered[n - 1].timestamp) != Day(ordered[n].timestamp)) by {
        StraddleSnoc(ordered, key);
      }
      if n > 0 && key(ordered[n - 1].timestamp) == key(ordered[n].timestamp) {
        WindowJoin(bs, ordered[n]);
      } else {
        assert OneDayPerBucket(bs + [[ordered[n]]]) <==> OneDayPerBucket(bs) by {
          WindowOpen(bs, ordered[n]);
        }
      }
    }
  }

  lemma {:induction false} StraddleSnoc(ordered: seq<Bar>, key: Time -> int)
    requires ordered != []
    ensures var n := |ordered| - 1;
            StraddlesDays(ordered, key) <==>
              StraddlesDays(ordered[..n], key)
              || (n > 0 && key(ordered[n - 1].timestamp) == key(ordered[n].timestamp)
                  && Day(ordered[n - 1].timestamp) != Day(ordered[n].timestamp))
  {
    var n := |ordered| - 1;
    if StraddlesDays(ordered[..n], key) {
      var i :| 0 < i < n && key(ordered[..n][i - 1].timestamp) == key(ordered[..n][i].timestamp)
               && Day(ordered[..n][i - 1].timestamp) != Day(ordered[..n][i].timestamp);
      assert ordered[..n][i] == ordered[i] && ordered[..n][i - 1] == ordered[i - 1];
    }
    if StraddlesDays(ordered, key) {
      var i :| 0 < i < |ordered| && key(ordered[i - 1].timestamp) == key(ordered[i].timestamp)
               && Day(ordered[i - 1].timestamp) != Day(ordered[i].timestamp);
      if i < n {
        assert ordered[..n][i] == ordered[i] && ordered[..n][i - 1] == ordered[i - 1];
      }
    }
  }

  lemma {:induction false} WindowOpen(bs: seq<seq<Bar>>, b: Bar)
    ensures OneDayPerBucket(bs + [[b]]) <==> OneDayPerBucket(bs)
  {
    var bs' := bs + [[b]];
    if OneDayPerBucket(bs') {
      forall i, j | 0 <= i < |bs| && 0 <= j < |bs[i]| ensures Day(bs[i][j].timestamp) == Day(bs[i][0].timestamp) {
        assert bs'[i] == bs[i];
      }
    }
  }

  lemma {:induction false} WindowJoin(bs: seq<seq<Bar>>, b: Bar)
    requires bs != [] && bs[|bs| - 1] != []
    ensures var last := bs[|bs| - 1];
            OneDayPerBucket(Join(bs, b))
            <==> OneDayPerBucket(bs) && Day(last[|last| - 1].timestamp) == Day(b.timestamp)
  {
    var last := bs[|bs| - 1];
    var bs' := Join(bs, b);
    if OneDayPerBucket(bs') {
      forall i, j | 0 <= i < |bs| && 0 <= j < |bs[i]| ensures Day(bs[i][j].timestamp) == Day(bs[i][0].timestamp) {
        assert bs'[i][j] == bs[i][j] && bs'[i][0] == bs[i][0];
      }
      assert bs'[|bs| - 1][|last|] == b && bs'[|bs| - 1][|last| - 1] == last[|last| - 1];
    }
    if OneDayPerBucket(bs) && Day(last[|last| - 1].timestamp) == Day(b.timestamp) {
      forall i, j | 0 <= i < |bs'| && 0 <= j < |bs'[i]| ensures Day(bs'[i][j].timestamp) == Day(bs'[i][0].timestamp) {
        assert bs'[i][0] == bs[i][0];
        if i == |bs| - 1 && j == |last| {
          assert Day(bs[i][|last| - 1].timestamp) == Day(bs[i][0].timestamp);
        } else {
          assert bs'[i][j] == bs[i][j];
        }
      }
    }
  }

  /** Every bucket is one window of one day: its bars have one day and one key. */
  ghost predicate OneWindowPerBucket(bs: seq<seq<Bar>>, key: Time -> int) {
    forall i, j | 0 <= i < |bs| && 0 <= j < |bs[i]| ::
      Day(bs[i][j].timestamp) == Day(bs[i][0].timestamp) && key(bs[i][j].timestamp) == key(bs[i][0].timestamp)
  }

  /** The bucket key is the time of day alone, so a bucket can span days. Each bucket is one window of
      one day iff no two consecutive bars from different days share a key. */
  lemma {:induction false} BucketIsWindowIff(ordered: seq<Bar>, key: Time -> int)
    ensures OneWindowPerBucket(Buckets(ordered, key), key) <==> !StraddlesDays(ordered, key)
  {
    OneDayIff(ordered, key);
    BucketsPartition(ordered, key);
    OneDayIsWindow(Buckets(ordered, key), key);
  }

  lemma {:induction false} OneDayIsWindow(bs: seq<seq<Bar>>, key: Time -> int)
    requires MaximalRuns(bs, key)
    ensures OneWindowPerBucket(bs, key) <==> OneDayPerBucket(bs)
  {
  }

  function MorningBar(d: Date): Bar {
    Bar(d * DAY + 600 * MINUTE, 1.0, 2.0, 1.0, 2.0, 10.0, map[], None)
  }

  /** Two bars at ten in the morning of two consecutive days share a five-minute bucket and come out as one bar. */
  lemma {:induction false} BucketSpansDays()
    ensures MorningBar(0).Valid() && MorningBar(1).Valid()
    ensures Buckets([MorningBar(0), MorningBar(1)], KeyOf(5)) == [[MorningBar(0), MorningBar(1)]]
    ensures !OneWindowPerBucket(Buckets([MorningBar(0), MorningBar(1)], KeyOf(5)), KeyOf(5))
    ensures Resample([MorningBar(0), MorningBar(1)], 5) == [Aggregate([MorningBar(0), MorningBar(1)])]
  {
    var a, b, key := MorningBar(0), MorningBar(1), KeyOf(5);
    SameMinute();
    assert [a, b] == [a] + [b];
    BucketsStep([a, b], 0, key);
    assert [a, b][..0] == [] && [a, b][..1] == [a];
    BucketsStep([a, b], 1, key);
    assert [a, b][..2] == [a, b];
    assert Buckets([a], key) == [[a]];
    assert Buckets([a, b], key) == [[a, b]];
    assert [[a, b]][0][1] == b;
    SortOfSorted(TimeLe, [a, b]);
    assert AggregateAll([[a, b]]) == [Aggregate([a, b])];
  }

  lemma {:induction false} SameMinute()
    ensures BucketKey(MorningBar(0).timestamp, 5) == BucketKey(MorningBar(1).timestamp, 5)
    ensures Day(MorningBar(0).timestamp) == 0 && Day(MorningBar(1).timestamp) == 1
  {
  }
}
