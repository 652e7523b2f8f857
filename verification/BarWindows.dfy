/** Which bars `resample_bars` puts together: those in one window of `minutes` minutes of the day, windows ending
    at the multiples of `minutes` and including their ends. */
module BarWindows {
  import opened Wrappers
  import opened Clock
  import opened Sequences
  import opened Resolver

  /** Minute `a` of the day lies in the k-th window. */
  predicate InWindow(a: int, minutes: int, k: int) {
    (k - 1) * minutes < a <= k * minutes
  }

  /** The key is the number of the window. */
  lemma {:induction false} KeyIsWindow(t: Time, minutes: int, k: int)
    requires minutes >= 1
    ensures BucketKey(t, minutes) == k <==> InWindow(MinuteOfDay(t), minutes, k)
  {
    CeilingBounds(MinuteOfDay(t), minutes);
    if InWindow(MinuteOfDay(t), minutes, k) {
      CeilingUnique(MinuteOfDay(t), minutes, k);
    }
  }

  /** Two times have one key iff their minutes of day lie in one window. */
  lemma {:induction false} SameKeyIff(s: Time, t: Time, minutes: int)
    requires minutes >= 1
    ensures BucketKey(s, minutes) == BucketKey(t, minutes)
            <==> exists k :: InWindow(MinuteOfDay(s), minutes, k) && InWindow(MinuteOfDay(t), minutes, k)
  {
    KeyIsWindow(s, minutes, BucketKey(s, minutes));
    KeyIsWindow(t, minutes, BucketKey(s, minutes));
    if k :| InWindow(MinuteOfDay(s), minutes, k) && InWindow(MinuteOfDay(t), minutes, k) {
      KeyIsWindow(s, minutes, k);
      KeyIsWindow(t, minutes, k);
    }
  }

  /** A multiple of `minutes` lies from `a` up to but not including `b`. */
  ghost predicate Separated(a: int, b: int, minutes: int) {
    exists k :: a <= k * minutes < b
  }

  /** Minutes share a window iff no window ends at the earlier one or between the two. */
  lemma {:induction false} WindowEndsBetween(a: int, b: int, minutes: int)
    requires minutes >= 1 && a <= b
    ensures (exists k :: InWindow(a, minutes, k) && InWindow(b, minutes, k)) <==> !Separated(a, b, minutes)
  {
    var c := Ceiling(a, minutes);
    CeilingBounds(a, minutes);
    assert InWindow(a, minutes, c);
    if k :| InWindow(a, minutes, k) && InWindow(b, minutes, k) {
      MultiplesBetween(a, minutes, c, k);
    }
    assert (exists k :: InWindow(a, minutes, k) && InWindow(b, minutes, k)) <==> InWindow(b, minutes, c);
    if k :| a <= k * minutes < b {
      FirstMultiple(a, minutes, k);
    }
    assert Separated(a, b, minutes) <==> a <= c * minutes < b;
  }

  /** The window's end is the first multiple from `a` on. */
  lemma {:induction false} FirstMultiple(a: int, minutes: int, k: int)
    requires minutes >= 1 && a <= k * minutes
    ensures Ceiling(a, minutes) * minutes <= k * minutes
  {
    var c := Ceiling(a, minutes);
    CeilingBounds(a, minutes);
    if c <= k {
      MulMonotone(c, k, minutes);
    } else {
      MulMonotone(k, c - 1, minutes);
    }
  }

  // ---------- buckets of one day ----------

  /** Later bars have no smaller keys. */
  ghost predicate KeysClimb(bars: seq<Bar>, key: Time -> int) {
    forall i, j | 0 <= i < j < |bars| :: key(bars[i].timestamp) <= key(bars[j].timestamp)
  }

  /** Then later buckets have larger keys. */
  ghost predicate BucketKeysClimb(bs: seq<seq<Bar>>, key: Time -> int)
    requires forall i :: 0 <= i < |bs| ==> bs[i] != []
  {
    forall a, b | 0 <= a < b < |bs| :: key(bs[a][0].timestamp) < key(bs[b][0].timestamp)
  }

  lemma {:induction false} ClimbingBuckets(bars: seq<Bar>, key: Time -> int)
    requires KeysClimb(bars, key)
    ensures BucketKeysClimb(Buckets(bars, key), key)
  {
    if bars != [] {
      var n := |bars| - 1;
      var bs: seq<seq<Bar>> := Buckets(bars[..n], key);
      ClimbingBuckets(bars[..n], key);
      if n > 0 {
        BucketsAreRuns(bars[..n], key);
        BucketEnds(bars[..n], key);
        LastKey(bs, bars[n - 1], key);
        ClimbStep(bs, bars[n], key, key(bars[n - 1].timestamp) == key(bars[n].timestamp));
      }
    }
  }

  lemma {:induction false} ClimbStep(bs: seq<seq<Bar>>, b: Bar, key: Time -> int, joins: bool)
    requires bs != [] && (forall i :: 0 <= i < |bs| ==> bs[i] != []) && BucketKeysClimb(bs, key)
    requires !joins ==> key(bs[|bs| - 1][0].timestamp) < key(b.timestamp)
    ensures forall i :: 0 <= i < |Join(bs, b)| ==> Join(bs, b)[i] != []
    ensures if joins then BucketKeysClimb(Join(bs, b), key) else BucketKeysClimb(bs + [[b]], key)
  {
    var m := |bs| - 1;
    assert forall i :: 0 <= i <= m ==> Join(bs, b)[i][0] == bs[i][0];
    forall i | 0 <= i < m ensures key(bs[i][0].timestamp) < key(bs[m][0].timestamp) {
    }
  }

  /** Some output bar stands for both bars. */
  ghost predicate Together(bs: seq<seq<Bar>>, x: Bar, y: Bar) {
    exists b :: 0 <= b < |bs| && x in bs[b] && y in bs[b]
  }

  lemma {:induction false} BarHasBucket(bs: seq<seq<Bar>>, x: Bar) returns (b: nat)
    requires x in Concat(bs)
    ensures b < |bs| && x in bs[b]
  {
    var n := |bs| - 1;
    if x in bs[n] {
      b := n;
    } else {
      b := BarHasBucket(bs[..n], x);
      assert bs[..n][b] == bs[b];
    }
  }

  lemma {:induction false} KeyOfBucket(bs: seq<seq<Bar>>, key: Time -> int, b: nat, x: Bar)
    requires MaximalRuns(bs, key) && b < |bs| && x in bs[b]
    ensures key(x.timestamp) == key(bs[b][0].timestamp)
  {
    var j :| 0 <= j < |bs[b]| && bs[b][j] == x;
  }

  lemma {:induction false} TogetherIff(bars: seq<Bar>, key: Time -> int, x: Bar, y: Bar)
    requires KeysClimb(bars, key) && x in bars && y in bars
    ensures Together(Buckets(bars, key), x, y) <==> key(x.timestamp) == key(y.timestamp)
  {
    var bs := Buckets(bars, key);
    BucketsPartition(bars, key);
    ClimbingBuckets(bars, key);
    var a := BarHasBucket(bs, x);
    var b := BarHasBucket(bs, y);
    KeyOfBucket(bs, key, a, x);
    KeyOfBucket(bs, key, b, y);
    if c :| 0 <= c < |bs| && x in bs[c] && y in bs[c] {
      KeyOfBucket(bs, key, c, x);
      KeyOfBucket(bs, key, c, y);
    }
  }

  lemma {:induction false} DayClimbs(bars: seq<Bar>, minutes: int)
    requires minutes >= 1 && Sorted(TimeLe, bars)
    requires forall x, y :: x in bars && y in bars ==> Day(x.timestamp) == Day(y.timestamp)
    ensures KeysClimb(bars, KeyOf(minutes))
  {
    forall i, j | 0 <= i < j < |bars| ensures BucketKey(bars[i].timestamp, minutes) <= BucketKey(bars[j].timestamp, minutes) {
      assert TimeLe(bars[i], bars[j]) && bars[i] in bars && bars[j] in bars;
      LaterMinute(bars[i].timestamp, bars[j].timestamp);
      CeilingMonotone(MinuteOfDay(bars[i].timestamp), MinuteOfDay(bars[j].timestamp), minutes);
    }
  }

  lemma {:induction false} LaterMinute(s: Time, t: Time)
    requires s <= t && Day(s) == Day(t)
    ensures MinuteOfDay(s) <= MinuteOfDay(t)
  {
  }

  lemma {:induction false} CeilingMonotone(a: int, b: int, m: int)
    requires a <= b && m >= 1
    ensures Ceiling(a, m) <= Ceiling(b, m)
  {
    CeilingBounds(a, m);
    CeilingBounds(b, m);
    if Ceiling(b, m) < Ceiling(a, m) {
      MulMonotone(Ceiling(b, m), Ceiling(a, m) - 1, m);
    }
  }

  /** Bars of one day come out in one bar iff no multiple of `minutes` lies from the earlier minute, included, up
      to the later one, excluded. The output is one bar per bucket, in order. */
  lemma {:induction false} SameOutputBarIff(bars: seq<Bar>, minutes: int, x: Bar, y: Bar)
    requires minutes >= 1 && x in bars && y in bars && MinuteOfDay(x.timestamp) <= MinuteOfDay(y.timestamp)
    requires forall a, b :: a in bars && b in bars ==> Day(a.timestamp) == Day(b.timestamp)
    ensures Resample(bars, minutes) == AggregateAll(Buckets(StableSort(TimeLe, bars), KeyOf(minutes)))
    ensures Together(Buckets(StableSort(TimeLe, bars), KeyOf(minutes)), x, y)
            <==> !Separated(MinuteOfDay(x.timestamp), MinuteOfDay(y.timestamp), minutes)
  {
    var ordered := StableSort(TimeLe, bars);
    SameElements(ordered, bars);
    TimeLeOrders();
    SortSorts(TimeLe, bars);
    DayClimbs(ordered, minutes);
    TogetherIff(ordered, KeyOf(minutes), x, y);
    SameKeyIff(x.timestamp, y.timestamp, minutes);
    WindowEndsBetween(MinuteOfDay(x.timestamp), MinuteOfDay(y.timestamp), minutes);
  }

  /** The bars ending at 9:04 and 9:05 are one five-minute bar, that ending at 9:06 begins the next. */
  lemma {:induction false} FiveMinuteWindows()
    ensures !Separated(544, 545, 5) && Separated(545, 546, 5)
  {
    assert 545 <= 109 * 5 < 546;
    assert forall k :: !(544 <= k * 5 < 545);
  }
}
