/** What the labels of `build_label_snapshot` say: the relative move of the close over the horizon. */
module LabelValues {
  import opened Clock
  import opened Sequences
  import opened Records
  import opened Labels
  import opened LabelLeaks

  /** The label takes the close `t0` to the close `t5`: grown by the label's value, the one is the other. */
  ghost predicate Grows(l: Label, t0: RawPITRow, t5: RawPITRow) {
    && l.instrumentId == t0.instrumentId && l.eventTime == t0.eventTime && l.availableTime == t5.availableTime
    && t0.value > 0.0 && t0.value * (1.0 + l.value) == t5.value
  }

  lemma {:induction false} ReturnGrows(c0: real, c5: real)
    requires c0 > 0.0
    ensures c0 * (1.0 + ForwardReturn(c0, c5)) == c5
  {
    var r := (c5 - c0) / c0;
    assert r * c0 == c5 - c0;
  }

  /** Such a label is positive, zero or negative as the close rose, stayed or fell. */
  lemma {:induction false} LabelSign(l: Label, t0: RawPITRow, t5: RawPITRow)
    requires Grows(l, t0, t5)
    ensures l.value > 0.0 <==> t5.value > t0.value
    ensures l.value == 0.0 <==> t5.value == t0.value
    ensures l.value < 0.0 <==> t5.value < t0.value
  {
    GrowthSign(t0.value, l.value, t5.value);
  }

  lemma {:induction false} GrowthSign(c0: real, r: real, c5: real)
    requires c0 > 0.0 && c0 * (1.0 + r) == c5
    ensures r > 0.0 <==> c5 > c0
    ensures r == 0.0 <==> c5 == c0
    ensures r < 0.0 <==> c5 < c0
  {
    assert c0 * r == c5 - c0;
    if r > 0.0 {
      PositiveProduct(c0, r);
    } else if r < 0.0 {
      PositiveProduct(c0, -r);
    }
  }

  lemma {:induction false} PositiveProduct(x: real, y: real)
    requires x > 0.0 && y > 0.0
    ensures x * y > 0.0 && x * (-y) < 0.0
  {
  }

  /** Row `r` is a close of instrument `i`. */
  ghost predicate CloseRowOf(rows: seq<RawPITRow>, i: string, r: RawPITRow) {
    r in rows && r.instrumentId == i && r.field == "market.eod.close"
  }

  lemma {:induction false} YieldedGrows(series: seq<RawPITRow>, window: seq<Time>, h: nat, k: nat, l: Label)
    requires k + h < |series| && LabelAt(series, window, h, k) == [l]
    ensures Grows(l, series[k], series[k + h])
  {
    assert series[k].value > 0.0;
    ReturnGrows(series[k].value, series[k + h].value);
  }

  lemma {:induction false} SeriesCloses(rows: seq<RawPITRow>, i: string)
    ensures forall k | 0 <= k < |Series(rows, i)| :: CloseRowOf(rows, i, Series(rows, i)[k])
  {
    SeriesRows(rows, i);
    forall k | 0 <= k < |Series(rows, i)| ensures CloseRowOf(rows, i, Series(rows, i)[k]) {
      assert Series(rows, i)[k] in Series(rows, i);
    }
  }

  /** The label `l` takes the k-th close of instrument `i`'s series to the one `h` places later. */
  ghost predicate Spans(rows: seq<RawPITRow>, h: nat, i: string, k: nat, l: Label) {
    && k + h < |Series(rows, i)|
    && CloseRowOf(rows, i, Series(rows, i)[k]) && CloseRowOf(rows, i, Series(rows, i)[k + h])
    && Grows(l, Series(rows, i)[k], Series(rows, i)[k + h])
  }

  lemma {:induction false} YieldedSpans(rows: seq<RawPITRow>, window: seq<Time>, h: nat, i: string, k: nat, l: Label)
    requires Yields(rows, window, h, i, k, l)
    ensures Spans(rows, h, i, k, l)
  {
    YieldedGrows(Series(rows, i), window, h, k, l);
    SeriesCloses(rows, i);
  }

  lemma {:induction false} SpanIsYielded(rows: seq<RawPITRow>, window: seq<Time>, h: nat, i: string, k: nat) returns (l: Label)
    requires k + h < |Series(rows, i)| && Series(rows, i)[k].value > 0.0 && Series(rows, i)[k].eventTime in window
    ensures Yields(rows, window, h, i, k, l) && Spans(rows, h, i, k, l)
  {
    l := LabelAt(Series(rows, i), window, h, k)[0];
    SeriesCloses(rows, i);
    CloseIsListed(rows, i, Series(rows, i)[k]);
    YieldedSpans(rows, window, h, i, k, l);
  }

  lemma {:induction false} CloseIsListed(rows: seq<RawPITRow>, i: string, r: RawPITRow)
    requires CloseRowOf(rows, i, r)
    ensures i in Instruments(rows)
  {
    assert r in Filter(rows, IsClose);
  }

  /** Every label of a snapshot comes from two closes of its instrument, `h` places apart in the series, and
      takes the first to the second. */
  lemma {:induction false} LabelGrows(rows: seq<RawPITRow>, s: LabelSnapshot, l: Label) returns (i: string, k: nat)
    requires IsLabelSnapshot(rows, s.horizon, s) && s.horizon >= 0 && l in s.rows
    ensures Spans(rows, s.horizon, i, k, l)
  {
    RowsAreYielded(rows, s, l);
    i, k :| Yields(rows, LabelWindow(rows, s), s.horizon, i, k, l);
    YieldedSpans(rows, LabelWindow(rows, s), s.horizon, i, k, l);
  }

  /** And every positive close of a window day with a close `h` places later is labelled so. */
  lemma {:induction false} EveryCloseIsLabelled(rows: seq<RawPITRow>, s: LabelSnapshot, i: string, k: nat) returns (l: Label)
    requires IsLabelSnapshot(rows, s.horizon, s) && s.horizon >= 0 && k + s.horizon < |Series(rows, i)|
    requires Series(rows, i)[k].value > 0.0 && Series(rows, i)[k].eventTime in LabelWindow(rows, s)
    ensures l in s.rows && Spans(rows, s.horizon, i, k, l)
  {
    l := SpanIsYielded(rows, LabelWindow(rows, s), s.horizon, i, k);
    RowsAreYielded(rows, s, l);
  }
}
