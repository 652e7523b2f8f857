/** What two factor backtests share when their inputs agree up to a time `t`: rows up to `t`, and factor
    values from days before `t`'s day. */
module LookAhead {
  import opened Wrappers
  import opened Clock
  import opened Sequences
  import opened Records
  import opened Drawdown
  import opened Equity
  import opened Curve
  import opened FactorBacktest
  import opened PanelAgreement
  import BarBuilding
  import Contracts
  import EquityLaws
  import Revisions
  import Targets

  /** The runs have the same rows up to `t` and the same factor values from days before `t`'s day. */
  ghost predicate SameUpTo(rows: seq<PITRow>, observations: seq<Observation>,
                           otherRows: seq<PITRow>, otherObservations: seq<Observation>, t: Time)
  {
    && Filter(rows, (r: PITRow) => r.eventTime <= t) == Filter(otherRows, (r: PITRow) => r.eventTime <= t)
    && (forall o: Observation :: Day(o.eventTime) < Day(t) ==> (o in observations <==> o in otherObservations))
  }

  /** The two completed runs. */
  ghost predicate Runs(q: Request, rows: seq<PITRow>, observations: seq<Observation>, p: Panel,
                       otherRows: seq<PITRow>, otherObservations: seq<Observation>, other: Panel)
  {
    IsPanel(q, rows, observations, p) && IsPanel(q, otherRows, otherObservations, other)
  }

  // ---------- instruments both runs hold ----------

  ghost function BarOn(q: Request, rows: seq<PITRow>, i: string, s: Time): Option<Bar> {
    BarBuilding.BarAt(WindowRows(q, rows), Prefix(q.frequency), BarBuilding.Slot(i, s))
  }

  lemma {:induction false} SameBarOn(q: Request, rows: seq<PITRow>, otherRows: seq<PITRow>, i: string, s: Time, t: Time)
    requires s <= t
    requires Filter(rows, (r: PITRow) => r.eventTime <= t) == Filter(otherRows, (r: PITRow) => r.eventTime <= t)
    ensures BarOn(q, rows, i, s) == BarOn(q, otherRows, i, s)
  {
    var known := (r: PITRow) => r.eventTime <= t;
    var slot, prefix := BarBuilding.Slot(i, s), Prefix(q.frequency);
    BarBuilding.BarAtOfFilter(WindowRows(q, rows), known, prefix, slot);
    BarBuilding.BarAtOfFilter(WindowRows(q, otherRows), known, prefix, slot);
    WindowCommutes(q, rows, t);
    WindowCommutes(q, otherRows, t);
  }

  lemma {:induction false} WindowCommutes(q: Request, rows: seq<PITRow>, t: Time)
    ensures Filter(WindowRows(q, rows), (r: PITRow) => r.eventTime <= t) == WindowRows(q, Filter(rows, (r: PITRow) => r.eventTime <= t))
  {
    var known := (r: PITRow) => r.eventTime <= t;
    var both := (r: PITRow) => InWindow(q, r) && r.eventTime <= t;
    FilterFilter(rows, r => InWindow(q, r), known, both);
    FilterFilter(rows, known, r => InWindow(q, r), both);
  }

  /** In a series, the close at a time is that of the time's bar. */
  lemma {:induction false} SeriesClose(rows: seq<PITRow>, prefix: string, i: string, bars: seq<Bar>, s: Time)
    requires BarBuilding.IsSeries(rows, prefix, i, bars)
    ensures s in CloseMap(bars) <==> BarBuilding.BarAt(rows, prefix, BarBuilding.Slot(i, s)).Some?
    ensures s in CloseMap(bars) ==> CloseMap(bars)[s] == BarBuilding.BarAt(rows, prefix, BarBuilding.Slot(i, s)).value.close
  {
    if s in CloseMap(bars) {
      var b :| b in bars && b.timestamp == s;
      var j :| 0 <= j < |bars| && bars[j] == b;
      EquityLaws.DistinctCloseMapAt(bars, j);
      assert BarBuilding.BarAt(rows, prefix, BarBuilding.Slot(i, bars[j].timestamp)) == Some(bars[j]);
    }
    if BarBuilding.BarAt(rows, prefix, BarBuilding.Slot(i, s)).Some? {
      var j :| 0 <= j < |bars| && bars[j].timestamp == s;
      assert bars[j] in bars;
    }
  }

  /** A panel has a close exactly where the rows give a bar. */
  lemma {:induction false} PanelTimes(q: Request, rows: seq<PITRow>, observations: seq<Observation>, p: Panel, i: string, s: Time)
    requires IsPanel(q, rows, observations, p) && i in p.instruments
    ensures s in p.Series(i) <==> BarOn(q, rows, i, s).Some?
    ensures s in p.Series(i) ==> p.Series(i)[s] == BarOn(q, rows, i, s).value.close
    ensures s in p.TargetsOf(i) <==> s in p.Series(i)
    ensures s in p.TargetsOf(i) ==> p.TargetsOf(i)[s] == Targets.Target(SignalsOf(observations, i), Day(s), q.lotSize)
  {
    SeriesClose(WindowRows(q, rows), Prefix(q.frequency), i, p.bars[i], s);
    StampsAreTimes(p.bars[i]);
  }

  lemma {:induction false} SameTargets(q: Request, observations: seq<Observation>, otherObservations: seq<Observation>, i: string, s: Time, t: Time)
    requires forall o: Observation :: Day(o.eventTime) < Day(t) ==> (o in observations <==> o in otherObservations)
    requires s <= t
    ensures Targets.Target(SignalsOf(observations, i), Day(s), q.lotSize) == Targets.Target(SignalsOf(otherObservations, i), Day(s), q.lotSize)
  {
    DayMonotone(s, t);
    Targets.TargetSeesOnlyThePast(SignalsOf(observations, i), SignalsOf(otherObservations, i), Day(s), q.lotSize);
  }

  lemma {:induction false} SharedInstruments(q: Request, rows: seq<PITRow>, observations: seq<Observation>, p: Panel,
                                             otherRows: seq<PITRow>, otherObservations: seq<Observation>, other: Panel, t: Time)
    requires Runs(q, rows, observations, p, otherRows, otherObservations, other)
    requires SameUpTo(rows, observations, otherRows, otherObservations, t)
    ensures AgreeOnShared(p, other, t)
  {
    forall i, s | i in p.instruments && i in other.instruments && s <= t ensures SameAt(p, other, i, s) {
      PanelTimes(q, rows, observations, p, i, s);
      PanelTimes(q, otherRows, otherObservations, other, i, s);
      SameBarOn(q, rows, otherRows, i, s, t);
      SameTargets(q, observations, otherObservations, i, s, t);
    }
  }

  // ---------- instruments of one run only ----------

  lemma {:induction false} DefaultUniverse(q: Request, observations: seq<Observation>, i: string)
    requires q.instrumentIds.None?
    ensures i in Universe(q, observations) <==> exists o :: o in observations && o.value.Some? && o.instrumentId == i
  {
    var valued, idOf := (o: Observation) => o.value.Some?, (o: Observation) => o.instrumentId;
    var seen := Revisions.FirstSeen(Filter(observations, valued), idOf);
    assert i in seen <==> exists o :: o in Filter(observations, valued) && idOf(o) == i;
    SameElements(Universe(q, observations), seen);
  }

  /** An instrument of one run only was observed on `t`'s day at the earliest, so it has no signal before. */
  lemma {:induction false} NewcomerSignals(q: Request, observations: seq<Observation>, otherObservations: seq<Observation>, i: string, t: Time)
    requires forall o: Observation :: Day(o.eventTime) < Day(t) ==> (o in observations <==> o in otherObservations)
    requires i in Universe(q, observations) && i !in Universe(q, otherObservations)
    ensures forall v :: v in SignalsOf(observations, i) ==> v.day >= Day(t)
  {
    DefaultUniverse(q, observations, i);
    DefaultUniverse(q, otherObservations, i);
  }

  lemma {:induction false} NewcomersHoldNothing(q: Request, rows: seq<PITRow>, observations: seq<Observation>, p: Panel,
                                                otherObservations: seq<Observation>, other: Panel, t: Time)
    requires IsPanel(q, rows, observations, p)
    requires other.instruments == BarBuilding.Once(Universe(q, otherObservations))
    requires forall o: Observation :: Day(o.eventTime) < Day(t) ==> (o in observations <==> o in otherObservations)
    ensures NewcomersFlat(p, other, t)
  {
    forall i, s | i in p.instruments && i !in other.instruments && s <= t && s in p.TargetsOf(i) ensures p.TargetsOf(i)[s] == 0 {
      PanelTimes(q, rows, observations, p, i, s);
      NewcomerSignals(q, observations, otherObservations, i, t);
      DayMonotone(s, t);
      assert Targets.LatestBefore(SignalsOf(observations, i), Day(s)).None?;
    }
  }

  /** All the panel laws need. */
  lemma {:induction false} RunsAgree(q: Request, rows: seq<PITRow>, observations: seq<Observation>, p: Panel,
                                     otherRows: seq<PITRow>, otherObservations: seq<Observation>, other: Panel, t: Time)
    requires Runs(q, rows, observations, p, otherRows, otherObservations, other)
    requires SameUpTo(rows, observations, otherRows, otherObservations, t)
    ensures AgreeOnShared(p, other, t) && NewcomersFlat(p, other, t) && NewcomersFlat(other, p, t)
    ensures EquityLaws.AllWired(p) && EquityLaws.AllWired(other)
  {
    SharedInstruments(q, rows, observations, p, otherRows, otherObservations, other, t);
    NewcomersHoldNothing(q, rows, observations, p, otherObservations, other, t);
    NewcomersHoldNothing(q, otherRows, otherObservations, other, observations, p, t);
    PanelIsWired(q, rows, observations, p);
    PanelIsWired(q, otherRows, otherObservations, other);
  }

  // ---------- equity never looks ahead ----------

  /** End-to-end no look-ahead: whatever rows arrive after `t`, whatever factor values are observed on `t`'s
      day or later, and whatever instruments those add, equity after every time up to `t` is the same; so are
      the points at every time both runs report. */
  lemma {:induction false} EndToEndNoLookAhead(q: Request, rows: seq<PITRow>, observations: seq<Observation>, p: Panel,
                                               otherRows: seq<PITRow>, otherObservations: seq<Observation>, other: Panel, t: Time)
    requires Runs(q, rows, observations, p, otherRows, otherObservations, other)
    requires SameUpTo(rows, observations, otherRows, otherObservations, t)
    ensures forall s | s <= t :: EquityLaws.EquityAt(p, s) == EquityLaws.EquityAt(other, s)
    ensures forall k, l | 0 <= k < |PanelPoints(p)| && 0 <= l < |PanelPoints(other)| && PanelPoints(p)[k].time == PanelPoints(other)[l].time <= t ::
              PanelPoints(p)[k] == PanelPoints(other)[l]
  {
    RunsAgree(q, rows, observations, p, otherRows, otherObservations, other, t);
    forall s | s <= t ensures EquityLaws.EquityAt(p, s) == EquityLaws.EquityAt(other, s) {
      SharedEquity(p, other, s, t);
    }
    forall k, l | 0 <= k < |PanelPoints(p)| && 0 <= l < |PanelPoints(other)| && PanelPoints(p)[k].time == PanelPoints(other)[l].time <= t
      ensures PanelPoints(p)[k] == PanelPoints(other)[l]
    {
      SharedPoint(p, other, k, l, t);
    }
  }

  /** Neither do the running peak and the running drawdown, whatever universes the later observations give. */
  lemma {:induction false} DrawdownNeverLooksAhead(q: Request, rows: seq<PITRow>, observations: seq<Observation>, p: Panel,
                                                   otherRows: seq<PITRow>, otherObservations: seq<Observation>, other: Panel, t: Time)
    requires Runs(q, rows, observations, p, otherRows, otherObservations, other) && q.initialCash > 0.0
    requires SameUpTo(rows, observations, otherRows, otherObservations, t)
    ensures forall s | s <= t :: Peak(PathUpTo(p, s)) == Peak(PathUpTo(other, s))
    ensures forall s | s <= t :: MaxDrawdown(PathUpTo(p, s)) == MaxDrawdown(PathUpTo(other, s))
  {
    RunsAgree(q, rows, observations, p, otherRows, otherObservations, other, t);
    forall s | s <= t
      ensures Peak(PathUpTo(p, s)) == Peak(PathUpTo(other, s))
      ensures MaxDrawdown(PathUpTo(p, s)) == MaxDrawdown(PathUpTo(other, s))
    {
      SharedDrawdown(p, other, s, t);
    }
  }

  /** Up to `t`, every bar time of an instrument of only the first universe is one of the second. */
  ghost predicate BringsNoTime(q: Request, rows: seq<PITRow>, ids: seq<string>, otherIds: seq<string>, t: Time) {
    forall i, s :: i in ids && i !in otherIds && s <= t && BarOn(q, rows, i, s).Some? ==>
      exists j :: j in otherIds && BarOn(q, rows, j, s).Some?
  }

  lemma {:induction false} CoveredIff(q: Request, rows: seq<PITRow>, observations: seq<Observation>, p: Panel,
                                      otherRows: seq<PITRow>, otherObservations: seq<Observation>, other: Panel, t: Time)
    requires Runs(q, rows, observations, p, otherRows, otherObservations, other)
    requires SameUpTo(rows, observations, otherRows, otherObservations, t)
    ensures TimesCovered(p, other, t) <==> BringsNoTime(q, rows, Universe(q, observations), Universe(q, otherObservations), t)
  {
    forall i, s | i in p.instruments && s <= t ensures s in p.Series(i) <==> BarOn(q, rows, i, s).Some? {
      PanelTimes(q, rows, observations, p, i, s);
    }
    forall j, s | j in other.instruments && s <= t ensures s in other.Series(j) <==> BarOn(q, rows, j, s).Some? {
      PanelTimes(q, otherRows, otherObservations, other, j, s);
      SameBarOn(q, rows, otherRows, j, s, t);
    }
    if TimesCovered(p, other, t) {
      CoveredTimes(q, rows, p, other, Universe(q, observations), Universe(q, otherObservations), t);
    }
  }

  lemma {:induction false} CoveredTimes(q: Request, rows: seq<PITRow>, p: Panel, other: Panel, ids: seq<string>, otherIds: seq<string>, t: Time)
    requires p.Valid() && other.Valid() && TimesCovered(p, other, t)
    requires forall i :: i in p.instruments <==> i in ids
    requires forall i :: i in other.instruments <==> i in otherIds
    requires forall i, s | i in p.instruments && s <= t :: s in p.Series(i) <==> BarOn(q, rows, i, s).Some?
    requires forall i, s | i in other.instruments && s <= t :: s in other.Series(i) <==> BarOn(q, rows, i, s).Some?
    ensures BringsNoTime(q, rows, ids, otherIds, t)
  {
  }

  /** The points up to `t` are the same exactly when, up to `t`, no instrument of only one universe has a bar
      at a time at which the other universe has none. */
  lemma {:induction false} PointsAgreeUpToIff(q: Request, rows: seq<PITRow>, observations: seq<Observation>, p: Panel,
                                              otherRows: seq<PITRow>, otherObservations: seq<Observation>, other: Panel, t: Time)
    requires Runs(q, rows, observations, p, otherRows, otherObservations, other)
    requires SameUpTo(rows, observations, otherRows, otherObservations, t)
    ensures PanelPoints(p)[..CountUpTo(Timeline(p), t)] == PanelPoints(other)[..CountUpTo(Timeline(other), t)] <==>
              && BringsNoTime(q, rows, Universe(q, observations), Universe(q, otherObservations), t)
              && BringsNoTime(q, otherRows, Universe(q, otherObservations), Universe(q, observations), t)
  {
    RunsAgree(q, rows, observations, p, otherRows, otherObservations, other, t);
    PointsAgreeIff(p, other, t);
    CoveredIff(q, rows, observations, p, otherRows, otherObservations, other, t);
    CoveredIff(q, otherRows, otherObservations, other, rows, observations, p, t);
  }

  // ---------- the reported curve ----------

  lemma {:induction false} EarlyPoints(p: Panel, t: Time)
    requires p.Valid()
    ensures PointsBefore(PanelPoints(p), Day(t)) == PointsBefore(PanelPoints(p)[..CountUpTo(Timeline(p), t)], Day(t))
  {
    var n := CountUpTo(Timeline(p), t);
    TimelineOrdered(p);
    CountUpToCuts(Timeline(p), t);
    LatePointsDrop(PanelPoints(p), n, t);
  }

  lemma {:induction false} LatePointsDrop(points: seq<Point>, n: nat, t: Time)
    requires n <= |points| && forall k :: n <= k < |points| ==> t < points[k].time
    ensures PointsBefore(points, Day(t)) == PointsBefore(points[..n], Day(t))
  {
    assert points == points[..n] + points[n..];
    forall x | x in points[n..] ensures !(Day(x.time) < Day(t)) {
      DayMonotone(t, x.time);
    }
    FilterAppend(points[..n], points[n..], (x: Point) => Day(x.time) < Day(t));
    FilterNone(points[n..], (x: Point) => Day(x.time) < Day(t));
  }

  /** Under the same condition the reported curves have the same entries for all days before `t`'s day, with
      or without daily aggregation. */
  lemma {:induction false} CurveNeverLooksAhead(q: Request, rows: seq<PITRow>, observations: seq<Observation>, p: Panel,
                                                otherRows: seq<PITRow>, otherObservations: seq<Observation>, other: Panel,
                                                t: Time, aggregateDaily: bool)
    requires Runs(q, rows, observations, p, otherRows, otherObservations, other)
    requires SameUpTo(rows, observations, otherRows, otherObservations, t)
    requires BringsNoTime(q, rows, Universe(q, observations), Universe(q, otherObservations), t)
    requires BringsNoTime(q, otherRows, Universe(q, otherObservations), Universe(q, observations), t)
    ensures EntriesBefore(CurveOf(Reported(PanelPoints(p), aggregateDaily)), Day(t))
         == EntriesBefore(CurveOf(Reported(PanelPoints(other), aggregateDaily)), Day(t))
  {
    PointsAgreeUpToIff(q, rows, observations, p, otherRows, otherObservations, other, t);
    EarlyPoints(p, t);
    EarlyPoints(other, t);
    TimelineOrdered(p);
    TimelineOrdered(other);
    CurveBefore(PanelPoints(p), Day(t), aggregateDaily);
    CurveBefore(PanelPoints(other), Day(t), aggregateDaily);
  }

  /** A daily point shows the equity at the end of its day. */
  lemma {:induction false} DailyPointIsEquityAt(p: Panel, k: nat)
    requires p.Valid() && k < |DailyCloses(PanelPoints(p))|
    ensures DailyCloses(PanelPoints(p))[k].equity == EquityLaws.EquityAt(p, DailyCloses(PanelPoints(p))[k].time)
  {
    TimelineOrdered(p);
    var m := LastPointOfDay(PanelPoints(p), k);
    EquityLaws.PointIsEquityAt(p, m);
    SameCountToEndOfDay(Timeline(p), m);
  }

  lemma {:induction false} LastPointOfDay(points: seq<Point>, k: nat) returns (m: nat)
    requires InTimeOrder(points) && k < |DailyCloses(points)|
    ensures m < |points| && DailyCloses(points)[k] == Point(EndOfDay(Day(points[m].time)), points[m].equity)
    ensures forall j | m < j < |points| :: Day(points[m].time) < Day(points[j].time)
  {
    var days := Days(points);
    DaysInOrder(points);
    DailyIsLastOfDay(points);
    LastAtSelectsEveryDay(days);
    m := LastAt(days)[k];
    assert LastOfDay(days, m);
    forall j | m < j < |points| ensures Day(points[m].time) < Day(points[j].time) {
      assert days[m] < days[j];
    }
  }

  lemma {:induction false} SameCountToEndOfDay(times: seq<Time>, m: nat)
    requires Increasing(times) && m < |times| && forall j | m < j < |times| :: Day(times[m]) < Day(times[j])
    ensures CountUpTo(times, EndOfDay(Day(times[m]))) == CountUpTo(times, times[m])
  {
    var e := EndOfDay(Day(times[m]));
    CountUpToCuts(times, e);
    CountUpToOwn(times, m);
    InsideDay(times[m]);
    if m + 1 < |times| {
      InsideDay(times[m + 1]);
    }
  }

  lemma {:induction false} InsideDay(t: Time)
    ensures t <= EndOfDay(Day(t))
    ensures forall d | d < Day(t) :: EndOfDay(d) < t
  {
  }

  /** Even where the timelines differ, two daily curves show the same equity on every day before `t`'s day
      that both of them list. */
  lemma {:induction false} DailyEquityNeverLooksAhead(q: Request, rows: seq<PITRow>, observations: seq<Observation>, p: Panel,
                                                      otherRows: seq<PITRow>, otherObservations: seq<Observation>, other: Panel,
                                                      t: Time, k: nat, l: nat)
    requires Runs(q, rows, observations, p, otherRows, otherObservations, other)
    requires SameUpTo(rows, observations, otherRows, otherObservations, t)
    requires k < |DailyCloses(PanelPoints(p))| && l < |DailyCloses(PanelPoints(other))|
    requires CurveOf(DailyCloses(PanelPoints(p)))[k].date == CurveOf(DailyCloses(PanelPoints(other)))[l].date < Day(t)
    ensures CurveOf(DailyCloses(PanelPoints(p)))[k] == CurveOf(DailyCloses(PanelPoints(other)))[l]
  {
    var d := CurveOf(DailyCloses(PanelPoints(p)))[k].date;
    DailyTime(PanelPoints(p), k);
    DailyTime(PanelPoints(other), l);
    DailyPointIsEquityAt(p, k);
    DailyPointIsEquityAt(other, l);
    InsideDay(t);
    EndToEndNoLookAhead(q, rows, observations, p, otherRows, otherObservations, other, t);
    assert EquityLaws.EquityAt(p, EndOfDay(d)) == EquityLaws.EquityAt(other, EndOfDay(d));
  }

  // ---------- when two daily curves agree ----------

  /** The rows give some instrument of the universe a bar on day `d`. */
  ghost predicate HasDay(q: Request, rows: seq<PITRow>, ids: seq<string>, d: Date) {
    exists i, s :: i in ids && Day(s) == d && BarOn(q, rows, i, s).Some?
  }

  /** The daily curve lists exactly the days on which the universe has a bar. */
  lemma {:induction false} CurveDays(q: Request, rows: seq<PITRow>, observations: seq<Observation>, p: Panel, d: Date)
    requires IsPanel(q, rows, observations, p)
    ensures Lists(DailyCurve(PanelPoints(p)), d) <==> HasDay(q, rows, Universe(q, observations), d)
  {
    DailyCurveDays(PanelPoints(p), d);
    if OnDay(PanelPoints(p), d) {
      PointDayHasBar(q, rows, observations, p, d);
    }
    if HasDay(q, rows, Universe(q, observations), d) {
      BarDayHasPoint(q, rows, observations, p, d);
    }
  }

  lemma {:induction false} PointDayHasBar(q: Request, rows: seq<PITRow>, observations: seq<Observation>, p: Panel, d: Date)
    requires IsPanel(q, rows, observations, p) && OnDay(PanelPoints(p), d)
    ensures HasDay(q, rows, Universe(q, observations), d)
  {
    var j :| 0 <= j < |PanelPoints(p)| && Day(PanelPoints(p)[j].time) == d;
    var s := Timeline(p)[j];
    assert s in Timeline(p);
    var i :| i in p.instruments && s in p.Series(i);
    PanelTimes(q, rows, observations, p, i, s);
  }

  lemma {:induction false} BarDayHasPoint(q: Request, rows: seq<PITRow>, observations: seq<Observation>, p: Panel, d: Date)
    requires IsPanel(q, rows, observations, p) && HasDay(q, rows, Universe(q, observations), d)
    ensures OnDay(PanelPoints(p), d)
  {
    var i, s :| i in Universe(q, observations) && Day(s) == d && BarOn(q, rows, i, s).Some?;
    PanelTimes(q, rows, observations, p, i, s);
    assert i in p.instruments && s in p.Series(i);
    TimeHasPoint(p, s);
  }

  lemma {:induction false} TimeHasPoint(p: Panel, s: Time)
    requires p.Valid() && s in Timeline(p)
    ensures OnDay(PanelPoints(p), Day(s))
  {
    var j :| 0 <= j < |Timeline(p)| && Timeline(p)[j] == s;
    assert PanelPoints(p)[j].time == s;
  }

  predicate DateLe(a: CurvePoint, b: CurvePoint) {
    a.date <= b.date
  }

  lemma {:induction false} EarlyDatesIncrease(es: seq<CurvePoint>, d: Date)
    requires DatesIncrease(es)
    ensures DatesIncrease(EntriesBefore(es, d))
  {
    forall k, l | 0 <= k < l < |EntriesBefore(es, d)| ensures EntriesBefore(es, d)[k].date < EntriesBefore(es, d)[l].date {
      var a, b := FilterIndices(es, (e: CurvePoint) => e.date < d, k, l);
    }
  }

  /** Entries in date order are determined by which they are. */
  lemma {:induction false} SameEntries(es: seq<CurvePoint>, fs: seq<CurvePoint>)
    requires DatesIncrease(es) && DatesIncrease(fs) && forall e :: e in es <==> e in fs
    ensures es == fs
  {
    DistinctSameMultiset(es, fs);
    SortedUnique(DateLe, es, fs);
  }

  /** Both curves' entries on a day are the same. */
  ghost predicate AgreeOnDays(es: seq<CurvePoint>, fs: seq<CurvePoint>, d: Date) {
    forall k, l | 0 <= k < |es| && 0 <= l < |fs| && es[k].date == fs[l].date < d :: es[k] == fs[l]
  }

  lemma {:induction false} EarlyEntriesIncluded(es: seq<CurvePoint>, fs: seq<CurvePoint>, d: Date)
    requires AgreeOnDays(es, fs, d) && forall x | x < d :: Lists(es, x) ==> Lists(fs, x)
    ensures forall e :: e in EntriesBefore(es, d) ==> e in EntriesBefore(fs, d)
  {
    forall e | e in EntriesBefore(es, d) ensures e in EntriesBefore(fs, d) {
      var k :| 0 <= k < |es| && es[k] == e;
      assert Lists(es, e.date);
      var l :| 0 <= l < |fs| && fs[l].date == e.date;
      assert fs[l] in fs;
    }
  }

  lemma {:induction false} EarlyEntriesList(es: seq<CurvePoint>, fs: seq<CurvePoint>, d: Date, x: Date)
    requires EntriesBefore(es, d) == EntriesBefore(fs, d) && x < d && Lists(es, x)
    ensures Lists(fs, x)
  {
    var k :| 0 <= k < |es| && es[k].date == x;
    assert es[k] in es;
    assert es[k] in EntriesBefore(fs, d);
    var l :| 0 <= l < |fs| && fs[l] == es[k];
  }

  lemma {:induction false} SameEarlyEntriesIff(es: seq<CurvePoint>, fs: seq<CurvePoint>, d: Date)
    requires DatesIncrease(es) && DatesIncrease(fs) && AgreeOnDays(es, fs, d)
    ensures EntriesBefore(es, d) == EntriesBefore(fs, d) <==> forall x | x < d :: Lists(es, x) <==> Lists(fs, x)
  {
    if EntriesBefore(es, d) == EntriesBefore(fs, d) {
      forall x | x < d ensures Lists(es, x) <==> Lists(fs, x) {
        if Lists(es, x) { EarlyEntriesList(es, fs, d, x); }
        if Lists(fs, x) { EarlyEntriesList(fs, es, d, x); }
      }
    } else if forall x | x < d :: Lists(es, x) <==> Lists(fs, x) {
      EarlyEntriesIncluded(es, fs, d);
      EarlyEntriesIncluded(fs, es, d);
      EarlyDatesIncrease(es, d);
      EarlyDatesIncrease(fs, d);
      SameEntries(EntriesBefore(es, d), EntriesBefore(fs, d));
    }
  }

  /** Two daily curves have the same entries for all days before `t`'s day exactly when the universes have bars
      on the same of these days. */
  lemma {:induction false} DailyCurvesAgreeIff(q: Request, rows: seq<PITRow>, observations: seq<Observation>, p: Panel,
                                               otherRows: seq<PITRow>, otherObservations: seq<Observation>, other: Panel, t: Time)
    requires Runs(q, rows, observations, p, otherRows, otherObservations, other)
    requires SameUpTo(rows, observations, otherRows, otherObservations, t)
    ensures EntriesBefore(CurveOf(DailyCloses(PanelPoints(p))), Day(t)) == EntriesBefore(CurveOf(DailyCloses(PanelPoints(other))), Day(t))
            <==> forall d | d < Day(t) :: HasDay(q, rows, Universe(q, observations), d) <==> HasDay(q, otherRows, Universe(q, otherObservations), d)
  {
    var es, fs := DailyCurve(PanelPoints(p)), DailyCurve(PanelPoints(other));
    DailyCurveIsReported(PanelPoints(p));
    DailyCurveIsReported(PanelPoints(other));
    EarlyDaysAgree(q, rows, observations, p, otherRows, otherObservations, other, t);
    SameEarlyEntriesIff(es, fs, Day(t));
    forall d ensures Lists(es, d) <==> HasDay(q, rows, Universe(q, observations), d) {
      CurveDays(q, rows, observations, p, d);
    }
    forall d ensures Lists(fs, d) <==> HasDay(q, otherRows, Universe(q, otherObservations), d) {
      CurveDays(q, otherRows, otherObservations, other, d);
    }
  }

  lemma {:induction false} EarlyDaysAgree(q: Request, rows: seq<PITRow>, observations: seq<Observation>, p: Panel,
                                          otherRows: seq<PITRow>, otherObservations: seq<Observation>, other: Panel, t: Time)
    requires Runs(q, rows, observations, p, otherRows, otherObservations, other)
    requires SameUpTo(rows, observations, otherRows, otherObservations, t)
    ensures DatesIncrease(DailyCurve(PanelPoints(p))) && DatesIncrease(DailyCurve(PanelPoints(other)))
    ensures AgreeOnDays(DailyCurve(PanelPoints(p)), DailyCurve(PanelPoints(other)), Day(t))
  {
    var es, fs := DailyCurve(PanelPoints(p)), DailyCurve(PanelPoints(other));
    TimelineOrdered(p);
    TimelineOrdered(other);
    DailyDatesIncrease(PanelPoints(p));
    DailyDatesIncrease(PanelPoints(other));
    DailyCurveIsReported(PanelPoints(p));
    DailyCurveIsReported(PanelPoints(other));
    forall k, l | 0 <= k < |es| && 0 <= l < |fs| && es[k].date == fs[l].date < Day(t) ensures es[k] == fs[l] {
      DailyEquityNeverLooksAhead(q, rows, observations, p, otherRows, otherObservations, other, t, k, l);
    }
  }

  lemma {:induction false} DailyTime(points: seq<Point>, k: nat)
    requires k < |DailyCloses(points)|
    ensures DailyCloses(points)[k].time == EndOfDay(CurveOf(DailyCloses(points))[k].date)
  {
    DailyIsLastOfDay(points);
    EndOfDayHasItsDay(Days(points)[LastAt(Days(points))[k]]);
  }

  // ---------- a run in which the condition fails ----------

  const CLOSE: string := "market.eod.close"

  function CloseRow(i: string, t: Time): PITRow {
    PITRow("futures", CLOSE, i, t, t, t, "1", "vendor", "research", Some(10.0))
  }

  const ALL_OBSERVED := Request(None, None, None, Daily, 100.0, 1)

  function TwoRows(): seq<PITRow> {
    [CloseRow("A.SHF", 1 * DAY), CloseRow("B.SHF", 2 * DAY)]
  }

  const EARLY := Observation("A.SHF", 0, Some(1.0))
  const LATE := Observation("B.SHF", 10 * DAY, Some(1.0))

  lemma {:induction false} CloseField()
    ensures BarBuilding.FieldOf(CLOSE, Prefix(Daily)) == Some(BarBuilding.Close)
  {
    var prefix := Prefix(Daily) + ".";
    assert prefix == "market.eod.";
    assert CLOSE == prefix + "close";
    assert CLOSE[|prefix|..] == "close";
  }

  lemma {:induction false} CloseFeeds(j: string, u: Time, slot: BarBuilding.Slot, f: BarBuilding.BarField)
    ensures BarBuilding.Feeds(CloseRow(j, u), Prefix(Daily), slot, f) <==> slot == BarBuilding.Slot(j, u) && f == BarBuilding.Close
  {
    CloseField();
  }

  lemma {:induction false} LastFieldOfTwo(a: PITRow, b: PITRow, prefix: string, slot: BarBuilding.Slot, f: BarBuilding.BarField)
    ensures BarBuilding.LastField([a, b], prefix, slot, f)
         == if BarBuilding.Feeds(b, prefix, slot, f) then b.value else if BarBuilding.Feeds(a, prefix, slot, f) then a.value else None
  {
    assert [a, b] == [a] + [b] && [a] == [] + [a];
    BarBuilding.LastFieldAppend([a], b, prefix, slot, f);
    BarBuilding.LastFieldAppend([], a, prefix, slot, f);
  }

  lemma {:induction false} OneCloseEach(slot: BarBuilding.Slot, f: BarBuilding.BarField)
    ensures BarBuilding.LastField(TwoRows(), Prefix(Daily), slot, f)
         == if f == BarBuilding.Close && (slot == BarBuilding.Slot("A.SHF", 1 * DAY) || slot == BarBuilding.Slot("B.SHF", 2 * DAY))
            then Some(10.0) else None
  {
    LastFieldOfTwo(CloseRow("A.SHF", 1 * DAY), CloseRow("B.SHF", 2 * DAY), Prefix(Daily), slot, f);
    CloseFeeds("A.SHF", 1 * DAY, slot, f);
    CloseFeeds("B.SHF", 2 * DAY, slot, f);
  }

  lemma {:induction false} NothingOutside()
    ensures WindowRows(ALL_OBSERVED, TwoRows()) == TwoRows()
  {
    FilterAll(TwoRows(), r => InWindow(ALL_OBSERVED, r));
  }

  lemma {:induction false} OneBarEach(i: string, s: Time)
    ensures BarOn(ALL_OBSERVED, TwoRows(), i, s)
         == if (i == "A.SHF" && s == 1 * DAY) || (i == "B.SHF" && s == 2 * DAY)
            then Some(Resolver.Bar(s, 10.0, 10.0, 10.0, 10.0, 0.0, map[], None)) else None
  {
    NothingOutside();
    forall f { OneCloseEach(BarBuilding.Slot(i, s), f); }
  }

  lemma {:induction false} ObservedInstruments(observations: seq<Observation>)
    requires observations == [EARLY] || observations == [EARLY, LATE]
    ensures forall i :: i in Universe(ALL_OBSERVED, observations) <==> i == "A.SHF" || (i == "B.SHF" && |observations| == 2)
  {
    assert observations[0] in observations;
    assert |observations| == 2 ==> observations[1] in observations;
    forall i ensures i in Universe(ALL_OBSERVED, observations) <==> i == "A.SHF" || (i == "B.SHF" && |observations| == 2) {
      DefaultUniverse(ALL_OBSERVED, observations, i);
    }
  }

  lemma {:induction false} Venues()
    ensures Contracts.Venue("A.SHF") == Some("SHFE") && Contracts.Venue("B.SHF") == Some("SHFE")
  {
    assert Contracts.AfterDot("A.SHF") == "SHF" && Contracts.AfterDot("B.SHF") == "SHF";
    assert Contracts.Upper("SHF") == "SHF";
  }

  lemma {:induction false} BarsAccepted(ids: seq<string>)
    requires forall i :: i in ids ==> i == "A.SHF" || i == "B.SHF"
    ensures BarsRefusal(ALL_OBSERVED, TwoRows(), ids).None?
  {
    Venues();
    forall i | i in ids ensures HasBars(WindowRows(ALL_OBSERVED, TwoRows()), Prefix(Daily), i) {
      OneBarEach(i, 1 * DAY);
      OneBarEach(i, 2 * DAY);
      assert BarOn(ALL_OBSERVED, TwoRows(), i, 1 * DAY).Some? || BarOn(ALL_OBSERVED, TwoRows(), i, 2 * DAY).Some?;
    }
    assert VenueConflict(ids).None? && Unfit(WindowRows(ALL_OBSERVED, TwoRows()), Prefix(Daily), ids).None?;
    BarsValid(ids);
  }

  lemma {:induction false} BarsValid(ids: seq<string>)
    ensures !BarBuilding.HasInvalidBar(WindowRows(ALL_OBSERVED, TwoRows()), Prefix(Daily), ids)
  {
    var rows, prefix := WindowRows(ALL_OBSERVED, TwoRows()), Prefix(Daily);
    forall i, s | BarBuilding.BarAt(rows, prefix, BarBuilding.Slot(i, s)).Some?
      ensures BarBuilding.BarAt(rows, prefix, BarBuilding.Slot(i, s)).value.Valid()
    {
      OneBarEach(i, s);
      assert BarBuilding.BarAt(rows, prefix, BarBuilding.Slot(i, s)) == BarOn(ALL_OBSERVED, TwoRows(), i, s);
    }
  }

  lemma {:induction false} NotRefused(observations: seq<Observation>)
    requires observations == [EARLY] || observations == [EARLY, LATE]
    ensures Refusal(ALL_OBSERVED, TwoRows(), observations).None?
  {
    var ids := Universe(ALL_OBSERVED, observations);
    ObservedInstruments(observations);
    assert "A.SHF" in ids;
    BarsAccepted(ids);
    assert BadRequest(ALL_OBSERVED, observations).None?;
  }

  lemma {:induction false} SameUntilDayFive()
    ensures SameUpTo(TwoRows(), [EARLY], TwoRows(), [EARLY, LATE], 5 * DAY)
  {
    assert Day(LATE.eventTime) == 10 && Day(5 * DAY) == 5;
    assert [EARLY, LATE] == [EARLY] + [LATE];
  }

  lemma {:induction false} BringsDayTwo(ids: seq<string>, otherIds: seq<string>)
    requires "B.SHF" in ids && "B.SHF" !in otherIds
    ensures !BringsNoTime(ALL_OBSERVED, TwoRows(), ids, otherIds, 5 * DAY)
  {
    OneBarEach("B.SHF", 2 * DAY);
    forall j | j in otherIds ensures BarOn(ALL_OBSERVED, TwoRows(), j, 2 * DAY).None? {
      OneBarEach(j, 2 * DAY);
    }
  }

  /** With the default universe a later observation can move the timeline before it: rows with a bar of A on
      day 1 and one of B on day 2 and an observation of A on day 0 give one point up to day 5; an observation
      of B on day 10 adds a second point, on day 2. Both runs complete. */
  lemma {:induction false} LateObservationMovesTimeline(p: Panel, other: Panel)
    requires Runs(ALL_OBSERVED, TwoRows(), [EARLY], p, TwoRows(), [EARLY, LATE], other)
    ensures Refusal(ALL_OBSERVED, TwoRows(), [EARLY]).None? && Refusal(ALL_OBSERVED, TwoRows(), [EARLY, LATE]).None?
    ensures SameUpTo(TwoRows(), [EARLY], TwoRows(), [EARLY, LATE], 5 * DAY)
    ensures PanelPoints(p)[..CountUpTo(Timeline(p), 5 * DAY)] != PanelPoints(other)[..CountUpTo(Timeline(other), 5 * DAY)]
  {
    NotRefused([EARLY]);
    NotRefused([EARLY, LATE]);
    SameUntilDayFive();
    LatePointAdded(p, other);
  }

  lemma {:induction false} LatePointAdded(p: Panel, other: Panel)
    requires Runs(ALL_OBSERVED, TwoRows(), [EARLY], p, TwoRows(), [EARLY, LATE], other)
    requires SameUpTo(TwoRows(), [EARLY], TwoRows(), [EARLY, LATE], 5 * DAY)
    ensures PanelPoints(p)[..CountUpTo(Timeline(p), 5 * DAY)] != PanelPoints(other)[..CountUpTo(Timeline(other), 5 * DAY)]
  {
    ObservedInstruments([EARLY]);
    ObservedInstruments([EARLY, LATE]);
    BringsDayTwo(Universe(ALL_OBSERVED, [EARLY, LATE]), Universe(ALL_OBSERVED, [EARLY]));
    PointsAgreeUpToIff(ALL_OBSERVED, TwoRows(), [EARLY], p, TwoRows(), [EARLY, LATE], other, 5 * DAY);
  }
}
