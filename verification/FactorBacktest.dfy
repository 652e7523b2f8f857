/** `backtest/service.py`, `run_factor_backtest`: request checks and the wiring of bars, targets and equity.
    The engine run in between only contributes its number of fills. */
module FactorBacktest {
  import opened Wrappers
  import opened Clock
  import opened Sequences
  import opened Records
  import opened Equity
  import opened Curve
  import BarBuilding
  import EquityLaws
  import Revisions
  import Targets
  import Text
  import Contracts

  /** A factor value observed for an instrument; a missing value is `None`. */
  datatype Observation = Observation(instrumentId: string, eventTime: Time, value: Option<real>)

  datatype Frequency = Daily | FiveMinute | Unsupported(name: string)

  datatype Request = Request(
    instrumentIds: Option<seq<string>>, start: Option<Date>, end: Option<Date>,
    frequency: Frequency, initialCash: real, lotSize: int)

  function Prefix(f: Frequency): string {
    if f.Daily? then "market.eod" else "market.minute"
  }

  predicate InWindow(q: Request, r: PITRow) {
    (q.start.Some? ==> Day(r.eventTime) >= q.start.value) && (q.end.Some? ==> Day(r.eventTime) <= q.end.value)
  }

  function WindowRows(q: Request, rows: seq<PITRow>): seq<PITRow> {
    Filter(rows, r => InWindow(q, r))
  }

  /** The requested instruments, by default all that have an observed value, sorted. */
  function Universe(q: Request, observations: seq<Observation>): seq<string> {
    match q.instrumentIds
    case Some(ids) => ids
    case None =>
      StableSort(Text.Le, Revisions.FirstSeen(Filter(observations, (o: Observation) => o.value.Some?), (o: Observation) => o.instrumentId))
  }

  /** The factor values of one instrument. */
  function SignalsOf(observations: seq<Observation>, i: string): (signals: seq<Targets.Signal>)
    ensures forall v :: v in signals <==>
              exists o :: o in observations && o.instrumentId == i && o.value == Some(v.value) && Day(o.eventTime) == v.day
  {
    if observations == [] then []
    else
      var front, o := observations[..|observations| - 1], observations[|observations| - 1];
      assert observations == front + [o];
      if o.instrumentId == i && o.value.Some? then SignalsOf(front, i) + [Targets.Signal(Day(o.eventTime), o.value.value)]
      else SignalsOf(front, i)
  }

  /** The checks made before any row is read. */
  function BadRequest(q: Request, observations: seq<Observation>): Option<BacktestError> {
    if q.lotSize < 1 then Some(NonPositiveLot)
    else if q.initialCash <= 0.0 then Some(NonPositiveCash)
    else if q.start.Some? && q.end.Some? && q.end.value < q.start.value then Some(EndBeforeStart)
    else if q.frequency.Unsupported? then Some(BadFrequency)
    else if Universe(q, observations) == [] then Some(NoInstruments)
    else None
  }

  /** The panel the equity loop runs on. */
  ghost predicate IsPanel(q: Request, rows: seq<PITRow>, observations: seq<Observation>, p: Panel) {
    var ids := Universe(q, observations);
    && p.Valid() && p.cash == q.initialCash
    && p.instruments == BarBuilding.Once(ids)
    && (forall i :: i in ids ==> i in p.targets)
    && (forall i :: i in ids ==> p.bars[i] != [] && BarBuilding.IsSeries(WindowRows(q, rows), Prefix(q.frequency), i, p.bars[i]))
    && (forall i :: i in ids ==> p.targets[i] == Targets.TargetMap(SignalsOf(observations, i), Stamps(p.bars[i]), q.lotSize))
  }

  ghost predicate HasBars(rows: seq<PITRow>, prefix: string, i: string) {
    !BarBuilding.IsSeries(rows, prefix, i, [])
  }

  /** The error of the checks on the built bars and on the instrument codes. */
  ghost function Unfit(rows: seq<PITRow>, prefix: string, ids: seq<string>): Option<BacktestError> {
    if exists i :: i in ids && !HasBars(rows, prefix, i) then Some(NoMarketData) else VenueConflict(ids)
  }

  /** All instruments must have a venue, and share it. */
  ghost function VenueConflict(ids: seq<string>): Option<BacktestError> {
    if exists i :: i in ids && Contracts.Venue(i).None? then Some(UnsupportedInstrument)
    else if exists i, j :: i in ids && j in ids && Contracts.Venue(i) != Contracts.Venue(j) then Some(MixedVenues)
    else None
  }

  method FindVenueConflict(ids: seq<string>) returns (e: Option<BacktestError>)
    requires ids != []
    ensures e == VenueConflict(ids)
  {
    assert ids[0] in ids;
    if exists i :: i in ids && Contracts.Venue(i).None? {
      return Some(UnsupportedInstrument);
    }
    if exists i :: i in ids && Contracts.Venue(i) != Contracts.Venue(ids[0]) {
      return Some(MixedVenues);
    }
    return None;
  }

  ghost function BarsRefusal(q: Request, rows: seq<PITRow>, ids: seq<string>): Option<BacktestError> {
    if BarBuilding.HasInvalidBar(WindowRows(q, rows), Prefix(q.frequency), ids) then Some(InvalidBar)
    else Unfit(WindowRows(q, rows), Prefix(q.frequency), ids)
  }

  /** The error a backtest raises before the equity loop, if any, in the order of the checks. */
  ghost function Refusal(q: Request, rows: seq<PITRow>, observations: seq<Observation>): Option<BacktestError> {
    var ids := Universe(q, observations);
    if BadRequest(q, observations).Some? then BadRequest(q, observations) else BarsRefusal(q, rows, ids)
  }

  lemma {:induction false} MissingBars(rows: seq<PITRow>, prefix: string, ids: seq<string>, bars: Dict<string, seq<Bar>>, i: string)
    requires BarBuilding.IsBarDict(rows, prefix, ids, bars) && i in ids
    ensures i in bars.keys <==> HasBars(rows, prefix, i)
  {
    if i in bars.keys && !HasBars(rows, prefix, i) {
      BarBuilding.SeriesUnique(rows, prefix, i, bars.items[i], []);
    }
  }

  method FindUnfit(ghost rows: seq<PITRow>, ghost prefix: string, ids: seq<string>, bars: Dict<string, seq<Bar>>)
    returns (e: Option<BacktestError>)
    requires BarBuilding.IsBarDict(rows, prefix, ids, bars) && ids != []
    ensures e == Unfit(rows, prefix, ids)
    ensures e.None? ==> bars.keys == BarBuilding.Once(ids)
  {
    forall i | i in ids ensures i in bars.keys <==> HasBars(rows, prefix, i) {
      MissingBars(rows, prefix, ids, bars, i);
    }
    if exists i :: i in ids && i !in bars.keys {
      return Some(NoMarketData);
    }
    FilterAll(BarBuilding.Once(ids), i => i in bars.items);
    e := FindVenueConflict(ids);
  }

  lemma {:induction false} PanelBuilt(q: Request, rows: seq<PITRow>, observations: seq<Observation>,
                                      bars: Dict<string, seq<Bar>>, targets: Dict<string, map<Time, int>>)
    requires q.initialCash > 0.0
    requires BarBuilding.IsBarDict(WindowRows(q, rows), Prefix(q.frequency), Universe(q, observations), bars)
    requires bars.keys == BarBuilding.Once(Universe(q, observations)) && targets.keys == bars.keys && targets.Valid()
    requires forall i :: i in bars.keys ==>
               targets.items[i] == Targets.TargetMap(SignalsOf(observations, i), Stamps(bars.items[i]), q.lotSize)
    ensures IsPanel(q, rows, observations, Panel(bars.keys, bars.items, targets.items, q.initialCash))
  {
  }

  /** Everything up to the built and checked bars. */
  method PrepareBars(q: Request, rows: seq<PITRow>, ids: seq<string>) returns (r: Result<Dict<string, seq<Bar>>, BacktestError>)
    requires ids != []
    ensures r.Err? ==> Some(r.error) == BarsRefusal(q, rows, ids)
    ensures r.Ok? ==> BarsRefusal(q, rows, ids).None? && VenueConflict(ids).None?
    ensures r.Ok? ==> BarBuilding.IsBarDict(WindowRows(q, rows), Prefix(q.frequency), ids, r.value) && r.value.keys == BarBuilding.Once(ids)
  {
    var built := BarBuilding.BuildBars(WindowRows(q, rows), ids, Prefix(q.frequency));
    if built.None? {
      return Err(InvalidBar);
    }
    var unfit := FindUnfit(WindowRows(q, rows), Prefix(q.frequency), ids, built.value);
    return if unfit.Some? then Err(unfit.value) else Ok(built.value);
  }

  lemma {:induction false} VenuesKnown(ids: seq<string>)
    requires VenueConflict(ids).None?
    ensures !exists i :: i in BarBuilding.Once(ids) && Contracts.Venue(i).None?
  {
  }

  /** `run_factor_backtest`; `p` is the panel the equity loop ran on. */
  method RunFactorBacktest(q: Request, rows: seq<PITRow>, observations: seq<Observation>, fills: nat)
    returns (r: Result<(seq<CurvePoint>, Metrics), BacktestError>, ghost p: Panel)
    ensures r.Err? <==> Refusal(q, rows, observations).Some?
    ensures r.Err? ==> Some(r.error) == Refusal(q, rows, observations)
    ensures r.Ok? ==> IsPanel(q, rows, observations, p)
    ensures r.Ok? ==> r.value == (CurveOf(Reported(PanelPoints(p), !q.frequency.Daily?)),
                                  MetricsOf(q.initialCash, PanelPoints(p), !q.frequency.Daily?, fills))
  {
    p := Panel([], map[], map[], q.initialCash);
    var bad := BadRequest(q, observations);
    if bad.Some? {
      return Err(bad.value), p;
    }
    var prepared := PrepareBars(q, rows, Universe(q, observations));
    if prepared.Err? {
      return Err(prepared.error), p;
    }
    var bars := prepared.value;
    var targets := WireTargets(bars, observations, q.lotSize);
    p := Panel(bars.keys, bars.items, targets.items, q.initialCash);
    PanelBuilt(q, rows, observations, bars, targets);
    VenuesKnown(Universe(q, observations));
    r := EquityCurve(bars, targets, q.initialCash, fills, !q.frequency.Daily?);
  }

  /** The loop that maps each instrument's factor values onto its own bars. */
  method WireTargets(bars: Dict<string, seq<Bar>>, observations: seq<Observation>, lotSize: int)
    returns (targets: Dict<string, map<Time, int>>)
    requires bars.Valid()
    ensures targets.Valid() && targets.keys == bars.keys
    ensures forall i :: i in bars.keys ==>
              targets.items[i] == Targets.TargetMap(SignalsOf(observations, i), Stamps(bars.items[i]), lotSize)
  {
    var items: map<string, map<Time, int>> := map[];
    for n := 0 to |bars.keys|
      invariant forall i :: i in items <==> i in bars.keys[..n]
      invariant forall i :: i in items ==>
                  i in bars.items && items[i] == Targets.TargetMap(SignalsOf(observations, i), Stamps(bars.items[i]), lotSize)
    {
      var i := bars.keys[n];
      assert i in bars.keys;
      var byBar := Targets.TargetsByBar(SignalsOf(observations, i), Stamps(bars.items[i]), lotSize);
      items := items[i := byBar];
      assert bars.keys[..n + 1] == bars.keys[..n] + [i];
    }
    assert bars.keys[..|bars.keys|] == bars.keys;
    targets := Dict(bars.keys, items);
  }

  // ---------- the panel ----------

  /** The result is a function of the request, the rows and the observations. */
  lemma {:induction false} PanelIsDetermined(q: Request, rows: seq<PITRow>, observations: seq<Observation>, p: Panel, o: Panel)
    requires IsPanel(q, rows, observations, p) && IsPanel(q, rows, observations, o)
    ensures p.instruments == o.instruments
    ensures forall i :: i in p.instruments ==> i in p.bars && i in o.bars && p.bars[i] == o.bars[i] && p.TargetsOf(i) == o.TargetsOf(i)
  {
    forall i | i in p.instruments ensures i in p.bars && i in o.bars && p.bars[i] == o.bars[i] && p.TargetsOf(i) == o.TargetsOf(i) {
      BarBuilding.SeriesUnique(WindowRows(q, rows), Prefix(q.frequency), i, p.bars[i], o.bars[i]);
    }
  }

  /** A produced panel is wired as the ledger identity needs: each target map lives on its own bar times. */
  lemma {:induction false} PanelIsWired(q: Request, rows: seq<PITRow>, observations: seq<Observation>, p: Panel)
    requires IsPanel(q, rows, observations, p)
    ensures EquityLaws.AllWired(p)
  {
    forall i | i in p.instruments ensures EquityLaws.Wired(p.bars[i], p.TargetsOf(i)) {
      assert BarBuilding.Ascending(p.bars[i]);
    }
  }

  // ---------- the checks, spelled out ----------

  /** The first refusals, in their order. */
  lemma {:induction false} EarlyRefusals(q: Request, observations: seq<Observation>)
    ensures BadRequest(q, observations) == Some(NonPositiveLot) <==> q.lotSize <= 0
    ensures BadRequest(q, observations) == Some(NonPositiveCash) <==> q.lotSize > 0 && q.initialCash <= 0.0
    ensures BadRequest(q, observations) == Some(EndBeforeStart) <==>
              q.lotSize > 0 && q.initialCash > 0.0 && q.start.Some? && q.end.Some? && q.end.value < q.start.value
    ensures BadRequest(q, observations) == Some(BadFrequency) ==> q.frequency != Daily && q.frequency != FiveMinute
    ensures BadRequest(q, observations) == Some(NoInstruments) ==>
              q.instrumentIds == Some([]) || (q.instrumentIds == None && forall o :: o in observations ==> o.value == None)
    ensures BadRequest(q, observations) == None ==>
              && q.lotSize > 0 && q.initialCash > 0.0 && (q.frequency == Daily || q.frequency == FiveMinute)
              && (q.start.Some? && q.end.Some? ==> q.start.value <= q.end.value)
              && (q.instrumentIds != Some([])) && (q.instrumentIds == None ==> exists o :: o in observations && o.value != None)
  {
    if q.instrumentIds == None {
      ObservedUniverse(observations);
      if Universe(q, observations) != [] {
        assert Universe(q, observations)[0] in Universe(q, observations);
      }
    }
  }

  /** The default universe: the instruments with an observed value, each once, in code point order. */
  lemma {:induction false} ObservedUniverse(observations: seq<Observation>)
    ensures forall q: Request | q.instrumentIds == None ::
              && (forall i :: i in Universe(q, observations) <==> exists o :: o in observations && o.value != None && o.instrumentId == i)
              && (forall j, k | 0 <= j < k < |Universe(q, observations)| ::
                    Universe(q, observations)[j] != Universe(q, observations)[k]
                    && Text.InCodeOrder(Universe(q, observations)[j], Universe(q, observations)[k]))
  {
    var valued, idOf := (o: Observation) => o.value.Some?, (o: Observation) => o.instrumentId;
    var seen := Revisions.FirstSeen(Filter(observations, valued), idOf);
    var ids := StableSort(Text.Le, seen);
    SameElements(ids, seen);
    forall i ensures i in ids <==> exists o :: o in observations && o.value != None && o.instrumentId == i {
      assert i in seen <==> exists o :: o in Filter(observations, valued) && idOf(o) == i;
    }
    SortedOnce(seen);
  }

  lemma {:induction false} SortedOnce(seen: seq<string>)
    requires Distinct(seen)
    ensures forall j, k | 0 <= j < k < |StableSort(Text.Le, seen)| ::
              var ids := StableSort(Text.Le, seen);
              ids[j] != ids[k] && Text.InCodeOrder(ids[j], ids[k])
  {
    var ids := StableSort(Text.Le, seen);
    assert TotalPreorder(Text.Le) by {
      forall x: string, y: string, z: string ensures (Text.Le(x, y) || Text.Le(y, x)) && (Text.Le(x, y) && Text.Le(y, z) ==> Text.Le(x, z)) {
        Text.LtRank(x, y, z);
      }
    }
    SortSorts(Text.Le, seen);
    forall j, k | 0 <= j < k < |ids| ensures ids[j] != ids[k] && Text.InCodeOrder(ids[j], ids[k]) {
      assert Text.Le(ids[j], ids[k]);
      Text.LeIff(ids[j], ids[k]);
      if ids[j] == ids[k] {
        TwiceCounts(ids, j, k);
        DistinctCount(seen, ids[j]);
      }
    }
  }
}
