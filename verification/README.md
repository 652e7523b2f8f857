# Verification of the point-in-time data kernel

This project models the part of the platform that its claims of "no look-ahead, deterministic results,
auditability" rest on, and proves those claims of the model: the backtest arithmetic, the bar algebra, the
three revision resolvers, label construction, canonical hashing and the content-addressed store, the
experiment lifecycles, the provisioning task registry, and the event parser of the browser client.

Check everything with `dafny verify dfyconfig.toml`. `{:induction false}` stands on every lemma: each proof
is the one that is written down, none is left to automatic induction.

## How the model is laid out

| files | what they model |
|---|---|
| `Wrappers`, `Sequences`, `Clock`, `Lexicographic`, `Text`, `Records` | shared vocabulary: results, filtering, stable sorting, ordered dicts, instants and days, code-point order, the two row types |
| `Revisions` | the "keep the better row per key" fold behind all three resolvers, against a first-best-row specification |
| `Gateway`, `Loader`, `PitStore`, `RowOrders` | the formal query, the decision-time loader, the observation table; what each returns, in terms of the rows' own fields |
| `Resolver`, `BarWindows`, `TradingDates` | bar resampling, which bars it puts together, and trading-date assignment |
| `Targets`, `BarBuilding`, `BarFields`, `Contracts`, `Equity`, `Drawdown`, `Curve`, `Compounding`, `Statistics`, `FactorBacktest` | the factor backtest from rows to metrics |
| `EquityLaws`, `Profit`, `PanelAgreement`, `LookAhead` | what equity runs guarantee: the ledger identity, equity in plain arithmetic, and no look-ahead for panels and for whole backtests |
| `Labels`, `LabelValues`, `LabelLeaks`, `LabelCounts`, `Provisioning`, `Tasks` | label snapshots, what a label says and when it leaks, provisioning order, the task registry |
| `JsonStrings`, `JsonText`, `JsonReader`, `JsonObjects`, `Canonical`, `CanonicalShape`, `ArtifactValue`, `CanonicalLaws`, `Idempotence` | both canonicalisers, their common form, the JSON text that is hashed, and an independent reader of it |
| `ArtifactStore`, `Lifecycle` | the content-addressed store, and the lifecycles of specs, runs and attempts |
| `EventStream`, `WireFormat` | the incremental parser of `streamAgentTurn`, the server encoding it reads, and the wire format spelled out |

Code that works by updating state is a class or a method with loops, proved against a specification function;
the laws are then proved of that function. A raised exception is an `Err` or `None` result.

What the operations compute is also stated without the functions they share with their specification, in plain
arithmetic, in the rows' own fields, or in literal text: `Profit`, `BarWindows`, `BarFields`, `LabelValues`,
`RowOrders`, `Statistics`, `JsonReader`, `CanonicalShape` and `WireFormat`.

Conventions: a datetime is its count of microseconds in one fixed UTC offset, its day is a floor division;
prices, cash and factor values are `real`; identifiers are sequences of Unicode scalar values compared by code
point, as Python compares `str`, while the texts and keys of canonicalised values (`PyStr`) are sequences of
Python code points, surrogates included; a Python dict whose iteration order matters is a `Dict` (key sequence
plus map).

## What was found

Where a natural claim is false of the code, the code is kept, a failing input is exhibited and the exact
condition is proved.

- Without requested instruments the universe is taken from all observations, so a factor value observed later
  can put an instrument, and with it points, on the timeline before it (`LateObservationMovesTimeline`).
  Equity, running peak and running drawdown never look ahead: after every time up to `t` they are the same
  (`EndToEndNoLookAhead`, `DrawdownNeverLooksAhead`). The points up to `t` are the same iff, up to `t`, no
  instrument of only one universe has a bar at a time at which the other universe has none (`PointsAgreeUpToIff`), and the daily curves before `t`'s day are the same iff the
  universes have bars on the same of these days (`DailyCurvesAgreeIff`).
- Resampling keys a bucket by time of day only, so bars of different days can merge (`BucketSpansDays`).
  Buckets are windows of one day iff no two consecutive bars from different days share their key
  (`BucketIsWindowIff`); composition of resamplings holds regardless.
- `load` is documented as resolving revisions like the loader, but it prefers formal rows whatever their
  ingest time (`ExploratoryRowOvertakes`). The two agree for a key iff no exploratory row overtakes all formal
  ones (`LoadMatchesLoaderIff`).
- The gateway's answer is the same in every row order of the snapshot iff at most one visible row of every key
  is unbeaten (`AnswerIgnoresRowOrderIff`).
- The query of `load` has no order. The rows served are the same in every order the database may return iff at
  most one row of every key in scope is unbeaten (`LoadIgnoresOrderIff`).
- The loader and the gateway agree, for ordered revisions, iff every row available by the decision time has
  also been ingested by then (`ResolversAgreeIff`; `LateIngestDivides` is a case where they do not).
- Trading dates can go backwards when a day-session bar falls on a non-trading day after a night session
  (`HolidayBarIsOutOfOrder`, `TradingDatesOrderedIff`).
- The one-pass drawdown is the largest relative fall over all pairs of points iff equity stays non-negative, or
  some fall from the initial cash is the worst one and no other positive value precedes it
  (`DrawdownIsBruteForceIff`; `NegativeEquityBreaksBruteForce` is a path where it is not). It exceeds 100%
  exactly when equity has been negative (`DrawdownBeyondOneIff`).
- The daily curve can fall deeper than the reported drawdown (`DailyDrawdownCanExceed`). It does not iff every
  daily equity below zero is matched by a fall of the full path (`DailyDrawdownIsSmallerIff`); while equity is
  non-negative it never does.
- Returns compound to the total return while equity is positive before the end (`TotalReturnIsCompounded`), but
  not when it touches zero and recovers (`RuinBreaksCompounding`). Where a non-positive equity precedes the end
  they do iff equity goes on, after the last such point, at exactly what had been compounded, or recovers and
  ends in zero (`ReturnsCompoundIff`).
- With `2h < n < 3h - 1` trading days the slice start is negative, the window is empty and no label is
  produced (`WindowEmptyIff`, `TooFewDaysNoLabels`); a dense instrument gets a full set of `h` labels iff
  `n > 2h` and `n >= 3h - 1` (`DenseLabelCount`).
- `build_label_snapshot` can leak for rows with repeated closes (`RevisionsLeak`). A label leaks iff some
  instrument has a positive close on a window day that at least `h` of its closes follow, in event time and
  then row order, up to the decision time (`LabelsLeakIff`); repeating other fields is harmless
  (`UniqueClosesDoNotLeak`). Provisioning is safe because `persist` refuses such rows first (`Provision`).
- The ASCII escapes of two surrogates are the escape of the character they encode. Two texts have one escape iff
  they are equal after joining surrogate pairs (`EscapeIff`, `SurrogatesCollide`), so canonical texts identify
  forms up to that, and exactly the forms themselves where no low surrogate follows a high one
  (`CanonicalTextIdentifiesForm`, `CanonicalTextsCollide`, `SpelledApartSharesHash`).
- The artifact store's canonicaliser refuses records the other one accepts: those that hold, in a field, a
  read-only view or a dict with a record among its keys, because `asdict` copies fields and hashes keys
  (`AcceptanceDiffers`). A bar built without extra columns is such a record (`BarsDiffer`). It accepts nothing
  more, and on what both accept the two agree (`CanonicalisersAgree`).
- A mapping's canonical text depends on iteration order iff two keys share their `str()` and their values
  differ in text (`MappingOrderMattersIff`, `CollidingKeysDependOnOrder`). Enum payloads are returned raw, so
  canonicalising twice is canonicalising once iff the payloads that survive key collisions hold no negative
  zero and no non-finite number (`CanonicalFormIsIdempotentIff`, `NegativeZeroMemberChanges`).
- `InMemoryArtifactStore.put` checks the media type only after it has written: a blank one raises, but the
  payload stays stored and no later `put` of it can succeed (`BlankPutBlocksForever`).
- `add_attempt` ignores the run's state: a cancelled run still takes an attempt (`CancelledRunTakesAttempt`).

## Model

| member | source | states |
|---|---|---|
| Revisions.LatestIsFirstBest | src/quant_platform/data_gateway/gateway.py:64-70 | scanning with a dict keeps, per key, the row nothing beats, the first of equally ranked ones |
| Revisions.LatestWindow | src/quant_platform/data_gateway/gateway.py:64-70 | when late rows beat early ones of their key, resolving all rows is letting the late result override the early one |
| Revisions.LatestOrderFree | src/quant_platform/data_gateway/gateway.py:64-70 | where no two different rows of a key are unbeaten, the scan order does not matter |
| Gateway.FindField | src/quant_platform/data_gateway/models.py:103-107 | a field contract of that name, absent iff no contract has the name |
| Gateway.AdmittedField | src/quant_platform/data_gateway/models.py:72-107 | every requested field of an admitted query is declared and licensed for it |
| Gateway.PITDataGateway.Query | src/quant_platform/data_gateway/gateway.py:38-90 | raises the first refusal in the order snapshot, artifact class, dataset, source class, then fields in request order; otherwise returns exactly the specified answer |
| Gateway.PITDataGateway.CheckFields | src/quant_platform/data_gateway/gateway.py:50-54 | the first refusal among the requested fields |
| Gateway.PITDataGateway.ScanRows | src/quant_platform/data_gateway/gateway.py:56-70 | the revision dict over the visible rows, keys in first-seen order |
| Gateway.AnswerIsArgmaxPerKey | src/quant_platform/data_gateway/gateway.py:56-70 | a row is answered iff it is visible and the first of the maximal ones of its key in (available, ingested, revision id) |
| Gateway.EveryVisibleKeyIsAnswered | src/quant_platform/data_gateway/gateway.py:56-70 | no key with a visible row is missing from the answer |
| Gateway.AnswerHasOneRowPerKey | src/quant_platform/data_gateway/gateway.py:56-90 | no two answered rows share a revision key |
| Gateway.AnswerSorted | src/quant_platform/data_gateway/gateway.py:72-83 | the answer is in (event time, instrument, field, available, revision id) order |
| Gateway.FutureRowsNeverMatter | src/quant_platform/data_gateway/gateway.py:56-66 | snapshots with the same rows available by the decision time have the same answer |
| Gateway.SelectedIncrementally | src/quant_platform/data_gateway/gateway.py:56-70 | the selection at a later decision time is the earlier one overridden by the selection among the rows published in between |
| Gateway.AnswerIncrementally | src/quant_platform/data_gateway/gateway.py:56-90 | a row is answered later iff it is the best one published in between, or was answered before and its key got nothing new |
| Gateway.AnswerIgnoresRowOrder | src/quant_platform/data_gateway/gateway.py:56-94 | where at most one visible row of every key is unbeaten, the answer depends only on which rows the snapshot holds |
| Gateway.AnswerIgnoresRowOrderIff | src/quant_platform/data_gateway/gateway.py:56-94 | the answer is the same in every row order of the snapshot iff at most one visible row of every key is unbeaten |
| Gateway.LicenseTestIsImplied | src/quant_platform/data_gateway/gateway.py:50-63 | in a well-formed snapshot the per-row license test never removes a row the field checks admitted |
| Gateway.AdmittedIff | src/quant_platform/data_gateway/gateway.py:38-54 | a query is admitted iff the snapshot is known and formal, holds the dataset, its source is not exploratory, and every requested field is declared, allowed for the purpose and licensed |
| Gateway.FirstDenied | src/quant_platform/data_gateway/models.py:72-107 | the first field that is not granted is reported: undeclared, or denied for its purpose, or else for its license |
| RowOrders.AnsweredIsNewest | src/quant_platform/data_gateway/gateway.py:56-70 | an answered row meets the conditions of the query, and no such row of its observation is newer in (available, ingested, revision id in code point order) |
| RowOrders.AskedIsAnswered | src/quant_platform/data_gateway/gateway.py:56-70 | every observation with a row that meets the conditions is answered |
| RowOrders.AnswerInOrder | src/quant_platform/data_gateway/gateway.py:72-83 | the answer comes in order of event time, instrument and field, never twice for one observation, so the last two parts of the sort key decide nothing |
| Text.LeIff | src/quant_platform/data_gateway/gateway.py:72-83 | text order is decided at the first difference by code point, a prefix first |
| Loader.ValidatePitRows | src/quant_platform/data_gateway/loader.py:97-108 | accepts a batch iff no two rows share (field, instrument, event time) |
| Loader.FilterAndResolve | src/quant_platform/data_gateway/loader.py:111-137 | returns the specified resolution, in key order |
| Loader.ResolvedIsLatestIngested | src/quant_platform/data_gateway/loader.py:111-137 | a row survives iff it was available and ingested by then and is the first of the latest ingested ones of its key |
| Loader.GatewaySelects | src/quant_platform/data_gateway/gateway.py:56-70 | over ordered revisions the gateway selects a row iff it is the last ingested available one of its key |
| Loader.ResolversAgreeIff | src/quant_platform/data_gateway/loader.py:111-137 | for ordered revisions loader and gateway select the same rows iff every row available by the decision time has been ingested by then |
| Loader.LateIngestDivides | src/quant_platform/data_gateway/loader.py:111-137 | two revisions of a close, the second available but not yet ingested at the decision: the gateway serves the second, the loader the first |
| RowOrders.ResolvedIsLatest | src/quant_platform/data_gateway/loader.py:111-137 | a resolved row was available and ingested by the decision time, and no such row of its reading was ingested later |
| RowOrders.KnownIsResolved | src/quant_platform/data_gateway/loader.py:111-137 | every reading with a row known by then is resolved |
| RowOrders.ResolvedInOrder | src/quant_platform/data_gateway/loader.py:111-137 | resolved rows come in order of field and instrument, never twice for one reading |
| PitStore.SqlAlchemyPitStore.Persist | src/quant_platform/data_gateway/pit_store.py:100-150 | rejects batches with repeated keys and changes nothing then; otherwise appends exactly the rows whose store key is new, counts them, and registers their sources |
| PitStore.SqlAlchemyPitStore.Insert | src/quant_platform/data_gateway/pit_store.py:106-148 | the transaction appends the fresh rows in batch order |
| PitStore.SqlAlchemyPitStore.RegisterSources | src/quant_platform/data_gateway/pit_store.py:226-250 | registered sources keep their record, each new one gets the known record of its id or the default under its own name, and no other appears |
| PitStore.SourcesOverAllRuns | src/quant_platform/data_gateway/pit_store.py:100-250 | over any writes a registered source keeps its record for good, and a new one is registered iff some accepted batch names it |
| PitStore.KnownSources | src/quant_platform/data_gateway/pit_store.py:27-40 | the records of the two known sources, and the one any other source is registered under |
| PitStore.SqlAlchemyPitStore.Load | src/quant_platform/data_gateway/pit_store.py:152-196 | returns the specified rows of the scope, for the order in which the database returns the table |
| PitStore.TableOverAllRuns | src/quant_platform/data_gateway/pit_store.py:100-150 | after any sequence of writes store keys are unique and every earlier table is a prefix of the later one |
| PitStore.RepeatedBatchInsertsNothing | src/quant_platform/data_gateway/pit_store.py:100-150 | writing a batch again, after any writes in between, inserts nothing |
| PitStore.LoadIsArgmaxPerKey | src/quant_platform/data_gateway/pit_store.py:87-196 | a row is served iff it is in scope and, in the order the database returns, the first of the maximal ones of its key in (formal, ingested at) |
| PitStore.LoadIgnoresOrderIff | src/quant_platform/data_gateway/pit_store.py:152-196 | the rows served are the same for every order of the table iff at most one row of every key in scope is unbeaten |
| PitStore.WindowedLoadIsFilteredLoad | src/quant_platform/data_gateway/pit_store.py:152-196 | loading a window is loading everything and dropping the rows outside |
| PitStore.FormalStaysFormal | src/quant_platform/data_gateway/pit_store.py:87-196 | after any later writes a key served by a formal row is served by a formal row ingested no earlier |
| PitStore.LoadMatchesLoaderIff | src/quant_platform/data_gateway/pit_store.py:9-94 | serving the latest ingested row, as documented, holds for a key iff no exploratory row overtakes a formal one |
| PitStore.ExploratoryRowOvertakes | src/quant_platform/data_gateway/pit_store.py:87-94 | two writes into an empty store after which the store serves the formal row and the loader rule the later exploratory one |
| RowOrders.ServedIsPreferred | src/quant_platform/data_gateway/pit_store.py:75-196 | a served row is in scope, window ends included, and no stored row of its reading is formal while it is not, or, equally formal, was ingested later |
| RowOrders.WantedIsServed | src/quant_platform/data_gateway/pit_store.py:152-196 | every reading with a stored row in scope is served |
| RowOrders.LoadedInOrder | src/quant_platform/data_gateway/pit_store.py:191-195 | served rows come in order of instrument, event time and field, never twice for one reading |
| RowOrders.InsertedIff | src/quant_platform/data_gateway/pit_store.py:106-148 | a row of a batch is inserted iff no stored row has its field, instrument, event time and revision |
| RowOrders.RefusedIff | src/quant_platform/data_gateway/loader.py:97-108 | a batch is refused iff two of its rows share field, instrument and event time |
| Resolver.ResampleBars | src/quant_platform/data_gateway/resolver.py:144-165 | refuses non-positive minutes unless there are no bars, otherwise returns the aggregation of the specified buckets of the sorted bars |
| BarWindows.SameKeyIff | src/quant_platform/data_gateway/resolver.py:158-161 | two times have one key iff their minutes of day lie in one window (k-1)·minutes < m <= k·minutes |
| BarWindows.SameOutputBarIff | src/quant_platform/data_gateway/resolver.py:144-165 | bars of one day come out in one bar iff no multiple of the minutes lies from the earlier minute, included, up to the later one, excluded |
| BarWindows.FiveMinuteWindows | src/quant_platform/data_gateway/resolver.py:158-161 | the bars ending at 9:04 and 9:05 are one five-minute bar, and that ending at 9:06 begins the next |
| Clock.DayAndMinute | src/quant_platform/data_gateway/resolver.py:158-161 | a time is its days, its minutes since midnight and less than a minute more |
| Resolver.AggregateBucket | src/quant_platform/data_gateway/resolver.py:168-185 | one bar with first open, extremes, last close, summed volume, last date and the last non-missing value of every extra field |
| Resolver.AggregateEach | src/quant_platform/data_gateway/resolver.py:165-165 | one aggregated bar per bucket, in bucket order |
| Resolver.BucketsAreFold | src/quant_platform/data_gateway/resolver.py:144-185 | collecting buckets and aggregating them equals one pass of merging bars |
| Resolver.NestedCeiling | src/quant_platform/data_gateway/resolver.py:158-161 | rounding up to m and then to m·q is rounding up to m·q |
| Resolver.FoldComposes | src/quant_platform/data_gateway/resolver.py:144-185 | folding a fine series into coarse bars is folding the original bars into coarse bars |
| Resolver.ResamplingComposes | src/quant_platform/data_gateway/resolver.py:144-185 | resampling to m and then m·q minutes equals resampling to m·q, in every field of every bar |
| Resolver.BucketsPartition | src/quant_platform/data_gateway/resolver.py:153-165 | buckets are the maximal runs of equal keys and concatenate to the input |
| Resolver.BucketEnds | src/quant_platform/data_gateway/resolver.py:156-165 | the first bucket starts with the first bar and the last one ends with the last bar |
| Resolver.ResamplingConserves | src/quant_platform/data_gateway/resolver.py:144-185 | volume, first open, last close, last timestamp and last trading date are kept |
| Resolver.AggregateKeepsInvariant | src/quant_platform/data_gateway/resolver.py:168-185 | an aggregated bar of valid bars is valid, and its high and low are attained and bound the bucket |
| Resolver.ResamplingKeepsInvariant | src/quant_platform/data_gateway/resolver.py:144-185 | resampling valid bars yields valid bars |
| Resolver.BucketIsWindowIff | src/quant_platform/data_gateway/resolver.py:153-165 | every bucket is one window, of one day and one key, iff no consecutive bars of different days share the key |
| Resolver.BucketSpansDays | src/quant_platform/data_gateway/resolver.py:144-165 | two valid bars at the same time of consecutive days share a bucket and come out as one bar |
| TradingDates.TradingDateFor | src/quant_platform/data_gateway/resolver.py:209-215 | a night bar gets the first calendar date after its own, or the next day when there is none; a day bar its own date |
| TradingDates.TradingDateByClock | src/quant_platform/data_gateway/resolver.py:209-215 | before eight in the evening a bar keeps its own date; from then on it gets the least later calendar date, or the next day when there is none |
| TradingDates.AssignTradingDates | src/quant_platform/data_gateway/resolver.py:188-206 | marks every bar with its trading date and changes nothing else; an empty calendar is an error unless there are no bars |
| TradingDates.TradingDateBounds | src/quant_platform/data_gateway/resolver.py:188-215 | a trading date never precedes the bar's date, and no calendar date lies strictly between for night bars |
| TradingDates.TradingDatesOrderedIff | src/quant_platform/data_gateway/resolver.py:188-215 | trading dates never decrease along time iff no day bar falls on a non-trading day inside a night bar's gap |
| TradingDates.TradingDatesOrderedOnCalendar | src/quant_platform/data_gateway/resolver.py:188-215 | they never decrease when every bar falls on a calendar day |
| TradingDates.HolidayBarIsOutOfOrder | src/quant_platform/data_gateway/resolver.py:188-215 | a Friday night bar gets Monday's date and the Sunday morning bar after it its own, earlier one |
| TradingDates.NextDependsOnDates | src/quant_platform/data_gateway/resolver.py:195-206 | sorting and deduplicating the calendar does not change the next date |
| BarBuilding.BuildBars | src/quant_platform/backtest/service.py:179-214 | raises iff some bar of a wanted instrument violates the bar invariant; otherwise every wanted instrument with bars appears once, in request order, with exactly its series |
| BarBuilding.GroupRows | src/quant_platform/backtest/service.py:187-196 | each group holds, per field, the last value the rows give it |
| BarBuilding.SplitByInstrument | src/quant_platform/backtest/service.py:197-209 | each instrument gets the bars of its groups that have a close; stops at the first rejected bar |
| BarBuilding.SeriesUnique | src/quant_platform/backtest/service.py:179-214 | the rows determine an instrument's series |
| BarBuilding.BarAtOfFilter | src/quant_platform/backtest/service.py:185-209 | a bar depends only on the rows of its own time |
| BarFields.BarFromRows | src/quant_platform/backtest/service.py:179-214 | there is a bar iff some row gives a close; every column is the last value of the rows named by it, prefixed or bare, the close standing in for a missing price and zero for the volume |
| BarFields.RejectedIff | src/quant_platform/data_gateway/resolver.py:30-40 | such a bar is rejected iff a price or the volume is negative or the high is below the low |
| BarFields.WindowByTime | src/quant_platform/backtest/service.py:420-441 | a backtest reads the rows from the start of its first day to the end of its last |
| BarFields.BarsOfFrequency | src/quant_platform/backtest/service.py:179-214 | a daily backtest has a bar exactly where a row of its window gives an end-of-day close, a five-minute one where a row gives a minute close |
| Targets.TargetsByBar | src/quant_platform/backtest/service.py:217-240 | maps every bar time to its specified target, whatever order values and times come in |
| Targets.ScanSignals | src/quant_platform/backtest/service.py:232-236 | the inner scan finds the lexicographically greatest (day, value) before the bar's day |
| Targets.TargetSeesOnlyThePast | src/quant_platform/backtest/service.py:222-240 | a target depends only on which signals precede the bar's day, not on order, repeats or later signals |
| Targets.TargetIsSignOfLatest | src/quant_platform/backtest/service.py:228-240 | long, short or flat by the sign of the most recent earlier signal |
| Targets.TargetByLargestLatest | src/quant_platform/backtest/service.py:228-240 | of the signals before the day, the largest value of the latest day decides the direction |
| Targets.TargetsHoldBetweenSignals | src/quant_platform/backtest/service.py:228-240 | from one bar to a later one the target is the same unless a signal falls on a day in between, so it is constant within a day |
| Targets.MergeTargets | src/quant_platform/backtest/service.py:217-240 | the reference, one linear merge of sorted signals and sorted bar times, gives the same map |
| Equity.MarkToMarket | src/quant_platform/backtest/service.py:265-299 | the main loop yields the specified equity points, their running drawdown and the final equity |
| Equity.MarkTime | src/quant_platform/backtest/service.py:279-299 | one time step keeps points, equity, drawdown, closes and positions tracked |
| Equity.MarkInstruments | src/quant_platform/backtest/service.py:280-292 | one time step adds every instrument's profit and updates its last close |
| Equity.MarkInstrument | src/quant_platform/backtest/service.py:281-291 | one instrument's profit at a time and its last close from then on |
| Equity.TakeTargets | src/quant_platform/backtest/service.py:297-299 | targets of a time take effect after its profit is booked |
| Equity.TrackDrawdown | src/quant_platform/backtest/service.py:293-295 | peak and drawdown after one more point |
| EquityLaws.NoLookAhead | src/quant_platform/backtest/service.py:243-299 | two panels that agree on closes and targets up to t have the same timeline and equity points up to t |
| EquityLaws.NoLookAheadInDrawdown | src/quant_platform/backtest/service.py:273-299 | for such panels, wired or not, the running peak and drawdown at t are then the same too |
| EquityLaws.EquityIsLedgers | src/quant_platform/backtest/service.py:265-299 | equity after any time, whether a bar time or not, is cash plus the ledgers up to that time |
| EquityLaws.LedgerStep | src/quant_platform/backtest/service.py:281-299 | one more own bar adds position times price change to an instrument's ledger |
| EquityLaws.ContributionIsLedger | src/quant_platform/backtest/service.py:265-299 | marking on the merged timeline accumulates exactly the instrument's own ledger |
| EquityLaws.LedgerIdentity | src/quant_platform/backtest/service.py:265-299 | equity at every point is cash plus, per instrument, multiplier times (position at last close minus what its trades cost) |
| Profit.EquityIsProfits | src/quant_platform/backtest/service.py:265-299 | equity after any time is the cash plus, for every instrument and own bar so far, the position held into the bar times the change of its close times the multiplier |
| Profit.PointIsProfits | src/quant_platform/backtest/service.py:265-299 | so is the equity of every reported point |
| Profit.OneLotCarried | src/quant_platform/backtest/service.py:281-299 | one long lot carried between two closes changes equity by the multiplier times their difference |
| Profit.RebarGains | src/quant_platform/backtest/service.py:281-299 | one lot of rebar that gains 10 turns cash 1000 into 1100 |
| Drawdown.DrawdownIsFallFromPeak | src/quant_platform/backtest/service.py:273-299 | for every path the reported drawdown is the largest relative fall from the running peak |
| Drawdown.DrawdownIsBruteForce | src/quant_platform/backtest/service.py:273-299 | for non-negative equity it is the maximum over all pairs of points |
| Drawdown.DrawdownIsBruteForceIff | src/quant_platform/backtest/service.py:273-299 | it is the maximum over all pairs of points iff equity stays non-negative, or some fall from the initial cash is the worst one and no other positive value precedes it |
| Drawdown.NegativeEquityBreaksBruteForce | src/quant_platform/backtest/service.py:273-299 | a path with negative equity where the pairwise maximum is larger |
| Drawdown.DrawdownBeyondOneIff | src/quant_platform/backtest/service.py:273-299 | the drawdown exceeds 1 iff equity has been negative |
| Drawdown.SampledDrawdownIsSmaller | src/quant_platform/backtest/service.py:273-308 | dropping points never increases the drawdown of a non-negative path |
| Drawdown.SampledDrawdownIsSmallerIff | src/quant_platform/backtest/service.py:273-308 | on any path the drawdown of sampled points is no larger iff every sampled point below zero is matched by a fall of the full path |
| Curve.AggregateDaily | src/quant_platform/backtest/service.py:301-308 | the loop keeps the last equity of each day, in day order |
| Curve.CurveAndReturns | src/quant_platform/backtest/service.py:310-317 | curve entries and chained returns of the reported points |
| Curve.EquityCurve | src/quant_platform/backtest/service.py:243-327 | fails iff an instrument has no venue; otherwise returns the specified curve and metrics |
| Curve.AllSupported | src/quant_platform/backtest/service.py:256-264 | true iff every instrument code has a symbol and a known venue |
| Contracts.VenueIff | src/quant_platform/backtest/service.py:51-59 | a code has a venue iff its symbol is not empty and its suffix, in upper case, is in the table |
| Contracts.MultiplierIff | src/quant_platform/backtest/service.py:44-48 | gold has the multiplier 1000, soda ash 20, every other underlying 10 |
| Contracts.LettersMeans | src/quant_platform/backtest/service.py:175-176 | the underlying is made of the letters of the symbol |
| Curve.Report | src/quant_platform/backtest/service.py:269-327 | curve and metrics of the panel, empty without any bar |
| Curve.LastAtSelectsEveryDay | src/quant_platform/backtest/service.py:301-308 | exactly the last entry of every day is selected |
| Curve.DailyIsLastOfDay | src/quant_platform/backtest/service.py:301-308 | each daily point is the equity of that day's last point, in order |
| Curve.DailyEndsAtFinal | src/quant_platform/backtest/service.py:301-319 | the last reported equity is the final one |
| Curve.EndOfDayHasItsDay | src/quant_platform/backtest/service.py:305-317 | the end-of-day instant of a daily point shows that day in the curve |
| Curve.DailyDrawdownIsSmaller | src/quant_platform/backtest/service.py:293-308 | while equity is non-negative, the daily curve's drawdown never exceeds the reported one |
| Curve.DailyDrawdownIsSmallerIff | src/quant_platform/backtest/service.py:293-308 | on any path it does not exceed it iff every daily equity below zero is matched by a fall of the full path |
| Curve.DailyDrawdownCanExceed | src/quant_platform/backtest/service.py:293-308 | a path with negative equity whose daily curve has a drawdown of 1.5 while 1.25 is reported |
| Curve.CurveBefore | src/quant_platform/backtest/service.py:301-317 | the curve entries for days before d are the curve of the points before d, with or without daily aggregation |
| Curve.ReturnsCompound | src/quant_platform/backtest/service.py:312-319 | while equity is positive before the end, the product of 1 + return telescopes to final equity over cash |
| Curve.RuinBreaksCompounding | src/quant_platform/backtest/service.py:312-319 | equity that touches zero and recovers, where the product is zero |
| Compounding.ReturnsCompoundIff | src/quant_platform/backtest/service.py:312-319 | where a non-positive equity precedes the end, the product amounts to final equity over cash iff equity goes on, after the last such point, at exactly what had been compounded, or recovers and ends in zero |
| Curve.TotalReturnIsCompounded | src/quant_platform/backtest/service.py:301-327 | while equity is positive before the end, compounding the returns gives 1 + total return, with or without aggregation |
| Curve.SharpeReportedIff | src/quant_platform/backtest/service.py:320-325 | a Sharpe ratio is reported iff two returns differ |
| Statistics.MeanAndVariance | src/quant_platform/backtest/service.py:320-325 | the ratio is formed from the mean of the returns and their sample variance |
| FactorBacktest.RunFactorBacktest | src/quant_platform/backtest/service.py:392-547 | fails iff one of the checks refuses, with the first such error; otherwise reports the curve and metrics of the panel wired from rows and observations |
| FactorBacktest.EarlyRefusals | src/quant_platform/backtest/service.py:405-432 | which request raises which of the first errors, in their order |
| FactorBacktest.ObservedUniverse | src/quant_platform/backtest/service.py:424-429 | the default universe is the instruments with an observed value, each once, in code point order |
| FactorBacktest.PrepareBars | src/quant_platform/backtest/service.py:433-458 | bars of every requested instrument, or the first error among rejected bars, missing data, unsupported codes and mixed venues |
| FactorBacktest.FindUnfit | src/quant_platform/backtest/service.py:442-457 | the first error among missing data, unsupported codes and mixed venues |
| FactorBacktest.FindVenueConflict | src/quant_platform/backtest/service.py:455-457 | an instrument without a venue, or two instruments with different ones |
| FactorBacktest.WireTargets | src/quant_platform/backtest/service.py:497-504 | every instrument's targets live on its own bar times |
| FactorBacktest.PanelIsDetermined | src/quant_platform/backtest/service.py:392-547 | the panel is a function of request, rows and observations |
| FactorBacktest.PanelIsWired | src/quant_platform/backtest/service.py:497-504 | every produced panel meets the wiring the ledger identity asks for |
| PanelAgreement.SharedEquity | src/quant_platform/backtest/service.py:265-299 | panels that agree on the instruments both hold, and whose other instruments hold no position up to t, have the same equity after every time up to t |
| PanelAgreement.SharedDrawdown | src/quant_platform/backtest/service.py:265-299 | nor do their running peaks and drawdowns differ after any time up to t, wherever each has its points |
| PanelAgreement.PointsAgreeIff | src/quant_platform/backtest/service.py:265-299 | their points up to t are the same iff the other instruments bring no bar time of their own |
| LookAhead.EndToEndNoLookAhead | src/quant_platform/backtest/service.py:392-547 | two runs with the same rows up to t and the same observations before t's day have the same equity after every time up to t, whatever instruments the later observations add, and the same point wherever both have one |
| LookAhead.DrawdownNeverLooksAhead | src/quant_platform/backtest/service.py:392-547 | the running peak and the running drawdown after every time up to t are the same too, whatever instruments the later observations add |
| LookAhead.PointsAgreeUpToIff | src/quant_platform/backtest/service.py:420-547 | their points up to t are the same iff, up to t, no instrument of only one universe has a bar at a time at which the other universe has none |
| LookAhead.LateObservationMovesTimeline | src/quant_platform/backtest/service.py:424-429 | a completed pair of runs with the default universe in which an observation on day 10 adds a point on day 2 |
| LookAhead.NewcomersHoldNothing | src/quant_platform/backtest/service.py:217-240 | an instrument of one run only has target zero at every bar up to t |
| LookAhead.CurveNeverLooksAhead | src/quant_platform/backtest/service.py:301-317 | where the points agree, the reported curves have the same entries for all days before t's day, with or without daily aggregation |
| LookAhead.DailyCurvesAgreeIff | src/quant_platform/backtest/service.py:301-317 | daily curves have the same entries for all days before t's day iff the universes have bars on the same of these days |
| LookAhead.DailyEquityNeverLooksAhead | src/quant_platform/backtest/service.py:301-317 | whether they do or not, two daily curves show the same equity on every day before t's day that both list |
| Labels.BuildLabelSnapshot | src/quant_platform/data_gateway/provisioning.py:127-186 | fails iff the decision index is out of range or a negative horizon meets a close; otherwise returns the specified decision time and labels |
| Labels.CollectCloses | src/quant_platform/data_gateway/provisioning.py:133-136 | groups the closes by instrument in first-seen order |
| Labels.LabelInstruments | src/quant_platform/data_gateway/provisioning.py:150-169 | the labels of all instruments in first-seen order; raises iff the horizon is negative and there is an instrument with a close |
| Labels.LabelSeries | src/quant_platform/data_gateway/provisioning.py:151-169 | the labels of one series, skipping starts outside the window and non-positive closes; with a negative horizon indexing raises |
| LabelValues.LabelGrows | src/quant_platform/data_gateway/provisioning.py:150-169 | every label comes from two closes of its instrument, the horizon apart in the series, and takes the first to the second: first times one plus label is second |
| LabelValues.EveryCloseIsLabelled | src/quant_platform/data_gateway/provisioning.py:150-169 | every positive close of a window day with a close the horizon later is labelled so |
| LabelValues.LabelSign | src/quant_platform/data_gateway/provisioning.py:167-167 | the label is positive, zero or negative as the close rose, stayed or fell |
| Labels.WindowBehind | src/quant_platform/data_gateway/provisioning.py:140-148 | a window time is at or before the decision and lies less than h places before it, also for negative slice starts |
| Labels.NoLabelLeaks | src/quant_platform/data_gateway/provisioning.py:133-169 | where no instrument has two closes at one time, every label starts at or before the decision and is realised and available strictly after it, for any horizon and missing dates |
| LabelLeaks.RowsAreYielded | src/quant_platform/data_gateway/provisioning.py:150-169 | the snapshot rows are exactly the labels that positions of the sorted series yield |
| LabelLeaks.LabelsLeakIff | src/quant_platform/data_gateway/provisioning.py:133-169 | some label is realised at or before the decision iff some row is a positive close of a window day that at least h closes of its instrument follow, in event time and then row order, up to the decision |
| LabelLeaks.UniqueClosesDoNotLeak | src/quant_platform/data_gateway/provisioning.py:133-169 | where no instrument has two closes at one time no label leaks, whatever other fields repeat |
| Labels.NoLabelsWithoutHorizon | src/quant_platform/data_gateway/provisioning.py:140-148 | a horizon below one yields no label |
| LabelCounts.DenseSeries | src/quant_platform/data_gateway/provisioning.py:140-152 | a dense instrument's series runs through the trading days one by one |
| LabelCounts.DenseInstrumentIsLabelled | src/quant_platform/data_gateway/provisioning.py:140-169 | a dense instrument is labelled on exactly the computed range of trading days |
| LabelCounts.DenseLabelCount | src/quant_platform/data_gateway/provisioning.py:140-169 | its labels in the snapshot start on those days; there are h of them iff n > 2h and n >= 3h - 1 |
| LabelCounts.WindowEmptyIff | src/quant_platform/data_gateway/provisioning.py:140-148 | the window is empty iff 2h < n < 3h - 1 |
| LabelCounts.TooFewDaysNoLabels | src/quant_platform/data_gateway/provisioning.py:140-169 | with that many trading days nothing is labelled, whatever the rows |
| Provisioning.RevisionsLeak | src/quant_platform/data_gateway/provisioning.py:127-169 | rows with a repeated close for which a label is realised and available on the decision day |
| Provisioning.DataProvisioning.Provision | src/quant_platform/data_gateway/provisioning.py:193-222 | succeeds iff rows are non-empty with unique keys, writes nothing otherwise, and then no label of the snapshot leaks |
| Tasks.ProvisioningTaskManager.Start | src/quant_platform/data_gateway/provisioning.py:257-262 | registers a pending record under a new id and changes no other |
| Tasks.ProvisioningTaskManager.Spawn | src/quant_platform/data_gateway/provisioning.py:261-262 | starting the thread changes no record |
| Tasks.ProvisioningTaskManager.RunBegin | src/quant_platform/data_gateway/provisioning.py:264-266 | the task becomes running |
| Tasks.ProvisioningTaskManager.RunEnd | src/quant_platform/data_gateway/provisioning.py:267-277 | the task becomes succeeded with the result or failed with the error text |
| Tasks.ProvisioningTaskManager.Get | src/quant_platform/data_gateway/provisioning.py:279-281 | a read sees a result iff succeeded and an error iff failed |
| Tasks.StepAdvances | src/quant_platform/data_gateway/provisioning.py:257-277 | a step moves only its own record, by one move |
| Tasks.RecordsOnlyAdvance | src/quant_platform/data_gateway/provisioning.py:257-281 | between any two moments of a run a record only advances, and a terminal record never changes |
| Tasks.HistoryIsLinear | src/quant_platform/data_gateway/provisioning.py:257-277 | in every interleaving a task goes pending, running, then succeeded or failed |
| Tasks.TasksDoNotInterfere | src/quant_platform/data_gateway/provisioning.py:250-281 | a task's record in any interleaving is that of its own steps run alone |
| Tasks.OutcomeIsTheJobs | src/quant_platform/data_gateway/provisioning.py:264-281 | a result is shown iff the task's own job returned it, an error iff it raised it |
| JsonStrings.EscapeIff | src/quant_platform/experiments/contracts.py:49-56 | two texts have the same ASCII escape iff they are equal after joining surrogate pairs |
| JsonStrings.JoinFixesIff | src/quant_platform/experiments/contracts.py:49-56 | joining leaves a text alone iff no low surrogate follows a high one in it |
| JsonStrings.SurrogatesCollide | src/quant_platform/experiments/contracts.py:49-56 | the two surrogates of U+1F600 and the character itself are different texts with one escape |
| JsonText.TextIff | src/quant_platform/experiments/contracts.py:49-56 | two plain values have the same JSON text, compact or spaced, iff they are equal after joining surrogate pairs in all texts and keys |
| JsonReader.ReadsBack | src/quant_platform/experiments/contracts.py:49-56 | a reader written on its own, with the words, digits, escapes and separators of JSON, reads the value back from its text, surrogates joined, in both styles |
| JsonReader.IntReads | src/quant_platform/experiments/contracts.py:49-56 | the text of an integer denotes it in decimal |
| JsonText.TextInjective | src/quant_platform/experiments/contracts.py:49-56 | different plain values in whose texts no low surrogate follows a high one have different JSON texts |
| JsonText.TextsCollide | src/quant_platform/experiments/contracts.py:49-56 | without that condition two different values have one text |
| JsonText.DumpsPrintable | src/quant_platform/strategy_generation/api.py:493-508 | the JSON text of any value is a non-empty line of printable ASCII |
| JsonText.TextCut | src/quant_platform/experiments/contracts.py:49-56 | a value's text is recognised inside any longer text, up to joining surrogates: it ends at the value's own end |
| JsonStrings.EscapeUnitCut | src/quant_platform/experiments/contracts.py:49-56 | the ASCII escapes of code units, lone surrogates included, form a prefix code |
| JsonObjects.DictFindsLast | src/quant_platform/experiments/contracts.py:25-29 | a dict built by assignment holds the last value of each key |
| JsonObjects.DictOfSorted | src/quant_platform/experiments/contracts.py:25-29 | sorting the pairs by key first builds the same dict |
| Canonical.CanonIsForm | src/quant_platform/experiments/contracts.py:13-46 | the canonicaliser succeeds exactly on values without naive datetimes, non-finite floats and foreign types, and returns the canonical form |
| CanonicalShape.ScalarsStay | src/quant_platform/experiments/contracts.py:39-45 | numbers and texts stay as they are, except that the negative zero becomes zero; enum payloads stay whatever they are |
| CanonicalShape.RefusedAtoms | src/quant_platform/experiments/contracts.py:19-46 | of the atoms only naive datetimes, non-finite floats outside enum members and foreign objects are refused |
| CanonicalShape.ObjectShape | src/quant_platform/experiments/contracts.py:20-29 | keys come once each in code point order, and each has the form of the last field with its name |
| CanonicalShape.ArrayShape | src/quant_platform/experiments/contracts.py:30-38 | a list keeps its order; a set comes in the code point order of its texts |
| CanonicalShape.HashedIff | src/quant_platform/experiments/contracts.py:49-56 | a value is hashed iff it is acceptable and the enum payloads that survive are finite, and the text is that of its form |
| CanonicalShape.FiniteIff | src/quant_platform/experiments/contracts.py:49-56 | a form can be written without NaN iff every number in it is finite, at any depth |
| ArtifactValue.BlockedIff | src/quant_platform/artifacts/store.py:32-33 | what `asdict` raises on: it walks records, dicts, lists and tuples, refuses a dict with a record among its keys, and copies everything else |
| ArtifactValue.CopyableIff | src/quant_platform/artifacts/store.py:32-33 | only a read-only view stops a deep copy, wherever it is |
| ArtifactValue.AsDictForm | src/quant_platform/artifacts/store.py:32-33 | where turning a record into a dict succeeds, it changes neither acceptance nor the form |
| ArtifactValue.AsDictKeepsBlocked | src/quant_platform/artifacts/store.py:32-33 | it neither hides nor adds a record that will be raised on |
| ArtifactValue.JsonValueIsForm | src/quant_platform/artifacts/store.py:25-53 | the store's canonicaliser fails where some record holds a field that `asdict` raises on, and computes the same form otherwise |
| ArtifactValue.CanonicalisersAgree | src/quant_platform/artifacts/store.py:25-63 | the canonicalisers agree on every value both accept; one accepts what the other refuses iff the value is acceptable and holds a record that `asdict` raises on |
| ArtifactValue.AcceptanceDiffers | src/quant_platform/artifacts/store.py:25-53 | a record with a read-only view, or a dict with a record among its keys, in a field is accepted by the one and refused by the other |
| ArtifactValue.BarsDiffer | src/quant_platform/data_gateway/resolver.py:19-29 | a bar is accepted by the one whatever keeps its extra columns, and by the other iff they are in a mapping that can be copied: not in the default read-only view, but in a dict |
| CanonicalLaws.OrderIndependence | src/quant_platform/experiments/contracts.py:25-37 | values equal up to the iteration order of mappings and sets at every depth have one canonical text, if keys sharing their text agree |
| CanonicalLaws.OrderIndependenceOfForm | src/quant_platform/experiments/contracts.py:25-37 | and one form, where no surrogates can be joined |
| CanonicalLaws.MappingOrderMattersIff | src/quant_platform/experiments/contracts.py:25-29 | a mapping's canonical text is the same in every iteration order iff keys sharing their text have values of one text |
| CanonicalLaws.CollidingKeysDependOnOrder | src/quant_platform/experiments/contracts.py:25-29 | the dict with the keys 1 and "1" holding different values is a mapping whose text does depend on it |
| CanonicalLaws.NoCollisionsAgree | src/quant_platform/experiments/contracts.py:25-29 | the condition holds when no two keys share their text |
| Idempotence.NormalIsFixed | src/quant_platform/experiments/contracts.py:13-46 | a normal form is its own canonical form |
| Idempotence.FormNormalIff | src/quant_platform/experiments/contracts.py:13-46 | a form is normal iff every enum payload that survives key collisions is finite and not the negative zero |
| Idempotence.CanonicalFormIsIdempotentIff | src/quant_platform/experiments/contracts.py:13-46 | canonicalising twice is canonicalising once iff every enum payload that survives key collisions is finite and not the negative zero |
| Idempotence.NegativeZeroMemberChanges | src/quant_platform/experiments/contracts.py:17-18 | an enum member with the value -0.0 is changed by a second pass |
| CanonicalLaws.CanonicalTextIdentifiesForm | src/quant_platform/experiments/contracts.py:49-56 | two values get the same canonical text iff their forms are equal after joining surrogate pairs, and so iff the forms are equal where there are none to join |
| CanonicalLaws.CanonicalReadsBack | src/quant_platform/experiments/contracts.py:49-56 | the independent reader reads the canonical form back from the text that is hashed |
| CanonicalLaws.CanonicalTextsCollide | src/quant_platform/experiments/contracts.py:49-56 | two values of different forms with one canonical text |
| ArtifactStore.InMemoryArtifactStore.Put | src/quant_platform/artifacts/store.py:112-123 | refuses collisions and media type changes without writing, keeps all stored entries, and reports a blank media type only after the write |
| ArtifactStore.ManifestDescribes | src/quant_platform/artifacts/store.py:112-123 | a manifest names the object by the scheme and its digest, and states its size and media type |
| ArtifactStore.AddressIsWellFormedIff | src/quant_platform/artifacts/store.py:70-80 | an address is well-formed iff it is the scheme and 64 lower-case hexadecimal digits |
| ArtifactStore.LatestIff | src/quant_platform/artifacts/store.py:70-72 | the word "latest" is refused in any mixture of cases |
| ArtifactStore.InMemoryArtifactStore.Get | src/quant_platform/artifacts/store.py:125-135 | returns bytes that hash to the address, or the address, missing-object or corruption error |
| ArtifactStore.InMemoryArtifactStore.Exists | src/quant_platform/artifacts/store.py:137-139 | true iff a get would succeed |
| ArtifactStore.InMemoryArtifactStore.Verify | src/quant_platform/artifacts/store.py:141-149 | compares size and media type; missing or corrupted objects do not verify |
| ArtifactStore.StoreHoldsFirstPuts | src/quant_platform/artifacts/store.py:107-123 | after any history each address holds the bytes and media type of the first put to it, and payloads hash to their addresses |
| ArtifactStore.PutSucceedsIff | src/quant_platform/artifacts/store.py:112-123 | a put succeeds iff its media type is not blank and agrees, with the bytes, with the first put to the address |
| ArtifactStore.ManifestVerifiesForever | src/quant_platform/artifacts/store.py:112-149 | a returned manifest verifies, and get returns the same bytes, after every later history |
| ArtifactStore.VerifiesIff | src/quant_platform/artifacts/store.py:141-149 | a manifest verifies iff it describes the first put to its address |
| ArtifactStore.NothingIsCorrupted | src/quant_platform/artifacts/store.py:125-135 | the corruption error is never raised in a reachable state |
| ArtifactStore.BlankPutBlocksForever | src/quant_platform/artifacts/store.py:112-123 | a blank media type raises but stores the payload, and no later put of it succeeds |
| Lifecycle.TransitionAttempt | src/quant_platform/experiments/contracts.py:337-394 | succeeds iff the table allows the move and the time is aware, and changes only state and time |
| Lifecycle.AttemptPathsAre | src/quant_platform/experiments/contracts.py:337-347 | the seven histories an attempt can have |
| Lifecycle.AttemptRefusals | src/quant_platform/experiments/contracts.py:359-365 | which attempt is refused with which error |
| Lifecycle.QueueRun | src/quant_platform/experiments/contracts.py:282-308 | a queued run is valid, and refused iff a hash is malformed or the time is naive |
| Lifecycle.TransitionRun | src/quant_platform/experiments/contracts.py:319-325 | succeeds iff the table allows the move and the time is aware, and keeps the run valid |
| Lifecycle.AddAttempt | src/quant_platform/experiments/contracts.py:310-317 | succeeds iff the attempt is this run's, new, and next in ordinal, whatever the run's state |
| Lifecycle.PathsAreTheLanguage | src/quant_platform/experiments/contracts.py:249-268 | the table's paths from queued are exactly: queued, running and failed-retryable in turn, then at most one other state |
| Lifecycle.StatesAreInLanguage | src/quant_platform/experiments/contracts.py:290-325 | whatever operations are tried, a run's states form a word of that language |
| Lifecycle.LanguageIsReached | src/quant_platform/experiments/contracts.py:290-325 | every word of the language is the history of some run |
| Lifecycle.AbsorbingStays | src/quant_platform/experiments/contracts.py:249-268 | no operation leaves an absorbing state |
| Lifecycle.CancelledRunTakesAttempt | src/quant_platform/experiments/contracts.py:310-317 | a cancelled run accepts its first attempt |
| Lifecycle.RunKeepsItsHistory | src/quant_platform/experiments/contracts.py:271-325 | identity, spec hash and fingerprint never change, and the attempt list is the accepted attempts, the k-th with ordinal k |
| Lifecycle.SpecKeepsInvariant | src/quant_platform/experiments/contracts.py:177-233 | after any operations the hash is that of the identity and the stamps match the state |
| Lifecycle.SpecMoves | src/quant_platform/experiments/contracts.py:204-233 | what each operation on a spec asks for and what it changes |
| Lifecycle.HashIff | src/quant_platform/experiments/contracts.py:68-73 | a hash is 64 lower-case hexadecimal digits |
| Lifecycle.PreregisteredIsFrozen | src/quant_platform/experiments/contracts.py:204-233 | from preregistration on identity, hash and stamp are fixed and the spec can only be closed, once |
| Lifecycle.SpecHashIdentifies | src/quant_platform/experiments/contracts.py:177-202 | if SHA-256 does not collide on the two identity texts, the spec hashes are equal iff the canonical identities are, up to joining surrogate pairs |
| Lifecycle.SpelledApartSharesHash | src/quant_platform/experiments/contracts.py:177-202 | two drafts that spell a character as one code point and as two surrogates have the same hash |
| EventStream.StreamAgentTurn | frontend/lib/api.ts:2041-2067 | for any chunking the events are those of the whole text, and the buffer left holds no separator |
| EventStream.Drain | frontend/lib/api.ts:2046-2066 | the inner loop consumes every complete block of the buffer |
| EventStream.IndexOfIsFirst | frontend/lib/api.ts:2046-2047 | the search finds the first separator and misses none |
| EventStream.ReadBlock | frontend/lib/api.ts:2050-2055 | the last event name and the concatenated data lines of a block |
| WireFormat.LineMeans | frontend/lib/api.ts:2050-2055 | a line that starts with "event: " names the event, trimmed; one that starts with "data: " adds to the data; others say nothing |
| WireFormat.TrimStrips | frontend/lib/api.ts:2053-2053 | trimming cuts off the white space at both ends, and all of it |
| WireFormat.WireMessage | frontend/lib/api.ts:2046-2066 | the text of one message, spelled out, is dispatched under its name with its payload |
| WireFormat.WireDefaults | frontend/lib/api.ts:2050-2058 | a block without data dispatches nothing; one without an event line is called "message" |
| EventStream.BlocksAppend | frontend/lib/api.ts:2041-2067 | parsing what arrived and continuing from the buffer is parsing everything |
| EventStream.ConsumedRebuildsText | frontend/lib/api.ts:2046-2049 | consumed blocks, their separators and the buffer rebuild the input |
| EventStream.BlocksAreUnique | frontend/lib/api.ts:2046-2049 | terminated blocks whose first separator is their own, and an unfinished tail, are parsed back |
| EventStream.MessageRoundTripsIff | frontend/lib/api.ts:2050-2064 | a one-line message is dispatched as sent iff its JSON is not empty and its name has no outer white space |
| EventStream.StreamRoundTrips | frontend/lib/api.ts:2041-2067 | however a stream of well-formed messages is cut, the client dispatches exactly those messages, in order, and keeps nothing back |
| EventStream.ServerMessageWellFormed | src/quant_platform/strategy_generation/api.py:493-508 | whatever the payload, a server message is well-formed |
| EventStream.ServerStreamRoundTrips | src/quant_platform/strategy_generation/api.py:493-508 | whatever the server sends and however the stream is cut, the client dispatches exactly the server's messages, in order, and keeps nothing back |
| WireFormat.ServerWrites | src/quant_platform/strategy_generation/api.py:493-508 | the text the server appends for each of its four messages, spelled out |
| WireFormat.ServerMessageArrives | src/quant_platform/strategy_generation/api.py:493-508 | that text is dispatched under the same name |
| EventStream.KindNamesSurvive | src/quant_platform/strategy_generation/api.py:502-508 | the server's event names survive the client's trimming |

## Left out

- The NautilusTrader engine, order and position extraction, `backtest_hash` and the start and end labels of a result: the engine contributes only its number of fills.
- Floating-point rounding, and the Sharpe ratio's square root and annualisation: arithmetic is over `real`, the ratio is kept as its mean and variance.
- Parsing of decimal text: a vendor row carries the number its text denotes, so the errors of `float()` are not modelled.
- Time zones: all datetimes of one computation share one fixed offset; mixed offsets, daylight saving and naive datetimes outside the canonicalisers and lifecycles are not modelled.
- Identifier and text validation of the row, contract and query constructors, and the other fields of snapshots and manifests.
- Label snapshot metadata and `build_formal_snapshot`, which only rearranges rows; a failure of the latter is not modelled.
- SQL `LIKE` wildcards in a field prefix, session and commit failures, the time a source is registered at, and `coverage`: the table is a sequence of rows and a write is atomic.
- Contracts: instrument codes are ASCII, so `isalpha` and `upper` on other letters are not modelled.
- Canonical.CanonIsForm: enum payloads are scalars, the `str()` of a key and the UTC text of a datetime are taken as given, and mapping keys themselves can be deep-copied.
- ArtifactStore: `MinioArtifactStore`, whose objects live behind network calls, is not part of this model.
- Lifecycle: the field checks of `ExperimentSpec` are one parameter of the model, and `SUPERSEDED` is reached by no operation of the class.
- Tasks: a job that dies of an exception outside `Exception`, or a thread that never starts, leaves its record as it is; a repeated uuid is excluded.
- EventStream: the decoder, the network read and `onEvent` are outside; `JSON.parse` is any partial function. Of WHATWG HTML section 9.2.6 only what the client implements is modelled: no carriage returns, comments, ids or retries, and data lines are joined without a line feed.
- HTTP routers, authorisation, agents, vendor clients, universe resolution, snapshot catalogue, approval workflow, kill switch, React components and migrations: plumbing or single-branch checks.
