/** `data_gateway/pit_store.py`: the observation table, its deduplicating writer and its reader. */
module PitStore {
  import opened Wrappers
  import opened Clock
  import opened Sequences
  import opened Records
  import opened Revisions
  import opened Loader
  import Text

  datatype StoreError = DuplicateObservationKey

  /** The deduplication key: an observation key together with the revision. */
  datatype StoreKey = StoreKey(field: string, instrumentId: string, eventTime: Time, revisionId: string)

  function StoreKeyOf(r: RawPITRow): StoreKey {
    StoreKey(r.field, r.instrumentId, r.eventTime, r.revisionId)
  }

  predicate Formal(r: RawPITRow) {
    r.licenseTag in {"formal", "licensed-research"}
  }

  /** `_preferred`: formal rows first, then the later ingest. */
  predicate Preferred(candidate: RawPITRow, current: RawPITRow) {
    if Formal(candidate) != Formal(current) then Formal(candidate)
    else candidate.ingestedAt > current.ingestedAt
  }

  /** What `load` selects on before it resolves revisions. */
  datatype Scope = Scope(instrumentIds: set<string>, fieldPrefix: string, start: Option<Time>, end: Option<Time>)

  predicate InWindow(scope: Scope, t: Time) {
    (scope.start.Some? ==> t >= scope.start.value) && (scope.end.Some? ==> t <= scope.end.value)
  }

  predicate InScope(scope: Scope, k: ObsKey) {
    k.instrumentId in scope.instrumentIds && Text.StartsWith(k.field, scope.fieldPrefix) && InWindow(scope, k.eventTime)
  }

  /** The output order (instrument, event time, field). */
  predicate LoadLe(a: ObsKey, b: ObsKey) {
    || Text.Lt(a.instrumentId, b.instrumentId)
    || (a.instrumentId == b.instrumentId
        && (|| a.eventTime < b.eventTime
            || (a.eventTime == b.eventTime && Text.Le(a.field, b.field))))
  }

  function Served(table: seq<RawPITRow>): map<ObsKey, RawPITRow> {
    Latest(table, ObsKeyOf, Preferred)
  }

  function Selection(table: seq<RawPITRow>, scope: Scope): seq<RawPITRow> {
    Filter(table, r => InScope(scope, ObsKeyOf(r)))
  }

  /** The rows `load` returns. */
  function Loaded(table: seq<RawPITRow>, scope: Scope): seq<PITRow> {
    var rows := Selection(table, scope);
    FirstSeenIsDomain(rows, ObsKeyOf, Preferred);
    var ks := StableSort(LoadLe, FirstSeen(rows, ObsKeyOf));
    SameElements(ks, FirstSeen(rows, ObsKeyOf));
    SealAll(Values(ks, Served(rows)))
  }

  function StoreKeys(table: seq<RawPITRow>): set<StoreKey> {
    set r | r in table :: StoreKeyOf(r)
  }

  /** The rows of a batch that the table does not hold yet, in batch order. */
  function Fresh(table: seq<RawPITRow>, batch: seq<RawPITRow>): seq<RawPITRow> {
    Filter(batch, r => StoreKeyOf(r) !in StoreKeys(table))
  }

  // ---------- the source registry ----------

  /** A registered source, without the time it was registered at. */
  datatype SourceRecord = SourceRecord(name: string, license: string, coverageScope: string,
                                       revisionCapable: bool, pitCapable: bool, status: string)

  const COVERAGE: string := "CN 期货/股票 日频+分钟"

  /** What a source is registered as: its entry in the known sources, or a record under its own id. */
  function RecordFor(id: string): SourceRecord {
    match id
    case "ifind-cn" => SourceRecord("同花顺 iFinD", "licensed-research", COVERAGE, true, true, "REGISTERED")
    case "akshare-cn" => SourceRecord("AkShare (Sina)", "exploratory", COVERAGE, false, false, "REGISTERED")
    case _ => SourceRecord(id, "unknown", COVERAGE, false, false, "REGISTERED")
  }

  /** The different sources of a batch. */
  function SourceIds(rows: seq<RawPITRow>): (ids: seq<string>)
    ensures forall id :: id in ids <==> exists r :: r in rows && r.sourceId == id
  {
    var ids := FirstSeen(rows, (r: RawPITRow) => r.sourceId);
    assert forall id :: id in ids <==> exists r :: r in rows && r.sourceId == id;
    ids
  }

  /** Registered sources keep their record; the others among `ids` get theirs. */
  ghost predicate Registers(before: map<string, SourceRecord>, ids: seq<string>, after: map<string, SourceRecord>) {
    && (forall id :: id in after <==> id in before || id in ids)
    && (forall id :: id in before ==> after[id] == before[id])
    && (forall id :: id in ids && id !in before ==> after[id] == RecordFor(id))
  }

  function InstrumentIds(rows: seq<RawPITRow>): set<string> {
    set row | row in rows :: row.instrumentId
  }

  /** The stored keys of some instruments. */
  function KeysFor(table: seq<RawPITRow>, instruments: set<string>): (ks: set<StoreKey>)
    ensures forall k :: k in ks <==> k in StoreKeys(table) && k.instrumentId in instruments
  {
    set r | r in table && r.instrumentId in instruments :: StoreKeyOf(r)
  }

  /** The set `existing` after the first `n` rows of the batch. */
  ghost function Existing(table: seq<RawPITRow>, batch: seq<RawPITRow>, n: nat): set<StoreKey>
    requires n <= |batch|
  {
    KeysFor(table, InstrumentIds(batch)) + StoreKeys(batch[..n])
  }

  lemma {:induction false} RegistersSnoc(before: map<string, SourceRecord>, ids: seq<string>, id: string, m: map<string, SourceRecord>)
    requires Registers(before, ids, m)
    ensures Registers(before, ids + [id], if id in m then m else m[id := RecordFor(id)])
  {
  }

  class SqlAlchemyPitStore {
    var table: seq<RawPITRow>
    var sources: map<string, SourceRecord>

    ghost predicate Valid()
      reads this
    {
      UniqueStoreKeys(table) && SourcesKnown(table, sources)
    }

    constructor ()
      ensures Valid() && table == [] && sources == map[]
    {
      table, sources := [], map[];
    }

    /** Rejects a batch with a repeated observation key and otherwise appends exactly its fresh rows. */
    method Persist(rows: seq<RawPITRow>) returns (r: Result<nat, StoreError>)
      requires Valid()
      modifies this
      ensures Valid()
      ensures r.Err? <==> !UniqueKeys(rows)
      ensures r.Err? ==> table == old(table) && sources == old(sources)
      ensures r.Ok? ==> table == old(table) + Fresh(old(table), rows) && r.value == |Fresh(old(table), rows)|
      ensures r.Ok? ==> Registers(old(sources), SourceIds(rows), sources)
    {
      var ok := ValidatePitRows(rows);
      if !ok {
        return Err(DuplicateObservationKey);
      }
      FreshKeepsUnique(table, rows);
      var inserted := Insert(rows);
      RegisterSources(SourceIds(rows));
      AppendKeepsKnown(old(table), Fresh(old(table), rows), old(sources), rows, sources);
      return Ok(inserted);
    }

    /** The transaction body of `persist`. */
    method Insert(rows: seq<RawPITRow>) returns (inserted: nat)
      requires UniqueKeys(rows)
      modifies this`table
      ensures table == old(table) + Fresh(old(table), rows) && inserted == |Fresh(old(table), rows)|
    {
      var existing := KeysFor(table, InstrumentIds(rows));
      assert StoreKeys(rows[..0]) == {};
      inserted := 0;
      ghost var before := table;
      for i := 0 to |rows|
        invariant Inserted(before, rows, i, table, existing, inserted)
      {
        var row := rows[i];
        var key := StoreKeyOf(row);
        InsertStep(before, rows, i, table, existing, inserted);
        if key !in existing {
          table := table + [row];
          existing := existing + {key};
          inserted := inserted + 1;
        }
      }
      assert rows[..|rows|] == rows;
    }

    /** `_register_sources`: in sorted order, every source not registered yet is added. */
    method RegisterSources(ids: seq<string>)
      modifies this`sources
      ensures Registers(old(sources), ids, sources)
    {
      var ordered := StableSort(Text.Le, ids);
      SameElements(ordered, ids);
      for i := 0 to |ordered|
        invariant Registers(old(sources), ordered[..i], sources)
      {
        var id := ordered[i];
        assert ordered[..i + 1] == ordered[..i] + [id];
        RegistersSnoc(old(sources), ordered[..i], id, sources);
        if id !in sources {
          sources := sources[id := RecordFor(id)];
        }
      }
      assert ordered[..|ordered|] == ordered;
    }

    /** `load`: selects, keeps the preferred row per key, and sorts. */
    method Load(scope: Scope) returns (rows: seq<PITRow>)
      ensures rows == Loaded(table, scope)
    {
      var models := Filter(table, r => InScope(scope, ObsKeyOf(r)));
      var latest: Dict<ObsKey, RawPITRow> := Dict([], map[]);
      for i := 0 to |models|
        invariant latest.items == Served(models[..i])
        invariant latest.keys == FirstSeen(models[..i], ObsKeyOf)
      {
        var model := models[i];
        assert models[..i + 1] == models[..i] + [model];
        ScanOne(models[..i], model, ObsKeyOf, Preferred);
        var key := ObsKeyOf(model);
        if key !in latest.items {
          latest := Dict(latest.keys + [key], latest.items[key := model]);
        } else if Preferred(model, latest.items[key]) {
          latest := Dict(latest.keys, latest.items[key := model]);
        }
      }
      assert models[..|models|] == models;
      FirstSeenIsDomain(models, ObsKeyOf, Preferred);
      var ks := StableSort(LoadLe, latest.keys);
      SameElements(ks, latest.keys);
      rows := SealAll(Values(ks, latest.items));
    }
  }

  // ---------- the table over any sequence of writes ----------

  /** Every stored row's source is registered. */
  ghost predicate SourcesKnown(table: seq<RawPITRow>, sources: map<string, SourceRecord>) {
    forall r :: r in table ==> r.sourceId in sources
  }

  lemma {:induction false} AppendKeepsKnown(table: seq<RawPITRow>, more: seq<RawPITRow>, before: map<string, SourceRecord>,
                                            batch: seq<RawPITRow>, after: map<string, SourceRecord>)
    requires SourcesKnown(table, before) && Registers(before, SourceIds(batch), after)
    requires forall r :: r in more ==> r in batch
    ensures SourcesKnown(table + more, after)
  {
  }

  ghost predicate UniqueStoreKeys(table: seq<RawPITRow>) {
    forall i, j | 0 <= i < j < |table| :: StoreKeyOf(table[i]) != StoreKeyOf(table[j])
  }

  /** The loop's state after the first `n` rows of a batch. */
  ghost predicate Inserted(before: seq<RawPITRow>, batch: seq<RawPITRow>, n: nat, table: seq<RawPITRow>, existing: set<StoreKey>, inserted: nat)
    requires n <= |batch|
  {
    && table == before + Fresh(before, batch[..n]) && inserted == |Fresh(before, batch[..n])|
    && existing == Existing(before, batch, n)
  }

  lemma {:induction false} InsertStep(before: seq<RawPITRow>, batch: seq<RawPITRow>, n: nat, table: seq<RawPITRow>, existing: set<StoreKey>, inserted: nat)
    requires n < |batch| && UniqueKeys(batch) && Inserted(before, batch, n, table, existing, inserted)
    ensures var key := StoreKeyOf(batch[n]);
            if key in existing then Inserted(before, batch, n + 1, table, existing, inserted)
            else Inserted(before, batch, n + 1, table + [batch[n]], existing + {key}, inserted + 1)
  {
    PersistStep(before, batch, n);
    assert existing + {StoreKeyOf(batch[n])} == Existing(before, batch, n + 1);
  }

  lemma {:induction false} PersistStep(table: seq<RawPITRow>, batch: seq<RawPITRow>, n: nat)
    requires n < |batch| && UniqueKeys(batch)
    ensures var known := StoreKeyOf(batch[n]) in Existing(table, batch, n);
            && Fresh(table, batch[..n + 1]) == Fresh(table, batch[..n]) + (if known then [] else [batch[n]])
            && Existing(table, batch, n + 1) == Existing(table, batch, n) + {StoreKeyOf(batch[n])}
  {
    var r := batch[n];
    assert batch[..n + 1] == batch[..n] + [r];
    FreshSnoc(table, batch[..n], r);
    NotYetWritten(batch, n);
    StoreKeysSnoc(batch[..n], r);
    assert r in batch;
  }

  lemma {:induction false} FreshSnoc(table: seq<RawPITRow>, batch: seq<RawPITRow>, r: RawPITRow)
    ensures Fresh(table, batch + [r]) == if StoreKeyOf(r) in StoreKeys(table) then Fresh(table, batch) else Fresh(table, batch) + [r]
  {
    FilterSnoc(batch, r, r => StoreKeyOf(r) !in StoreKeys(table));
  }

  lemma {:induction false} NotYetWritten(rows: seq<RawPITRow>, i: int)
    requires UniqueKeys(rows) && 0 <= i < |rows|
    ensures StoreKeyOf(rows[i]) !in StoreKeys(rows[..i])
  {
    forall r | r in rows[..i] ensures StoreKeyOf(r) != StoreKeyOf(rows[i]) {
      var j :| 0 <= j < i && rows[j] == r;
      assert ObsKeyOf(rows[j]) != ObsKeyOf(rows[i]);
    }
  }

  lemma {:induction false} StoreKeysSnoc(rows: seq<RawPITRow>, r: RawPITRow)
    ensures StoreKeys(rows + [r]) == StoreKeys(rows) + {StoreKeyOf(r)}
  {
    forall k ensures k in StoreKeys(rows + [r]) <==> k in StoreKeys(rows) || k == StoreKeyOf(r) {
      if k in StoreKeys(rows) {
        var s :| s in rows && StoreKeyOf(s) == k;
        assert s in rows + [r];
      }
      assert r in rows + [r];
    }
  }

  lemma {:induction false} FreshKeepsUnique(table: seq<RawPITRow>, batch: seq<RawPITRow>)
    requires UniqueStoreKeys(table) && UniqueKeys(batch)
    ensures UniqueStoreKeys(table + Fresh(table, batch))
  {
    var added := Fresh(table, batch);
    forall i, j | 0 <= i < j < |added| ensures StoreKeyOf(added[i]) != StoreKeyOf(added[j]) {
      var a, b := FilterIndices(batch, r => StoreKeyOf(r) !in StoreKeys(table), i, j);
      assert ObsKeyOf(batch[a]) != ObsKeyOf(batch[b]);
    }
    forall i, j | 0 <= i < |table| && 0 <= j < |added| ensures StoreKeyOf(table[i]) != StoreKeyOf(added[j]) {
      assert table[i] in table && added[j] in added;
    }
  }

  /** The effect of one `persist` call on the table. */
  ghost function AfterPersist(table: seq<RawPITRow>, batch: seq<RawPITRow>): seq<RawPITRow> {
    if UniqueKeys(batch) then table + Fresh(table, batch) else table
  }

  ghost function AfterAll(table: seq<RawPITRow>, batches: seq<seq<RawPITRow>>): seq<RawPITRow>
    decreases batches
  {
    if batches == [] then table else AfterAll(AfterPersist(table, batches[0]), batches[1..])
  }

  /** Over any sequence of writes the store keys stay unique and nothing already stored moves. */
  lemma {:induction false} TableOverAllRuns(table: seq<RawPITRow>, batches: seq<seq<RawPITRow>>)
    requires UniqueStoreKeys(table)
    ensures UniqueStoreKeys(AfterAll(table, batches))
    ensures table <= AfterAll(table, batches)
    decreases batches
  {
    if batches != [] {
      if UniqueKeys(batches[0]) {
        FreshKeepsUnique(table, batches[0]);
      }
      TableOverAllRuns(AfterPersist(table, batches[0]), batches[1..]);
    }
  }

  /** The registry after one `persist` call and after any number of them. */
  ghost function SourcesAfter(sources: map<string, SourceRecord>, batch: seq<RawPITRow>): (after: map<string, SourceRecord>)
    ensures UniqueKeys(batch) ==> Registers(sources, SourceIds(batch), after)
    ensures !UniqueKeys(batch) ==> after == sources
  {
    if UniqueKeys(batch) then sources + (map id | id in SourceIds(batch) && id !in sources :: RecordFor(id)) else sources
  }

  ghost function SourcesAfterAll(sources: map<string, SourceRecord>, batches: seq<seq<RawPITRow>>): map<string, SourceRecord>
    decreases batches
  {
    if batches == [] then sources else SourcesAfterAll(SourcesAfter(sources, batches[0]), batches[1..])
  }

  ghost predicate Wrote(batches: seq<seq<RawPITRow>>, id: string) {
    exists b :: b in batches && UniqueKeys(b) && id in SourceIds(b)
  }

  /** Over any sequence of writes a registered source keeps its record for good, and a new one is registered,
      under its own record, exactly when some accepted batch names it. */
  lemma {:induction false} SourcesOverAllRuns(sources: map<string, SourceRecord>, batches: seq<seq<RawPITRow>>, id: string)
    ensures id in SourcesAfterAll(sources, batches) <==> id in sources || Wrote(batches, id)
    ensures id in sources ==> SourcesAfterAll(sources, batches)[id] == sources[id]
    ensures id !in sources && Wrote(batches, id) ==> SourcesAfterAll(sources, batches)[id] == RecordFor(id)
    decreases batches
  {
    if batches != [] {
      assert batches == [batches[0]] + batches[1..];
      SourcesOverAllRuns(SourcesAfter(sources, batches[0]), batches[1..], id);
      assert Wrote(batches, id) <==> (UniqueKeys(batches[0]) && id in SourceIds(batches[0])) || Wrote(batches[1..], id);
    }
  }

  /** Writing a batch again, after any writes in between, inserts nothing. */
  lemma {:induction false} RepeatedBatchInsertsNothing(table: seq<RawPITRow>, batch: seq<RawPITRow>, between: seq<seq<RawPITRow>>)
    requires UniqueStoreKeys(table) && UniqueKeys(batch)
    ensures Fresh(AfterAll(AfterPersist(table, batch), between), batch) == []
  {
    var first := AfterPersist(table, batch);
    FreshKeepsUnique(table, batch);
    TableOverAllRuns(first, between);
    var after := AfterAll(first, between);
    forall r | r in batch ensures StoreKeyOf(r) in StoreKeys(after) {
      if r in Fresh(table, batch) {
        assert r in first;
        assert r in after;
      } else {
        var s :| s in table && StoreKeyOf(s) == StoreKeyOf(r);
        assert s in first;
        assert s in after;
      }
    }
    FilterNone(batch, r => StoreKeyOf(r) !in StoreKeys(after));
  }

  // ---------- what load serves ----------

  lemma {:induction false} PreferredIsRank()
    ensures StrictWeakOrder(Preferred)
  {
  }

  lemma {:induction false} LoadLeOrders()
    ensures TotalPreorder(LoadLe)
  {
    forall x: ObsKey, y: ObsKey, z: ObsKey
      ensures LoadLe(x, y) || LoadLe(y, x)
      ensures LoadLe(x, y) && LoadLe(y, z) ==> LoadLe(x, z)
    {
      Text.LtRank(x.instrumentId, y.instrumentId, z.instrumentId);
      Text.LtRank(x.field, y.field, z.field);
    }
  }

  /** Selecting by key before the scan keeps exactly the scanned entries with such keys. */
  lemma {:induction false} ServedInScope(table: seq<RawPITRow>, scope: Scope, k: ObsKey)
    ensures k in Served(Selection(table, scope)) <==> k in Served(table) && InScope(scope, k)
    ensures k in Served(Selection(table, scope)) ==> Served(Selection(table, scope))[k] == Served(table)[k]
  {
    if InScope(scope, k) {
      LatestOfKey(table, ObsKeyOf, Preferred, r => InScope(scope, ObsKeyOf(r)), k);
    }
  }

  lemma {:induction false} SeenInScope(table: seq<RawPITRow>, scope: Scope)
    ensures FirstSeen(Selection(table, scope), ObsKeyOf) == Filter(FirstSeen(table, ObsKeyOf), k => InScope(scope, k))
  {
    if table != [] {
      var front, r := table[..|table| - 1], table[|table| - 1];
      assert table == front + [r];
      SeenInScope(front, scope);
      FilterSnoc(front, r, (r: RawPITRow) => InScope(scope, ObsKeyOf(r)));
      FilterSnoc(FirstSeen(front, ObsKeyOf), ObsKeyOf(r), (k: ObsKey) => InScope(scope, k));
      if InScope(scope, ObsKeyOf(r)) {
        FirstSeenSnoc(Selection(front, scope), r, ObsKeyOf);
      }
    }
  }

  lemma {:induction false} InLoaded(table: seq<RawPITRow>, scope: Scope, r: RawPITRow)
    ensures Seal(r) in Loaded(table, scope)
            <==> InScope(scope, ObsKeyOf(r)) && ObsKeyOf(r) in Served(table) && Served(table)[ObsKeyOf(r)] == r
  {
    var rows := Selection(table, scope);
    ServedInScope(table, scope, ObsKeyOf(r));
    FirstSeenIsDomain(rows, ObsKeyOf, Preferred);
    var seen := FirstSeen(rows, ObsKeyOf);
    SameElements(StableSort(LoadLe, seen), seen);
    ValuesContain(StableSort(LoadLe, seen), Served(rows), ObsKeyOf, r);
    InSealed(Values(StableSort(LoadLe, seen), Served(rows)), r);
  }

  lemma {:induction false} InSealed(rows: seq<RawPITRow>, r: RawPITRow)
    ensures Seal(r) in SealAll(rows) <==> r in rows
  {
    if Seal(r) in SealAll(rows) {
      var i :| 0 <= i < |rows| && SealAll(rows)[i] == Seal(r);
      SameKeys(rows[i], r);
    }
    if r in rows {
      var i :| 0 <= i < |rows| && rows[i] == r;
      assert SealAll(rows)[i] == Seal(r);
    }
  }

  /** A stored row is served iff it is in scope and is the first of the maximal rows of its key in
      (formal before exploratory, ingested at). */
  lemma {:induction false} LoadIsArgmaxPerKey(table: seq<RawPITRow>, scope: Scope, r: RawPITRow)
    ensures Seal(r) in Loaded(table, scope)
            <==> InScope(scope, ObsKeyOf(r)) && exists i :: FirstBest(table, ObsKeyOf, Preferred, i) && table[i] == r
  {
    InLoaded(table, scope, r);
    PreferredIsRank();
    if ObsKeyOf(r) in Served(table) {
      var i := LatestIsFirstBest(table, ObsKeyOf, Preferred, ObsKeyOf(r));
      if j :| FirstBest(table, ObsKeyOf, Preferred, j) && table[j] == r {
        FirstBestUnique(table, ObsKeyOf, Preferred, i, j);
      }
    }
  }

  /** At most one row of every key in scope is unbeaten. */
  ghost predicate NoTopTies(table: seq<RawPITRow>, scope: Scope) {
    forall a, b | Unbeaten(table, ObsKeyOf, Preferred, a) && Unbeaten(table, ObsKeyOf, Preferred, b) ::
      ObsKeyOf(a) == ObsKeyOf(b) && InScope(scope, ObsKeyOf(a)) ==> a == b
  }

  lemma {:induction false} UnbeatenInScope(table: seq<RawPITRow>, scope: Scope, r: RawPITRow)
    ensures Unbeaten(Selection(table, scope), ObsKeyOf, Preferred, r)
            <==> Unbeaten(table, ObsKeyOf, Preferred, r) && InScope(scope, ObsKeyOf(r))
  {
  }

  lemma {:induction false} KeysIgnoreOrder(xs: seq<RawPITRow>, ys: seq<RawPITRow>)
    requires forall r :: r in xs <==> r in ys
    ensures StableSort(LoadLe, FirstSeen(xs, ObsKeyOf)) == StableSort(LoadLe, FirstSeen(ys, ObsKeyOf))
  {
    var kx, ky := FirstSeen(xs, ObsKeyOf), FirstSeen(ys, ObsKeyOf);
    DistinctSameMultiset(kx, ky);
    LoadLeOrders();
    SortSorts(LoadLe, kx);
    SortSorts(LoadLe, ky);
    forall a: ObsKey, b: ObsKey | LoadLe(a, b) && LoadLe(b, a) ensures a == b {
      Text.LtPair(a.instrumentId, b.instrumentId);
      Text.LtPair(a.field, b.field);
    }
    SortedUnique(LoadLe, StableSort(LoadLe, kx), StableSort(LoadLe, ky));
  }

  lemma {:induction false} LoadIgnoresOrder(table: seq<RawPITRow>, others: seq<RawPITRow>, scope: Scope)
    requires (forall r :: r in table <==> r in others) && NoTopTies(table, scope)
    ensures Loaded(others, scope) == Loaded(table, scope)
  {
    var xs, ys := Selection(table, scope), Selection(others, scope);
    PreferredIsRank();
    forall a, b | Unbeaten(xs, ObsKeyOf, Preferred, a) && Unbeaten(xs, ObsKeyOf, Preferred, b) && ObsKeyOf(a) == ObsKeyOf(b)
      ensures a == b
    {
      UnbeatenInScope(table, scope, a);
      UnbeatenInScope(table, scope, b);
    }
    LatestOrderFree(xs, ys, ObsKeyOf, Preferred);
    KeysIgnoreOrder(xs, ys);
  }

  /** Moving an unbeaten row to the front makes it the served one. */
  lemma {:induction false} FrontIsServed(table: seq<RawPITRow>, scope: Scope, r: RawPITRow) returns (others: seq<RawPITRow>)
    requires Unbeaten(table, ObsKeyOf, Preferred, r) && InScope(scope, ObsKeyOf(r))
    ensures multiset(others) == multiset(table)
    ensures forall s :: Seal(s) in Loaded(others, scope) && ObsKeyOf(s) == ObsKeyOf(r) <==> s == r
  {
    var i :| 0 <= i < |table| && table[i] == r;
    assert table == table[..i] + [r] + table[i + 1..];
    others := [r] + (table[..i] + table[i + 1..]);
    SameElements(others, table);
    PreferredIsRank();
    assert ObsKeyOf(others[0]) in Served(others);
    var j := LatestIsFirstBest(others, ObsKeyOf, Preferred, ObsKeyOf(r));
    assert FirstBest(others, ObsKeyOf, Preferred, 0);
    FirstBestUnique(others, ObsKeyOf, Preferred, 0, j);
    forall s ensures Seal(s) in Loaded(others, scope) && ObsKeyOf(s) == ObsKeyOf(r) <==> s == r {
      InLoaded(others, scope, s);
    }
  }

  /** The query has no order, so the database may return rows in any order. The answer is the same for every
      order iff at most one row of every key in scope is unbeaten. */
  lemma {:induction false} LoadIgnoresOrderIff(table: seq<RawPITRow>, scope: Scope)
    ensures (forall others | multiset(others) == multiset(table) :: Loaded(others, scope) == Loaded(table, scope))
            <==> NoTopTies(table, scope)
  {
    if NoTopTies(table, scope) {
      forall others | multiset(others) == multiset(table) ensures Loaded(others, scope) == Loaded(table, scope) {
        SameElements(others, table);
        LoadIgnoresOrder(table, others, scope);
      }
    } else {
      var a, b :| Unbeaten(table, ObsKeyOf, Preferred, a) && Unbeaten(table, ObsKeyOf, Preferred, b)
                  && ObsKeyOf(a) == ObsKeyOf(b) && InScope(scope, ObsKeyOf(a)) && a != b;
      var first := FrontIsServed(table, scope, a);
      var second := FrontIsServed(table, scope, b);
      assert Seal(a) in Loaded(first, scope) && Seal(a) !in Loaded(second, scope);
      assert Loaded(first, scope) != Loaded(second, scope);
    }
  }

  /** A windowed load is the full load with the rows outside the window removed. */
  lemma {:induction false} WindowedLoadIsFilteredLoad(table: seq<RawPITRow>, scope: Scope)
    ensures Loaded(table, scope)
            == Filter(Loaded(table, scope.(start := None, end := None)), (r: PITRow) => InWindow(scope, r.eventTime))
  {
    var full := scope.(start := None, end := None);
    var ks := StableSort(LoadLe, FirstSeen(Selection(table, full), ObsKeyOf));
    WindowedKeys(table, scope);
    SameElements(ks, FirstSeen(Selection(table, full), ObsKeyOf));
    FirstSeenIsDomain(Selection(table, full), ObsKeyOf, Preferred);
    forall k | k in ks && InWindow(scope, k.eventTime)
      ensures k in Served(Selection(table, scope))
      ensures Served(Selection(table, scope))[k] == Served(Selection(table, full))[k]
    {
      ServedInScope(table, scope, k);
      ServedInScope(table, full, k);
    }
    FilterValues(ks, Served(Selection(table, full)), Served(Selection(table, scope)), scope);
  }

  lemma {:induction false} WindowedKeys(table: seq<RawPITRow>, scope: Scope)
    ensures StableSort(LoadLe, FirstSeen(Selection(table, scope), ObsKeyOf))
            == Filter(StableSort(LoadLe, FirstSeen(Selection(table, scope.(start := None, end := None)), ObsKeyOf)),
                      (k: ObsKey) => InWindow(scope, k.eventTime))
  {
    var full := scope.(start := None, end := None);
    var inWindow := (k: ObsKey) => InWindow(scope, k.eventTime);
    SeenInScope(table, scope);
    SeenInScope(table, full);
    var seen := FirstSeen(table, ObsKeyOf);
    FilterFilter(seen, k => InScope(full, k), inWindow, k => InScope(scope, k));
    LoadLeOrders();
    SortFilter(LoadLe, Filter(seen, k => InScope(full, k)), inWindow);
  }

  lemma {:induction false} FilterValues(ks: seq<ObsKey>, full: map<ObsKey, RawPITRow>, part: map<ObsKey, RawPITRow>, scope: Scope)
    requires forall k :: k in ks ==> k in full && ObsKeyOf(full[k]) == k
    requires forall k :: k in ks && InWindow(scope, k.eventTime) ==> k in part && part[k] == full[k]
    ensures var kept := Filter(ks, (k: ObsKey) => InWindow(scope, k.eventTime));
            SealAll(Values(kept, part))
            == Filter(SealAll(Values(ks, full)), (r: PITRow) => InWindow(scope, r.eventTime))
  {
    if ks != [] {
      var front, k := ks[..|ks| - 1], ks[|ks| - 1];
      assert ks == front + [k];
      FilterValues(front, full, part, scope);
      FilterSnoc(front, k, (k: ObsKey) => InWindow(scope, k.eventTime));
      SealValuesSnoc(front, k, full);
      FilterSnoc(SealAll(Values(front, full)), Seal(full[k]), (r: PITRow) => InWindow(scope, r.eventTime));
      if InWindow(scope, k.eventTime) {
        SealValuesSnoc(Filter(front, (k: ObsKey) => InWindow(scope, k.eventTime)), k, part);
      }
    }
  }

  lemma {:induction false} SealValuesSnoc(ks: seq<ObsKey>, k: ObsKey, m: map<ObsKey, RawPITRow>)
    requires k in m && forall x :: x in ks ==> x in m
    ensures SealAll(Values(ks + [k], m)) == SealAll(Values(ks, m)) + [Seal(m[k])]
  {
  }

  /** Whatever is written later, a key once served by a formal row is served by a formal row, ingested
      no earlier than the one served before. */
  lemma {:induction false} FormalStaysFormal(table: seq<RawPITRow>, batches: seq<seq<RawPITRow>>, k: ObsKey)
    requires k in Served(table) && Formal(Served(table)[k])
    ensures k in Served(AfterAll(table, batches)) && Formal(Served(AfterAll(table, batches))[k])
    ensures Served(AfterAll(table, batches))[k].ingestedAt >= Served(table)[k].ingestedAt
    decreases batches
  {
    if batches != [] {
      var next := AfterPersist(table, batches[0]);
      if UniqueKeys(batches[0]) {
        AppendKeepsFormal(table, Fresh(table, batches[0]), k);
      }
      FormalStaysFormal(next, batches[1..], k);
    }
  }

  lemma {:induction false} AppendKeepsFormal(table: seq<RawPITRow>, more: seq<RawPITRow>, k: ObsKey)
    requires k in Served(table) && Formal(Served(table)[k])
    ensures k in Served(table + more) && Formal(Served(table + more)[k])
    ensures Served(table + more)[k].ingestedAt >= Served(table)[k].ingestedAt
  {
    if more == [] {
      assert table + more == table;
    } else {
      var front, r := more[..|more| - 1], more[|more| - 1];
      assert table + more == (table + front) + [r];
      AppendKeepsFormal(table, front, k);
      LatestSnoc(table + front, r, ObsKeyOf, Preferred);
    }
  }

  // ---------- load against the loader ----------

  /** Row `i` is exploratory, and some formal row of its key exists, but every one of them was ingested
      earlier, or at the same time and stored later. */
  ghost predicate Overtakes(table: seq<RawPITRow>, i: int) {
    && 0 <= i < |table| && !Formal(table[i])
    && (exists j :: 0 <= j < |table| && Formal(table[j]) && ObsKeyOf(table[j]) == ObsKeyOf(table[i]))
    && (forall j | 0 <= j < |table| && Formal(table[j]) && ObsKeyOf(table[j]) == ObsKeyOf(table[i]) ::
          table[j].ingestedAt < table[i].ingestedAt || (table[j].ingestedAt == table[i].ingestedAt && i < j))
  }

  /** The module documents `load` as taking the latest ingested revision, like the loader. That holds for
      a key iff no exploratory row of the key overtakes all its formal rows. */
  lemma {:induction false} LoadMatchesLoaderIff(table: seq<RawPITRow>, k: ObsKey)
    requires k in Served(table)
    ensures Served(table)[k] == Latest(table, ObsKeyOf, LaterIngested)[k]
            <==> !exists i :: Overtakes(table, i) && ObsKeyOf(table[i]) == k
  {
    PreferredIsRank();
    LaterIngestedIsRank();
    var a := LatestIsFirstBest(table, ObsKeyOf, Preferred, k);
    var b := LatestIsFirstBest(table, ObsKeyOf, LaterIngested, k);
    if Formal(table[b]) {
      assert FirstBest(table, ObsKeyOf, Preferred, b);
      FirstBestUnique(table, ObsKeyOf, Preferred, a, b);
      forall i | 0 <= i < |table| && ObsKeyOf(table[i]) == k ensures !Overtakes(table, i) {
        assert !LaterIngested(table[i], table[b]);
      }
    } else if j :| 0 <= j < |table| && Formal(table[j]) && ObsKeyOf(table[j]) == k {
      assert Formal(table[a]);
      assert Overtakes(table, b);
    } else {
      assert FirstBest(table, ObsKeyOf, Preferred, b);
      FirstBestUnique(table, ObsKeyOf, Preferred, a, b);
    }
  }

  lemma {:induction false} TwoWrites(first: RawPITRow, second: RawPITRow)
    requires StoreKeyOf(first) != StoreKeyOf(second)
    ensures AfterAll([], [[first], [second]]) == [first, second]
  {
    FreshOne([], first);
    FreshOne([first], second);
    assert [] + [first] == [first];
    assert StoreKeys([first]) == {StoreKeyOf(first)};
    assert [[first], [second]][1..] == [[second]] && [[second]][1..] == [];
    assert AfterPersist([], [first]) == [first];
    assert AfterPersist([first], [second]) == [first, second];
    assert AfterAll([first, second], []) == [first, second];
    assert AfterAll([first], [[second]]) == [first, second];
  }

  lemma {:induction false} FreshOne(table: seq<RawPITRow>, r: RawPITRow)
    ensures Fresh(table, [r]) == if StoreKeyOf(r) in StoreKeys(table) then [] else [r]
  {
    FreshSnoc(table, [], r);
    assert [] + [r] == [r];
  }

  lemma {:induction false} LatestOfOne(r: RawPITRow, better: (RawPITRow, RawPITRow) -> bool)
    ensures Latest([r], ObsKeyOf, better) == map[ObsKeyOf(r) := r]
  {
    LatestSnoc([], r, ObsKeyOf, better);
    assert [] + [r] == [r];
  }

  lemma {:induction false} LatestOfTwo(first: RawPITRow, second: RawPITRow, better: (RawPITRow, RawPITRow) -> bool)
    requires ObsKeyOf(first) == ObsKeyOf(second)
    ensures var m := Latest([first, second], ObsKeyOf, better);
            ObsKeyOf(first) in m && m[ObsKeyOf(first)] == if better(second, first) then second else first
  {
    LatestOfOne(first, better);
    LatestSnoc([first], second, ObsKeyOf, better);
    assert [first] + [second] == [first, second];
  }

  lemma {:induction false} SecondOvertakes(first: RawPITRow, second: RawPITRow)
    requires Formal(first) && !Formal(second) && ObsKeyOf(first) == ObsKeyOf(second) && first.ingestedAt < second.ingestedAt
    ensures Overtakes([first, second], 1)
  {
    assert [first, second][0] == first;
  }

  function OneRow(tag: string, ingested: Time): RawPITRow {
    RawPITRow("ifind-cn", "d", "market.eod.close", "A", 1, 1, ingested, tag, tag, 1.0)
  }

  /** Two writes reach such a table: a formal close, then an exploratory one of the same day ingested later
      under its own revision. The store goes on serving the formal row, the loader would take the other. */
  lemma {:induction false} ExploratoryRowOvertakes()
    ensures var formal, exploratory := OneRow("formal", 1), OneRow("exploratory", 2);
            var table := AfterAll([], [[formal], [exploratory]]);
            && table == [formal, exploratory] && Overtakes(table, 1)
            && ObsKeyOf(formal) in Served(table) && Served(table)[ObsKeyOf(formal)] == formal
            && Latest(table, ObsKeyOf, LaterIngested)[ObsKeyOf(formal)] == exploratory
  {
    var formal, exploratory := OneRow("formal", 1), OneRow("exploratory", 2);
    assert formal.revisionId != exploratory.revisionId;
    TwoWrites(formal, exploratory);
    LatestOfTwo(formal, exploratory, Preferred);
    LatestOfTwo(formal, exploratory, LaterIngested);
    SecondOvertakes(formal, exploratory);
  }

  /** The two known sources, and what any other is registered as. */
  lemma {:induction false} KnownSources(id: string)
    ensures RecordFor("ifind-cn") ==
              SourceRecord("同花顺 iFinD", "licensed-research", "CN 期货/股票 日频+分钟", true, true, "REGISTERED")
    ensures RecordFor("akshare-cn") ==
              SourceRecord("AkShare (Sina)", "exploratory", "CN 期货/股票 日频+分钟", false, false, "REGISTERED")
    ensures id != "ifind-cn" && id != "akshare-cn" ==>
              RecordFor(id) == SourceRecord(id, "unknown", "CN 期货/股票 日频+分钟", false, false, "REGISTERED")
  {
  }
}
