/** `data_gateway/gateway.py`: the formal point-in-time query over a frozen snapshot. */
module Gateway {
  import opened Wrappers
  import opened Clock
  import opened Sequences
  import opened Records
  import opened Revisions
  import Text

  datatype Purpose = Research | DerivedFactor | Backtest | Report | Paper | Live
  datatype SourceClass = FormalSource | OfficialSource | ExploratorySource
  datatype ArtifactClass = FormalArtifact | ExploratoryArtifact

  datatype FieldContract = FieldContract(name: string, licenseTag: string, allowedPurposes: set<Purpose>)

  datatype DatasetContract = DatasetContract(
    datasetId: string, sourceId: string, sourceClass: SourceClass, fields: seq<FieldContract>)

  datatype FrozenSnapshot = FrozenSnapshot(
    snapshotId: string, frozenAt: Time, artifactClass: ArtifactClass,
    contracts: map<string, DatasetContract>, rows: seq<PITRow>)

  datatype SnapshotQuery = SnapshotQuery(
    snapshotId: string, datasetId: string, fields: seq<string>, decisionTime: Time,
    purpose: Purpose, allowedLicenseTags: set<string>)

  datatype QueryError =
    | UnknownSnapshot | ExploratoryArtifactRejected | UnknownDataset | ExploratorySourceRejected
    | UndeclaredField(name: string) | PurposeDenied(name: string) | LicenseDenied(name: string)

  /** `DatasetContract.field`: the first field of that name. */
  function FindField(fields: seq<FieldContract>, name: string): (r: Option<FieldContract>)
    ensures r.Some? ==> r.value in fields && r.value.name == name
    ensures r.None? <==> forall f :: f in fields ==> f.name != name
  {
    if fields == [] then None
    else if fields[0].name == name then Some(fields[0])
    else FindField(fields[1..], name)
  }

  /** What `FrozenSnapshot.__post_init__` refuses to violate. */
  ghost predicate WellFormed(s: FrozenSnapshot) {
    forall r :: r in s.rows ==>
      && r.Valid()
      && r.datasetId in s.contracts
      && r.sourceId == s.contracts[r.datasetId].sourceId
      && r.ingestedAt <= s.frozenAt
      && var field := FindField(s.contracts[r.datasetId].fields, r.field);
         field.Some? && r.licenseTag == field.value.licenseTag
  }

  /** The error one requested field raises, if any. */
  function FieldError(c: DatasetContract, q: SnapshotQuery, name: string): Option<QueryError> {
    match FindField(c.fields, name)
    case None => Some(UndeclaredField(name))
    case Some(f) =>
      if q.purpose !in f.allowedPurposes then Some(PurposeDenied(name))
      else if f.licenseTag !in q.allowedLicenseTags then Some(LicenseDenied(name))
      else None
  }

  /** The first refusal among the requested fields, in request order. */
  function FirstFieldError(c: DatasetContract, q: SnapshotQuery, names: seq<string>): Option<QueryError> {
    if names == [] then None
    else
      var first := FieldError(c, q, names[0]);
      if first.Some? then first else FirstFieldError(c, q, names[1..])
  }

  /** The error a query raises before it reads any row, if any. */
  function Refusal(snapshots: map<string, FrozenSnapshot>, q: SnapshotQuery): Option<QueryError> {
    if q.snapshotId !in snapshots then Some(UnknownSnapshot)
    else
      var s := snapshots[q.snapshotId];
      if s.artifactClass.ExploratoryArtifact? then Some(ExploratoryArtifactRejected)
      else if q.datasetId !in s.contracts then Some(UnknownDataset)
      else if s.contracts[q.datasetId].sourceClass.ExploratorySource? then Some(ExploratorySourceRejected)
      else FirstFieldError(s.contracts[q.datasetId], q, q.fields)
  }

  /** Row key `revision_key`. */
  datatype Key = Key(datasetId: string, field: string, instrumentId: string, eventTime: Time)

  function KeyOf(r: PITRow): Key {
    Key(r.datasetId, r.field, r.instrumentId, r.eventTime)
  }

  /** `_revision_order(a) > _revision_order(b)` on the tuples (available, ingested, revision id). */
  predicate Newer(a: PITRow, b: PITRow) {
    || a.availableTime > b.availableTime
    || (a.availableTime == b.availableTime
        && (|| a.ingestedAt > b.ingestedAt
            || (a.ingestedAt == b.ingestedAt && Text.Lt(b.revisionId, a.revisionId))))
  }

  predicate IsVisible(q: SnapshotQuery, r: PITRow) {
    && r.datasetId == q.datasetId
    && r.field in q.fields
    && r.availableTime <= q.decisionTime
    && r.licenseTag in q.allowedLicenseTags
  }

  /** The sort key (event time, instrument, field, available time, revision id). */
  predicate RowLe(a: PITRow, b: PITRow) {
    || a.eventTime < b.eventTime
    || (a.eventTime == b.eventTime
        && (|| Text.Lt(a.instrumentId, b.instrumentId)
            || (a.instrumentId == b.instrumentId
                && (|| Text.Lt(a.field, b.field)
                    || (a.field == b.field
                        && (|| a.availableTime < b.availableTime
                            || (a.availableTime == b.availableTime && Text.Le(a.revisionId, b.revisionId))))))))
  }

  function Visible(rows: seq<PITRow>, q: SnapshotQuery): seq<PITRow> {
    Filter(rows, r => IsVisible(q, r))
  }

  function Selected(rows: seq<PITRow>, q: SnapshotQuery): map<Key, PITRow> {
    Latest(Visible(rows, q), KeyOf, Newer)
  }

  /** The rows a query returns: specification of the scan and the final sort. */
  function Answer(rows: seq<PITRow>, q: SnapshotQuery): seq<PITRow> {
    var visible := Visible(rows, q);
    FirstSeenIsDomain(visible, KeyOf, Newer);
    StableSort(RowLe, Values(FirstSeen(visible, KeyOf), Selected(rows, q)))
  }

  class PITDataGateway {
    const snapshots: map<string, FrozenSnapshot>

    constructor (snapshots: map<string, FrozenSnapshot>)
      ensures this.snapshots == snapshots
    {
      this.snapshots := snapshots;
    }

    /** `query`: the access checks in order, then the scan, then the sort. */
    method Query(q: SnapshotQuery) returns (r: Result<seq<PITRow>, QueryError>)
      ensures r == match Refusal(snapshots, q)
                   case Some(e) => Err(e)
                   case None => Ok(Answer(snapshots[q.snapshotId].rows, q))
    {
      if q.snapshotId !in snapshots {
        return Err(UnknownSnapshot);
      }
      var snapshot := snapshots[q.snapshotId];
      if snapshot.artifactClass.ExploratoryArtifact? {
        return Err(ExploratoryArtifactRejected);
      }
      if q.datasetId !in snapshot.contracts {
        return Err(UnknownDataset);
      }
      var contract := snapshot.contracts[q.datasetId];
      if contract.sourceClass.ExploratorySource? {
        return Err(ExploratorySourceRejected);
      }
      var refusal := CheckFields(contract, q);
      if refusal.Some? {
        return Err(refusal.value);
      }
      var revisions := ScanRows(snapshot.rows, q);
      FirstSeenIsDomain(Visible(snapshot.rows, q), KeyOf, Newer);
      return Ok(StableSort(RowLe, Values(revisions.keys, revisions.items)));
    }

    /** The loop over the requested fields. */
    static method CheckFields(contract: DatasetContract, q: SnapshotQuery) returns (refusal: Option<QueryError>)
      ensures refusal == FirstFieldError(contract, q, q.fields)
    {
      for i := 0 to |q.fields|
        invariant FirstFieldError(contract, q, q.fields) == FirstFieldError(contract, q, q.fields[i..])
      {
        refusal := FieldError(contract, q, q.fields[i]);
        if refusal.Some? {
          return;
        }
      }
      return None;
    }

    /** The loop over the snapshot's rows. */
    static method ScanRows(rows: seq<PITRow>, q: SnapshotQuery) returns (revisions: Dict<Key, PITRow>)
      ensures revisions.keys == FirstSeen(Visible(rows, q), KeyOf) && revisions.items == Selected(rows, q)
    {
      revisions := Dict([], map[]);
      for i := 0 to |rows|
        invariant revisions == Scanned(rows[..i], q)
      {
        var item := rows[i];
        ScanStep(rows[..i], q, item);
        assert rows[..i + 1] == rows[..i] + [item];
        if IsVisible(q, item) {
          var key := KeyOf(item);
          if key !in revisions.items {
            revisions := Dict(revisions.keys + [key], revisions.items[key := item]);
          } else if Newer(item, revisions.items[key]) {
            revisions := Dict(revisions.keys, revisions.items[key := item]);
          }
        }
      }
      assert rows[..|rows|] == rows;
    }
  }

  /** The `revisions` dict after scanning `rows`. */
  ghost function Scanned(rows: seq<PITRow>, q: SnapshotQuery): Dict<Key, PITRow> {
    Dict(FirstSeen(Visible(rows, q), KeyOf), Selected(rows, q))
  }

  /** One row of the scan. */
  function Record(d: Dict<Key, PITRow>, item: PITRow): Dict<Key, PITRow> {
    var key := KeyOf(item);
    if key !in d.items then Dict(d.keys + [key], d.items[key := item])
    else if Newer(item, d.items[key]) then Dict(d.keys, d.items[key := item])
    else d
  }

  lemma {:induction false} ScanStep(rows: seq<PITRow>, q: SnapshotQuery, item: PITRow)
    ensures Scanned(rows + [item], q) == if IsVisible(q, item) then Record(Scanned(rows, q), item) else Scanned(rows, q)
  {
    FilterSnoc(rows, item, r => IsVisible(q, r));
    if IsVisible(q, item) {
      ScanOne(Visible(rows, q), item, KeyOf, Newer);
    }
  }

  // ---------- orders ----------

  lemma {:induction false} NewerIsRank()
    ensures StrictWeakOrder(Newer)
    ensures forall x, y :: !Newer(x, y) && !Newer(y, x) ==>
              x.availableTime == y.availableTime && x.ingestedAt == y.ingestedAt && x.revisionId == y.revisionId
  {
    forall x: PITRow, y: PITRow, z: PITRow
      ensures Newer(x, y) && Newer(y, z) ==> Newer(x, z)
      ensures !Newer(x, y) && !Newer(y, z) ==> !Newer(x, z)
      ensures !Newer(x, y) && !Newer(y, x) ==>
              x.availableTime == y.availableTime && x.ingestedAt == y.ingestedAt && x.revisionId == y.revisionId
    {
      Text.LtRank(x.revisionId, y.revisionId, z.revisionId);
    }
  }

  lemma {:induction false} RowLeOrders()
    ensures TotalPreorder(RowLe)
  {
    forall x: PITRow, y: PITRow, z: PITRow
      ensures RowLe(x, y) || RowLe(y, x)
      ensures RowLe(x, y) && RowLe(y, z) ==> RowLe(x, z)
    {
      Text.LtRank(x.instrumentId, y.instrumentId, z.instrumentId);
      Text.LtRank(x.field, y.field, z.field);
      Text.LtRank(x.revisionId, y.revisionId, z.revisionId);
    }
  }

  // ---------- what a query answers ----------

  lemma {:induction false} InAnswer(rows: seq<PITRow>, q: SnapshotQuery, r: PITRow)
    ensures r in Answer(rows, q) <==> KeyOf(r) in Selected(rows, q) && Selected(rows, q)[KeyOf(r)] == r
  {
    FirstSeenIsDomain(Visible(rows, q), KeyOf, Newer);
    var ks := FirstSeen(Visible(rows, q), KeyOf);
    var vs := Values(ks, Selected(rows, q));
    SameElements(vs, StableSort(RowLe, vs));
    ValuesContain(ks, Selected(rows, q), KeyOf, r);
  }

  lemma {:induction false} ValuesDistinct(ks: seq<Key>, m: map<Key, PITRow>)
    requires Distinct(ks)
    requires forall k :: k in ks ==> k in m && KeyOf(m[k]) == k
    ensures Distinct(Values(ks, m))
  {
  }

  /** The answer is sorted by (event time, instrument, field, available time, revision id). */
  lemma {:induction false} AnswerSorted(rows: seq<PITRow>, q: SnapshotQuery)
    ensures Sorted(RowLe, Answer(rows, q))
  {
    RowLeOrders();
    var visible := Visible(rows, q);
    FirstSeenIsDomain(visible, KeyOf, Newer);
    SortSorts(RowLe, Values(FirstSeen(visible, KeyOf), Selected(rows, q)));
  }

  /** `r` is the first of the rows of its key, among `rows`, that no other one beats. */
  ghost predicate IsFirstBest(rows: seq<PITRow>, r: PITRow) {
    exists i :: FirstBest(rows, KeyOf, Newer, i) && rows[i] == r
  }

  lemma {:induction false} LatestIffFirstBest(rows: seq<PITRow>, r: PITRow)
    ensures IsFirstBest(rows, r) <==> KeyOf(r) in Latest(rows, KeyOf, Newer) && Latest(rows, KeyOf, Newer)[KeyOf(r)] == r
  {
    NewerIsRank();
    if KeyOf(r) in Latest(rows, KeyOf, Newer) {
      var i := LatestIsFirstBest(rows, KeyOf, Newer, KeyOf(r));
      if j :| FirstBest(rows, KeyOf, Newer, j) && rows[j] == r {
        FirstBestUnique(rows, KeyOf, Newer, i, j);
      }
    }
  }

  /** A row is answered iff it is the first of the maximal ones in (available, ingested, revision id)
      among the visible rows of its key. */
  lemma {:induction false} AnswerIsArgmaxPerKey(rows: seq<PITRow>, q: SnapshotQuery, r: PITRow)
    ensures r in Answer(rows, q) <==> IsFirstBest(Visible(rows, q), r)
  {
    InAnswer(rows, q, r);
    LatestIffFirstBest(Visible(rows, q), r);
  }

  /** Every key with a visible row is answered. */
  lemma {:induction false} EveryVisibleKeyIsAnswered(rows: seq<PITRow>, q: SnapshotQuery, v: PITRow)
    requires v in rows && IsVisible(q, v)
    ensures exists r :: r in Answer(rows, q) && KeyOf(r) == KeyOf(v)
  {
    assert v in Visible(rows, q);
    InAnswer(rows, q, Selected(rows, q)[KeyOf(v)]);
  }

  /** The answer holds one row per key. */
  lemma {:induction false} AnswerHasOneRowPerKey(rows: seq<PITRow>, q: SnapshotQuery)
    ensures forall i, j | 0 <= i < j < |Answer(rows, q)| :: KeyOf(Answer(rows, q)[i]) != KeyOf(Answer(rows, q)[j])
  {
    var visible := Visible(rows, q);
    FirstSeenIsDomain(visible, KeyOf, Newer);
    var ks, m := FirstSeen(visible, KeyOf), Selected(rows, q);
    var vs := Values(ks, m);
    var answer := Answer(rows, q);
    ValuesDistinct(ks, m);
    forall i, j | 0 <= i < j < |answer| ensures KeyOf(answer[i]) != KeyOf(answer[j]) {
      InAnswer(rows, q, answer[i]);
      InAnswer(rows, q, answer[j]);
      DistinctCount(vs, answer[i]);
      if answer[i] == answer[j] {
        TwiceCounts(answer, i, j);
      }
    }
  }

  /** No look-ahead: rows that become available after the decision time never change the answer. */
  lemma {:induction false} FutureRowsNeverMatter(rows: seq<PITRow>, others: seq<PITRow>, q: SnapshotQuery)
    requires Filter(rows, (r: PITRow) => r.availableTime <= q.decisionTime)
          == Filter(others, (r: PITRow) => r.availableTime <= q.decisionTime)
    ensures Answer(rows, q) == Answer(others, q)
  {
    var known := (r: PITRow) => r.availableTime <= q.decisionTime;
    var visible := (r: PITRow) => IsVisible(q, r);
    FilterFilter(rows, known, visible, visible);
    FilterFilter(others, known, visible, visible);
  }

  /** Incremental law: the selection at a later decision time is the earlier one overridden by the
      selection among the rows that became available in between. */
  lemma {:induction false} SelectedIncrementally(rows: seq<PITRow>, q: SnapshotQuery, later: SnapshotQuery)
    requires later == q.(decisionTime := later.decisionTime) && q.decisionTime <= later.decisionTime
    ensures Selected(rows, later)
         == Selected(rows, q)
            + Latest(Filter(rows, r => IsVisible(later, r) && r.availableTime > q.decisionTime), KeyOf, Newer)
  {
    var late := (r: PITRow) => IsVisible(later, r) && r.availableTime > q.decisionTime;
    LatestWindow(rows, KeyOf, Newer, r => IsVisible(q, r), late, r => IsVisible(later, r));
  }

  /** The incremental law on the returned rows: a row is answered at the later time iff it is the best
      of the rows published in between, or was answered before and its key got no such row; and no key
      answered before disappears. */
  lemma {:induction false} AnswerIncrementally(rows: seq<PITRow>, q: SnapshotQuery, later: SnapshotQuery, r: PITRow)
    requires later == q.(decisionTime := later.decisionTime) && q.decisionTime <= later.decisionTime
    ensures var published := Filter(rows, r => IsVisible(later, r) && r.availableTime > q.decisionTime);
            r in Answer(rows, later) <==>
              || IsFirstBest(published, r)
              || (r in Answer(rows, q) && forall p :: p in published ==> KeyOf(p) != KeyOf(r))
    ensures r in Answer(rows, q) ==> exists s :: s in Answer(rows, later) && KeyOf(s) == KeyOf(r)
  {
    SelectedIncrementally(rows, q, later);
    InAnswer(rows, later, r);
    InAnswer(rows, q, r);
    LatestIffFirstBest(Filter(rows, r => IsVisible(later, r) && r.availableTime > q.decisionTime), r);
    if r in Answer(rows, q) {
      InAnswer(rows, later, Selected(rows, later)[KeyOf(r)]);
    }
  }

  /** In a well-formed snapshot the per-row license test of the scan is implied by the per-field access
      check that precedes it: once a query is admitted, dropping the test changes no answer. */
  lemma {:induction false} LicenseTestIsImplied(snapshots: map<string, FrozenSnapshot>, q: SnapshotQuery, r: PITRow)
    requires Refusal(snapshots, q).None?
    requires WellFormed(snapshots[q.snapshotId]) && r in snapshots[q.snapshotId].rows
    ensures IsVisible(q, r) <==> r.datasetId == q.datasetId && r.field in q.fields && r.availableTime <= q.decisionTime
  {
    if r.datasetId == q.datasetId && r.field in q.fields {
      AdmittedField(snapshots[q.snapshotId].contracts[q.datasetId], q, q.fields, r.field);
    }
  }

  lemma {:induction false} AdmittedField(c: DatasetContract, q: SnapshotQuery, names: seq<string>, name: string)
    requires FirstFieldError(c, q, names).None? && name in names
    ensures FieldError(c, q, name).None?
  {
    if names[0] != name {
      AdmittedField(c, q, names[1..], name);
    }
  }

  /** At most one visible row of every key is unbeaten. */
  ghost predicate NoTopTies(rows: seq<PITRow>, q: SnapshotQuery) {
    forall r, s | Unbeaten(Visible(rows, q), KeyOf, Newer, r) && Unbeaten(Visible(rows, q), KeyOf, Newer, s) ::
      KeyOf(r) == KeyOf(s) ==> r == s
  }

  /** Determinism: then the answer depends only on which rows the snapshot holds, not on their order. */
  lemma {:induction false} AnswerIgnoresRowOrder(rows: seq<PITRow>, others: seq<PITRow>, q: SnapshotQuery)
    requires (forall r :: r in rows <==> r in others) && NoTopTies(rows, q)
    ensures Answer(rows, q) == Answer(others, q)
  {
    var xs, ys := Visible(rows, q), Visible(others, q);
    NewerIsRank();
    LatestOrderFree(xs, ys, KeyOf, Newer);
    SameSelectedRows(xs, ys, Selected(rows, q));
    AnswerSorted(rows, q);
    AnswerSorted(others, q);
    AnswerTies(rows, q);
    SortedUnique(RowLe, Answer(rows, q), Answer(others, q));
  }

  lemma {:induction false} SameSelectedRows(xs: seq<PITRow>, ys: seq<PITRow>, m: map<Key, PITRow>)
    requires m == Latest(xs, KeyOf, Newer) == Latest(ys, KeyOf, Newer)
    ensures forall k :: k in FirstSeen(xs, KeyOf) ==> k in m
    ensures forall k :: k in FirstSeen(ys, KeyOf) ==> k in m
    ensures multiset(Values(FirstSeen(xs, KeyOf), m)) == multiset(Values(FirstSeen(ys, KeyOf), m))
  {
    FirstSeenIsDomain(xs, KeyOf, Newer);
    FirstSeenIsDomain(ys, KeyOf, Newer);
    var kx, ky := FirstSeen(xs, KeyOf), FirstSeen(ys, KeyOf);
    ValuesDistinct(kx, m);
    ValuesDistinct(ky, m);
    forall v ensures v in Values(kx, m) <==> v in Values(ky, m) {
      ValuesContain(kx, m, KeyOf, v);
      ValuesContain(ky, m, KeyOf, v);
    }
    DistinctSameMultiset(Values(kx, m), Values(ky, m));
  }

  /** A snapshot that lists an unbeaten visible row first answers with it. */
  lemma {:induction false} FrontIsAnswered(rows: seq<PITRow>, q: SnapshotQuery, r: PITRow) returns (others: seq<PITRow>)
    requires Unbeaten(Visible(rows, q), KeyOf, Newer, r)
    ensures multiset(others) == multiset(rows)
    ensures forall s :: s in Answer(others, q) && KeyOf(s) == KeyOf(r) <==> s == r
  {
    var i :| 0 <= i < |rows| && rows[i] == r;
    var rest := rows[..i] + rows[i + 1..];
    assert rows == rows[..i] + [r] + rows[i + 1..];
    others := [r] + rest;
    SameElements(others, rows);
    FilterCons(r, rest, s => IsVisible(q, s));
    NewerIsRank();
    var visible := Visible(others, q);
    assert visible[0] == r && KeyOf(r) in Selected(others, q);
    var j := LatestIsFirstBest(visible, KeyOf, Newer, KeyOf(r));
    UnbeatenFirst(visible, r);
    FirstBestUnique(visible, KeyOf, Newer, 0, j);
    forall s ensures s in Answer(others, q) && KeyOf(s) == KeyOf(r) <==> s == r {
      InAnswer(others, q, s);
    }
  }

  lemma {:induction false} UnbeatenFirst(visible: seq<PITRow>, r: PITRow)
    requires visible != [] && visible[0] == r
    requires forall s :: s in visible && KeyOf(s) == KeyOf(r) ==> !Newer(s, r)
    ensures FirstBest(visible, KeyOf, Newer, 0)
  {
  }

  /** The answer is the same in every row order of the snapshot iff at most one visible row of every key is
      unbeaten. */
  lemma {:induction false} AnswerIgnoresRowOrderIff(rows: seq<PITRow>, q: SnapshotQuery)
    ensures (forall others | multiset(others) == multiset(rows) :: Answer(others, q) == Answer(rows, q)) <==> NoTopTies(rows, q)
  {
    if NoTopTies(rows, q) {
      forall others | multiset(others) == multiset(rows) ensures Answer(others, q) == Answer(rows, q) {
        SameElements(others, rows);
        AnswerIgnoresRowOrder(rows, others, q);
      }
    } else {
      var r, s :| Unbeaten(Visible(rows, q), KeyOf, Newer, r) && Unbeaten(Visible(rows, q), KeyOf, Newer, s)
                  && KeyOf(r) == KeyOf(s) && r != s;
      var first := FrontIsAnswered(rows, q, r);
      var second := FrontIsAnswered(rows, q, s);
      assert r in Answer(first, q) && r !in Answer(second, q);
      assert Answer(first, q) != Answer(second, q);
    }
  }

  lemma {:induction false} AnswerTies(rows: seq<PITRow>, q: SnapshotQuery)
    ensures TiesAreEqual(RowLe, Answer(rows, q))
  {
    var answer := Answer(rows, q);
    forall i, j | 0 <= i < |answer| && 0 <= j < |answer| && RowLe(answer[i], answer[j]) && RowLe(answer[j], answer[i])
      ensures answer[i] == answer[j]
    {
      InAnswer(rows, q, answer[i]);
      InAnswer(rows, q, answer[j]);
      Text.LtPair(answer[i].instrumentId, answer[j].instrumentId);
      Text.LtPair(answer[i].field, answer[j].field);
    }
  }

  // ---------- when a query is refused ----------

  /** The first field contract of that name allows the purpose and has a license the query accepts. */
  ghost predicate Granted(fields: seq<FieldContract>, q: SnapshotQuery, name: string) {
    exists k :: 0 <= k < |fields| && DeclaredAt(fields, name, k)
                && q.purpose in fields[k].allowedPurposes && fields[k].licenseTag in q.allowedLicenseTags
  }

  ghost predicate DeclaredAt(fields: seq<FieldContract>, name: string, k: int) {
    0 <= k < |fields| && fields[k].name == name && forall j | 0 <= j < k :: fields[j].name != name
  }

  lemma {:induction false} FoundAt(fields: seq<FieldContract>, name: string) returns (k: int)
    ensures FindField(fields, name).Some? ==> DeclaredAt(fields, name, k) && FindField(fields, name).value == fields[k]
    ensures FindField(fields, name).None? ==> forall f :: f in fields ==> f.name != name
  {
    k := 0;
    if fields != [] && fields[0].name != name {
      var j := FoundAt(fields[1..], name);
      k := j + 1;
      assert forall i :: 0 < i < |fields| ==> fields[i] == fields[1..][i - 1];
    }
  }

  lemma {:induction false} GrantedIff(c: DatasetContract, q: SnapshotQuery, name: string)
    ensures FieldError(c, q, name).None? <==> Granted(c.fields, q, name)
  {
    var k := FoundAt(c.fields, name);
    if j :| 0 <= j < |c.fields| && DeclaredAt(c.fields, name, j) {
      assert c.fields[j] in c.fields;
      assert j == k;
    }
  }

  lemma {:induction false} AllGrantedIff(c: DatasetContract, q: SnapshotQuery, names: seq<string>)
    ensures FirstFieldError(c, q, names).None? <==> forall name :: name in names ==> Granted(c.fields, q, name)
  {
    if names != [] {
      GrantedIff(c, q, names[0]);
      AllGrantedIff(c, q, names[1..]);
      assert names == [names[0]] + names[1..];
    }
  }

  /** A query is admitted iff the snapshot is known and formal, holds the dataset, the dataset's source is not
      exploratory, and every requested field is declared and granted. */
  lemma {:induction false} AdmittedIff(snapshots: map<string, FrozenSnapshot>, q: SnapshotQuery)
    ensures Refusal(snapshots, q).None? <==>
              && q.snapshotId in snapshots && snapshots[q.snapshotId].artifactClass == FormalArtifact
              && q.datasetId in snapshots[q.snapshotId].contracts
              && snapshots[q.snapshotId].contracts[q.datasetId].sourceClass != ExploratorySource
              && forall name :: name in q.fields ==> Granted(snapshots[q.snapshotId].contracts[q.datasetId].fields, q, name)
  {
    if q.snapshotId in snapshots && q.datasetId in snapshots[q.snapshotId].contracts {
      AllGrantedIff(snapshots[q.snapshotId].contracts[q.datasetId], q, q.fields);
    }
  }

  /** The first field that is not granted is the one reported: undeclared, or denied for its purpose, or else for
      its license. */
  lemma {:induction false} FirstDenied(c: DatasetContract, q: SnapshotQuery, names: seq<string>, n: nat)
    requires n < |names| && !Granted(c.fields, q, names[n]) && forall j | 0 <= j < n :: Granted(c.fields, q, names[j])
    ensures var e := FirstFieldError(c, q, names);
            && ((forall f :: f in c.fields ==> f.name != names[n]) ==> e == Some(UndeclaredField(names[n])))
            && (forall k | DeclaredAt(c.fields, names[n], k) ::
                  e == Some(if q.purpose in c.fields[k].allowedPurposes then LicenseDenied(names[n]) else PurposeDenied(names[n])))
  {
    GrantedIff(c, q, names[0]);
    if n > 0 {
      assert forall j :: 0 < j < |names| ==> names[j] == names[1..][j - 1];
      FirstDenied(c, q, names[1..], n - 1);
    } else {
      var k := FoundAt(c.fields, names[0]);
      forall j | DeclaredAt(c.fields, names[0], j) ensures j == k {
        assert c.fields[j] in c.fields;
      }
    }
  }
}
