/** `data_gateway/loader.py`: batch validation and decision-time revision resolution of vendor rows. */
module Loader {
  import opened Clock
  import opened Sequences
  import opened Records
  import opened Revisions
  import Gateway
  import Text

  datatype ObsKey = ObsKey(field: string, instrumentId: string, eventTime: Time)

  function ObsKeyOf(r: RawPITRow): ObsKey {
    ObsKey(r.field, r.instrumentId, r.eventTime)
  }

  ghost predicate UniqueKeys(rows: seq<RawPITRow>) {
    forall i, j | 0 <= i < j < |rows| :: ObsKeyOf(rows[i]) != ObsKeyOf(rows[j])
  }

  /** `validate_pit_rows`; the error is the duplicate observation key. */
  method ValidatePitRows(rows: seq<RawPITRow>) returns (ok: bool)
    ensures ok <==> UniqueKeys(rows)
  {
    var keys: set<ObsKey> := {};
    for i := 0 to |rows|
      invariant UniqueKeys(rows[..i])
      invariant forall k :: k in keys <==> exists j :: 0 <= j < i && ObsKeyOf(rows[j]) == k
    {
      var key := ObsKeyOf(rows[i]);
      if key in keys {
        return false;
      }
      keys := keys + {key};
    }
    assert rows[..|rows|] == rows;
    return true;
  }

  predicate Available(decisionTime: Time, r: RawPITRow) {
    r.availableTime <= decisionTime && r.ingestedAt <= decisionTime
  }

  predicate LaterIngested(a: RawPITRow, b: RawPITRow) {
    a.ingestedAt > b.ingestedAt
  }

  predicate KeyLe(a: ObsKey, b: ObsKey) {
    Text.Lt(a.field, b.field) || (a.field == b.field && Text.Le(a.instrumentId, b.instrumentId))
  }

  function Admitted(rows: seq<RawPITRow>, decisionTime: Time): seq<RawPITRow> {
    Filter(rows, r => Available(decisionTime, r))
  }

  function Survivors(rows: seq<RawPITRow>, decisionTime: Time): map<ObsKey, RawPITRow> {
    Latest(Admitted(rows, decisionTime), ObsKeyOf, LaterIngested)
  }

  /** The result of `filter_and_resolve`: the surviving row of each key, keys in stable
      (field, instrument) order. */
  function Resolved(rows: seq<RawPITRow>, decisionTime: Time): seq<RawPITRow> {
    var visible := Admitted(rows, decisionTime);
    FirstSeenIsDomain(visible, ObsKeyOf, LaterIngested);
    var ks := StableSort(KeyLe, FirstSeen(visible, ObsKeyOf));
    SameElements(ks, FirstSeen(visible, ObsKeyOf));
    Values(ks, Survivors(rows, decisionTime))
  }

  /** `filter_and_resolve`: keeps the latest ingested row per key among those known by the decision time. */
  method FilterAndResolve(rows: seq<RawPITRow>, decisionTime: Time) returns (resolved: seq<RawPITRow>)
    ensures resolved == Resolved(rows, decisionTime)
  {
    var visible := Admitted(rows, decisionTime);
    var latest: Dict<ObsKey, RawPITRow> := Dict([], map[]);
    for i := 0 to |visible|
      invariant latest.items == Latest(visible[..i], ObsKeyOf, LaterIngested)
      invariant latest.keys == FirstSeen(visible[..i], ObsKeyOf)
    {
      var row := visible[i];
      assert visible[..i + 1] == visible[..i] + [row];
      ScanOne(visible[..i], row, ObsKeyOf, LaterIngested);
      var key := ObsKeyOf(row);
      if key !in latest.items {
        latest := Dict(latest.keys + [key], latest.items[key := row]);
      } else if LaterIngested(row, latest.items[key]) {
        latest := Dict(latest.keys, latest.items[key := row]);
      }
    }
    assert visible[..|visible|] == visible;
    FirstSeenIsDomain(visible, ObsKeyOf, LaterIngested);
    var ks := StableSort(KeyLe, latest.keys);
    SameElements(ks, latest.keys);
    resolved := Values(ks, latest.items);
  }

  lemma {:induction false} LaterIngestedIsRank()
    ensures StrictWeakOrder(LaterIngested)
  {
  }

  lemma {:induction false} InResolved(rows: seq<RawPITRow>, decisionTime: Time, r: RawPITRow)
    ensures r in Resolved(rows, decisionTime)
            <==> ObsKeyOf(r) in Survivors(rows, decisionTime) && Survivors(rows, decisionTime)[ObsKeyOf(r)] == r
  {
    var seen := FirstSeen(Admitted(rows, decisionTime), ObsKeyOf);
    FirstSeenIsDomain(Admitted(rows, decisionTime), ObsKeyOf, LaterIngested);
    SameElements(StableSort(KeyLe, seen), seen);
    ValuesContain(StableSort(KeyLe, seen), Survivors(rows, decisionTime), ObsKeyOf, r);
  }

  /** A row survives iff it was available and ingested by the decision time and is the first of the
      latest ingested such rows of its key. */
  lemma {:induction false} ResolvedIsLatestIngested(rows: seq<RawPITRow>, decisionTime: Time, r: RawPITRow)
    ensures var visible := Admitted(rows, decisionTime);
            r in Resolved(rows, decisionTime)
            <==> exists i :: FirstBest(visible, ObsKeyOf, LaterIngested, i) && visible[i] == r
  {
    var visible := Admitted(rows, decisionTime);
    InResolved(rows, decisionTime, r);
    LaterIngestedIsRank();
    if ObsKeyOf(r) in Survivors(rows, decisionTime) {
      var i := LatestIsFirstBest(visible, ObsKeyOf, LaterIngested, ObsKeyOf(r));
      if j :| FirstBest(visible, ObsKeyOf, LaterIngested, j) && visible[j] == r {
        FirstBestUnique(visible, ObsKeyOf, LaterIngested, i, j);
      }
    }
  }

  // ---------- agreement with the gateway ----------

  function SealAll(rows: seq<RawPITRow>): (sealed: seq<PITRow>)
    ensures |sealed| == |rows| && forall i :: 0 <= i < |rows| ==> sealed[i] == Seal(rows[i])
  {
    seq(|rows|, i requires 0 <= i < |rows| => Seal(rows[i]))
  }

  /** Within a key, different rows are ingested at different times and a later ingest is never available
      earlier. */
  ghost predicate OrderedRevisions(rows: seq<RawPITRow>) {
    forall r, s | r in rows && s in rows && r != s && ObsKeyOf(r) == ObsKeyOf(s) ::
      && r.ingestedAt != s.ingestedAt
      && (r.ingestedAt < s.ingestedAt ==> r.availableTime <= s.availableTime)
  }

  /** The query admits every row: one dataset, all fields and licenses requested. */
  ghost predicate Covers(q: Gateway.SnapshotQuery, rows: seq<RawPITRow>) {
    forall r :: r in rows ==> r.datasetId == q.datasetId && r.field in q.fields && r.licenseTag in q.allowedLicenseTags
  }

  ghost predicate SelectTheSame(rows: seq<RawPITRow>, q: Gateway.SnapshotQuery) {
    forall r :: r in rows ==>
      (r in Resolved(rows, q.decisionTime) <==> Seal(r) in Gateway.Answer(SealAll(rows), q))
  }

  lemma {:induction false} SameKeys(a: RawPITRow, b: RawPITRow)
    ensures Seal(a) == Seal(b) ==> a == b
    ensures a.datasetId == b.datasetId ==> (ObsKeyOf(a) == ObsKeyOf(b) <==> Gateway.KeyOf(Seal(a)) == Gateway.KeyOf(Seal(b)))
  {
  }

  lemma {:induction false} SealedVisible(rows: seq<RawPITRow>, q: Gateway.SnapshotQuery)
    requires Covers(q, rows)
    ensures forall r :: r in rows && r.availableTime <= q.decisionTime ==> Seal(r) in Gateway.Visible(SealAll(rows), q)
    ensures forall p :: p in Gateway.Visible(SealAll(rows), q) ==>
              exists r :: r in rows && r.availableTime <= q.decisionTime && p == Seal(r)
  {
    forall r | r in rows ensures Seal(r) in SealAll(rows) {
      var i :| 0 <= i < |rows| && rows[i] == r;
      assert SealAll(rows)[i] == Seal(r);
    }
    forall p | p in SealAll(rows) ensures exists r :: r in rows && p == Seal(r) {
      var i :| 0 <= i < |rows| && SealAll(rows)[i] == p;
      assert rows[i] in rows;
    }
  }

  /** No row of `r`'s key that is available by `d` was ingested after `r`. */
  ghost predicate LastIngested(rows: seq<RawPITRow>, d: Time, r: RawPITRow) {
    forall s :: s in rows && ObsKeyOf(s) == ObsKeyOf(r) && s.availableTime <= d ==> s.ingestedAt <= r.ingestedAt
  }

  /** On ordered revisions the gateway's three-part rank is the loader's ingest rank. */
  lemma {:induction false} SameRank(rows: seq<RawPITRow>, q: Gateway.SnapshotQuery, r: RawPITRow, p: PITRow) returns (s: RawPITRow)
    requires OrderedRevisions(rows) && Covers(q, rows) && r in rows
    requires p in Gateway.Visible(SealAll(rows), q) && Gateway.KeyOf(p) == Gateway.KeyOf(Seal(r))
    ensures s in rows && s.availableTime <= q.decisionTime && p == Seal(s) && ObsKeyOf(s) == ObsKeyOf(r)
    ensures Gateway.Newer(p, Seal(r)) <==> s.ingestedAt > r.ingestedAt
    ensures p != Seal(r) ==> Gateway.Newer(Seal(r), p) || Gateway.Newer(p, Seal(r))
  {
    SealedVisible(rows, q);
    s :| s in rows && s.availableTime <= q.decisionTime && p == Seal(s);
    SameKeys(r, s);
  }

  lemma {:induction false} GatewaySelects(rows: seq<RawPITRow>, q: Gateway.SnapshotQuery, r: RawPITRow)
    requires OrderedRevisions(rows) && Covers(q, rows) && r in rows && r.availableTime <= q.decisionTime
    ensures Seal(r) in Gateway.Answer(SealAll(rows), q) <==> LastIngested(rows, q.decisionTime, r)
  {
    var visible := Gateway.Visible(SealAll(rows), q);
    var sealed := Seal(r);
    SealedVisible(rows, q);
    Gateway.InAnswer(SealAll(rows), q, sealed);
    forall p | p in visible && Gateway.KeyOf(p) == Gateway.KeyOf(sealed)
      ensures p != sealed ==> Gateway.Newer(sealed, p) || Gateway.Newer(p, sealed)
      ensures LastIngested(rows, q.decisionTime, r) ==> !Gateway.Newer(p, sealed)
    {
      var s := SameRank(rows, q, r, p);
    }
    Gateway.NewerIsRank();
    LatestIffMax(visible, Gateway.KeyOf, Gateway.Newer, sealed);
    if sealed in Gateway.Answer(SealAll(rows), q) {
      AnsweredIsLast(rows, q, r);
    }
  }

  lemma {:induction false} AnsweredIsLast(rows: seq<RawPITRow>, q: Gateway.SnapshotQuery, r: RawPITRow)
    requires OrderedRevisions(rows) && Covers(q, rows) && r in rows
    requires forall p :: p in Gateway.Visible(SealAll(rows), q) && Gateway.KeyOf(p) == Gateway.KeyOf(Seal(r)) ==> !Gateway.Newer(p, Seal(r))
    ensures LastIngested(rows, q.decisionTime, r)
  {
    SealedVisible(rows, q);
    forall s | s in rows && ObsKeyOf(s) == ObsKeyOf(r) && s.availableTime <= q.decisionTime
      ensures s.ingestedAt <= r.ingestedAt
    {
      SameKeys(r, s);
      var t := SameRank(rows, q, r, Seal(s));
      SameKeys(s, t);
    }
  }

  lemma {:induction false} LoaderSelects(rows: seq<RawPITRow>, d: Time, r: RawPITRow)
    requires OrderedRevisions(rows) && r in rows && Available(d, r)
    requires forall s :: s in rows && ObsKeyOf(s) == ObsKeyOf(r) && s.availableTime <= d ==> s.ingestedAt <= d
    ensures r in Resolved(rows, d) <==> LastIngested(rows, d, r)
  {
    InResolved(rows, d, r);
    LatestIffMax(Admitted(rows, d), ObsKeyOf, LaterIngested, r);
    if r in Resolved(rows, d) {
      forall s | s in rows && ObsKeyOf(s) == ObsKeyOf(r) && s.availableTime <= d ensures s.ingestedAt <= r.ingestedAt {
        assert s in Admitted(rows, d);
        assert !LaterIngested(s, r);
      }
    }
  }

  /** For rows whose revisions are ordered, the loader and the gateway select the same rows at a decision
      time iff every row available by then has also been ingested by then. */
  lemma {:induction false} ResolversAgreeIff(rows: seq<RawPITRow>, q: Gateway.SnapshotQuery)
    requires OrderedRevisions(rows) && Covers(q, rows)
    ensures SelectTheSame(rows, q)
            <==> forall r :: r in rows && r.availableTime <= q.decisionTime ==> r.ingestedAt <= q.decisionTime
  {
    var d := q.decisionTime;
    if late :| late in rows && late.availableTime <= d && late.ingestedAt > d {
      var best := LastOfKey(rows, d, late);
      GatewaySelects(rows, q, best);
      InResolved(rows, d, best);
      assert !Available(d, best) && best !in Resolved(rows, d);
    } else {
      forall r | r in rows
        ensures r in Resolved(rows, d) <==> Seal(r) in Gateway.Answer(SealAll(rows), q)
      {
        if r.availableTime <= d {
          GatewaySelects(rows, q, r);
          LoaderSelects(rows, d, r);
        } else {
          InResolved(rows, d, r);
          Gateway.InAnswer(SealAll(rows), q, Seal(r));
        }
      }
    }
  }

  lemma {:induction false} LastOfKey(rows: seq<RawPITRow>, d: Time, r: RawPITRow) returns (last: RawPITRow)
    requires r in rows && r.availableTime <= d
    ensures last in rows && ObsKeyOf(last) == ObsKeyOf(r) && last.availableTime <= d
    ensures last.ingestedAt >= r.ingestedAt && LastIngested(rows, d, last)
  {
    last := r;
    for n := 0 to |rows|
      invariant last in rows && ObsKeyOf(last) == ObsKeyOf(r) && last.availableTime <= d
      invariant last.ingestedAt >= r.ingestedAt && LastIngested(rows[..n], d, last)
    {
      if ObsKeyOf(rows[n]) == ObsKeyOf(r) && rows[n].availableTime <= d && rows[n].ingestedAt > last.ingestedAt {
        last := rows[n];
      }
      assert rows[..n + 1] == rows[..n] + [rows[n]];
    }
    assert rows[..|rows|] == rows;
  }

  /** Two revisions of one close, the second available on day 2 but ingested only on day 5. */
  function Revision(id: string, available: Time, ingested: Time): RawPITRow {
    RawPITRow("ifind-cn", "d", "market.eod.close", "A", 0, available, ingested, id, "formal", 1.0)
  }

  function LateIngest(): seq<RawPITRow> {
    [Revision("1", 1, 1), Revision("2", 2, 5)]
  }

  lemma {:induction false} LateRows()
    ensures TwoRevisions(LateIngest(), Revision("1", 1, 1), Revision("2", 2, 5), 3)
    ensures forall r :: r in LateIngest() ==> r.Valid()
  {
    assert LateIngest()[0] in LateIngest() && LateIngest()[1] in LateIngest();
  }

  /** The rows are two revisions of one key, both available by `d` and only the first ingested by `d`. */
  ghost predicate TwoRevisions(rows: seq<RawPITRow>, first: RawPITRow, second: RawPITRow, d: Time) {
    && (forall r :: r in rows <==> r == first || r == second)
    && ObsKeyOf(first) == ObsKeyOf(second)
    && first.availableTime <= second.availableTime <= d && first.ingestedAt <= d < second.ingestedAt
  }

  /** At a decision on day 3 the gateway serves the second revision and the loader the first. */
  lemma {:induction false} LateIngestDivides(q: Gateway.SnapshotQuery)
    requires Covers(q, LateIngest()) && q.decisionTime == 3
    ensures forall r :: r in LateIngest() ==> r.Valid()
    ensures OrderedRevisions(LateIngest()) && !SelectTheSame(LateIngest(), q)
    ensures Seal(Revision("2", 2, 5)) in Gateway.Answer(SealAll(LateIngest()), q) && Revision("1", 1, 1) in Resolved(LateIngest(), 3)
  {
    LateRows();
    RevisionsOrdered(LateIngest(), Revision("1", 1, 1), Revision("2", 2, 5), 3);
    SecondRevisionDivides(LateIngest(), Revision("1", 1, 1), Revision("2", 2, 5), q);
  }

  lemma {:induction false} RevisionsOrdered(rows: seq<RawPITRow>, first: RawPITRow, second: RawPITRow, d: Time)
    requires TwoRevisions(rows, first, second, d)
    ensures OrderedRevisions(rows)
  {
  }

  /** Any two revisions in order do, when only the first is ingested by the decision time. */
  lemma {:induction false} SecondRevisionDivides(rows: seq<RawPITRow>, first: RawPITRow, second: RawPITRow, q: Gateway.SnapshotQuery)
    requires TwoRevisions(rows, first, second, q.decisionTime) && OrderedRevisions(rows) && Covers(q, rows)
    ensures Seal(second) in Gateway.Answer(SealAll(rows), q)
    ensures first in Resolved(rows, q.decisionTime)
    ensures !SelectTheSame(rows, q)
  {
    ResolversAgreeIff(rows, q);
    assert LastIngested(rows, q.decisionTime, second);
    GatewaySelects(rows, q, second);
    OnlyAdmitted(rows, q.decisionTime, first);
    InResolved(rows, q.decisionTime, first);
  }

  lemma {:induction false} OnlyAdmitted(rows: seq<RawPITRow>, d: Time, r: RawPITRow)
    requires r in rows && Available(d, r) && forall s :: s in rows && Available(d, s) ==> s == r
    ensures ObsKeyOf(r) in Survivors(rows, d) && Survivors(rows, d)[ObsKeyOf(r)] == r
  {
    assert r in Admitted(rows, d);
  }
}
