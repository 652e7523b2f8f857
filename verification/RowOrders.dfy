/** What the three readers of point-in-time rows return, in terms of the rows' own fields and of code point
    order: which rows are let through, which of them wins, and in what order the winners come. */
module RowOrders {
  import opened Wrappers
  import opened Clock
  import opened Sequences
  import opened Records
  import opened Revisions
  import opened Text
  import G = Gateway
  import L = Loader
  import P = PitStore

  // ---------- the gateway ----------

  /** The query's conditions on a row. */
  predicate Asked(q: G.SnapshotQuery, r: PITRow) {
    r.datasetId == q.datasetId && r.field in q.fields && r.availableTime <= q.decisionTime && r.licenseTag in q.allowedLicenseTags
  }

  /** The rows are revisions of one observation. */
  predicate SameObservation(r: PITRow, s: PITRow) {
    r.datasetId == s.datasetId && r.field == s.field && r.instrumentId == s.instrumentId && r.eventTime == s.eventTime
  }

  /** `s` was available no later than `r`, in case of a tie ingested no later, in case of a tie revised no later. */
  ghost predicate NoNewer(s: PITRow, r: PITRow) {
    || s.availableTime < r.availableTime
    || (s.availableTime == r.availableTime
        && (s.ingestedAt < r.ingestedAt || (s.ingestedAt == r.ingestedAt && InCodeOrder(s.revisionId, r.revisionId))))
  }

  lemma {:induction false} NoNewerIff(s: PITRow, r: PITRow)
    ensures NoNewer(s, r) <==> !G.Newer(s, r)
  {
    LeIff(s.revisionId, r.revisionId);
    LtPair(s.revisionId, r.revisionId);
    LtPair(r.revisionId, s.revisionId);
  }

  /** An answered row was asked for, and no row asked for is a newer revision of its observation. */
  lemma {:induction false} AnsweredIsNewest(rows: seq<PITRow>, q: G.SnapshotQuery, r: PITRow)
    requires r in G.Answer(rows, q)
    ensures r in rows && Asked(q, r)
    ensures forall s :: s in rows && Asked(q, s) && SameObservation(s, r) ==> NoNewer(s, r)
  {
    G.InAnswer(rows, q, r);
    G.NewerIsRank();
    var visible := G.Visible(rows, q);
    KeptIsUnbeaten(visible, G.KeyOf, G.Newer, G.KeyOf(r));
    forall s | s in rows && Asked(q, s) && SameObservation(s, r) ensures NoNewer(s, r) {
      assert s in visible && G.KeyOf(s) == G.KeyOf(r);
      NoNewerIff(s, r);
    }
  }

  /** Every observation asked for is answered. */
  lemma {:induction false} AskedIsAnswered(rows: seq<PITRow>, q: G.SnapshotQuery, s: PITRow) returns (r: PITRow)
    requires s in rows && Asked(q, s)
    ensures r in G.Answer(rows, q) && SameObservation(s, r)
  {
    assert s in G.Visible(rows, q);
    r := G.Selected(rows, q)[G.KeyOf(s)];
    G.InAnswer(rows, q, r);
  }

  /** The answer comes in order of event time, then instrument, then field, and never twice for one observation:
      the last two parts of the sort key decide nothing. */
  lemma {:induction false} AnswerInOrder(rows: seq<PITRow>, q: G.SnapshotQuery, i: nat, j: nat)
    requires i < j < |G.Answer(rows, q)|
    ensures var a, b := G.Answer(rows, q)[i], G.Answer(rows, q)[j];
            || a.eventTime < b.eventTime
            || (a.eventTime == b.eventTime
                && (|| (a.instrumentId != b.instrumentId && InCodeOrder(a.instrumentId, b.instrumentId))
                    || (a.instrumentId == b.instrumentId && a.field != b.field && InCodeOrder(a.field, b.field))))
  {
    var a, b := G.Answer(rows, q)[i], G.Answer(rows, q)[j];
    G.AnswerSorted(rows, q);
    G.AnswerHasOneRowPerKey(rows, q);
    AnsweredDataset(rows, q, a);
    AnsweredDataset(rows, q, b);
    assert G.RowLe(a, b);
    LeIff(a.instrumentId, b.instrumentId);
    LeIff(a.field, b.field);
    LtPair(a.instrumentId, b.instrumentId);
    LtPair(a.field, b.field);
  }

  lemma {:induction false} AnsweredDataset(rows: seq<PITRow>, q: G.SnapshotQuery, r: PITRow)
    requires r in G.Answer(rows, q)
    ensures r.datasetId == q.datasetId
  {
    AnsweredIsNewest(rows, q, r);
  }

  // ---------- the loader ----------

  predicate SameReading(r: RawPITRow, s: RawPITRow) {
    r.field == s.field && r.instrumentId == s.instrumentId && r.eventTime == s.eventTime
  }

  /** A resolved row was available and ingested by the decision time, and no such row of its reading was ingested
      later. */
  lemma {:induction false} ResolvedIsLatest(rows: seq<RawPITRow>, d: Time, r: RawPITRow)
    requires r in L.Resolved(rows, d)
    ensures r in rows && r.availableTime <= d && r.ingestedAt <= d
    ensures forall s :: s in rows && SameReading(s, r) && s.availableTime <= d && s.ingestedAt <= d ==> s.ingestedAt <= r.ingestedAt
  {
    L.InResolved(rows, d, r);
    L.LaterIngestedIsRank();
    var visible := L.Admitted(rows, d);
    KeptIsUnbeaten(visible, L.ObsKeyOf, L.LaterIngested, L.ObsKeyOf(r));
    forall s | s in rows && SameReading(s, r) && s.availableTime <= d && s.ingestedAt <= d ensures s.ingestedAt <= r.ingestedAt {
      assert s in visible && L.ObsKeyOf(s) == L.ObsKeyOf(r);
    }
  }

  lemma {:induction false} KnownIsResolved(rows: seq<RawPITRow>, d: Time, s: RawPITRow) returns (r: RawPITRow)
    requires s in rows && s.availableTime <= d && s.ingestedAt <= d
    ensures r in L.Resolved(rows, d) && SameReading(s, r)
  {
    assert s in L.Admitted(rows, d);
    r := L.Survivors(rows, d)[L.ObsKeyOf(s)];
    L.InResolved(rows, d, r);
  }

  lemma {:induction false} ResolvedKeys(rows: seq<RawPITRow>, d: Time) returns (ks: seq<L.ObsKey>)
    ensures |ks| == |L.Resolved(rows, d)| && Distinct(ks) && Sorted(L.KeyLe, ks)
    ensures forall i :: 0 <= i < |ks| ==> L.ObsKeyOf(L.Resolved(rows, d)[i]) == ks[i]
  {
    var visible := L.Admitted(rows, d);
    var seen := FirstSeen(visible, L.ObsKeyOf);
    ks := StableSort(L.KeyLe, seen);
    FirstSeenIsDomain(visible, L.ObsKeyOf, L.LaterIngested);
    SameElements(ks, seen);
    KeyLeOrders();
    SortSorts(L.KeyLe, seen);
    PermutedDistinct(seen, ks);
    assert L.Resolved(rows, d) == Values(ks, L.Survivors(rows, d));
    forall i | 0 <= i < |ks| ensures L.ObsKeyOf(L.Resolved(rows, d)[i]) == ks[i] {
      assert ks[i] in ks;
    }
  }

  lemma {:induction false} KeyLeOrders()
    ensures TotalPreorder(L.KeyLe)
  {
    forall x: L.ObsKey, y: L.ObsKey, z: L.ObsKey
      ensures L.KeyLe(x, y) || L.KeyLe(y, x)
      ensures L.KeyLe(x, y) && L.KeyLe(y, z) ==> L.KeyLe(x, z)
    {
      LtRank(x.field, y.field, z.field);
      LtRank(x.instrumentId, y.instrumentId, z.instrumentId);
    }
  }

  lemma {:induction false} PermutedDistinct<T(!new)>(xs: seq<T>, ys: seq<T>)
    requires multiset(xs) == multiset(ys) && Distinct(xs)
    ensures Distinct(ys)
  {
    forall i, j | 0 <= i < j < |ys| ensures ys[i] != ys[j] {
      if ys[i] == ys[j] {
        TwiceCounts(ys, i, j);
        DistinctCount(xs, ys[i]);
      }
    }
  }

  /** Resolved rows come in order of field, then instrument, and never twice for one reading. */
  lemma {:induction false} ResolvedInOrder(rows: seq<RawPITRow>, d: Time, i: nat, j: nat)
    requires i < j < |L.Resolved(rows, d)|
    ensures var a, b := L.Resolved(rows, d)[i], L.Resolved(rows, d)[j];
            && !SameReading(a, b)
            && (|| (a.field != b.field && InCodeOrder(a.field, b.field))
                || (a.field == b.field && InCodeOrder(a.instrumentId, b.instrumentId)))
  {
    var a, b := L.Resolved(rows, d)[i], L.Resolved(rows, d)[j];
    var ks := ResolvedKeys(rows, d);
    assert L.KeyLe(ks[i], ks[j]) && ks[i] != ks[j];
    LeIff(a.field, b.field);
    LeIff(a.instrumentId, b.instrumentId);
    LtPair(a.field, b.field);
  }

  // ---------- the store ----------

  predicate IsFormal(r: RawPITRow) {
    r.licenseTag == "formal" || r.licenseTag == "licensed-research"
  }

  /** The load's conditions on a row; both ends of the window are included. */
  predicate Wanted(scope: P.Scope, r: RawPITRow) {
    && r.instrumentId in scope.instrumentIds
    && |scope.fieldPrefix| <= |r.field| && r.field[..|scope.fieldPrefix|] == scope.fieldPrefix
    && (scope.start.None? || scope.start.value <= r.eventTime)
    && (scope.end.None? || r.eventTime <= scope.end.value)
  }

  lemma {:induction false} PreferredMeans(s: RawPITRow, r: RawPITRow)
    ensures !P.Preferred(s, r) <==> (IsFormal(s) ==> IsFormal(r)) && (IsFormal(s) == IsFormal(r) ==> s.ingestedAt <= r.ingestedAt)
  {
    assert P.Formal(s) == IsFormal(s) && P.Formal(r) == IsFormal(r);
  }

  /** A served row is wanted, and no stored row of its reading is formal while it is not, or, equally formal, was
      ingested later. */
  lemma {:induction false} ServedIsPreferred(table: seq<RawPITRow>, scope: P.Scope, r: RawPITRow)
    requires Seal(r) in P.Loaded(table, scope)
    ensures r in table && Wanted(scope, r)
    ensures forall s :: s in table && SameReading(s, r) ==>
              (IsFormal(s) ==> IsFormal(r)) && (IsFormal(s) == IsFormal(r) ==> s.ingestedAt <= r.ingestedAt)
  {
    P.InLoaded(table, scope, r);
    P.PreferredIsRank();
    KeptIsUnbeaten(table, L.ObsKeyOf, P.Preferred, L.ObsKeyOf(r));
    forall s | s in table && SameReading(s, r)
      ensures (IsFormal(s) ==> IsFormal(r)) && (IsFormal(s) == IsFormal(r) ==> s.ingestedAt <= r.ingestedAt)
    {
      assert L.ObsKeyOf(s) == L.ObsKeyOf(r);
      PreferredMeans(s, r);
    }
  }

  lemma {:induction false} WantedIsServed(table: seq<RawPITRow>, scope: P.Scope, s: RawPITRow) returns (r: RawPITRow)
    requires s in table && Wanted(scope, s)
    ensures Seal(r) in P.Loaded(table, scope) && SameReading(s, r)
  {
    r := P.Served(table)[L.ObsKeyOf(s)];
    P.InLoaded(table, scope, r);
  }

  /** What is served of a row are its own fields. */
  lemma {:induction false} SealKeeps(r: RawPITRow)
    ensures var s := Seal(r);
            && s.datasetId == r.datasetId && s.field == r.field && s.instrumentId == r.instrumentId && s.eventTime == r.eventTime
            && s.availableTime == r.availableTime && s.ingestedAt == r.ingestedAt && s.revisionId == r.revisionId
            && s.sourceId == r.sourceId && s.licenseTag == r.licenseTag && s.value == Some(r.value)
  {
  }

  lemma {:induction false} LoadedKeys(table: seq<RawPITRow>, scope: P.Scope) returns (ks: seq<L.ObsKey>)
    ensures |ks| == |P.Loaded(table, scope)| && Distinct(ks) && Sorted(P.LoadLe, ks)
    ensures forall i :: 0 <= i < |ks| ==>
              var r := P.Loaded(table, scope)[i];
              r.field == ks[i].field && r.instrumentId == ks[i].instrumentId && r.eventTime == ks[i].eventTime
  {
    var rows := P.Selection(table, scope);
    var seen := FirstSeen(rows, L.ObsKeyOf);
    ks := StableSort(P.LoadLe, seen);
    FirstSeenIsDomain(rows, L.ObsKeyOf, P.Preferred);
    SameElements(ks, seen);
    P.LoadLeOrders();
    SortSorts(P.LoadLe, seen);
    PermutedDistinct(seen, ks);
    assert P.Loaded(table, scope) == L.SealAll(Values(ks, P.Served(rows)));
    forall i | 0 <= i < |ks|
      ensures var r := P.Loaded(table, scope)[i];
              r.field == ks[i].field && r.instrumentId == ks[i].instrumentId && r.eventTime == ks[i].eventTime
    {
      assert ks[i] in ks;
    }
  }

  /** Served rows come in order of instrument, then event time, then field, and never twice for one reading. */
  lemma {:induction false} LoadedInOrder(table: seq<RawPITRow>, scope: P.Scope, i: nat, j: nat)
    requires i < j < |P.Loaded(table, scope)|
    ensures var a, b := P.Loaded(table, scope)[i], P.Loaded(table, scope)[j];
            || (a.instrumentId != b.instrumentId && InCodeOrder(a.instrumentId, b.instrumentId))
            || (a.instrumentId == b.instrumentId
                && (a.eventTime < b.eventTime || (a.eventTime == b.eventTime && a.field != b.field && InCodeOrder(a.field, b.field))))
  {
    var a, b := P.Loaded(table, scope)[i], P.Loaded(table, scope)[j];
    var ks := LoadedKeys(table, scope);
    assert P.LoadLe(ks[i], ks[j]) && ks[i] != ks[j];
    LeIff(a.instrumentId, b.instrumentId);
    LeIff(a.field, b.field);
    LtPair(a.instrumentId, b.instrumentId);
    LtPair(a.field, b.field);
  }

  // ---------- what a write keeps ----------

  /** A row is inserted iff the table holds no row of its field, instrument, event time and revision. */
  lemma {:induction false} InsertedIff(table: seq<RawPITRow>, batch: seq<RawPITRow>, r: RawPITRow)
    ensures r in P.Fresh(table, batch) <==> r in batch && !exists s :: s in table && SameReading(s, r) && s.revisionId == r.revisionId
  {
    assert P.StoreKeyOf(r) in P.StoreKeys(table) <==> exists s :: s in table && P.StoreKeyOf(s) == P.StoreKeyOf(r);
  }

  /** A batch is refused iff two of its rows are of one reading. */
  lemma {:induction false} RefusedIff(batch: seq<RawPITRow>)
    ensures L.UniqueKeys(batch) <==> !exists i, j :: 0 <= i < j < |batch| && SameReading(batch[i], batch[j])
  {
  }
}
