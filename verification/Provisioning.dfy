/** `data_gateway/provisioning.py`, `DataProvisioning`: labels are built from rows that were persisted first,
    and that order is what keeps them from leaking. */
module Provisioning {
  import opened Wrappers
  import opened Clock
  import opened Sequences
  import opened Records
  import opened Loader
  import opened Labels
  import opened LabelLeaks
  import PitStore

  function CloseRow(t: Time, available: Time, revision: string, value: real): RawPITRow {
    RawPITRow("s", "d", "market.eod.close", "A", t, available, available, revision, "formal", value)
  }

  function RevisedCloses(): seq<RawPITRow> {
    [CloseRow(1, 1, "a", 1.0), CloseRow(2, 2, "a", 1.0), CloseRow(2, 2, "b", 2.0), CloseRow(3, 3, "a", 1.0)]
  }

  /** A revised close can break the guarantee for a direct caller: the second row of day 2 counts as the next
      day, so a label is realised and available on the decision day itself. */
  lemma {:induction false} RevisionsLeak() returns (s: LabelSnapshot, l: Label)
    ensures forall r :: r in RevisedCloses() ==> r.Valid()
    ensures !UniqueKeys(RevisedCloses())
    ensures IsLabelSnapshot(RevisedCloses(), 1, s) && l in s.rows && l.availableTime == s.decisionTime
    ensures Leaks(RevisedCloses(), s)
  {
    s, l := RevisedSnapshot();
    RevisedRows();
    RevisionFollows();
    RowMakesLeak(RevisedCloses(), s, 1);
  }

  lemma {:induction false} RevisedSnapshot() returns (s: LabelSnapshot, l: Label)
    ensures IsLabelSnapshot(RevisedCloses(), 1, s) && s.decisionTime == 2 && s.horizon == 1
    ensures l in s.rows && l.availableTime == 2
    ensures LabelWindow(RevisedCloses(), s) == [2]
  {
    RevisedRows();
    RevisedTimes();
    var rows := RevisedCloses();
    l := Label("A", 2, 2, ForwardReturn(1.0, 2.0));
    RevisedLabel(l);
    s := LabelSnapshot(2, 1, SeriesLabels(rows, [2], 1));
    OnlySnapshot(rows, "A", [1, 2, 3], [2], s);
  }

  lemma {:induction false} RevisionFollows()
    ensures Overrun(RevisedCloses(), [2], 1, 2, 1)
  {
    var rows := RevisedCloses();
    assert rows[1 + 1..][0] == rows[2];
    assert rows[2] in rows[1 + 1..];
    assert rows[2] in Filter(rows[1 + 1..], AtTime("A", 2));
  }

  lemma {:induction false} OnlySnapshot(rows: seq<RawPITRow>, i: string, times: seq<Time>, window: seq<Time>, s: LabelSnapshot)
    requires rows != [] && Sorted(EarlierRow, rows) && forall r :: r in rows ==> CloseOf(i, r)
    requires AllTimes(rows) == times && DecisionTime(times, s.horizon) == Some(s.decisionTime)
    requires s.decisionTime in times && window == Window(times, s.horizon, Place(times, s.decisionTime))
    requires s.horizon >= 0 && s.rows == SeriesLabels(rows, window, s.horizon)
    ensures IsLabelSnapshot(rows, s.horizon, s)
  {
    OnlySeries(rows, i);
    OnlyInstrument(rows, i);
    assert LabelsOf(rows, window, s.horizon, []) == [];
  }

  lemma {:induction false} RevisedRows()
    ensures !UniqueKeys(RevisedCloses()) && Sorted(EarlierRow, RevisedCloses())
    ensures forall r :: r in RevisedCloses() ==> r.Valid() && CloseOf("A", r)
  {
    var rows := RevisedCloses();
    assert ObsKeyOf(rows[1]) == ObsKeyOf(rows[2]);
  }

  lemma {:induction false} RevisedTimes()
    ensures AllTimes(RevisedCloses()) == [1, 2, 3] && Window([1, 2, 3], 1, 1) == [2] && Place([1, 2, 3], 2) == 1
  {
    var ts := EventTimes(RevisedCloses());
    assert ts == [1, 2, 2, 3];
    assert ts[1..] == [2, 2, 3] && ts[1..][1..] == [2, 3] && ts[1..][1..][1..] == [3];
    assert SortedDistinct([3]) == [3];
    assert SortedDistinct([2, 3]) == [2, 3];
    assert SortedDistinct([2, 2, 3]) == [2, 3];
  }

  /** Rows that are one instrument's closes in time order are its series. */
  lemma {:induction false} OnlySeries(rows: seq<RawPITRow>, i: string)
    requires Sorted(EarlierRow, rows) && forall r :: r in rows ==> CloseOf(i, r)
    ensures Series(rows, i) == rows
  {
    FilterAll(rows, r => CloseOf(i, r));
    SortOfSorted(EarlierRow, rows);
  }

  lemma {:induction false} OnlyInstrument(rows: seq<RawPITRow>, i: string)
    requires rows != [] && forall r :: r in rows ==> CloseOf(i, r)
    ensures Instruments(rows) == [i]
  {
    var front, last := rows[..|rows| - 1], rows[|rows| - 1];
    SplitLast(rows);
    InstrumentsSnoc(front, last);
    if front != [] {
      OnlyInstrument(front, i);
    }
  }

  lemma {:induction false} RevisedLabel(l: Label)
    requires l == Label("A", 2, 2, ForwardReturn(1.0, 2.0))
    ensures l in SeriesLabels(RevisedCloses(), [2], 1)
  {
    var rows := RevisedCloses();
    assert LabelAt(rows, [2], 1, 1) == [l];
    assert l in LabelsUpTo(rows, [2], 1, 2);
    assert l in LabelsUpTo(rows, [2], 1, 3);
  }

  /** `DataProvisioning.provision` after collection: rows are persisted, and so checked for repeated keys,
      before labels are built with the default horizon. */
  class DataProvisioning {
    const store: PitStore.SqlAlchemyPitStore

    constructor (store: PitStore.SqlAlchemyPitStore)
      ensures this.store == store
    {
      this.store := store;
    }

    /** `provision` once the rows are collected: nothing is written when it raises. */
    method Provision(rows: seq<RawPITRow>) returns (r: Result<LabelSnapshot, ProvisionError>)
      requires store.Valid() && forall row :: row in rows ==> row.Valid()
      modifies store
      ensures store.Valid()
      ensures r.Ok? <==> rows != [] && UniqueKeys(rows)
      ensures r.Err? ==> r.error == if rows == [] then NoData else DuplicateKey
      ensures r.Err? ==> store.table == old(store.table) && store.sources == old(store.sources)
      ensures r.Ok? ==> store.table == old(store.table) + PitStore.Fresh(old(store.table), rows)
      ensures r.Ok? ==> IsLabelSnapshot(rows, 5, r.value) && NoLeak(rows, r.value) && !Leaks(rows, r.value)
    {
      if rows == [] {
        return Err(NoData);
      }
      var persisted := store.Persist(rows);
      if persisted.Err? {
        return Err(DuplicateKey);
      }
      DecisionExists(rows, 5);
      r := BuildLabelSnapshot(rows, 5);
      ProvisionedLabelsDoNotLeak(rows, r.value);
    }
  }

  lemma {:induction false} DecisionExists(rows: seq<RawPITRow>, h: int)
    requires rows != [] && h >= 1
    ensures DecisionTime(AllTimes(rows), h).Some?
  {
    assert rows[0].eventTime in AllTimes(rows);
  }

  ghost predicate NoLeak(rows: seq<RawPITRow>, s: LabelSnapshot) {
    forall l :: l in s.rows ==> Safe(rows, s.decisionTime, l)
  }

  ghost predicate Safe(rows: seq<RawPITRow>, decisionTime: Time, l: Label) {
    exists t0, t5 :: t0 in rows && t5 in rows && LabelOf(l, t0, t5) && t0.eventTime <= decisionTime < t5.eventTime <= l.availableTime
  }

  lemma {:induction false} ProvisionedLabelsDoNotLeak(rows: seq<RawPITRow>, s: LabelSnapshot)
    requires UniqueKeys(rows) && (forall r :: r in rows ==> r.Valid())
    requires IsLabelSnapshot(rows, 5, s)
    ensures NoLeak(rows, s) && !Leaks(rows, s)
  {
    UniqueKeysUniqueCloses(rows);
    UniqueClosesDoNotLeak(rows, s);
    forall l | l in s.rows ensures Safe(rows, s.decisionTime, l) {
      var t0, t5 := NoLabelLeaks(rows, 5, s, l);
    }
  }
}
