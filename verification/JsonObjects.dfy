/** Dicts of plain values: assignment, last-wins lookups and key order. */
module JsonObjects {
  import opened Wrappers
  import opened Sequences
  import opened JsonStrings
  import opened JsonText
  import L = Lexicographic

  /** `d[e.name] = e.value` */
  function Assign(d: seq<Entry>, e: Entry): seq<Entry> {
    if d == [] then [e]
    else if e.name == d[0].name then [e] + d[1..]
    else if L.Le(e.name, d[0].name) then [e] + d
    else [d[0]] + Assign(d[1..], e)
  }

  /** The dict that assigning the entries one after the other builds. */
  function DictOf(es: seq<Entry>): seq<Entry> {
    if es == [] then [] else Assign(DictOf(es[..|es| - 1]), es[|es| - 1])
  }

  ghost predicate KeysIncrease(d: seq<Entry>) {
    forall i, j | 0 <= i < j < |d| :: L.Lt(d[i].name, d[j].name)
  }

  function Find(d: seq<Entry>, k: PyStr): Option<Json> {
    if d == [] then None else if d[0].name == k then Some(d[0].value) else Find(d[1..], k)
  }

  /** The value of the last entry of that name. */
  function LastNamed(es: seq<Entry>, k: PyStr): Option<Json> {
    if es == [] then None
    else if es[|es| - 1].name == k then Some(es[|es| - 1].value)
    else LastNamed(es[..|es| - 1], k)
  }

  lemma {:induction false} AssignNames(d: seq<Entry>, e: Entry)
    ensures forall x :: x in Assign(d, e) ==> x == e || x in d
  {
    if d != [] && e.name != d[0].name && !L.Le(e.name, d[0].name) {
      AssignNames(d[1..], e);
    }
  }

  lemma {:induction false} AssignIncreases(d: seq<Entry>, e: Entry)
    requires KeysIncrease(d)
    ensures KeysIncrease(Assign(d, e))
  {
    if d != [] {
      L.LtRank(e.name, d[0].name, e.name);
      if e.name != d[0].name && L.Le(e.name, d[0].name) {
        forall j | 0 <= j < |d| ensures L.Lt(e.name, d[j].name) {
          L.LtRank(e.name, d[0].name, d[j].name);
        }
      } else if e.name != d[0].name {
        AssignIncreases(d[1..], e);
        AssignNames(d[1..], e);
        var rest := Assign(d[1..], e);
        forall j | 0 <= j < |rest| ensures L.Lt(d[0].name, rest[j].name) {
          assert rest[j] in rest;
        }
      }
    }
  }

  lemma {:induction false} DictIncreases(es: seq<Entry>)
    ensures KeysIncrease(DictOf(es))
  {
    if es != [] {
      DictIncreases(es[..|es| - 1]);
      AssignIncreases(DictOf(es[..|es| - 1]), es[|es| - 1]);
    }
  }

  lemma {:induction false} FindAssign(d: seq<Entry>, e: Entry, k: PyStr)
    requires KeysIncrease(d)
    ensures Find(Assign(d, e), k) == if k == e.name then Some(e.value) else Find(d, k)
  {
    if d != [] && e.name != d[0].name && !L.Le(e.name, d[0].name) {
      FindAssign(d[1..], e, k);
      assert Assign(d, e)[1..] == Assign(d[1..], e);
    } else {
      assert d != [] ==> ([e] + d[1..])[1..] == d[1..];
      assert ([e] + d)[1..] == d;
    }
  }

  /** A key's value is the one assigned last. */
  lemma {:induction false} DictFindsLast(es: seq<Entry>, k: PyStr)
    ensures Find(DictOf(es), k) == LastNamed(es, k)
  {
    if es != [] {
      DictFindsLast(es[..|es| - 1], k);
      DictIncreases(es[..|es| - 1]);
      FindAssign(DictOf(es[..|es| - 1]), es[|es| - 1], k);
    }
  }

  lemma {:induction false} AbsentBelow(d: seq<Entry>, k: PyStr)
    requires forall j :: 0 <= j < |d| ==> d[j].name != k
    ensures Find(d, k) == None
  {
    if d != [] {
      AbsentBelow(d[1..], k);
    }
  }

  lemma {:induction false} FoundNames(d: seq<Entry>, k: PyStr)
    requires Find(d, k).Some?
    ensures exists j :: 0 <= j < |d| && d[j].name == k
  {
    if d[0].name != k {
      FoundNames(d[1..], k);
      var j :| 0 <= j < |d| - 1 && d[1..][j].name == k;
      assert d[j + 1].name == k;
    }
  }

  lemma {:induction false} HeadIsLeast(d: seq<Entry>, k: PyStr)
    requires KeysIncrease(d) && d != [] && Find(d, k).Some?
    ensures L.Le(d[0].name, k)
  {
    FoundNames(d, k);
    var j :| 0 <= j < |d| && d[j].name == k;
    L.LtRank(d[0].name, d[j].name, k);
  }

  lemma {:induction false} TailFinds(d: seq<Entry>, k: PyStr)
    requires KeysIncrease(d) && d != []
    ensures Find(d[1..], k) == if k == d[0].name then None else Find(d, k)
  {
    if k == d[0].name {
      AbsentBelow(d[1..], k);
    }
  }

  /** Dicts in key order with the same lookups are equal. */
  lemma {:induction false} DictUnique(c: seq<Entry>, d: seq<Entry>)
    requires KeysIncrease(c) && KeysIncrease(d)
    requires forall k: PyStr :: Find(c, k) == Find(d, k)
    ensures c == d
  {
    assert c != [] ==> Find(c, c[0].name).Some?;
    assert d != [] ==> Find(d, d[0].name).Some?;
    if c != [] && d != [] {
      HeadIsLeast(d, c[0].name);
      HeadIsLeast(c, d[0].name);
      L.LtRank(c[0].name, d[0].name, c[0].name);
      forall k: PyStr ensures Find(c[1..], k) == Find(d[1..], k) {
        TailFinds(c, k);
        TailFinds(d, k);
      }
      DictUnique(c[1..], d[1..]);
      assert c == [c[0]] + c[1..] && d == [d[0]] + d[1..];
    }
  }

  /** A dict read back entry by entry is itself. */
  lemma {:induction false} LastNamedOfDict(d: seq<Entry>, k: PyStr)
    requires KeysIncrease(d)
    ensures LastNamed(d, k) == Find(d, k)
  {
    if d != [] {
      var front, last := d[..|d| - 1], d[|d| - 1];
      LastNamedOfDict(front, k);
      FindSnoc(front, last, k);
      SplitLast(d);
      if k == last.name {
        AbsentBelow(front, k);
      }
    }
  }

  lemma {:induction false} FindSnoc(d: seq<Entry>, e: Entry, k: PyStr)
    ensures Find(d + [e], k) == if Find(d, k).Some? then Find(d, k) else if e.name == k then Some(e.value) else None
  {
    if d == [] {
      assert (d + [e])[1..] == [];
    } else {
      FindSnoc(d[1..], e, k);
      assert (d + [e])[1..] == d[1..] + [e];
    }
  }

  lemma {:induction false} DictOfDict(d: seq<Entry>)
    requires KeysIncrease(d)
    ensures DictOf(d) == d
  {
    DictIncreases(d);
    forall k: PyStr ensures Find(DictOf(d), k) == Find(d, k) {
      DictFindsLast(d, k);
      LastNamedOfDict(d, k);
    }
    DictUnique(DictOf(d), d);
  }

  // ---------- sorting by key ----------

  predicate NameLe(a: Entry, b: Entry) {
    L.Le(a.name, b.name)
  }

  lemma {:induction false} NameLeOrders()
    ensures TotalPreorder(NameLe)
  {
    forall a, b, c ensures (NameLe(a, b) || NameLe(b, a)) && (NameLe(a, b) && NameLe(b, c) ==> NameLe(a, c)) {
      L.LtRank(a.name, b.name, c.name);
    }
  }

  lemma {:induction false} LastNamedFilter(es: seq<Entry>, k: PyStr)
    ensures LastNamed(es, k) == LastNamed(Filter(es, (e: Entry) => e.name == k), k)
  {
    if es != [] {
      var front, last := es[..|es| - 1], es[|es| - 1];
      LastNamedFilter(front, k);
      SplitLast(es);
      FilterSnoc(front, last, (e: Entry) => e.name == k);
      assert (Filter(front, (e: Entry) => e.name == k) + [last])[..|Filter(front, (e: Entry) => e.name == k)|]
          == Filter(front, (e: Entry) => e.name == k);
    }
  }

  /** Sorting the entries by key beforehand builds the same dict: equal keys keep their order. */
  lemma {:induction false} DictOfSorted(es: seq<Entry>)
    ensures DictOf(StableSort(NameLe, es)) == DictOf(es)
  {
    var sorted := StableSort(NameLe, es);
    DictIncreases(sorted);
    DictIncreases(es);
    NameLeOrders();
    forall k: PyStr ensures Find(DictOf(sorted), k) == Find(DictOf(es), k) {
      DictFindsLast(sorted, k);
      DictFindsLast(es, k);
      LastNamedFilter(sorted, k);
      LastNamedFilter(es, k);
      L.LeReflexive(k);
      SortStable(NameLe, es, (e: Entry) => e.name == k);
    }
    DictUnique(DictOf(sorted), DictOf(es));
  }
}
