/** The fold behind every revision resolver of the data gateway: scan rows in order and keep,
    per key, a row that beats the one kept so far. */
module Revisions {
  import opened Sequences

  /** One row of the scan. */
  function Put<R, K(==)>(m: map<K, R>, key: R -> K, better: (R, R) -> bool, r: R): map<K, R> {
    if key(r) !in m || better(r, m[key(r)]) then m[key(r) := r] else m
  }

  /** One scan with a `latest` dict: a row enters when its key is new or it is strictly better. */
  function Latest<R(!new), K(!new)>(rows: seq<R>, key: R -> K, better: (R, R) -> bool): (m: map<K, R>)
    ensures forall k :: k in m <==> exists r :: r in rows && key(r) == k
    ensures forall k :: k in m ==> m[k] in rows && key(m[k]) == k
  {
    if rows == [] then map[] else
      var m := Latest(rows[..|rows| - 1], key, better);
      var r := rows[|rows| - 1];
      assert rows == rows[..|rows| - 1] + [r];
      Put(m, key, better, r)
  }

  lemma {:induction false} LatestSnoc<R(!new), K(!new)>(rows: seq<R>, r: R, key: R -> K, better: (R, R) -> bool)
    ensures Latest(rows + [r], key, better) == Put(Latest(rows, key, better), key, better, r)
  {
    assert (rows + [r])[..|rows|] == rows;
  }

  /** `better` compares by a rank: irreflexive, and "not better" is transitive. */
  ghost predicate StrictWeakOrder<R(!new)>(better: (R, R) -> bool) {
    && (forall x :: !better(x, x))
    && (forall x, y, z :: better(x, y) && better(y, z) ==> better(x, z))
    && (forall x, y, z :: !better(x, y) && !better(y, z) ==> !better(x, z))
  }

  /** Row `i` is the one a resolver must return for its key: nothing beats it, and it beats every
      earlier row of the key, so among equally ranked rows it is the first. */
  ghost predicate FirstBest<R, K>(rows: seq<R>, key: R -> K, better: (R, R) -> bool, i: int) {
    && 0 <= i < |rows|
    && (forall j | 0 <= j < |rows| && key(rows[j]) == key(rows[i]) :: !better(rows[j], rows[i]))
    && (forall j | 0 <= j < i && key(rows[j]) == key(rows[i]) :: better(rows[i], rows[j]))
  }

  /** The scan computes the first best row of every key. */
  lemma {:induction false} LatestIsFirstBest<R(!new), K(!new)>(rows: seq<R>, key: R -> K, better: (R, R) -> bool, k: K)
    returns (i: int)
    requires StrictWeakOrder(better)
    requires k in Latest(rows, key, better)
    ensures FirstBest(rows, key, better, i) && key(rows[i]) == k && Latest(rows, key, better)[k] == rows[i]
  {
    var n := |rows| - 1;
    var front, r := rows[..n], rows[n];
    assert rows == front + [r];
    if k in Latest(front, key, better) {
      i := LatestIsFirstBest(front, key, better, k);
      assert front[i] == rows[i];
      forall j | 0 <= j < i && key(rows[j]) == k ensures better(rows[i], rows[j]) {
        assert front[j] == rows[j];
      }
      forall j | 0 <= j < n && key(rows[j]) == k ensures !better(rows[j], rows[i]) {
        assert front[j] == rows[j];
      }
      if key(r) == k && better(r, rows[i]) {
        forall j | 0 <= j < n && key(rows[j]) == k ensures better(r, rows[j]) && !better(rows[j], r) {
          assert !better(rows[j], rows[i]);
        }
        i := n;
      }
    } else {
      i := n;
      forall j | 0 <= j < n ensures key(rows[j]) != k {
        assert rows[j] == front[j] && front[j] in front;
      }
    }
  }

  /** A key has only one first best row. */
  lemma {:induction false} FirstBestUnique<R(!new), K(!new)>(rows: seq<R>, key: R -> K, better: (R, R) -> bool, i: int, j: int)
    requires FirstBest(rows, key, better, i) && FirstBest(rows, key, better, j)
    requires key(rows[i]) == key(rows[j])
    ensures i == j
  {
  }

  /** Window law: when every row of `late` beats every row of `early` with the same key, resolving
      both together is resolving them apart and letting the late result override the early one. */
  lemma {:induction false} LatestWindow<R(!new), K(!new)>(
    rows: seq<R>, key: R -> K, better: (R, R) -> bool, early: R -> bool, late: R -> bool, either: R -> bool)
    requires forall r :: either(r) == (early(r) || late(r))
    requires forall r :: !(early(r) && late(r))
    requires forall e, l :: early(e) && late(l) && key(e) == key(l) ==> better(l, e) && !better(e, l)
    ensures Latest(Filter(rows, either), key, better)
            == Latest(Filter(rows, early), key, better) + Latest(Filter(rows, late), key, better)
  {
    if rows != [] {
      var front, r := rows[..|rows| - 1], rows[|rows| - 1];
      assert rows == front + [r];
      LatestWindow(front, key, better, early, late, either);
      FilterSnoc(front, r, either);
      FilterSnoc(front, r, early);
      FilterSnoc(front, r, late);
      var es, ls := Filter(front, early), Filter(front, late);
      if early(r) {
        assert !late(r);
        LatestSnoc(Filter(front, either), r, key, better);
        LatestSnoc(es, r, key, better);
        WindowStep(Latest(es, key, better), Latest(ls, key, better), key, better, r, true);
      } else if late(r) {
        LatestSnoc(Filter(front, either), r, key, better);
        LatestSnoc(ls, r, key, better);
        WindowStep(Latest(es, key, better), Latest(ls, key, better), key, better, r, false);
      }
    }
  }

  lemma {:induction false} WindowStep<R(!new), K(!new)>(
    e: map<K, R>, l: map<K, R>, key: R -> K, better: (R, R) -> bool, r: R, early: bool)
    requires early && key(r) in l ==> !better(r, l[key(r)])
    requires !early && key(r) in e ==> better(r, e[key(r)])
    ensures Put(e + l, key, better, r)
            == if early then Put(e, key, better, r) + l else e + Put(l, key, better, r)
  {
  }

  /** No row of its key beats `r`. */
  ghost predicate Unbeaten<R(!new), K(!new)>(rows: seq<R>, key: R -> K, better: (R, R) -> bool, r: R) {
    r in rows && forall s :: s in rows && key(s) == key(r) ==> !better(s, r)
  }

  /** Where no two different rows of a key are unbeaten, the result does not depend on the order rows are
      scanned in. */
  lemma {:induction false} LatestOrderFree<R(!new), K(!new)>(xs: seq<R>, ys: seq<R>, key: R -> K, better: (R, R) -> bool)
    requires StrictWeakOrder(better)
    requires forall x :: x in xs <==> x in ys
    requires forall x, y :: Unbeaten(xs, key, better, x) && Unbeaten(xs, key, better, y) && key(x) == key(y) ==> x == y
    ensures Latest(xs, key, better) == Latest(ys, key, better)
  {
    var a, b := Latest(xs, key, better), Latest(ys, key, better);
    forall k | k in a ensures k in b && a[k] == b[k] {
      KeptIsUnbeaten(xs, key, better, k);
      assert a[k] in ys;
      KeptIsUnbeaten(ys, key, better, k);
      assert Unbeaten(xs, key, better, b[k]);
    }
    forall k | k in b ensures k in a {
      var r :| r in ys && key(r) == k;
      assert r in xs;
    }
  }

  lemma {:induction false} KeptIsUnbeaten<R(!new), K(!new)>(rows: seq<R>, key: R -> K, better: (R, R) -> bool, k: K)
    requires StrictWeakOrder(better) && k in Latest(rows, key, better)
    ensures Unbeaten(rows, key, better, Latest(rows, key, better)[k])
  {
    var i := LatestIsFirstBest(rows, key, better, k);
    forall s | s in rows && key(s) == k ensures !better(s, rows[i]) {
      var j :| 0 <= j < |rows| && rows[j] == s;
    }
  }

  /** Keys in the order a scan first meets them: the iteration order of the `latest` dict. */
  function FirstSeen<R(!new), K(==, !new)>(rows: seq<R>, key: R -> K): (ks: seq<K>)
    ensures forall k :: k in ks <==> exists r :: r in rows && key(r) == k
    ensures Distinct(ks)
  {
    if rows == [] then [] else
      var ks := FirstSeen(rows[..|rows| - 1], key);
      var r := rows[|rows| - 1];
      assert rows == rows[..|rows| - 1] + [r];
      if key(r) in ks then ks else ks + [key(r)]
  }

  lemma {:induction false} FirstSeenSnoc<R(!new), K(!new)>(rows: seq<R>, r: R, key: R -> K)
    ensures FirstSeen(rows + [r], key) ==
            var ks := FirstSeen(rows, key);
            if key(r) in ks then ks else ks + [key(r)]
  {
    assert (rows + [r])[..|rows|] == rows;
  }

  /** One row of a scan that keeps a `latest` dict: its items and its keys. */
  lemma {:induction false} ScanOne<R(!new), K(!new)>(rows: seq<R>, r: R, key: R -> K, better: (R, R) -> bool)
    ensures var m := Latest(rows, key, better);
            && Latest(rows + [r], key, better) == (if key(r) !in m || better(r, m[key(r)]) then m[key(r) := r] else m)
            && FirstSeen(rows + [r], key) == (if key(r) in m then FirstSeen(rows, key) else FirstSeen(rows, key) + [key(r)])
  {
    LatestSnoc(rows, r, key, better);
    FirstSeenSnoc(rows, r, key);
    FirstSeenIsDomain(rows, key, better);
  }

  lemma {:induction false} FirstSeenIsDomain<R(!new), K(!new)>(rows: seq<R>, key: R -> K, better: (R, R) -> bool)
    ensures forall k :: k in FirstSeen(rows, key) <==> k in Latest(rows, key, better)
  {
    forall k ensures k in FirstSeen(rows, key) <==> k in Latest(rows, key, better) {
      assert k in FirstSeen(rows, key) <==> exists r :: r in rows && key(r) == k;
    }
  }

  /** The values of a dict in the given key order. */
  function Values<K, V>(ks: seq<K>, m: map<K, V>): (vs: seq<V>)
    requires forall k :: k in ks ==> k in m
    ensures |vs| == |ks|
    ensures forall i :: 0 <= i < |ks| ==> vs[i] == m[ks[i]]
  {
    seq(|ks|, i requires 0 <= i < |ks| => m[ks[i]])
  }

  lemma {:induction false} ValuesContain<K(!new), V(!new)>(ks: seq<K>, m: map<K, V>, key: V -> K, v: V)
    requires forall k :: k in ks ==> k in m && key(m[k]) == k
    ensures v in Values(ks, m) <==> key(v) in ks && m[key(v)] == v
  {
    if key(v) in ks && m[key(v)] == v {
      var i :| 0 <= i < |ks| && ks[i] == key(v);
      assert Values(ks, m)[i] == v;
    }
  }

  /** Without ties around `r`, being selected is being beaten by no row of the same key. */
  lemma {:induction false} LatestIffMax<R(!new), K(!new)>(rows: seq<R>, key: R -> K, better: (R, R) -> bool, r: R)
    requires StrictWeakOrder(better) && r in rows
    requires forall s :: s in rows && key(s) == key(r) && s != r ==> better(r, s) || better(s, r)
    ensures Latest(rows, key, better)[key(r)] == r <==> forall s :: s in rows && key(s) == key(r) ==> !better(s, r)
  {
    var i := LatestIsFirstBest(rows, key, better, key(r));
    var j :| 0 <= j < |rows| && rows[j] == r;
    if rows[i] == r {
      forall s | s in rows && key(s) == key(r) ensures !better(s, r) {
        var n :| 0 <= n < |rows| && rows[n] == s;
      }
    } else {
      assert rows[i] in rows && !better(rows[j], rows[i]);
    }
  }

  /** Dropping the rows of other keys beforehand does not change what is kept for a key. */
  lemma {:induction false} LatestOfKey<R(!new), K(!new)>(rows: seq<R>, key: R -> K, better: (R, R) -> bool, keep: R -> bool, k: K)
    requires forall r :: r in rows && key(r) == k ==> keep(r)
    ensures k in Latest(Filter(rows, keep), key, better) <==> k in Latest(rows, key, better)
    ensures k in Latest(rows, key, better) ==> Latest(Filter(rows, keep), key, better)[k] == Latest(rows, key, better)[k]
  {
    if rows != [] {
      var front, r := rows[..|rows| - 1], rows[|rows| - 1];
      assert rows == front + [r];
      LatestOfKey(front, key, better, keep, k);
      LatestSnoc(front, r, key, better);
      FilterSnoc(front, r, keep);
      if keep(r) {
        LatestSnoc(Filter(front, keep), r, key, better);
      }
    }
  }
}
