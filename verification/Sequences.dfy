/** Filtering, ordered dictionaries and sorting: the sequence vocabulary shared by all modules. */
module Sequences {

  /** A Python dict whose iteration order matters: keys in insertion order, values in a map. */
  datatype Dict<K(==,!new), V> = Dict(keys: seq<K>, items: map<K, V>) {
    ghost predicate Valid() {
      Distinct(keys) && (forall k :: k in keys <==> k in items)
    }
  }

  ghost predicate Distinct<T>(xs: seq<T>) {
    forall i, j | 0 <= i < j < |xs| :: xs[i] != xs[j]
  }

  lemma {:induction false} SplitLast<T>(xs: seq<T>)
    requires xs != []
    ensures xs == xs[..|xs| - 1] + [xs[|xs| - 1]]
  {
  }

  function Filter<T(!new)>(xs: seq<T>, p: T -> bool): (r: seq<T>)
    ensures forall x :: x in r <==> x in xs && p(x)
  {
    if xs == [] then [] else
      var front := Filter(xs[..|xs| - 1], p);
      assert xs == xs[..|xs| - 1] + [xs[|xs| - 1]];
      if p(xs[|xs| - 1]) then front + [xs[|xs| - 1]] else front
  }

  lemma {:induction false} FilterSnoc<T(!new)>(xs: seq<T>, x: T, p: T -> bool)
    ensures Filter(xs + [x], p) == if p(x) then Filter(xs, p) + [x] else Filter(xs, p)
  {
    assert (xs + [x])[..|xs|] == xs;
  }

  lemma {:induction false} FilterAppend<T(!new)>(xs: seq<T>, ys: seq<T>, p: T -> bool)
    ensures Filter(xs + ys, p) == Filter(xs, p) + Filter(ys, p)
  {
    if ys == [] {
      assert xs + ys == xs;
    } else {
      var front, last := ys[..|ys| - 1], ys[|ys| - 1];
      assert ys == front + [last];
      assert xs + ys == (xs + front) + [last];
      FilterAppend(xs, front, p);
      FilterSnoc(xs + front, last, p);
      FilterSnoc(front, last, p);
    }
  }

  lemma {:induction false} FilterCons<T(!new)>(x: T, xs: seq<T>, p: T -> bool)
    ensures Filter([x] + xs, p) == if p(x) then [x] + Filter(xs, p) else Filter(xs, p)
  {
    assert Filter([x], p) == if p(x) then [x] else [] by {
      assert [x] == [] + [x];
      FilterSnoc([], x, p);
    }
    FilterAppend([x], xs, p);
  }

  lemma {:induction false} FilterFilter<T(!new)>(xs: seq<T>, p: T -> bool, q: T -> bool, both: T -> bool)
    requires forall x :: both(x) == (p(x) && q(x))
    ensures Filter(Filter(xs, p), q) == Filter(xs, both)
  {
    if xs != [] {
      var front, last := xs[..|xs| - 1], xs[|xs| - 1];
      assert xs == front + [last];
      FilterFilter(front, p, q, both);
      FilterSnoc(front, last, p);
      FilterSnoc(front, last, both);
      FilterSnoc(Filter(front, p), last, q);
    }
  }

  lemma {:induction false} FilterSame<T(!new)>(xs: seq<T>, p: T -> bool, q: T -> bool)
    requires forall x :: x in xs ==> p(x) == q(x)
    ensures Filter(xs, p) == Filter(xs, q)
  {
    if xs != [] {
      FilterSame(xs[..|xs| - 1], p, q);
    }
  }

  lemma {:induction false} FilterAll<T(!new)>(xs: seq<T>, p: T -> bool)
    requires forall x :: x in xs ==> p(x)
    ensures Filter(xs, p) == xs
  {
    if xs != [] {
      FilterAll(xs[..|xs| - 1], p);
      assert xs == xs[..|xs| - 1] + [xs[|xs| - 1]];
    }
  }

  lemma {:induction false} FilterNone<T(!new)>(xs: seq<T>, p: T -> bool)
    requires forall x :: x in xs ==> !p(x)
    ensures Filter(xs, p) == []
  {
    if xs != [] {
      FilterNone(xs[..|xs| - 1], p);
    }
  }

  lemma {:induction false} FilterIndices<T(!new)>(xs: seq<T>, p: T -> bool, i: int, j: int) returns (a: int, b: int)
    requires 0 <= i < j < |Filter(xs, p)|
    ensures 0 <= a < b < |xs| && xs[a] == Filter(xs, p)[i] && xs[b] == Filter(xs, p)[j]
  {
    var front, last := xs[..|xs| - 1], xs[|xs| - 1];
    assert xs == front + [last];
    FilterSnoc(front, last, p);
    if j < |Filter(front, p)| {
      a, b := FilterIndices(front, p, i, j);
    } else {
      assert Filter(front, p)[i] in front;
      a :| 0 <= a < |front| && front[a] == Filter(front, p)[i];
      b := |xs| - 1;
    }
  }

  lemma {:induction false} FilterDistinct<T(!new)>(xs: seq<T>, p: T -> bool)
    requires Distinct(xs)
    ensures Distinct(Filter(xs, p))
  {
    if xs != [] {
      FilterDistinct(xs[..|xs| - 1], p);
      SplitLast(xs);
    }
  }

  /** Repetition-free sequences with the same elements are permutations of one another. */
  lemma {:induction false} DistinctSameMultiset<T(!new)>(xs: seq<T>, ys: seq<T>)
    requires Distinct(xs) && Distinct(ys)
    requires forall x :: x in xs <==> x in ys
    ensures multiset(xs) == multiset(ys)
  {
    forall x ensures multiset(xs)[x] == multiset(ys)[x] {
      DistinctCount(xs, x);
      DistinctCount(ys, x);
    }
  }

  lemma {:induction false} DistinctCount<T(!new)>(xs: seq<T>, x: T)
    requires Distinct(xs)
    ensures multiset(xs)[x] == if x in xs then 1 else 0
  {
    if xs != [] {
      DistinctCount(xs[1..], x);
      assert xs == [xs[0]] + xs[1..];
    }
  }

  lemma {:induction false} TwiceCounts<T>(xs: seq<T>, i: int, j: int)
    requires 0 <= i < j < |xs| && xs[i] == xs[j]
    ensures multiset(xs)[xs[i]] >= 2
  {
    assert xs == xs[..j] + xs[j..];
    assert xs[..j][i] == xs[i] && xs[j..][0] == xs[j];
  }

  // ---------- sorting ----------

  /** What Python's `sorted` needs of a key comparison. */
  ghost predicate TotalPreorder<T(!new)>(le: (T, T) -> bool) {
    && (forall x, y :: le(x, y) || le(y, x))
    && (forall x, y, z :: le(x, y) && le(y, z) ==> le(x, z))
  }

  ghost predicate Sorted<T>(le: (T, T) -> bool, xs: seq<T>) {
    forall i, j | 0 <= i < j < |xs| :: le(xs[i], xs[j])
  }

  /** Puts `x` before the first element it does not have to follow. */
  function Insert<T>(le: (T, T) -> bool, x: T, xs: seq<T>): (r: seq<T>)
    ensures multiset(r) == multiset(xs) + multiset{x}
    ensures |r| == |xs| + 1
  {
    if xs == [] then [x]
    else if le(x, xs[0]) then [x] + xs
    else
      assert xs == [xs[0]] + xs[1..];
      [xs[0]] + Insert(le, x, xs[1..])
  }

  /** Python's `sorted`: a stable sort under the comparison `le`. */
  function StableSort<T>(le: (T, T) -> bool, xs: seq<T>): (r: seq<T>)
    ensures multiset(r) == multiset(xs)
    ensures |r| == |xs|
  {
    if xs == [] then []
    else
      assert xs == [xs[0]] + xs[1..];
      Insert(le, xs[0], StableSort(le, xs[1..]))
  }

  lemma {:induction false} SameElements<T(!new)>(xs: seq<T>, ys: seq<T>)
    requires multiset(xs) == multiset(ys)
    ensures forall x :: x in xs <==> x in ys
  {
    forall x ensures x in xs <==> x in ys {
      assert x in xs <==> x in multiset(xs);
      assert x in ys <==> x in multiset(ys);
    }
  }

  lemma {:induction false} InsertSorts<T(!new)>(le: (T, T) -> bool, x: T, xs: seq<T>)
    requires TotalPreorder(le) && Sorted(le, xs)
    ensures Sorted(le, Insert(le, x, xs))
  {
    if xs != [] && !le(x, xs[0]) {
      InsertSorts(le, x, xs[1..]);
      var rest := Insert(le, x, xs[1..]);
      forall y | y in rest ensures le(xs[0], y) {
        assert y in multiset(rest);
        if y != x {
          assert y in multiset(xs[1..]);
        }
      }
    }
  }

  lemma {:induction false} SortSorts<T(!new)>(le: (T, T) -> bool, xs: seq<T>)
    requires TotalPreorder(le)
    ensures Sorted(le, StableSort(le, xs))
  {
    if xs != [] {
      SortSorts(le, xs[1..]);
      InsertSorts(le, xs[0], StableSort(le, xs[1..]));
    }
  }

  /** Sorting what is already sorted changes nothing. */
  lemma {:induction false} SortOfSorted<T>(le: (T, T) -> bool, xs: seq<T>)
    requires Sorted(le, xs)
    ensures StableSort(le, xs) == xs
  {
    if xs != [] {
      SortOfSorted(le, xs[1..]);
      assert xs == [xs[0]] + xs[1..];
    }
  }

  ghost predicate TiesAreEqual<T>(le: (T, T) -> bool, xs: seq<T>) {
    forall i, j | 0 <= i < |xs| && 0 <= j < |xs| && le(xs[i], xs[j]) && le(xs[j], xs[i]) :: xs[i] == xs[j]
  }

  lemma {:induction false} SameHead<T>(le: (T, T) -> bool, xs: seq<T>, ys: seq<T>)
    requires Sorted(le, xs) && Sorted(le, ys) && TiesAreEqual(le, xs)
    requires xs != [] && ys != [] && ys[0] in xs && xs[0] in ys
    ensures xs[0] == ys[0]
  {
    var i :| 0 <= i < |xs| && xs[i] == ys[0];
    var j :| 0 <= j < |ys| && ys[j] == xs[0];
    if i != 0 && j != 0 {
      assert le(xs[0], xs[i]) && le(ys[0], ys[j]);
    }
  }

  lemma {:induction false} TailMultiset<T>(xs: seq<T>)
    requires xs != []
    ensures multiset(xs[1..]) == multiset(xs) - multiset{xs[0]}
  {
    assert xs == [xs[0]] + xs[1..];
  }

  lemma {:induction false} SortedTail<T>(le: (T, T) -> bool, xs: seq<T>)
    requires xs != [] && Sorted(le, xs)
    ensures Sorted(le, xs[1..])
    ensures TiesAreEqual(le, xs) ==> TiesAreEqual(le, xs[1..])
  {
  }

  lemma {:induction false} SameTails<T(!new)>(le: (T, T) -> bool, xs: seq<T>, ys: seq<T>)
    requires Sorted(le, xs) && Sorted(le, ys) && multiset(xs) == multiset(ys)
    requires TiesAreEqual(le, xs) && xs != [] && ys != []
    ensures xs[0] == ys[0] && multiset(xs[1..]) == multiset(ys[1..])
  {
    SameElements(xs, ys);
    assert xs[0] in xs && ys[0] in ys;
    SameHead(le, xs, ys);
    TailMultiset(xs);
    TailMultiset(ys);
  }

  lemma {:induction false} SameLength<T>(xs: seq<T>, ys: seq<T>)
    requires multiset(xs) == multiset(ys)
    ensures |xs| == |ys|
  {
    assert |multiset(xs)| == |xs| && |multiset(ys)| == |ys|;
  }

  /** Two sorted arrangements of the same elements are equal when ties are equal elements. */
  lemma {:induction false} SortedUnique<T(!new)>(le: (T, T) -> bool, xs: seq<T>, ys: seq<T>)
    requires Sorted(le, xs) && Sorted(le, ys) && multiset(xs) == multiset(ys)
    requires TiesAreEqual(le, xs)
    ensures xs == ys
  {
    SameLength(xs, ys);
    if xs != [] {
      SameTails(le, xs, ys);
      SortedTail(le, xs);
      SortedTail(le, ys);
      SortedUnique(le, xs[1..], ys[1..]);
      assert xs == [xs[0]] + xs[1..] && ys == [ys[0]] + ys[1..];
    }
  }

  /** Elements that tie with one another keep their original order. */
  lemma {:induction false} SortStable<T(!new)>(le: (T, T) -> bool, xs: seq<T>, tied: T -> bool)
    requires TotalPreorder(le)
    requires forall x, y :: tied(x) && tied(y) ==> le(x, y)
    ensures Filter(StableSort(le, xs), tied) == Filter(xs, tied)
  {
    if xs != [] {
      SortStable(le, xs[1..], tied);
      InsertStable(le, xs[0], StableSort(le, xs[1..]), tied);
      assert xs == [xs[0]] + xs[1..];
      FilterAppend([xs[0]], xs[1..], tied);
    }
  }

  lemma {:induction false} InsertStable<T(!new)>(le: (T, T) -> bool, x: T, xs: seq<T>, tied: T -> bool)
    requires TotalPreorder(le)
    requires forall a, b :: tied(a) && tied(b) ==> le(a, b)
    ensures Filter(Insert(le, x, xs), tied) == Filter([x], tied) + Filter(xs, tied)
  {
    if xs == [] {
    } else if le(x, xs[0]) {
      FilterAppend([x], xs, tied);
    } else {
      InsertStable(le, x, xs[1..], tied);
      InsertBehind(x, xs[0], xs[1..], Insert(le, x, xs[1..]), tied);
      assert xs == [xs[0]] + xs[1..];
    }
  }

  lemma {:induction false} InsertBehind<T(!new)>(x: T, head: T, rest: seq<T>, inserted: seq<T>, tied: T -> bool)
    requires Filter(inserted, tied) == Filter([x], tied) + Filter(rest, tied)
    requires !(tied(x) && tied(head))
    ensures Filter([head] + inserted, tied) == Filter([x], tied) + Filter([head] + rest, tied)
  {
    FilterCons(head, inserted, tied);
    FilterCons(head, rest, tied);
    if tied(head) {
      FilterNone([x], tied);
      assert Filter(inserted, tied) == Filter(rest, tied);
    }
  }

  /** Once `x` may precede an element of `xs`, it may precede all later ones. */
  ghost predicate Monotone<T>(le: (T, T) -> bool, x: T, xs: seq<T>) {
    forall i, j | 0 <= i <= j < |xs| && le(x, xs[i]) :: le(x, xs[j])
  }

  lemma {:induction false} SortMonotone<T(!new)>(le: (T, T) -> bool, x: T, xs: seq<T>)
    requires TotalPreorder(le)
    ensures Monotone(le, x, StableSort(le, xs))
  {
    SortSorts(le, xs);
  }

  /** Sorting and then selecting is selecting and then sorting. */
  lemma {:induction false} SortFilter<T(!new)>(le: (T, T) -> bool, xs: seq<T>, p: T -> bool)
    requires TotalPreorder(le)
    ensures Filter(StableSort(le, xs), p) == StableSort(le, Filter(xs, p))
  {
    if xs != [] {
      SortFilter(le, xs[1..], p);
      SortMonotone(le, xs[0], xs[1..]);
      SortFilterStep(le, xs, p);
    }
  }

  lemma {:induction false} SortCons<T(!new)>(le: (T, T) -> bool, x: T, rest: seq<T>)
    ensures StableSort(le, [x] + rest) == Insert(le, x, StableSort(le, rest))
  {
    assert ([x] + rest)[1..] == rest;
  }

  lemma {:induction false} SortFilterStep<T(!new)>(le: (T, T) -> bool, xs: seq<T>, p: T -> bool)
    requires xs != [] && Monotone(le, xs[0], StableSort(le, xs[1..]))
    requires Filter(StableSort(le, xs[1..]), p) == StableSort(le, Filter(xs[1..], p))
    ensures Filter(StableSort(le, xs), p) == StableSort(le, Filter(xs, p))
  {
    var x, rest := xs[0], xs[1..];
    assert xs == [x] + rest;
    assert Filter(StableSort(le, xs), p)
        == if p(x) then Insert(le, x, StableSort(le, Filter(rest, p))) else StableSort(le, Filter(rest, p)) by {
      InsertFilter(le, x, StableSort(le, rest), p);
    }
    assert Filter(xs, p) == if p(x) then [x] + Filter(rest, p) else Filter(rest, p) by {
      FilterCons(x, rest, p);
    }
    SortCons(le, x, Filter(rest, p));
  }

  lemma {:induction false} InsertFilter<T(!new)>(le: (T, T) -> bool, x: T, xs: seq<T>, p: T -> bool)
    requires Monotone(le, x, xs)
    ensures Filter(Insert(le, x, xs), p) == if p(x) then Insert(le, x, Filter(xs, p)) else Filter(xs, p)
  {
    if xs == [] {
      FilterCons(x, xs, p);
    } else if le(x, xs[0]) {
      FilterCons(x, xs, p);
      InsertFirst(le, x, xs, p);
    } else {
      var rest := xs[1..];
      assert xs == [xs[0]] + rest;
      InsertFilter(le, x, rest, p);
      FilterCons(xs[0], Insert(le, x, rest), p);
      FilterCons(xs[0], rest, p);
      assert p(xs[0]) ==> ([xs[0]] + Filter(rest, p))[1..] == Filter(rest, p);
    }
  }

  lemma {:induction false} InsertFirst<T(!new)>(le: (T, T) -> bool, x: T, xs: seq<T>, p: T -> bool)
    requires Monotone(le, x, xs) && xs != [] && le(x, xs[0])
    ensures Insert(le, x, Filter(xs, p)) == [x] + Filter(xs, p)
  {
    if Filter(xs, p) != [] {
      var y := Filter(xs, p)[0];
      assert y in xs;
      var j :| 0 <= j < |xs| && xs[j] == y;
      assert le(x, xs[j]);
    }
  }

  // ---------- strictly increasing integer sequences ----------

  ghost predicate Increasing(xs: seq<int>) {
    forall i, j | 0 <= i < j < |xs| :: xs[i] < xs[j]
  }

  function InsertDistinct(x: int, xs: seq<int>): (r: seq<int>)
    ensures forall y :: y in r <==> y == x || y in xs
  {
    if xs == [] then [x]
    else if x < xs[0] then [x] + xs
    else if x == xs[0] then xs
    else
      var rest := InsertDistinct(x, xs[1..]);
      assert xs == [xs[0]] + xs[1..];
      [xs[0]] + rest
  }

  /** `sorted({x for x in xs})` */
  function SortedDistinct(xs: seq<int>): (r: seq<int>)
    ensures forall y :: y in r <==> y in xs
  {
    if xs == [] then []
    else
      assert xs == [xs[0]] + xs[1..];
      InsertDistinct(xs[0], SortedDistinct(xs[1..]))
  }

  lemma {:induction false} InsertDistinctIncreasing(x: int, xs: seq<int>)
    requires Increasing(xs)
    ensures Increasing(InsertDistinct(x, xs))
  {
    if xs != [] && xs[0] < x {
      InsertDistinctIncreasing(x, xs[1..]);
      var rest := InsertDistinct(x, xs[1..]);
      var r := InsertDistinct(x, xs);
      assert r == [xs[0]] + rest;
      forall i, j | 0 <= i < j < |r| ensures r[i] < r[j] {
        assert r[j] == rest[j - 1] && rest[j - 1] in rest;
        assert r[j] == x || r[j] in xs[1..];
        assert i > 0 ==> r[i] == rest[i - 1];
      }
    }
  }

  lemma {:induction false} SortedDistinctIncreasing(xs: seq<int>)
    ensures Increasing(SortedDistinct(xs))
  {
    if xs != [] {
      SortedDistinctIncreasing(xs[1..]);
      InsertDistinctIncreasing(xs[0], SortedDistinct(xs[1..]));
    }
  }

  /** How many elements of an increasing sequence are at most `t`. */
  function CountUpTo(xs: seq<int>, t: int): (n: nat)
    ensures n <= |xs|
  {
    if xs == [] || t < xs[0] then 0 else 1 + CountUpTo(xs[1..], t)
  }

  lemma {:induction false} CountUpToCuts(xs: seq<int>, t: int)
    requires Increasing(xs)
    ensures forall i :: 0 <= i < |xs| ==> (i < CountUpTo(xs, t) <==> xs[i] <= t)
  {
    if xs != [] && xs[0] <= t {
      CountUpToCuts(xs[1..], t);
      forall i | 0 <= i < |xs| ensures i < CountUpTo(xs, t) <==> xs[i] <= t {
        if i > 0 {
          assert xs[i] == xs[1..][i - 1];
        }
      }
    }
  }

  lemma {:induction false} CountUpToOwn(xs: seq<int>, k: nat)
    requires Increasing(xs) && k < |xs|
    ensures CountUpTo(xs, xs[k]) == k + 1
  {
    CountUpToCuts(xs, xs[k]);
    assert k + 1 < |xs| ==> xs[k] < xs[k + 1];
  }

  /** Increasing sequences with the same elements up to `t` have the same prefix up to `t`. */
  lemma {:induction false} SamePrefixUpTo(xs: seq<int>, ys: seq<int>, t: int)
    requires Increasing(xs) && Increasing(ys)
    requires forall x :: x <= t ==> (x in xs <==> x in ys)
    ensures CountUpTo(xs, t) == CountUpTo(ys, t)
    ensures xs[..CountUpTo(xs, t)] == ys[..CountUpTo(ys, t)]
  {
    CountUpToCuts(xs, t);
    CountUpToCuts(ys, t);
    if xs != [] && xs[0] <= t {
      assert xs[0] in ys;
      assert ys[0] <= xs[0];
      assert ys[0] in xs;
      assert xs[0] == ys[0];
      assert xs == [xs[0]] + xs[1..] && ys == [ys[0]] + ys[1..];
      forall x | x <= t ensures x in xs[1..] <==> x in ys[1..] {
        if x in xs[1..] { assert x in ys && x != ys[0]; }
        if x in ys[1..] { assert x in xs && x != xs[0]; }
      }
      SamePrefixUpTo(xs[1..], ys[1..], t);
      var n := CountUpTo(xs, t);
      assert xs[..n] == [xs[0]] + xs[1..][..n - 1];
      assert ys[..n] == [ys[0]] + ys[1..][..n - 1];
    } else {
      assert forall y :: y in xs ==> t < y;
      assert ys == [] || ys[0] !in xs || t < ys[0];
    }
  }

  /** An increasing sequence is determined by its elements. */
  lemma {:induction false} IncreasingUnique(xs: seq<int>, ys: seq<int>)
    requires Increasing(xs) && Increasing(ys)
    requires forall x :: x in xs <==> x in ys
    ensures xs == ys
  {
    var m := (if xs == [] then 0 else xs[|xs| - 1]);
    var t := (if ys == [] || ys[|ys| - 1] < m then m else ys[|ys| - 1]);
    SamePrefixUpTo(xs, ys, t);
    CountUpToCuts(xs, t);
    CountUpToCuts(ys, t);
    assert CountUpTo(xs, t) == |xs|;
    assert CountUpTo(ys, t) == |ys|;
  }
}
