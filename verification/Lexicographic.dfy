/** The order of Python's `str`: sequences of code points compared point by point. */
module Lexicographic {

  predicate Le(a: seq<int>, b: seq<int>) {
    a == [] || (b != [] && (a[0] < b[0] || (a[0] == b[0] && Le(a[1..], b[1..]))))
  }

  predicate Lt(a: seq<int>, b: seq<int>) {
    Le(a, b) && a != b
  }

  lemma {:induction false} LeReflexive(a: seq<int>)
    ensures Le(a, a)
  {
    if a != [] {
      LeReflexive(a[1..]);
    }
  }

  lemma {:induction false} LeTotal(a: seq<int>, b: seq<int>)
    ensures Le(a, b) || Le(b, a)
  {
    if a != [] && b != [] {
      LeTotal(a[1..], b[1..]);
    }
  }

  lemma {:induction false} LeAntisymmetric(a: seq<int>, b: seq<int>)
    requires Le(a, b) && Le(b, a)
    ensures a == b
  {
    if a != [] {
      LeAntisymmetric(a[1..], b[1..]);
      assert a == [a[0]] + a[1..] && b == [b[0]] + b[1..];
    }
  }

  lemma {:induction false} LeTransitive(a: seq<int>, b: seq<int>, c: seq<int>)
    requires Le(a, b) && Le(b, c)
    ensures Le(a, c)
  {
    if a != [] && a[0] == b[0] == c[0] {
      LeTransitive(a[1..], b[1..], c[1..]);
    }
  }

  lemma {:induction false} LtPair(a: seq<int>, b: seq<int>)
    ensures Lt(a, b) || Lt(b, a) || a == b
    ensures !(Lt(a, b) && Lt(b, a))
    ensures Le(a, b) <==> Lt(a, b) || a == b
  {
    LeTotal(a, b);
    LeReflexive(a);
    if Le(a, b) && Le(b, a) {
      LeAntisymmetric(a, b);
    }
  }

  lemma {:induction false} LtChain(a: seq<int>, b: seq<int>, c: seq<int>)
    requires Lt(a, b) && Lt(b, c)
    ensures Lt(a, c)
  {
    LeTransitive(a, b, c);
    LtPair(a, b);
  }

  /** `Lt` is a strict total order: the facts tuple comparisons are built from. */
  lemma {:induction false} LtRank(a: seq<int>, b: seq<int>, c: seq<int>)
    ensures Lt(a, b) || Lt(b, a) || a == b
    ensures !(Lt(a, b) && Lt(b, a))
    ensures Le(a, b) <==> Lt(a, b) || a == b
    ensures Le(b, a) <==> Lt(b, a) || a == b
    ensures Lt(a, b) && Lt(b, c) ==> Lt(a, c)
    ensures Le(a, b) && Le(b, c) ==> Le(a, c)
    ensures !Lt(a, b) && !Lt(b, c) ==> !Lt(a, c)
    ensures !Lt(b, a) && !Lt(c, b) ==> !Lt(c, a)
    ensures Lt(c, b) && Lt(b, a) ==> Lt(c, a)
  {
    LtPair(a, b);
    LtPair(b, a);
    LtPair(b, c);
    LtPair(a, c);
    if Lt(a, b) && Lt(b, c) {
      LtChain(a, b, c);
    }
    if Lt(c, b) && Lt(b, a) {
      LtChain(c, b, a);
    }
  }

  /** Up to position `k` both agree; there `a` ends, or has the smaller element. */
  ghost predicate DecidedAt(a: seq<int>, b: seq<int>, k: nat) {
    k <= |a| && k <= |b| && a[..k] == b[..k] && (k == |a| || (k < |b| && a[k] < b[k]))
  }

  /** The order is decided at the first difference; a prefix comes first. */
  lemma {:induction false} LeIff(a: seq<int>, b: seq<int>)
    ensures Le(a, b) <==> exists k: nat :: DecidedAt(a, b, k)
  {
    if a == [] || b == [] || a[0] != b[0] {
      assert a == [] || (b != [] && a[0] < b[0]) ==> DecidedAt(a, b, 0);
      if k: nat :| DecidedAt(a, b, k) && k > 0 {
        SameStart(a, b, k);
      }
    } else {
      LeIff(a[1..], b[1..]);
      if k: nat :| DecidedAt(a[1..], b[1..], k) {
        assert a[..k + 1] == [a[0]] + a[1..][..k] && b[..k + 1] == [b[0]] + b[1..][..k];
        assert DecidedAt(a, b, k + 1);
      }
      if k: nat :| DecidedAt(a, b, k) {
        TailDecided(a, b, k);
      }
    }
  }

  lemma {:induction false} SameStart(a: seq<int>, b: seq<int>, k: nat)
    requires 0 < k && DecidedAt(a, b, k)
    ensures a != [] && b != [] && a[0] == b[0]
  {
    assert a[..k][0] == a[0] && b[..k][0] == b[0];
  }

  lemma {:induction false} TailDecided(a: seq<int>, b: seq<int>, k: nat)
    requires a != [] && b != [] && a[0] == b[0] && DecidedAt(a, b, k)
    ensures DecidedAt(a[1..], b[1..], k - 1)
  {
    assert a[1..][..k - 1] == a[..k][1..] && b[1..][..k - 1] == b[..k][1..];
  }
}
