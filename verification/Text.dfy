/** Strings compared by code point, as Python and SQL text keys are, and the few string
    operations the models need. */
module Text {
  import L = Lexicographic

  function Points(s: string): (p: seq<int>)
    ensures |p| == |s| && forall i :: 0 <= i < |s| ==> p[i] == s[i] as int
  {
    seq(|s|, i requires 0 <= i < |s| => s[i] as int)
  }

  predicate Le(a: string, b: string) {
    L.Le(Points(a), Points(b))
  }

  predicate Lt(a: string, b: string) {
    Le(a, b) && a != b
  }

  lemma {:induction false} SamePoints(a: string, b: string)
    requires Points(a) == Points(b)
    ensures a == b
  {
    forall i | 0 <= i < |a| ensures a[i] == b[i] {
      assert Points(a)[i] == Points(b)[i];
    }
  }

  lemma {:induction false} PointsRank(a: string, b: string)
    ensures a == b <==> Points(a) == Points(b)
    ensures Lt(a, b) <==> L.Lt(Points(a), Points(b))
  {
    if Points(a) == Points(b) {
      SamePoints(a, b);
    }
  }

  lemma {:induction false} LeReflexive(a: string)
    ensures Le(a, a)
  {
    L.LeReflexive(Points(a));
  }

  lemma {:induction false} LeAntisymmetric(a: string, b: string)
    requires Le(a, b) && Le(b, a)
    ensures a == b
  {
    L.LeAntisymmetric(Points(a), Points(b));
    SamePoints(a, b);
  }

  /** `Lt` is a strict total order: the facts tuple comparisons are built from. */
  lemma {:induction false} LtRank(a: string, b: string, c: string)
    ensures Lt(a, b) || Lt(b, a) || a == b
    ensures !(Lt(a, b) && Lt(b, a))
    ensures Le(a, b) <==> Lt(a, b) || a == b
    ensures Le(b, a) <==> Lt(b, a) || a == b
    ensures Lt(a, b) && Lt(b, c) ==> Lt(a, c)
    ensures Le(a, b) && Le(b, c) ==> Le(a, c)
    ensures !Lt(a, b) && !Lt(b, c) ==> !Lt(a, c)
    ensures !Lt(b, a) && !Lt(c, b) ==> !Lt(c, a)
    ensures Lt(c, b) && Lt(b, a) ==> Lt(c, a)
  {
    PointsRank(a, b);
    PointsRank(b, a);
    PointsRank(b, c);
    PointsRank(c, b);
    PointsRank(a, c);
    PointsRank(c, a);
    L.LtRank(Points(a), Points(b), Points(c));
  }

  lemma {:induction false} LtPair(a: string, b: string)
    ensures Lt(a, b) || Lt(b, a) || a == b
    ensures !(Lt(a, b) && Lt(b, a))
    ensures Le(a, b) <==> Lt(a, b) || a == b
  {
    LtRank(a, b, a);
  }

  /** Python's white space. */
  predicate IsSpace(c: char) {
    || '\t' <= c <= '\r' || '\U{1C}' <= c <= ' ' || c == '\U{85}' || c == '\U{A0}' || c == '\U{1680}'
    || '\U{2000}' <= c <= '\U{200A}' || c == '\U{2028}' || c == '\U{2029}' || c == '\U{202F}' || c == '\U{205F}' || c == '\U{3000}'
  }

  /** The digits of a hex digest. */
  predicate IsHexDigit(c: char) {
    '0' <= c <= '9' || 'a' <= c <= 'f'
  }

  predicate StartsWith(s: string, prefix: string) {
    prefix <= s
  }

  /** `str.removeprefix` */
  function RemovePrefix(s: string, prefix: string): string {
    if prefix <= s then s[|prefix|..] else s
  }

  /** `a` equals `b`, or comes before it: at the first difference `a` ends or has the smaller code point. */
  ghost predicate InCodeOrder(a: string, b: string) {
    exists k: nat :: k <= |a| && k <= |b| && a[..k] == b[..k] && (k == |a| || (k < |b| && a[k] < b[k]))
  }

  lemma {:induction false} LeIff(a: string, b: string)
    ensures Le(a, b) <==> InCodeOrder(a, b)
  {
    var x, y := Points(a), Points(b);
    L.LeIff(x, y);
    forall k: nat | k <= |a| && k <= |b| ensures x[..k] == y[..k] <==> a[..k] == b[..k] {
      PrefixPoints(a, k);
      PrefixPoints(b, k);
      PointsRank(a[..k], b[..k]);
    }
    if k: nat :| L.DecidedAt(x, y, k) {
      assert a[..k] == b[..k];
    }
    if InCodeOrder(a, b) {
      var k: nat :| k <= |a| && k <= |b| && a[..k] == b[..k] && (k == |a| || (k < |b| && a[k] < b[k]));
      assert L.DecidedAt(x, y, k);
    }
  }

  lemma {:induction false} PrefixPoints(a: string, k: nat)
    requires k <= |a|
    ensures Points(a)[..k] == Points(a[..k])
  {
  }

  /** Python's white space, by code point. */
  lemma {:induction false} SpaceCodes(c: char)
    ensures IsSpace(c) <==>
              || c as int in {9, 10, 11, 12, 13, 28, 29, 30, 31, 32, 0x85, 0xA0, 0x1680, 0x2028, 0x2029, 0x202F, 0x205F, 0x3000}
              || 0x2000 <= c as int <= 0x200A
  {
  }

  /** The sixteen digits. */
  lemma {:induction false} HexDigits(c: char)
    ensures IsHexDigit(c) <==> c in "0123456789abcdef"
  {
    var digits := "0123456789abcdef";
    assert digits[0] == '0' && digits[1] == '1' && digits[2] == '2' && digits[3] == '3' && digits[4] == '4' && digits[5] == '5';
    assert digits[6] == '6' && digits[7] == '7' && digits[8] == '8' && digits[9] == '9' && digits[10] == 'a' && digits[11] == 'b';
    assert digits[12] == 'c' && digits[13] == 'd' && digits[14] == 'e' && digits[15] == 'f';
    if IsHexDigit(c) {
      assert c == if c <= '9' then digits[c as int - 48] else digits[c as int - 87];
    }
  }
}
