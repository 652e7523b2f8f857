/** Python's `str` and its ASCII JSON escape. A `str` is a sequence of code points that may hold lone
    surrogates; the escape goes through UTF-16 code units, so it sees a text only up to joining a high
    surrogate with the low one behind it. */
module JsonStrings {
  import opened Wrappers

  type Code = c: int | 0 <= c < 0x110000
  type PyStr = seq<Code>

  predicate IsHigh(c: int) {
    0xD800 <= c < 0xDC00
  }

  predicate IsLow(c: int) {
    0xDC00 <= c < 0xE000
  }

  function HighOf(c: Code): Code
    requires c >= 0x10000
  {
    0xD800 + (c - 0x10000) / 0x400
  }

  function LowOf(c: Code): Code
    requires c >= 0x10000
  {
    0xDC00 + (c - 0x10000) % 0x400
  }

  /** The code point that a high and a low surrogate encode together. */
  function Combine(high: Code, low: Code): Code
    requires IsHigh(high) && IsLow(low)
  {
    0x10000 + (high - 0xD800) * 0x400 + (low - 0xDC00)
  }

  lemma {:induction false} SurrogatesCombine(c: Code)
    requires c >= 0x10000
    ensures IsHigh(HighOf(c)) && IsLow(LowOf(c)) && Combine(HighOf(c), LowOf(c)) == c
  {
  }

  lemma {:induction false} CombinedSplits(high: Code, low: Code)
    requires IsHigh(high) && IsLow(low)
    ensures Combine(high, low) >= 0x10000
    ensures HighOf(Combine(high, low)) == high && LowOf(Combine(high, low)) == low
  {
  }

  // ---------- the escape ----------

  /** The two-character escapes. */
  function ShortCode(c: Code): Option<char> {
    if c == 0x22 then Some('"')
    else if c == 0x5C then Some('\\')
    else if c == 0x0A then Some('n')
    else if c == 0x0D then Some('r')
    else if c == 0x09 then Some('t')
    else if c == 0x08 then Some('b')
    else if c == 0x0C then Some('f')
    else None
  }

  function HexDigit(d: nat): char
    requires d < 16
  {
    if d < 10 then ('0' as int + d) as char else ('a' as int + (d - 10)) as char
  }

  /** A `\u` escape of one UTF-16 code unit. */
  function Hex(n: nat): (s: string)
    requires n < 0x10000
    ensures |s| == 6
  {
    ['\\', 'u', HexDigit(n / 16 / 16 / 16), HexDigit(n / 16 / 16 % 16), HexDigit(n / 16 % 16), HexDigit(n % 16)]
  }

  function EscapeCode(c: Code): string {
    if ShortCode(c).Some? then ['\\', ShortCode(c).value]
    else if 0x20 <= c <= 0x7E then [c as char]
    else if c < 0x10000 then Hex(c)
    else Hex(HighOf(c)) + Hex(LowOf(c))
  }

  function Escape(s: PyStr): string {
    if s == [] then "" else EscapeCode(s[0]) + Escape(s[1..])
  }

  function Quote(s: PyStr): string {
    "\"" + Escape(s) + "\""
  }

  // ---------- code units ----------

  function UnitsOf(c: Code): PyStr {
    if c < 0x10000 then [c] else [HighOf(c), LowOf(c)]
  }

  /** The UTF-16 code units of a text. */
  function Units(s: PyStr): (us: PyStr)
    ensures forall i :: 0 <= i < |us| ==> us[i] < 0x10000
  {
    if s == [] then [] else UnitsOf(s[0]) + Units(s[1..])
  }

  /** The text with every high surrogate and the low one behind it joined into the code point they encode. */
  function Join(s: PyStr): PyStr {
    if |s| >= 2 && IsHigh(s[0]) && IsLow(s[1]) then [Combine(s[0], s[1])] + Join(s[2..])
    else if s == [] then []
    else [s[0]] + Join(s[1..])
  }

  lemma {:induction false} EscapeOfSurrogates(c: Code)
    requires c >= 0x10000
    ensures EscapeCode(c) == EscapeCode(HighOf(c)) + EscapeCode(LowOf(c))
  {
    SurrogatesCombine(c);
  }

  lemma {:induction false} EscapeCons(c: Code, rest: PyStr)
    ensures Escape([c] + rest) == EscapeCode(c) + Escape(rest)
  {
    assert ([c] + rest)[1..] == rest;
  }

  lemma {:induction false} Regroup(a: string, b: string, c: string)
    ensures a + b + c == a + (b + c)
  {
  }

  lemma {:induction false} EscapeUnitsCons(c: Code, rest: PyStr)
    ensures Escape(UnitsOf(c) + rest) == EscapeCode(c) + Escape(rest)
  {
    if c >= 0x10000 {
      EscapeOfSurrogates(c);
      EscapeCons(HighOf(c), [LowOf(c)] + rest);
      EscapeCons(LowOf(c), rest);
      assert UnitsOf(c) + rest == [HighOf(c)] + ([LowOf(c)] + rest);
      Regroup(EscapeCode(HighOf(c)), EscapeCode(LowOf(c)), Escape(rest));
    } else {
      EscapeCons(c, rest);
    }
  }

  /** The escape of a text is that of its code units. */
  lemma {:induction false} EscapeSeesUnits(s: PyStr)
    ensures Escape(s) == Escape(Units(s))
  {
    if s != [] {
      EscapeSeesUnits(s[1..]);
      EscapeUnitsCons(s[0], Units(s[1..]));
    }
  }

  lemma {:induction false} UnitsStart(s: PyStr)
    requires Units(s) != [] && IsLow(Units(s)[0])
    ensures s != [] && IsLow(s[0])
  {
    if s[0] >= 0x10000 {
      SurrogatesCombine(s[0]);
    }
  }

  lemma {:induction false} JoinPair(high: Code, low: Code, rest: PyStr)
    requires IsHigh(high) && IsLow(low)
    ensures Join([high, low] + rest) == [Combine(high, low)] + Join(rest)
  {
    assert ([high, low] + rest)[2..] == rest;
  }

  lemma {:induction false} JoinSingle(c: Code, rest: PyStr)
    requires IsHigh(c) ==> rest == [] || !IsLow(rest[0])
    ensures Join([c] + rest) == [c] + Join(rest)
  {
    assert ([c] + rest)[1..] == rest;
  }

  predicate StartsWithPair(s: PyStr) {
    |s| >= 2 && IsHigh(s[0]) && IsLow(s[1])
  }

  /** Joining reads code units back: a text and its code units join to the same text. */
  lemma {:induction false} JoinOfUnits(s: PyStr)
    ensures Join(Units(s)) == Join(s)
  {
    if s != [] {
      var c, rest := s[0], s[1..];
      assert s == [c] + rest;
      if StartsWithPair(s) {
        JoinOfUnits(s[2..]);
        assert Units(s) == [c] + ([s[1]] + Units(s[2..]));
        assert Units(s) == [c, s[1]] + Units(s[2..]);
        JoinPair(c, s[1], Units(s[2..]));
      } else if c >= 0x10000 {
        JoinOfUnits(rest);
        SurrogatesCombine(c);
        JoinPair(HighOf(c), LowOf(c), Units(rest));
      } else {
        JoinOfUnits(rest);
        if Units(rest) != [] && IsLow(Units(rest)[0]) {
          UnitsStart(rest);
        }
        JoinSingle(c, Units(rest));
      }
    }
  }

  lemma {:induction false} UnitsCons(c: Code, rest: PyStr)
    ensures Units([c] + rest) == UnitsOf(c) + Units(rest)
  {
    assert ([c] + rest)[1..] == rest;
  }

  lemma {:induction false} UnitsPair(high: Code, low: Code, rest: PyStr)
    requires IsHigh(high) && IsLow(low)
    ensures Units([high, low] + rest) == [high, low] + Units(rest)
    ensures Units([Combine(high, low)] + rest) == [high, low] + Units(rest)
  {
    assert [high, low] + rest == [high] + ([low] + rest);
    UnitsCons(high, [low] + rest);
    UnitsCons(low, rest);
    assert [high] + ([low] + Units(rest)) == [high, low] + Units(rest);
    CombinedSplits(high, low);
    UnitsCons(Combine(high, low), rest);
  }

  /** Joining does not change the code units. */
  lemma {:induction false} UnitsOfJoin(s: PyStr)
    ensures Units(Join(s)) == Units(s)
  {
    if StartsWithPair(s) {
      UnitsOfJoin(s[2..]);
      assert s == [s[0], s[1]] + s[2..];
      UnitsPair(s[0], s[1], s[2..]);
      UnitsPair(s[0], s[1], Join(s[2..]));
    } else if s != [] {
      UnitsOfJoin(s[1..]);
      assert s == [s[0]] + s[1..];
      UnitsCons(s[0], s[1..]);
      UnitsCons(s[0], Join(s[1..]));
    }
  }

  lemma {:induction false} EqualPrefixes(a: string, b: string, x: string, y: string)
    requires a + x == b + y && |a| == |b|
    ensures a == b && x == y
  {
    assert a == (a + x)[..|a|] && b == (b + y)[..|b|];
    assert x == (a + x)[|a|..] && y == (b + y)[|b|..];
  }

  lemma {:induction false} HexDigitInjective(d: nat, e: nat)
    requires d < 16 && e < 16 && HexDigit(d) == HexDigit(e)
    ensures d == e
  {
  }

  lemma {:induction false} HexInjective(m: nat, n: nat)
    requires m < 0x10000 && n < 0x10000 && Hex(m) == Hex(n)
    ensures m == n
  {
    var s, t := Hex(m), Hex(n);
    assert s[2] == t[2] && s[3] == t[3] && s[4] == t[4] && s[5] == t[5];
    HexDigitInjective(m / 16 / 16 / 16, n / 16 / 16 / 16);
    HexDigitInjective(m / 16 / 16 % 16, n / 16 / 16 % 16);
    HexDigitInjective(m / 16 % 16, n / 16 % 16);
    HexDigitInjective(m % 16, n % 16);
  }

  /** How a code unit is escaped. */
  datatype EscapeForm = Verbatim | Short | Hexadecimal

  function FormOf(u: Code): EscapeForm {
    if ShortCode(u).Some? then Short else if 0x20 <= u <= 0x7E then Verbatim else Hexadecimal
  }

  lemma {:induction false} FormsDiffer(u: Code, v: Code, x: string, y: string)
    requires u < 0x10000 && v < 0x10000 && EscapeCode(u) + x == EscapeCode(v) + y
    ensures FormOf(u) == FormOf(v)
  {
    var s, t := EscapeCode(u) + x, EscapeCode(v) + y;
    assert s[0] == EscapeCode(u)[0] && t[0] == EscapeCode(v)[0];
    assert FormOf(u).Verbatim? <==> s[0] != '\\';
    assert FormOf(v).Verbatim? <==> t[0] != '\\';
    if !FormOf(u).Verbatim? {
      assert s[1] == EscapeCode(u)[1] && t[1] == EscapeCode(v)[1];
      assert FormOf(u).Short? <==> s[1] != 'u';
      assert FormOf(v).Short? <==> t[1] != 'u';
    }
  }

  /** The escapes of code units, surrogates included, form a prefix code. */
  lemma {:induction false} EscapeUnitCut(u: Code, v: Code, x: string, y: string)
    requires u < 0x10000 && v < 0x10000 && EscapeCode(u) + x == EscapeCode(v) + y
    ensures u == v && x == y
  {
    FormsDiffer(u, v, x, y);
    EqualPrefixes(EscapeCode(u), EscapeCode(v), x, y);
    match FormOf(u)
    case Verbatim =>
      assert EscapeCode(u)[0] == EscapeCode(v)[0];
    case Short =>
      assert EscapeCode(u)[1] == EscapeCode(v)[1];
    case Hexadecimal =>
      HexInjective(u, v);
  }

  lemma {:induction false} EscapeIsNotQuote(c: Code)
    ensures EscapeCode(c) != "" && EscapeCode(c)[0] != '"'
  {
  }

  /** An escaped text, its closing quote and what follows. */
  function Closed(s: PyStr, x: string): string {
    Escape(s) + "\"" + x
  }

  lemma {:induction false} ClosedStep(s: PyStr, x: string)
    ensures s == [] ==> Closed(s, x) == "\"" + x && Closed(s, x)[0] == '"' && Closed(s, x)[1..] == x
    ensures s != [] ==> Closed(s, x) == EscapeCode(s[0]) + Closed(s[1..], x) && Closed(s, x)[0] != '"'
  {
    if s != [] {
      EscapeIsNotQuote(s[0]);
      ClosedCons(EscapeCode(s[0]), Escape(s[1..]), x);
    }
  }

  lemma {:induction false} ClosedCons(a: string, b: string, x: string)
    requires a != ""
    ensures a + b + "\"" + x == a + (b + "\"" + x) && (a + b + "\"" + x)[0] == a[0]
  {
  }

  lemma {:induction false} UnitsCut(us: PyStr, vs: PyStr, x: string, y: string)
    requires (forall i :: 0 <= i < |us| ==> us[i] < 0x10000) && (forall i :: 0 <= i < |vs| ==> vs[i] < 0x10000)
    requires Closed(us, x) == Closed(vs, y)
    ensures us == vs && x == y
  {
    ClosedStep(us, x);
    ClosedStep(vs, y);
    if us != [] && vs != [] {
      EscapeUnitCut(us[0], vs[0], Closed(us[1..], x), Closed(vs[1..], y));
      UnitsCut(us[1..], vs[1..], x, y);
      assert us == [us[0]] + us[1..] && vs == [vs[0]] + vs[1..];
    }
  }

  /** A quoted text ends at its own closing quote, and is recognised up to joining surrogates. */
  lemma {:induction false} QuotedCut(s: PyStr, t: PyStr, x: string, y: string)
    requires Quote(s) + x == Quote(t) + y
    ensures Join(s) == Join(t) && x == y
  {
    assert Quote(s) + x == "\"" + Closed(s, x) && Quote(t) + y == "\"" + Closed(t, y);
    EqualPrefixes("\"", "\"", Closed(s, x), Closed(t, y));
    EscapeSeesUnits(s);
    EscapeSeesUnits(t);
    assert Closed(s, x) == Closed(Units(s), x) && Closed(t, y) == Closed(Units(t), y);
    UnitsCut(Units(s), Units(t), x, y);
    JoinOfUnits(s);
    JoinOfUnits(t);
  }

  lemma {:induction false} EscapeOfJoin(s: PyStr)
    ensures Escape(Join(s)) == Escape(s)
  {
    UnitsOfJoin(s);
    EscapeSeesUnits(s);
    EscapeSeesUnits(Join(s));
  }

  /** Two texts have the same escape iff they are equal after joining surrogates. */
  lemma {:induction false} EscapeIff(s: PyStr, t: PyStr)
    ensures Escape(s) == Escape(t) <==> Join(s) == Join(t)
  {
    EscapeOfJoin(s);
    EscapeOfJoin(t);
    if Escape(s) == Escape(t) {
      assert Quote(s) + "" == Quote(t) + "";
      QuotedCut(s, t, "", "");
    }
  }

  // ---------- texts without joinable surrogates ----------

  ghost predicate NoPair(s: PyStr) {
    forall i | 0 <= i < |s| - 1 :: !(IsHigh(s[i]) && IsLow(s[i + 1]))
  }

  lemma {:induction false} JoinShortens(s: PyStr)
    ensures |Join(s)| <= |s| && (|Join(s)| == |s| <==> NoPair(s)) && (NoPair(s) ==> Join(s) == s)
  {
    if StartsWithPair(s) {
      JoinShortens(s[2..]);
    } else if s != [] {
      var rest := s[1..];
      JoinShortens(rest);
      assert s == [s[0]] + rest;
      assert NoPair(s) <==> NoPair(rest) by {
        if NoPair(s) {
          forall i | 0 <= i < |rest| - 1 ensures !(IsHigh(rest[i]) && IsLow(rest[i + 1])) {
            assert !(IsHigh(s[i + 1]) && IsLow(s[i + 1 + 1]));
          }
        }
        if NoPair(rest) {
          forall i | 0 <= i < |s| - 1 ensures !(IsHigh(s[i]) && IsLow(s[i + 1])) {
            assert i > 0 ==> !(IsHigh(rest[i - 1]) && IsLow(rest[i - 1 + 1]));
          }
        }
      }
    }
  }

  /** Joining leaves exactly the texts alone in which no low surrogate follows a high one. */
  lemma {:induction false} JoinFixesIff(s: PyStr)
    ensures Join(s) == s <==> NoPair(s)
  {
    JoinShortens(s);
  }

  /** The two surrogates of U+1F600, and the character itself, are different texts with one escape. */
  lemma {:induction false} SurrogatesCollide()
    ensures [0xD83D, 0xDE00] != [0x1F600] && !NoPair([0xD83D, 0xDE00])
    ensures Escape([0xD83D, 0xDE00]) == Escape([0x1F600])
  {
    var s: PyStr := [0xD83D, 0xDE00];
    assert IsHigh(s[0]) && IsLow(s[0 + 1]);
    JoinPair(0xD83D, 0xDE00, []);
    assert s == [0xD83D, 0xDE00] + [];
    JoinSingle(0x1F600, []);
    assert [0x1F600] == [0x1F600] + [];
    assert Join(s) == [0x1F600] == Join([0x1F600]);
    EscapeIff(s, [0x1F600]);
  }
}
