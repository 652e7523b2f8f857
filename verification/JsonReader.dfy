/** A reader for the JSON texts that `json.dumps` writes (RFC 8259, sections 2 to 7), independent of the writer:
    reading a written text gives the value back, its surrogates joined. */
module JsonReader {
  import opened Wrappers
  import opened JsonStrings
  import opened JsonText

  /** What was read, and the text behind it. */
  datatype Parsed<+T> = Parsed(value: T, rest: string)

  // ---------- texts ----------

  function HexValue(c: char): Option<int> {
    if '0' <= c <= '9' then Some(c as int - '0' as int)
    else if 'a' <= c <= 'f' then Some(c as int - 'a' as int + 10)
    else None
  }

  /** Four hexadecimal digits. */
  function HexUnit(a: char, b: char, c: char, d: char): (r: Option<Code>)
    ensures r.Some? ==> 0 <= r.value < 0x10000
  {
    var w, x, y, z := HexValue(a), HexValue(b), HexValue(c), HexValue(d);
    if w.Some? && x.Some? && y.Some? && z.Some? then Some(((w.value * 16 + x.value) * 16 + y.value) * 16 + z.value) else None
  }

  /** The code unit behind a backslash and this character. */
  function ShortUnit(c: char): Option<Code> {
    match c
    case '"' => Some(0x22)
    case '\\' => Some(0x5C)
    case 'n' => Some(0x0A)
    case 'r' => Some(0x0D)
    case 't' => Some(0x09)
    case 'b' => Some(0x08)
    case 'f' => Some(0x0C)
    case _ => None
  }

  /** One code unit of a text: a plain character, a short escape, or a backslash, u and four digits. */
  function ReadUnit(s: string): (r: Option<Parsed<Code>>)
    requires s != ""
    ensures r.Some? ==> |r.value.rest| < |s|
  {
    if s[0] != '\\' then Some(Parsed(s[0] as int, s[1..]))
    else if |s| >= 6 && s[1] == 'u' then
      var unit := HexUnit(s[2], s[3], s[4], s[5]);
      if unit.Some? then Some(Parsed(unit.value, s[6..])) else None
    else if |s| >= 2 && ShortUnit(s[1]).Some? then Some(Parsed(ShortUnit(s[1]).value, s[2..]))
    else None
  }

  /** The code units up to the closing quote. */
  function ReadUnits(s: string): (r: Option<Parsed<PyStr>>)
    ensures r.Some? ==> |r.value.rest| < |s|
    decreases |s|
  {
    if s == "" then None
    else if s[0] == '"' then Some(Parsed([], s[1..]))
    else
      var unit := ReadUnit(s);
      if unit.None? then None
      else
        var more := ReadUnits(unit.value.rest);
        if more.None? then None else Some(Parsed([unit.value.value] + more.value.value, more.value.rest))
  }

  /** Code units with every surrogate pair decoded. */
  function Decoded(us: PyStr): PyStr {
    if us == [] then []
    else if |us| >= 2 && 0xD800 <= us[0] <= 0xDBFF && 0xDC00 <= us[1] <= 0xDFFF
    then [0x10000 + (us[0] - 0xD800) * 1024 + (us[1] - 0xDC00)] + Decoded(us[2..])
    else [us[0]] + Decoded(us[1..])
  }

  // ---------- atoms ----------

  predicate InAtom(c: char) {
    '0' <= c <= '9' || 'a' <= c <= 'z' || 'A' <= c <= 'Z' || c == '+' || c == '-' || c == '.'
  }

  /** How long the atom at the start of a text is. */
  function AtomLength(s: string): (n: nat)
    ensures n <= |s|
  {
    if s == "" || !InAtom(s[0]) then 0 else 1 + AtomLength(s[1..])
  }

  predicate AllDigits(s: string) {
    s != "" && forall i :: 0 <= i < |s| ==> '0' <= s[i] <= '9'
  }

  /** The number that decimal digits denote. */
  function Decimal(s: string): int {
    if s == "" then 0 else Decimal(s[..|s| - 1]) * 10 + (s[|s| - 1] as int - '0' as int)
  }

  function ReadAtom(a: string): Option<Scalar> {
    if a == "null" then Some(Null)
    else if a == "true" then Some(Boolean(true))
    else if a == "false" then Some(Boolean(false))
    else if a == "NaN" then Some(Number(NotANumber))
    else if a == "Infinity" then Some(Number(Infinite(false)))
    else if a == "-Infinity" then Some(Number(Infinite(true)))
    else if AllDigits(a) then Some(Integer(Decimal(a)))
    else if a != "" && a[0] == '-' && AllDigits(a[1..]) then Some(Integer(-Decimal(a[1..])))
    else if IsRepr(a) then Some(Number(Finite(a)))
    else None
  }

  // ---------- values ----------

  /** What follows a comma or a colon: in the spaced style there is a space in between. */
  function AfterMark(style: Style, s: string): (r: Option<string>)
    ensures r.Some? ==> |r.value| <= |s|
  {
    if style.Compact? then Some(s) else if s != "" && s[0] == ' ' then Some(s[1..]) else None
  }

  function ReadValue(style: Style, s: string): (r: Option<Parsed<Json>>)
    ensures r.Some? ==> |r.value.rest| < |s|
    decreases |s|, 0
  {
    if s == "" then None
    else if s[0] == '"' then
      var text := ReadUnits(s[1..]);
      if text.None? then None else Some(Parsed(Leaf(Str(Decoded(text.value.value))), text.value.rest))
    else if s[0] == '[' then
      if |s| > 1 && s[1] == ']' then Some(Parsed(Array([]), s[2..]))
      else
        var items := ReadItems(style, s[1..]);
        if items.None? then None else Some(Parsed(Array(items.value.value), items.value.rest))
    else if s[0] == '{' then
      if |s| > 1 && s[1] == '}' then Some(Parsed(Object([]), s[2..]))
      else
        var members := ReadMembers(style, s[1..]);
        if members.None? then None else Some(Parsed(Object(members.value.value), members.value.rest))
    else
      var n := AtomLength(s);
      var atom := ReadAtom(s[..n]);
      if n == 0 || atom.None? then None else Some(Parsed(Leaf(atom.value), s[n..]))
  }

  /** The items of an array up to its closing bracket, at least one. */
  function ReadItems(style: Style, s: string): (r: Option<Parsed<seq<Json>>>)
    ensures r.Some? ==> |r.value.rest| < |s|
    decreases |s|, 1
  {
    var item := ReadValue(style, s);
    if item.None? || item.value.rest == "" then None
    else if item.value.rest[0] == ']' then Some(Parsed([item.value.value], item.value.rest[1..]))
    else if item.value.rest[0] != ',' then None
    else
      var next := AfterMark(style, item.value.rest[1..]);
      if next.None? then None
      else
        var more := ReadItems(style, next.value);
        if more.None? then None else Some(Parsed([item.value.value] + more.value.value, more.value.rest))
  }

  /** A key, a colon and a value. */
  function ReadMember(style: Style, s: string): (r: Option<Parsed<Entry>>)
    ensures r.Some? ==> |r.value.rest| < |s|
    decreases |s|, 1
  {
    if s == "" || s[0] != '"' then None
    else
      var name := ReadUnits(s[1..]);
      if name.None? || name.value.rest == "" || name.value.rest[0] != ':' then None
      else
        var next := AfterMark(style, name.value.rest[1..]);
        if next.None? then None
        else
          var value := ReadValue(style, next.value);
          if value.None? then None else Some(Parsed(Entry(Decoded(name.value.value), value.value.value), value.value.rest))
  }

  function ReadMembers(style: Style, s: string): (r: Option<Parsed<seq<Entry>>>)
    ensures r.Some? ==> |r.value.rest| < |s|
    decreases |s|, 2
  {
    var member := ReadMember(style, s);
    if member.None? || member.value.rest == "" then None
    else if member.value.rest[0] == '}' then Some(Parsed([member.value.value], member.value.rest[1..]))
    else if member.value.rest[0] != ',' then None
    else
      var next := AfterMark(style, member.value.rest[1..]);
      if next.None? then None
      else
        var more := ReadMembers(style, next.value);
        if more.None? then None else Some(Parsed([member.value.value] + more.value.value, more.value.rest))
  }

  /** The value of a whole text. */
  function Read(style: Style, text: string): Option<Json> {
    var r := ReadValue(style, text);
    if r.Some? && r.value.rest == "" then Some(r.value.value) else None
  }

  // ---------- texts read back ----------

  lemma {:induction false} HexDigitReads(d: nat)
    requires d < 16
    ensures HexValue(HexDigit(d)) == Some(d)
  {
  }

  lemma {:induction false} HexReads(n: nat)
    requires n < 0x10000
    ensures var h := Hex(n); h[0] == '\\' && h[1] == 'u' && HexUnit(h[2], h[3], h[4], h[5]) == Some(n)
  {
    var a, b, c, d := n / 16 / 16 / 16, n / 16 / 16 % 16, n / 16 % 16, n % 16;
    HexDigitReads(a);
    HexDigitReads(b);
    HexDigitReads(c);
    HexDigitReads(d);
    assert n / 16 / 16 == a * 16 + b && n / 16 == (a * 16 + b) * 16 + c;
  }

  lemma {:induction false} UnitReads(u: Code, x: string)
    requires u < 0x10000
    ensures EscapeCode(u) != "" && EscapeCode(u)[0] != '"'
    ensures ReadUnit(EscapeCode(u) + x) == Some(Parsed(u, x))
  {
    var s := EscapeCode(u) + x;
    EscapeIsNotQuote(u);
    if ShortCode(u).Some? {
      assert s[0] == '\\' && s[1] == ShortCode(u).value && s[2..] == x;
    } else if 0x20 <= u <= 0x7E {
      assert s[0] == u as char && s[1..] == x;
    } else {
      HexReads(u);
      assert forall i :: 0 <= i < 6 ==> s[i] == Hex(u)[i];
      assert s[6..] == x;
    }
  }

  lemma {:induction false} UnitsRead(us: PyStr, x: string)
    requires forall i :: 0 <= i < |us| ==> us[i] < 0x10000
    ensures ReadUnits(Closed(us, x)) == Some(Parsed(us, x))
  {
    ClosedStep(us, x);
    if us == [] {
      NoUnits(Closed(us, x), x);
    } else {
      UnitReads(us[0], Closed(us[1..], x));
      UnitsRead(us[1..], x);
      assert us == [us[0]] + us[1..];
      MoreUnits(Closed(us, x), us[0], Closed(us[1..], x), us[1..], x);
    }
  }

  lemma {:induction false} NoUnits(s: string, x: string)
    requires s != "" && s[0] == '"' && s[1..] == x
    ensures ReadUnits(s) == Some(Parsed([], x))
  {
  }

  lemma {:induction false} MoreUnits(s: string, u: Code, rest: string, us: PyStr, x: string)
    requires s != "" && s[0] != '"' && ReadUnit(s) == Some(Parsed(u, rest)) && ReadUnits(rest) == Some(Parsed(us, x))
    ensures ReadUnits(s) == Some(Parsed([u] + us, x))
  {
  }

  lemma {:induction false} DecodedIsJoin(us: PyStr)
    ensures Decoded(us) == Join(us)
  {
    if |us| >= 2 && IsHigh(us[0]) && IsLow(us[1]) {
      DecodedIsJoin(us[2..]);
    } else if us != [] {
      DecodedIsJoin(us[1..]);
    }
  }

  /** A text between quotes reads back, its surrogates joined. */
  lemma {:induction false} TextReads(s: PyStr, x: string)
    ensures Quote(s) + x == "\"" + Closed(s, x)
    ensures ReadUnits(Closed(s, x)).Some?
    ensures ReadUnits(Closed(s, x)).value.rest == x && Decoded(ReadUnits(Closed(s, x)).value.value) == Join(s)
  {
    EscapeSeesUnits(s);
    UnitsRead(Units(s), x);
    DecodedIsJoin(Units(s));
    JoinOfUnits(s);
    assert Quote(s) + x == "\"" + Closed(s, x);
  }

  // ---------- atoms read back ----------

  lemma {:induction false} DigitsRead(n: nat)
    ensures AllDigits(Digits(n)) && Decimal(Digits(n)) == n
  {
    assert forall i :: 0 <= i < |Digits(n)| ==> Digits(n)[i] in Digits(n);
    if n >= 10 {
      DigitsRead(n / 10);
      var s := Digits(n);
      assert s[..|s| - 1] == Digits(n / 10) && s[|s| - 1] == Digit(n % 10);
    } else {
      assert [Digit(n)][..0] == "";
    }
  }

  lemma {:induction false} IntSpelling(n: int)
    ensures n >= 0 ==> AllDigits(IntText(n)) && Decimal(IntText(n)) == n
    ensures n < 0 ==> IntText(n) != "" && IntText(n)[0] == '-' && AllDigits(IntText(n)[1..]) && Decimal(IntText(n)[1..]) == -n
  {
    if n < 0 {
      DigitsRead(-n);
      assert IntText(n)[1..] == Digits(-n);
    } else {
      DigitsRead(n);
    }
  }

  lemma {:induction false} IntReads(n: int)
    ensures ReadAtom(IntText(n)) == Some(Integer(n))
  {
    IntSpelling(n);
    if n < 0 {
      NegativeReads(IntText(n));
    } else {
      DigitsAreNoWord(IntText(n));
    }
  }

  lemma {:induction false} DigitsAreNoWord(s: string)
    requires AllDigits(s)
    ensures ReadAtom(s) == Some(Integer(Decimal(s)))
  {
    assert '0' <= s[0] <= '9';
    assert "-Infinity"[0] == '-';
  }

  lemma {:induction false} NegativeReads(a: string)
    requires a != "" && a[0] == '-' && AllDigits(a[1..])
    ensures ReadAtom(a) == Some(Integer(-Decimal(a[1..])))
  {
    assert '0' <= a[1..][0] <= '9' && a[1..][0] == a[1];
    assert "-Infinity"[1] == 'I';
  }

  lemma {:induction false} ReprReads(s: Repr)
    ensures ReadAtom(s) == Some(Number(Finite(s)))
  {
    assert s != "" by {
      assert '.' in s || 'e' in s;
    }
    ReprIsNoWord(s);
    ReprIsNoInteger(s);
  }

  lemma {:induction false} ReprIsNoWord(s: Repr)
    ensures s != "null" && s != "true" && s != "false" && s != "NaN" && s != "Infinity" && s != "-Infinity"
  {
    assert "null"[0] in "null" && "true"[0] in "true" && "false"[0] in "false" && "NaN"[0] in "NaN";
    assert "Infinity"[0] in "Infinity" && "-Infinity"[1] in "-Infinity";
  }

  lemma {:induction false} ReprIsNoInteger(s: Repr)
    ensures !AllDigits(s) && (s != "" && s[0] == '-' ==> !AllDigits(s[1..]))
  {
    var c := if '.' in s then '.' else 'e';
    var i :| 0 <= i < |s| && s[i] == c;
    assert i > 0 ==> s[1..][i - 1] == c;
  }

  lemma {:induction false} AtomReads(a: Scalar)
    requires !a.Str?
    ensures ReadAtom(AtomText(a)) == Some(a)
  {
    match a
    case Integer(n) => IntReads(n);
    case Number(Finite(repr)) => ReprReads(repr);
    case _ =>
  }

  lemma {:induction false} AtomEnds(a: string, x: string)
    requires Stops(x) && forall i :: 0 <= i < |a| ==> AtomChar(a[i])
    ensures AtomLength(a + x) == |a|
  {
    if a == "" {
      assert a + x == x;
    } else {
      AtomEnds(a[1..], x);
      assert (a + x)[1..] == a[1..] + x;
    }
  }

  lemma {:induction false} LeafReads(style: Style, a: Scalar, x: string)
    requires Stops(x)
    ensures ReadValue(style, ScalarText(a) + x) == Some(Parsed(Leaf(JoinScalar(a)), x))
  {
    var s := ScalarText(a) + x;
    if a.Str? {
      TextReads(a.s, x);
      assert s[0] == '"' && s[1..] == Closed(a.s, x);
    } else {
      AtomChars(a);
      AtomReads(a);
      AtomEnds(AtomText(a), x);
      assert AtomChar(s[0]);
      assert s[..|AtomText(a)|] == AtomText(a) && s[|AtomText(a)|..] == x;
    }
  }

  // ---------- values read back ----------

  lemma {:induction false} MarkReads(style: Style, s: string)
    ensures (Comma(style) + s)[0] == ',' && AfterMark(style, (Comma(style) + s)[1..]) == Some(s)
    ensures (Colon(style) + s)[0] == ':' && AfterMark(style, (Colon(style) + s)[1..]) == Some(s)
  {
    if style.Compact? {
      assert ("," + s)[1..] == s && (":" + s)[1..] == s;
    } else {
      assert (", " + s)[1..] == " " + s && (": " + s)[1..] == " " + s;
      assert (" " + s)[1..] == s;
    }
  }

  lemma {:induction false} ValueReads(style: Style, j: Json, x: string)
    requires Stops(x)
    ensures ReadValue(style, Dumps(style, j) + x) == Some(Parsed(Joined(j), x))
    decreases j
  {
    match j
    case Leaf(a) =>
      LeafReads(style, a, x);
    case Array(items) =>
      ArrayText(style, items, x);
      ItemsEndStarts(style, items, x);
      assert ("[" + ItemsEnd(style, items, x))[1..] == ItemsEnd(style, items, x);
      if items == [] {
        assert ItemsEnd(style, items, x)[1..] == x;
        assert ("[" + ItemsEnd(style, items, x))[2..] == x;
      } else {
        ItemsRead(style, items, x);
      }
    case Object(es) =>
      ObjectReads(style, es, x);
  }

  lemma {:induction false} ItemsRead(style: Style, items: seq<Json>, x: string)
    requires items != []
    ensures ReadItems(style, ItemsEnd(style, items, x)) == Some(Parsed(JoinedAll(items), x))
    decreases items
  {
    var behind := MoreItems(style, items[1..]) + "]" + x;
    MoreItemsStops(style, items[1..], x);
    ValueReads(style, items[0], behind);
    if items[1..] == [] {
      assert behind == "]" + x && behind[1..] == x;
      assert JoinedAll(items) == [Joined(items[0])] + JoinedAll([]) == [Joined(items[0])];
    } else {
      MoreItemsStep(style, items[1..], x);
      MarkReads(style, ItemsEnd(style, items[1..], x));
      ItemsRead(style, items[1..], x);
    }
  }

  lemma {:induction false} MemberReads(style: Style, e: Entry, x: string)
    requires Stops(x)
    ensures ReadMember(style, MemberText(style, e) + x) == Some(Parsed(JoinedEntry(e), x))
    decreases e
  {
    var behind := Colon(style) + (Dumps(style, e.value) + x);
    Regrouped(Quote(e.name), Colon(style), Dumps(style, e.value), x);
    TextReads(e.name, behind);
    assert ("\"" + Closed(e.name, behind))[1..] == Closed(e.name, behind);
    MarkReads(style, Dumps(style, e.value) + x);
    ValueReads(style, e.value, x);
  }

  lemma {:induction false} ObjectReads(style: Style, es: seq<Entry>, x: string)
    ensures ReadValue(style, Dumps(style, Object(es)) + x) == Some(Parsed(Object(JoinedMembers(es)), x))
    decreases es, 1
  {
    ObjectText(style, es, x);
    var inner := MembersEnd(style, es, x);
    assert ("{" + inner)[1..] == inner;
    if es == [] {
      assert inner[1..] == x;
      assert ("{" + inner)[2..] == x;
    } else {
      MembersRead(style, es, x);
    }
  }

  lemma {:induction false} MembersRead(style: Style, es: seq<Entry>, x: string)
    requires es != []
    ensures ReadMembers(style, MembersEnd(style, es, x)) == Some(Parsed(JoinedMembers(es), x))
    decreases es, 0
  {
    var behind := MoreMembers(style, es[1..]) + "}" + x;
    MoreMembersStops(style, es[1..], x);
    MemberReads(style, es[0], behind);
    if es[1..] == [] {
      assert behind == "}" + x && behind[1..] == x;
      LastMember(style, MembersEnd(style, es, x), JoinedEntry(es[0]), behind, x);
      assert JoinedMembers(es) == [JoinedEntry(es[0])] + JoinedMembers([]) == [JoinedEntry(es[0])];
    } else {
      MoreMembersStep(style, es[1..], x);
      MembersRead(style, es[1..], x);
      MarkReads(style, MembersEnd(style, es[1..], x));
      NextMember(style, MembersEnd(style, es, x), JoinedEntry(es[0]), behind, MembersEnd(style, es[1..], x), JoinedMembers(es[1..]), x);
    }
  }

  lemma {:induction false} LastMember(style: Style, s: string, e: Entry, rest: string, x: string)
    requires ReadMember(style, s) == Some(Parsed(e, rest)) && rest != "" && rest[0] == '}' && rest[1..] == x
    ensures ReadMembers(style, s) == Some(Parsed([e], x))
  {
  }

  lemma {:induction false} NextMember(style: Style, s: string, e: Entry, rest: string, behind: string, es: seq<Entry>, x: string)
    requires ReadMember(style, s) == Some(Parsed(e, rest)) && rest != "" && rest[0] == ','
    requires AfterMark(style, rest[1..]) == Some(behind) && ReadMembers(style, behind) == Some(Parsed(es, x))
    ensures ReadMembers(style, s) == Some(Parsed([e] + es, x))
  {
  }

  /** Reading the text of any value gives the value back, the surrogates in its texts and keys joined. */
  lemma {:induction false} ReadsBack(style: Style, j: Json)
    ensures Read(style, Dumps(style, j)) == Some(Joined(j))
  {
    var text := Dumps(style, j);
    ValueReads(style, j, "");
    assert text + "" == text;
    assert ReadValue(style, text) == Some(Parsed(Joined(j), ""));
  }
}
