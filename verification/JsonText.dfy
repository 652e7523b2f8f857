/** Plain values and the ASCII JSON text that `json.dumps` writes for them, compact or with its default
    separators. The text determines the value up to joining surrogates (RFC 8259, sections 4 to 8). */
module JsonText {
  import opened JsonStrings

  // ---------- values ----------

  /** The text Python's `repr` gives a finite float: it always shows a point or an exponent. */
  predicate IsRepr(s: string) {
    (forall c :: c in s ==> NumberChar(c)) && ('.' in s || 'e' in s)
  }

  predicate NumberChar(c: char) {
    '0' <= c <= '9' || c == '+' || c == '-' || c == '.' || c == 'e'
  }

  type Repr = s: string | IsRepr(s) witness "0.0"

  /** A float, told apart by its shortest round-trip text. */
  datatype Float = NotANumber | Infinite(negative: bool) | Finite(repr: Repr)

  datatype Scalar = Null | Boolean(truth: bool) | Integer(n: int) | Number(f: Float) | Str(s: PyStr)

  /** A plain value. An object stands for a dict with text keys, its entries in key order: neither dict
      equality nor dumping with sorted keys can see the insertion order. */
  datatype Json = Leaf(scalar: Scalar) | Array(items: seq<Json>) | Object(entries: seq<Entry>)

  datatype Entry = Entry(name: PyStr, value: Json)

  // ---------- atoms ----------

  function Digit(d: nat): char
    requires d < 10
  {
    ('0' as int + d) as char
  }

  function Digits(n: nat): (s: string)
    ensures s != "" && forall c :: c in s ==> '0' <= c <= '9'
  {
    if n < 10 then [Digit(n)] else Digits(n / 10) + [Digit(n % 10)]
  }

  function IntText(n: int): string {
    if n < 0 then "-" + Digits(-n) else Digits(n)
  }

  function FloatText(f: Float): string {
    match f
    case NotANumber => "NaN"
    case Infinite(negative) => if negative then "-Infinity" else "Infinity"
    case Finite(repr) => repr
  }

  function AtomText(a: Scalar): string
    requires !a.Str?
  {
    match a
    case Null => "null"
    case Boolean(b) => if b then "true" else "false"
    case Integer(n) => IntText(n)
    case Number(f) => FloatText(f)
  }

  lemma {:induction false} DigitsInjective(m: nat, n: nat)
    requires Digits(m) == Digits(n)
    ensures m == n
  {
    DigitsLength(m);
    DigitsLength(n);
    if m >= 10 {
      var s, t := Digits(m), Digits(n);
      assert s[|s| - 1] == Digit(m % 10) && t[|t| - 1] == Digit(n % 10);
      assert s[..|s| - 1] == Digits(m / 10) && t[..|t| - 1] == Digits(n / 10);
      DigitsInjective(m / 10, n / 10);
    }
  }

  lemma {:induction false} DigitsLength(n: nat)
    ensures if n < 10 then |Digits(n)| == 1 else |Digits(n)| >= 2
  {
  }

  lemma {:induction false} IntTextInjective(m: int, n: int)
    requires IntText(m) == IntText(n)
    ensures m == n
  {
    assert m >= 0 ==> IntText(m)[0] in Digits(m);
    assert n >= 0 ==> IntText(n)[0] in Digits(n);
    if m < 0 && n < 0 {
      assert IntText(m)[1..] == Digits(-m) && IntText(n)[1..] == Digits(-n);
      DigitsInjective(-m, -n);
    } else if m >= 0 && n >= 0 {
      DigitsInjective(m, n);
    }
  }

  /** Which kind of atom a text spells. */
  datatype Spelling = Word(c: char) | Whole | Fractional

  predicate WholeChar(c: char) {
    '0' <= c <= '9' || c == '-'
  }

  predicate SpelledAs(s: string, k: Spelling) {
    match k
    case Word(c) => s != "" && (s[0] == c || (s[0] == '-' && |s| > 1 && s[1] == c))
    case Whole => s != "" && forall c :: c in s ==> WholeChar(c)
    case Fractional => IsRepr(s)
  }

  function SpellingOf(a: Scalar): Spelling
    requires !a.Str?
  {
    match a
    case Null => Word('n')
    case Boolean(b) => Word(if b then 't' else 'f')
    case Integer(_) => Whole
    case Number(NotANumber) => Word('N')
    case Number(Infinite(_)) => Word('I')
    case Number(Finite(_)) => Fractional
  }

  lemma {:induction false} AtomSpelling(a: Scalar)
    requires !a.Str?
    ensures SpelledAs(AtomText(a), SpellingOf(a))
  {
    if a.Integer? {
      assert forall c :: c in IntText(a.n) ==> c in "-" || c in Digits(if a.n < 0 then -a.n else a.n);
    }
  }

  predicate WordLetter(c: char) {
    c == 'n' || c == 't' || c == 'f' || c == 'N' || c == 'I'
  }

  lemma {:induction false} SpellingsDiffer(s: string, k: Spelling, l: Spelling)
    requires SpelledAs(s, k) && SpelledAs(s, l)
    requires k.Word? ==> WordLetter(k.c)
    requires l.Word? ==> WordLetter(l.c)
    ensures k == l
  {
    assert s != "" ==> s[0] in s;
    assert |s| > 1 ==> s[1] in s;
  }

  lemma {:induction false} AtomTextInjective(a: Scalar, b: Scalar)
    requires !a.Str? && !b.Str? && AtomText(a) == AtomText(b)
    ensures a == b
  {
    AtomSpelling(a);
    AtomSpelling(b);
    SpellingsDiffer(AtomText(a), SpellingOf(a), SpellingOf(b));
    if a.Integer? {
      IntTextInjective(a.n, b.n);
    } else if a.Number? && a.f.Infinite? {
      assert AtomText(a)[0] == (if a.f.negative then '-' else 'I');
      assert AtomText(b)[0] == (if b.f.negative then '-' else 'I');
    }
  }

  predicate AtomChar(c: char) {
    NumberChar(c) || 'a' <= c <= 'z' || 'A' <= c <= 'Z'
  }

  lemma {:induction false} AtomChars(a: Scalar)
    requires !a.Str?
    ensures AtomText(a) != "" && forall i :: 0 <= i < |AtomText(a)| ==> AtomChar(AtomText(a)[i])
  {
    AtomSpelling(a);
    assert forall i :: 0 <= i < |AtomText(a)| ==> AtomText(a)[i] in AtomText(a);
  }

  // ---------- the text of a value ----------

  /** `separators=(",", ":")`, or the default ones. */
  datatype Style = Compact | Spaced

  function Comma(style: Style): string {
    if style.Compact? then "," else ", "
  }

  function Colon(style: Style): string {
    if style.Compact? then ":" else ": "
  }

  function ScalarText(a: Scalar): string {
    if a.Str? then Quote(a.s) else AtomText(a)
  }

  function Dumps(style: Style, j: Json): string
    decreases j
  {
    match j
    case Leaf(a) => ScalarText(a)
    case Array(items) => "[" + (if items == [] then "" else Dumps(style, items[0]) + MoreItems(style, items[1..])) + "]"
    case Object(es) => "{" + (if es == [] then "" else MemberText(style, es[0]) + MoreMembers(style, es[1..])) + "}"
  }

  function MoreItems(style: Style, items: seq<Json>): string
    decreases items
  {
    if items == [] then "" else Comma(style) + Dumps(style, items[0]) + MoreItems(style, items[1..])
  }

  function MemberText(style: Style, e: Entry): string
    decreases e
  {
    Quote(e.name) + Colon(style) + Dumps(style, e.value)
  }

  function MoreMembers(style: Style, es: seq<Entry>): string
    decreases es
  {
    if es == [] then "" else Comma(style) + MemberText(style, es[0]) + MoreMembers(style, es[1..])
  }

  /** The compact text that is hashed. */
  function Text(j: Json): string {
    Dumps(Compact, j)
  }

  // ---------- joining surrogates in a value ----------

  function JoinScalar(a: Scalar): Scalar {
    if a.Str? then Str(Join(a.s)) else a
  }

  /** The value with surrogates joined in every text and key. */
  function Joined(j: Json): Json
    decreases j
  {
    match j
    case Leaf(a) => Leaf(JoinScalar(a))
    case Array(items) => Array(JoinedAll(items))
    case Object(es) => Object(JoinedMembers(es))
  }

  function JoinedAll(items: seq<Json>): seq<Json>
    decreases items
  {
    if items == [] then [] else [Joined(items[0])] + JoinedAll(items[1..])
  }

  function JoinedEntry(e: Entry): Entry
    decreases e
  {
    Entry(Join(e.name), Joined(e.value))
  }

  function JoinedMembers(es: seq<Entry>): seq<Entry>
    decreases es
  {
    if es == [] then [] else [JoinedEntry(es[0])] + JoinedMembers(es[1..])
  }

  // ---------- the text determines the joined value ----------

  /** The text of a value can only be followed by something that is not part of an atom. */
  predicate Stops(x: string) {
    x == "" || !AtomChar(x[0])
  }

  predicate Opens(j: Json, c: char) {
    match j
    case Array(_) => c == '['
    case Object(_) => c == '{'
    case Leaf(a) => if a.Str? then c == '"' else AtomChar(c)
  }

  lemma {:induction false} FirstChar(style: Style, j: Json, x: string)
    ensures Dumps(style, j) + x != "" && Opens(j, (Dumps(style, j) + x)[0])
  {
    if j.Leaf? && !j.scalar.Str? {
      AtomChars(j.scalar);
    }
  }

  lemma {:induction false} AtomGoesOn(a: string, b: string, x: string, y: string)
    requires a + x == b + y && |a| < |b|
    requires forall i :: 0 <= i < |b| ==> AtomChar(b[i])
    ensures !Stops(x)
  {
    assert (b + y)[|a|] == b[|a|];
    assert x == (a + x)[|a|..];
  }

  lemma {:induction false} AtomCut(a: string, b: string, x: string, y: string)
    requires a + x == b + y && Stops(x) && Stops(y)
    requires forall i :: 0 <= i < |a| ==> AtomChar(a[i])
    requires forall i :: 0 <= i < |b| ==> AtomChar(b[i])
    ensures a == b && x == y
  {
    if |a| < |b| {
      AtomGoesOn(a, b, x, y);
    } else if |b| < |a| {
      AtomGoesOn(b, a, y, x);
    } else {
      EqualPrefixes(a, b, x, y);
    }
  }

  lemma {:induction false} LeafCut(a: Scalar, b: Scalar, x: string, y: string)
    requires ScalarText(a) + x == ScalarText(b) + y && a.Str? == b.Str? && Stops(x) && Stops(y)
    ensures JoinScalar(a) == JoinScalar(b) && x == y
  {
    if a.Str? {
      QuotedCut(a.s, b.s, x, y);
    } else {
      AtomChars(a);
      AtomChars(b);
      AtomCut(AtomText(a), AtomText(b), x, y);
      AtomTextInjective(a, b);
    }
  }

  /** A value's text ends at the value's own end, and is recognised up to joining surrogates. */
  lemma {:induction false} TextCut(style: Style, a: Json, b: Json, x: string, y: string)
    requires Dumps(style, a) + x == Dumps(style, b) + y && Stops(x) && Stops(y)
    ensures Joined(a) == Joined(b) && x == y
    decreases a
  {
    FirstChar(style, a, x);
    FirstChar(style, b, y);
    match a
    case Leaf(s) =>
      LeafCut(s, b.scalar, x, y);
    case Array(items) =>
      ArrayCut(style, items, b.items, x, y);
    case Object(es) =>
      ObjectCut(style, es, b.entries, x, y);
  }

  lemma {:induction false} Drop(c: string, x: string, y: string)
    requires c + x == c + y
    ensures x == y
  {
    EqualPrefixes(c, c, x, y);
  }

  lemma {:induction false} ArrayCut(style: Style, xs: seq<Json>, ys: seq<Json>, x: string, y: string)
    requires Dumps(style, Array(xs)) + x == Dumps(style, Array(ys)) + y
    ensures JoinedAll(xs) == JoinedAll(ys) && x == y
    decreases xs
  {
    ArrayText(style, xs, x);
    ArrayText(style, ys, y);
    Drop("[", ItemsEnd(style, xs, x), ItemsEnd(style, ys, y));
    ItemsEndStarts(style, xs, x);
    ItemsEndStarts(style, ys, y);
    if xs == [] {
      Drop("]", x, y);
    } else {
      MoreItemsStops(style, xs[1..], x);
      MoreItemsStops(style, ys[1..], y);
      TextCut(style, xs[0], ys[0], MoreItems(style, xs[1..]) + "]" + x, MoreItems(style, ys[1..]) + "]" + y);
      MoreItemsCut(style, xs[1..], ys[1..], x, y);
    }
  }

  /** The items of an array, its closing bracket and what follows. */
  function ItemsEnd(style: Style, items: seq<Json>, x: string): string {
    if items == [] then "]" + x else Dumps(style, items[0]) + (MoreItems(style, items[1..]) + "]" + x)
  }

  lemma {:induction false} ArrayText(style: Style, items: seq<Json>, x: string)
    ensures Dumps(style, Array(items)) + x == "[" + ItemsEnd(style, items, x)
  {
  }

  lemma {:induction false} ItemsEndStarts(style: Style, items: seq<Json>, x: string)
    ensures ItemsEnd(style, items, x) != "" && (items == [] <==> ItemsEnd(style, items, x)[0] == ']')
  {
    if items != [] {
      FirstChar(style, items[0], MoreItems(style, items[1..]) + "]" + x);
    }
  }

  lemma {:induction false} MoreItemsStops(style: Style, items: seq<Json>, x: string)
    ensures Stops(MoreItems(style, items) + "]" + x)
    ensures (MoreItems(style, items) + "]" + x)[0] == if items == [] then ']' else ','
    ensures items == [] ==> MoreItems(style, items) + "]" + x == "]" + x
  {
  }

  lemma {:induction false} Regrouped(a: string, b: string, c: string, x: string)
    ensures a + b + c + x == a + (b + (c + x))
  {
  }

  lemma {:induction false} MoreItemsStep(style: Style, items: seq<Json>, x: string)
    requires items != []
    ensures MoreItems(style, items) + "]" + x == Comma(style) + (Dumps(style, items[0]) + (MoreItems(style, items[1..]) + "]" + x))
  {
    Regrouped(Comma(style), Dumps(style, items[0]), MoreItems(style, items[1..]), "]" + x);
    assert MoreItems(style, items) + "]" + x == MoreItems(style, items) + ("]" + x);
    assert MoreItems(style, items[1..]) + "]" + x == MoreItems(style, items[1..]) + ("]" + x);
  }

  lemma {:induction false} MoreItemsCut(style: Style, xs: seq<Json>, ys: seq<Json>, x: string, y: string)
    requires MoreItems(style, xs) + "]" + x == MoreItems(style, ys) + "]" + y
    ensures JoinedAll(xs) == JoinedAll(ys) && x == y
    decreases xs
  {
    MoreItemsStops(style, xs, x);
    MoreItemsStops(style, ys, y);
    if xs == [] {
      Drop("]", x, y);
    } else {
      var restX, restY := MoreItems(style, xs[1..]) + "]" + x, MoreItems(style, ys[1..]) + "]" + y;
      MoreItemsStep(style, xs, x);
      MoreItemsStep(style, ys, y);
      Drop(Comma(style), Dumps(style, xs[0]) + restX, Dumps(style, ys[0]) + restY);
      MoreItemsStops(style, xs[1..], x);
      MoreItemsStops(style, ys[1..], y);
      TextCut(style, xs[0], ys[0], restX, restY);
      MoreItemsCut(style, xs[1..], ys[1..], x, y);
    }
  }

  lemma {:induction false} MemberCut(style: Style, e: Entry, f: Entry, x: string, y: string)
    requires MemberText(style, e) + x == MemberText(style, f) + y && Stops(x) && Stops(y)
    ensures JoinedEntry(e) == JoinedEntry(f) && x == y
    decreases e
  {
    Regrouped(Quote(e.name), Colon(style), Dumps(style, e.value), x);
    Regrouped(Quote(f.name), Colon(style), Dumps(style, f.value), y);
    QuotedCut(e.name, f.name, Colon(style) + (Dumps(style, e.value) + x), Colon(style) + (Dumps(style, f.value) + y));
    Drop(Colon(style), Dumps(style, e.value) + x, Dumps(style, f.value) + y);
    TextCut(style, e.value, f.value, x, y);
  }

  function MembersEnd(style: Style, es: seq<Entry>, x: string): string {
    if es == [] then "}" + x else MemberText(style, es[0]) + (MoreMembers(style, es[1..]) + "}" + x)
  }

  lemma {:induction false} ObjectText(style: Style, es: seq<Entry>, x: string)
    ensures Dumps(style, Object(es)) + x == "{" + MembersEnd(style, es, x)
    ensures MembersEnd(style, es, x) != "" && (es == [] <==> MembersEnd(style, es, x)[0] == '}')
  {
  }

  lemma {:induction false} MoreMembersStops(style: Style, es: seq<Entry>, x: string)
    ensures Stops(MoreMembers(style, es) + "}" + x)
    ensures (MoreMembers(style, es) + "}" + x)[0] == if es == [] then '}' else ','
    ensures es == [] ==> MoreMembers(style, es) + "}" + x == "}" + x
  {
  }

  lemma {:induction false} MoreMembersStep(style: Style, es: seq<Entry>, x: string)
    requires es != []
    ensures MoreMembers(style, es) + "}" + x == Comma(style) + (MemberText(style, es[0]) + (MoreMembers(style, es[1..]) + "}" + x))
  {
    Regrouped(Comma(style), MemberText(style, es[0]), MoreMembers(style, es[1..]), "}" + x);
    assert MoreMembers(style, es) + "}" + x == MoreMembers(style, es) + ("}" + x);
    assert MoreMembers(style, es[1..]) + "}" + x == MoreMembers(style, es[1..]) + ("}" + x);
  }

  lemma {:induction false} ObjectCut(style: Style, es: seq<Entry>, fs: seq<Entry>, x: string, y: string)
    requires Dumps(style, Object(es)) + x == Dumps(style, Object(fs)) + y
    ensures JoinedMembers(es) == JoinedMembers(fs) && x == y
    decreases es
  {
    ObjectText(style, es, x);
    ObjectText(style, fs, y);
    Drop("{", MembersEnd(style, es, x), MembersEnd(style, fs, y));
    if es == [] {
      Drop("}", x, y);
    } else {
      MoreMembersStops(style, es[1..], x);
      MoreMembersStops(style, fs[1..], y);
      MemberCut(style, es[0], fs[0], MoreMembers(style, es[1..]) + "}" + x, MoreMembers(style, fs[1..]) + "}" + y);
      MoreMembersCut(style, es[1..], fs[1..], x, y);
    }
  }

  lemma {:induction false} MoreMembersCut(style: Style, es: seq<Entry>, fs: seq<Entry>, x: string, y: string)
    requires MoreMembers(style, es) + "}" + x == MoreMembers(style, fs) + "}" + y
    ensures JoinedMembers(es) == JoinedMembers(fs) && x == y
    decreases es
  {
    MoreMembersStops(style, es, x);
    MoreMembersStops(style, fs, y);
    if es == [] {
      Drop("}", x, y);
    } else {
      var restX, restY := MoreMembers(style, es[1..]) + "}" + x, MoreMembers(style, fs[1..]) + "}" + y;
      MoreMembersStep(style, es, x);
      MoreMembersStep(style, fs, y);
      Drop(Comma(style), MemberText(style, es[0]) + restX, MemberText(style, fs[0]) + restY);
      MoreMembersStops(style, es[1..], x);
      MoreMembersStops(style, fs[1..], y);
      MemberCut(style, es[0], fs[0], restX, restY);
      MoreMembersCut(style, es[1..], fs[1..], x, y);
    }
  }

  // ---------- and the joined value determines the text ----------

  lemma {:induction false} TextOfJoined(style: Style, j: Json)
    ensures Dumps(style, Joined(j)) == Dumps(style, j)
    decreases j
  {
    match j
    case Leaf(a) =>
      if a.Str? {
        EscapeOfJoin(a.s);
      }
    case Array(items) =>
      if items != [] {
        TextOfJoined(style, items[0]);
        ItemsOfJoined(style, items[1..]);
        assert JoinedAll(items)[1..] == JoinedAll(items[1..]);
      }
    case Object(es) =>
      if es != [] {
        MemberOfJoined(style, es[0]);
        MembersOfJoined(style, es[1..]);
        assert JoinedMembers(es)[1..] == JoinedMembers(es[1..]);
      }
  }

  lemma {:induction false} ItemsOfJoined(style: Style, items: seq<Json>)
    ensures MoreItems(style, JoinedAll(items)) == MoreItems(style, items)
    decreases items
  {
    if items != [] {
      TextOfJoined(style, items[0]);
      ItemsOfJoined(style, items[1..]);
      assert JoinedAll(items)[1..] == JoinedAll(items[1..]);
    }
  }

  lemma {:induction false} MemberOfJoined(style: Style, e: Entry)
    ensures MemberText(style, JoinedEntry(e)) == MemberText(style, e)
    decreases e
  {
    EscapeOfJoin(e.name);
    TextOfJoined(style, e.value);
  }

  lemma {:induction false} MembersOfJoined(style: Style, es: seq<Entry>)
    ensures MoreMembers(style, JoinedMembers(es)) == MoreMembers(style, es)
    decreases es
  {
    if es != [] {
      MemberOfJoined(style, es[0]);
      MembersOfJoined(style, es[1..]);
      assert JoinedMembers(es)[1..] == JoinedMembers(es[1..]);
    }
  }

  /** Two values have the same text iff they are equal after joining surrogates in all their texts and keys. */
  lemma {:induction false} TextIff(style: Style, a: Json, b: Json)
    ensures Dumps(style, a) == Dumps(style, b) <==> Joined(a) == Joined(b)
  {
    TextOfJoined(style, a);
    TextOfJoined(style, b);
    if Dumps(style, a) == Dumps(style, b) {
      assert Dumps(style, a) + "" == Dumps(style, b) + "";
      TextCut(style, a, b, "", "");
    }
  }

  // ---------- values without joinable surrogates ----------

  /** No text and no key holds a high surrogate followed by a low one. */
  ghost predicate NoPairs(j: Json) {
    match j
    case Leaf(a) => a.Str? ==> NoPair(a.s)
    case Array(items) => forall i | 0 <= i < |items| :: NoPairs(items[i])
    case Object(es) => forall i | 0 <= i < |es| :: NoPair(es[i].name) && NoPairs(es[i].value)
  }

  lemma {:induction false} JoinedWithoutPairs(j: Json)
    requires NoPairs(j)
    ensures Joined(j) == j
    decreases j
  {
    match j
    case Leaf(a) =>
      if a.Str? {
        JoinFixesIff(a.s);
      }
    case Array(items) =>
      ItemsWithoutPairs(items);
    case Object(es) =>
      MembersWithoutPairs(es);
  }

  lemma {:induction false} ItemsWithoutPairs(items: seq<Json>)
    requires forall i | 0 <= i < |items| :: NoPairs(items[i])
    ensures JoinedAll(items) == items
    decreases items
  {
    if items != [] {
      JoinedWithoutPairs(items[0]);
      ItemsWithoutPairs(items[1..]);
      assert items == [items[0]] + items[1..];
    }
  }

  lemma {:induction false} MembersWithoutPairs(es: seq<Entry>)
    requires forall i | 0 <= i < |es| :: NoPair(es[i].name) && NoPairs(es[i].value)
    ensures JoinedMembers(es) == es
    decreases es
  {
    if es != [] {
      JoinFixesIff(es[0].name);
      JoinedWithoutPairs(es[0].value);
      MembersWithoutPairs(es[1..]);
      assert es == [es[0]] + es[1..];
    }
  }

  /** Different values without joinable surrogates have different texts. */
  lemma {:induction false} TextInjective(style: Style, a: Json, b: Json)
    requires NoPairs(a) && NoPairs(b) && Dumps(style, a) == Dumps(style, b)
    ensures a == b
  {
    TextIff(style, a, b);
    JoinedWithoutPairs(a);
    JoinedWithoutPairs(b);
  }

  /** Without that condition it fails: the two surrogates of U+1F600 have the text of the character. */
  lemma {:induction false} TextsCollide(style: Style)
    ensures Leaf(Str([0xD83D, 0xDE00])) != Leaf(Str([0x1F600]))
    ensures Dumps(style, Leaf(Str([0xD83D, 0xDE00]))) == Dumps(style, Leaf(Str([0x1F600])))
  {
    SurrogatesCollide();
  }

  // ---------- the text fits on one line ----------

  /** Nothing but printable ASCII: in particular no line feed. */
  ghost predicate Printable(s: string) {
    forall i | 0 <= i < |s| :: ' ' <= s[i] <= '~'
  }

  lemma {:induction false} PrintableAppend(a: string, b: string)
    requires Printable(a) && Printable(b)
    ensures Printable(a + b)
  {
  }

  lemma {:induction false} HexPrintable(n: nat)
    requires n < 0x10000
    ensures Printable(Hex(n))
  {
  }

  lemma {:induction false} CodePrintable(c: Code)
    ensures Printable(EscapeCode(c))
  {
    if c < 0x10000 {
      HexPrintable(c);
    } else {
      HexPrintable(HighOf(c));
      HexPrintable(LowOf(c));
      PrintableAppend(Hex(HighOf(c)), Hex(LowOf(c)));
    }
  }

  lemma {:induction false} EscapePrintable(s: PyStr)
    ensures Printable(Escape(s))
  {
    if s != [] {
      EscapePrintable(s[1..]);
      CodePrintable(s[0]);
      PrintableAppend(EscapeCode(s[0]), Escape(s[1..]));
    }
  }

  lemma {:induction false} QuotePrintable(s: PyStr)
    ensures Printable(Quote(s))
  {
    EscapePrintable(s);
    PrintableAppend("\"", Escape(s));
    PrintableAppend("\"" + Escape(s), "\"");
  }

  lemma {:induction false} ScalarPrintable(a: Scalar)
    ensures Printable(ScalarText(a)) && ScalarText(a) != ""
  {
    if a.Str? {
      QuotePrintable(a.s);
    } else {
      AtomChars(a);
    }
  }

  lemma {:induction false} Enclosed(open: string, a: string, close: string)
    requires Printable(open) && Printable(a) && Printable(close)
    ensures Printable(open + a + close)
  {
    PrintableAppend(open, a);
    PrintableAppend(open + a, close);
  }

  /** The text of any value is a non-empty line of printable ASCII. */
  lemma {:induction false} DumpsPrintable(style: Style, j: Json)
    ensures Printable(Dumps(style, j)) && Dumps(style, j) != ""
    decreases j
  {
    match j
    case Leaf(a) =>
      ScalarPrintable(a);
    case Array(items) =>
      if items == [] {
        Enclosed("[", "", "]");
      } else {
        DumpsPrintable(style, items[0]);
        ItemsPrintable(style, items[1..]);
        PrintableAppend(Dumps(style, items[0]), MoreItems(style, items[1..]));
        Enclosed("[", Dumps(style, items[0]) + MoreItems(style, items[1..]), "]");
      }
    case Object(es) =>
      if es == [] {
        Enclosed("{", "", "}");
      } else {
        MemberPrintable(style, es[0]);
        MembersPrintable(style, es[1..]);
        PrintableAppend(MemberText(style, es[0]), MoreMembers(style, es[1..]));
        Enclosed("{", MemberText(style, es[0]) + MoreMembers(style, es[1..]), "}");
      }
  }

  lemma {:induction false} ItemsPrintable(style: Style, items: seq<Json>)
    ensures Printable(MoreItems(style, items))
    decreases items
  {
    if items != [] {
      DumpsPrintable(style, items[0]);
      ItemsPrintable(style, items[1..]);
      Enclosed(Comma(style), Dumps(style, items[0]), MoreItems(style, items[1..]));
    }
  }

  lemma {:induction false} MemberPrintable(style: Style, e: Entry)
    ensures Printable(MemberText(style, e))
    decreases e
  {
    QuotePrintable(e.name);
    DumpsPrintable(style, e.value);
    Enclosed(Quote(e.name), Colon(style), Dumps(style, e.value));
  }

  lemma {:induction false} MembersPrintable(style: Style, es: seq<Entry>)
    ensures Printable(MoreMembers(style, es))
    decreases es
  {
    if es != [] {
      MemberPrintable(style, es[0]);
      MembersPrintable(style, es[1..]);
      Enclosed(Comma(style), MemberText(style, es[0]), MoreMembers(style, es[1..]));
    }
  }
}
