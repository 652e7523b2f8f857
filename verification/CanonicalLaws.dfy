/** Laws of the canonical text: what it identifies, and its independence of iteration order. */
module CanonicalLaws {
  import opened Wrappers
  import opened Sequences
  import opened JsonStrings
  import opened JsonText
  import opened JsonObjects
  import opened Canonical
  import JsonReader
  import L = Lexicographic
  import T = Text

  // ---------- the text as an identity ----------

  /** Two values are given the same canonical text iff their forms are equal after joining surrogates; for
      forms without joinable surrogates, iff the forms are equal. */
  lemma {:induction false} CanonicalTextIdentifiesForm(v: Value, w: Value)
    requires CanonicalJson(v).Ok? && CanonicalJson(w).Ok?
    ensures Acceptable(v) && Acceptable(w)
    ensures CanonicalJson(v) == CanonicalJson(w) <==> Joined(Form(v)) == Joined(Form(w))
    ensures NoPairs(Form(v)) && NoPairs(Form(w)) ==> (CanonicalJson(v) == CanonicalJson(w) <==> Form(v) == Form(w))
  {
    CanonIsForm(v);
    CanonIsForm(w);
    TextIff(Compact, Form(v), Form(w));
    if NoPairs(Form(v)) && NoPairs(Form(w)) {
      JoinedWithoutPairs(Form(v));
      JoinedWithoutPairs(Form(w));
    }
  }

  /** A reader written on its own reads the canonical form back from the text that is hashed. */
  lemma {:induction false} CanonicalReadsBack(v: Value)
    requires CanonicalJson(v).Ok?
    ensures Acceptable(v) && JsonReader.Read(Compact, CanonicalJson(v).value) == Some(Joined(Form(v)))
  {
    CanonIsForm(v);
    JsonReader.ReadsBack(Compact, Form(v));
  }

  /** Without the condition different forms share a text: a text spelled with the two surrogates of U+1F600
      is hashed like the character itself, whatever the hash. */
  lemma {:induction false} CanonicalTextsCollide(v: Value, w: Value)
    requires v == Plain(Str([0xD83D, 0xDE00])) && w == Plain(Str([0x1F600]))
    ensures Acceptable(v) && Acceptable(w) && Form(v) != Form(w)
    ensures CanonicalJson(v).Ok? && CanonicalJson(v) == CanonicalJson(w)
  {
    TextsCollide(Compact);
    CanonOfStr([0xD83D, 0xDE00]);
    CanonOfStr([0x1F600]);
  }

  lemma {:induction false} CanonOfStr(s: PyStr)
    ensures Form(Plain(Str(s))) == Leaf(Str(s)) && CanonicalJson(Plain(Str(s))) == Ok(Text(Leaf(Str(s))))
  {
  }

  // ---------- iteration order ----------

  /** The canonical text, extended to values that have none. */
  function TextOr(v: Value): string {
    if Acceptable(v) then Text(Form(v)) else ""
  }

  /** Accepted alike, with one canonical text. */
  ghost predicate SameText(v: Value, w: Value) {
    TextOr(v) == TextOr(w) && Acceptable(v) == Acceptable(w)
  }

  /** Keys of one mapping that share their `str()` have values with one canonical text. */
  ghost predicate KeysAgree(v: Value) {
    match v
    case Record(fs) => forall i | 0 <= i < |fs| :: KeysAgree(fs[i].value)
    case Mapping(_, fs) => NoConflict(fs) && forall i | 0 <= i < |fs| :: KeysAgree(fs[i].value)
    case Collection(vs) => forall i | 0 <= i < |vs| :: KeysAgree(vs[i])
    case Sequence(vs) => forall i | 0 <= i < |vs| :: KeysAgree(vs[i])
    case _ => true
  }

  ghost predicate NoConflict(fs: seq<Field>) {
    forall i, j | 0 <= i < |fs| && 0 <= j < |fs| && fs[i].name == fs[j].name :: TextOr(fs[i].value) == TextOr(fs[j].value)
  }

  ghost predicate Rearranges<X>(xs: seq<X>, ys: seq<X>) {
    multiset(xs) == multiset(ys)
  }

  /** Equal up to the iteration order of mappings and sets, at every depth: a rearrangement of the one
      matches the other element by element. */
  ghost predicate Same(v: Value, w: Value)
    decreases v
  {
    match v
    case Record(fs) =>
      && w.Record? && |fs| == |w.fields|
      && (forall i | 0 <= i < |fs| :: fs[i].name == w.fields[i].name && Same(fs[i].value, w.fields[i].value))
    case Sequence(vs) =>
      && w.Sequence? && |vs| == |w.elements|
      && (forall i | 0 <= i < |vs| :: Same(vs[i], w.elements[i]))
    case Mapping(kind, fs) =>
      && w.Mapping? && w.kind == kind
      && (exists gs: seq<Field> ::
            && Rearranges(gs, fs) && |gs| == |w.pairs|
            && (forall i | 0 <= i < |gs| && gs[i] in fs :: gs[i].name == w.pairs[i].name && Same(gs[i].value, w.pairs[i].value)))
    case Collection(vs) =>
      && w.Collection?
      && (exists us: seq<Value> ::
            && Rearranges(us, vs) && |us| == |w.elements|
            && (forall i | 0 <= i < |us| && us[i] in vs :: Same(us[i], w.elements[i])))
    case _ => v == w
  }

  // ---------- rearrangements ----------

  ghost predicate IsImage<X(!new), Y(!new)>(f: X -> Y, xs: seq<X>, ys: seq<Y>) {
    |xs| == |ys| && forall i | 0 <= i < |xs| :: ys[i] == f(xs[i])
  }

  function Without<X>(xs: seq<X>, j: nat): (r: seq<X>)
    requires j < |xs|
    ensures multiset(r) == multiset(xs) - multiset{xs[j]}
    ensures multiset(xs) == multiset(r) + multiset{xs[j]}
  {
    assert xs == xs[..j] + [xs[j]] + xs[j + 1..];
    xs[..j] + xs[j + 1..]
  }

  lemma {:induction false} ImageWithout<X(!new), Y(!new)>(f: X -> Y, xs: seq<X>, ys: seq<Y>, j: nat)
    requires IsImage(f, xs, ys) && j < |xs|
    ensures IsImage(f, Without(xs, j), Without(ys, j)) && ys[j] == f(xs[j])
  {
  }

  lemma {:induction false} RearrangedImage<X(!new), Y(!new)>(f: X -> Y, xs: seq<X>, ys: seq<X>, us: seq<Y>, vs: seq<Y>)
    requires Rearranges(xs, ys) && IsImage(f, xs, us) && IsImage(f, ys, vs)
    ensures Rearranges(us, vs)
    decreases |xs|
  {
    assert |multiset(xs)| == |xs| && |multiset(ys)| == |ys|;
    if xs != [] {
      assert xs[0] in multiset(ys);
      var j :| 0 <= j < |ys| && ys[j] == xs[0];
      ImageWithout(f, xs, us, 0);
      ImageWithout(f, ys, vs, j);
      RearrangedImage(f, Without(xs, 0), Without(ys, j), Without(us, 0), Without(vs, j));
    }
  }

  ghost predicate All<X(!new)>(p: X -> bool, xs: seq<X>) {
    forall i | 0 <= i < |xs| :: p(xs[i])
  }

  lemma {:induction false} RearrangedAll<X(!new)>(p: X -> bool, xs: seq<X>, ys: seq<X>)
    requires Rearranges(xs, ys) && All(p, ys)
    ensures All(p, xs)
  {
    SameElements(xs, ys);
    forall i | 0 <= i < |xs| ensures p(xs[i]) {
      assert xs[i] in ys;
    }
  }

  // ---------- values alike in text ----------

  function Texts(js: seq<Json>): (ts: seq<string>)
    ensures |ts| == |js| && forall i :: 0 <= i < |js| ==> ts[i] == Text(js[i])
  {
    seq(|js|, i requires 0 <= i < |js| => Text(js[i]))
  }

  ghost predicate Alike(c: seq<Entry>, d: seq<Entry>) {
    |c| == |d| && forall i | 0 <= i < |c| :: c[i].name == d[i].name && Text(c[i].value) == Text(d[i].value)
  }

  lemma {:induction false} MoreItemsAlike(xs: seq<Json>, ys: seq<Json>)
    requires |xs| == |ys| && forall i :: 0 <= i < |xs| ==> Text(xs[i]) == Text(ys[i])
    ensures MoreItems(Compact, xs) == MoreItems(Compact, ys)
  {
    if xs != [] {
      assert Text(xs[0]) == Text(ys[0]);
      forall i | 0 <= i < |xs| - 1 ensures Text(xs[1..][i]) == Text(ys[1..][i]) {
        assert Text(xs[i + 1]) == Text(ys[i + 1]);
      }
      MoreItemsAlike(xs[1..], ys[1..]);
    }
  }

  lemma {:induction false} ArraysAlike(xs: seq<Json>, ys: seq<Json>)
    requires Texts(xs) == Texts(ys)
    ensures Text(Array(xs)) == Text(Array(ys))
  {
    assert |Texts(xs)| == |Texts(ys)|;
    forall i | 0 <= i < |xs| ensures Text(xs[i]) == Text(ys[i]) {
      assert Texts(xs)[i] == Texts(ys)[i];
    }
    if xs != [] {
      MoreItemsAlike(xs[1..], ys[1..]);
    }
  }

  lemma {:induction false} MoreMembersAlike(c: seq<Entry>, d: seq<Entry>)
    requires Alike(c, d)
    ensures MoreMembers(Compact, c) == MoreMembers(Compact, d)
  {
    if c != [] {
      MemberAlike(c[0], d[0]);
      MoreMembersAlike(c[1..], d[1..]);
    }
  }

  lemma {:induction false} MemberAlike(e: Entry, f: Entry)
    requires e.name == f.name && Text(e.value) == Text(f.value)
    ensures MemberText(Compact, e) == MemberText(Compact, f)
  {
  }

  lemma {:induction false} ObjectsAlike(c: seq<Entry>, d: seq<Entry>)
    requires Alike(c, d)
    ensures Text(Object(c)) == Text(Object(d))
  {
    if c != [] {
      MemberAlike(c[0], d[0]);
      MoreMembersAlike(c[1..], d[1..]);
    }
  }

  lemma {:induction false} AlikeCons(e: Entry, f: Entry, c: seq<Entry>, d: seq<Entry>)
    requires e.name == f.name && Text(e.value) == Text(f.value) && Alike(c, d)
    ensures Alike([e] + c, [f] + d)
  {
  }

  lemma {:induction false} AlikeParts(c: seq<Entry>, d: seq<Entry>)
    requires Alike(c, d) && c != []
    ensures c[0].name == d[0].name && Text(c[0].value) == Text(d[0].value) && Alike(c[1..], d[1..])
  {
  }

  lemma {:induction false} AssignAlike(c: seq<Entry>, d: seq<Entry>, e: Entry, f: Entry)
    requires Alike(c, d) && e.name == f.name && Text(e.value) == Text(f.value)
    ensures Alike(Assign(c, e), Assign(d, f))
  {
    if c == [] {
      AlikeCons(e, f, c, d);
    } else {
      AlikeParts(c, d);
      if e.name == c[0].name {
        AlikeCons(e, f, c[1..], d[1..]);
      } else if L.Le(e.name, c[0].name) {
        AlikeCons(e, f, c, d);
      } else {
        AssignAlike(c[1..], d[1..], e, f);
        AlikeCons(c[0], d[0], Assign(c[1..], e), Assign(d[1..], f));
      }
    }
  }

  lemma {:induction false} DictsAlike(c: seq<Entry>, d: seq<Entry>)
    requires Alike(c, d)
    ensures Alike(DictOf(c), DictOf(d))
  {
    if c != [] {
      var n := |c| - 1;
      DictsAlike(c[..n], d[..n]);
      AssignAlike(DictOf(c[..n]), DictOf(d[..n]), c[n], d[n]);
    }
  }

  lemma {:induction false} SameTextFields(fs: seq<Field>, gs: seq<Field>, k: MappingKind, l: MappingKind)
    requires |fs| == |gs| && forall i :: 0 <= i < |fs| ==> fs[i].name == gs[i].name && SameText(fs[i].value, gs[i].value)
    ensures SameText(Record(fs), Record(gs)) && SameText(Mapping(k, fs), Mapping(l, gs))
  {
    assert forall i :: 0 <= i < |fs| ==> Acceptable(fs[i].value) == Acceptable(gs[i].value);
    if Acceptable(Record(fs)) {
      FieldFormsAlike(fs, gs);
      DictsAlike(FieldForms(fs), FieldForms(gs));
      ObjectsAlike(DictOf(FieldForms(fs)), DictOf(FieldForms(gs)));
    }
  }

  lemma {:induction false} FieldFormsAlike(fs: seq<Field>, gs: seq<Field>)
    requires |fs| == |gs| && forall i :: 0 <= i < |fs| ==> fs[i].name == gs[i].name && SameText(fs[i].value, gs[i].value)
    requires forall i :: 0 <= i < |fs| ==> Acceptable(fs[i].value) && Acceptable(gs[i].value)
    ensures Alike(FieldForms(fs), FieldForms(gs))
  {
    forall i | 0 <= i < |fs| ensures Text(FieldForms(fs)[i].value) == Text(FieldForms(gs)[i].value) {
      assert SameText(fs[i].value, gs[i].value);
    }
  }

  lemma {:induction false} SameTextItems(vs: seq<Value>, ws: seq<Value>)
    requires |vs| == |ws| && forall i :: 0 <= i < |vs| ==> SameText(vs[i], ws[i])
    ensures Acceptable(Sequence(vs)) == Acceptable(Sequence(ws))
    ensures Acceptable(Sequence(vs)) ==> Texts(Forms(vs)) == Texts(Forms(ws))
  {
    assert forall i :: 0 <= i < |vs| ==> Acceptable(vs[i]) == Acceptable(ws[i]);
    if Acceptable(Sequence(vs)) {
      forall i | 0 <= i < |vs| ensures Texts(Forms(vs))[i] == Texts(Forms(ws))[i] {
        assert SameText(vs[i], ws[i]);
      }
    }
  }

  // ---------- sets ----------

  lemma {:induction false} TextOrder()
    ensures TotalPreorder(T.Le) && TotalPreorder(TextLe)
  {
    forall a: string, b: string, c: string ensures (T.Le(a, b) || T.Le(b, a)) && (T.Le(a, b) && T.Le(b, c) ==> T.Le(a, c)) {
      T.LtRank(a, b, c);
    }
  }

  lemma {:induction false} TextTies(ts: seq<string>)
    ensures TiesAreEqual(T.Le, ts)
  {
    forall i, j | 0 <= i < |ts| && 0 <= j < |ts| && T.Le(ts[i], ts[j]) && T.Le(ts[j], ts[i]) ensures ts[i] == ts[j] {
      T.LeAntisymmetric(ts[i], ts[j]);
    }
  }

  lemma {:induction false} SortedTexts(js: seq<Json>)
    ensures Sorted(T.Le, Texts(StableSort(TextLe, js))) && Rearranges(Texts(StableSort(TextLe, js)), Texts(js))
  {
    TextOrder();
    SortSorts(TextLe, js);
    RearrangedImage(Text, StableSort(TextLe, js), js, Texts(StableSort(TextLe, js)), Texts(js));
  }

  /** Sorting by text gives the same texts from every arrangement of the same texts. */
  lemma {:induction false} SortedTextsAgree(us: seq<Json>, vs: seq<Json>)
    requires Rearranges(Texts(us), Texts(vs))
    ensures Texts(StableSort(TextLe, us)) == Texts(StableSort(TextLe, vs))
  {
    SortedTexts(us);
    SortedTexts(vs);
    var a, b := Texts(StableSort(TextLe, us)), Texts(StableSort(TextLe, vs));
    TextTies(a);
    SortedUnique(T.Le, a, b);
  }

  lemma {:induction false} RearrangedTexts(us: seq<Value>, vs: seq<Value>)
    requires Rearranges(us, vs)
    ensures Acceptable(Sequence(us)) == Acceptable(Sequence(vs))
    ensures Acceptable(Sequence(us)) ==> Rearranges(Texts(Forms(us)), Texts(Forms(vs)))
  {
    if All(Acceptable, us) {
      RearrangedAll(Acceptable, vs, us);
    } else if All(Acceptable, vs) {
      RearrangedAll(Acceptable, us, vs);
    }
    if Acceptable(Sequence(us)) {
      RearrangedImage(TextOr, us, vs, Texts(Forms(us)), Texts(Forms(vs)));
    }
  }

  lemma {:induction false} SameTextSets(us: seq<Value>, vs: seq<Value>)
    requires Acceptable(Sequence(us)) == Acceptable(Sequence(vs))
    requires Acceptable(Sequence(us)) ==> Rearranges(Texts(Forms(us)), Texts(Forms(vs)))
    ensures SameText(Collection(us), Collection(vs))
  {
    assert Acceptable(Collection(us)) == Acceptable(Sequence(us)) && Acceptable(Collection(vs)) == Acceptable(Sequence(vs));
    if Acceptable(Sequence(us)) {
      SortedTextsAgree(Forms(us), Forms(vs));
      ArraysAlike(StableSort(TextLe, Forms(us)), StableSort(TextLe, Forms(vs)));
    }
  }

  // ---------- mappings ----------

  lemma {:induction false} RearrangedFieldsAcceptable(gs: seq<Field>, fs: seq<Field>)
    requires Rearranges(gs, fs)
    ensures Acceptable(Record(gs)) == Acceptable(Record(fs))
  {
    var ok := (f: Field) => Acceptable(f.value);
    assert Acceptable(Record(gs)) == All(ok, gs) && Acceptable(Record(fs)) == All(ok, fs);
    if All(ok, gs) {
      RearrangedAll(ok, fs, gs);
    } else if All(ok, fs) {
      RearrangedAll(ok, gs, fs);
    }
  }

  lemma {:induction false} LastNamedFrom(es: seq<Entry>, k: PyStr) returns (i: nat)
    requires LastNamed(es, k).Some?
    ensures i < |es| && es[i].name == k && LastNamed(es, k) == Some(es[i].value)
  {
    if es[|es| - 1].name == k {
      i := |es| - 1;
    } else {
      i := LastNamedFrom(es[..|es| - 1], k);
    }
  }

  lemma {:induction false} NamedIsFound(es: seq<Entry>, i: nat)
    requires i < |es|
    ensures LastNamed(es, es[i].name).Some?
  {
    if i < |es| - 1 {
      NamedIsFound(es[..|es| - 1], i);
    }
  }

  /** The dict of the fields finds, for a field's name, the form of a field of that name. */
  lemma {:induction false} FieldFound(fs: seq<Field>, k: PyStr) returns (i: nat)
    requires Acceptable(Record(fs)) && Find(DictOf(FieldForms(fs)), k).Some?
    ensures i < |fs| && fs[i].name == k && Find(DictOf(FieldForms(fs)), k) == Some(Form(fs[i].value))
  {
    DictFindsLast(FieldForms(fs), k);
    i := LastNamedFrom(FieldForms(fs), k);
  }

  lemma {:induction false} FieldIsFound(fs: seq<Field>, i: nat)
    requires Acceptable(Record(fs)) && i < |fs|
    ensures Find(DictOf(FieldForms(fs)), fs[i].name).Some?
  {
    NamedIsFound(FieldForms(fs), i);
    DictFindsLast(FieldForms(fs), fs[i].name);
  }

  lemma {:induction false} SameKeys(c: seq<Entry>, d: seq<Entry>)
    requires KeysIncrease(c) && KeysIncrease(d)
    requires forall k: PyStr :: Find(c, k).Some? == Find(d, k).Some?
    ensures |c| == |d| && forall i :: 0 <= i < |c| ==> c[i].name == d[i].name
  {
    assert c != [] ==> Find(c, c[0].name).Some?;
    assert d != [] ==> Find(d, d[0].name).Some?;
    if c != [] && d != [] {
      HeadIsLeast(d, c[0].name);
      HeadIsLeast(c, d[0].name);
      L.LtRank(c[0].name, d[0].name, c[0].name);
      forall k: PyStr ensures Find(c[1..], k).Some? == Find(d[1..], k).Some? {
        TailFinds(c, k);
        TailFinds(d, k);
      }
      SameKeys(c[1..], d[1..]);
      assert forall i :: 0 < i < |c| ==> c[i] == c[1..][i - 1] && d[i] == d[1..][i - 1];
    }
  }

  lemma {:induction false} FindAt(d: seq<Entry>, i: nat)
    requires KeysIncrease(d) && i < |d|
    ensures Find(d, d[i].name) == Some(d[i].value)
  {
    if i > 0 {
      assert L.Lt(d[0].name, d[i].name);
      FindAt(d[1..], i - 1);
    }
  }

  lemma {:induction false} RearrangedKeys(gs: seq<Field>, fs: seq<Field>)
    requires Rearranges(gs, fs) && Acceptable(Record(gs)) && Acceptable(Record(fs))
    ensures var c, d := DictOf(FieldForms(gs)), DictOf(FieldForms(fs));
            KeysIncrease(c) && KeysIncrease(d) && |c| == |d| && forall i :: 0 <= i < |c| ==> c[i].name == d[i].name
  {
    var c, d := DictOf(FieldForms(gs)), DictOf(FieldForms(fs));
    DictIncreases(FieldForms(gs));
    DictIncreases(FieldForms(fs));
    forall k: PyStr ensures Find(c, k).Some? == Find(d, k).Some? {
      if Find(c, k).Some? {
        KeyCarriesOver(gs, fs, k);
      }
      if Find(d, k).Some? {
        KeyCarriesOver(fs, gs, k);
      }
    }
    SameKeys(c, d);
  }

  lemma {:induction false} KeyCarriesOver(gs: seq<Field>, fs: seq<Field>, k: PyStr)
    requires Rearranges(gs, fs) && Acceptable(Record(gs)) && Acceptable(Record(fs))
    requires Find(DictOf(FieldForms(gs)), k).Some?
    ensures Find(DictOf(FieldForms(fs)), k).Some?
  {
    var i := FieldFound(gs, k);
    SameElements(gs, fs);
    assert gs[i] in fs;
    var j :| 0 <= j < |fs| && fs[j] == gs[i];
    FieldIsFound(fs, j);
  }

  lemma {:induction false} RearrangedMapping(gs: seq<Field>, fs: seq<Field>, kind: MappingKind)
    requires Rearranges(gs, fs) && NoConflict(fs)
    ensures SameText(Mapping(kind, gs), Mapping(kind, fs))
  {
    RearrangedFieldsAcceptable(gs, fs);
    assert Acceptable(Mapping(kind, gs)) == Acceptable(Record(gs)) && Acceptable(Mapping(kind, fs)) == Acceptable(Record(fs));
    if Acceptable(Record(fs)) {
      RearrangedDicts(gs, fs);
      ObjectsAlike(DictOf(FieldForms(gs)), DictOf(FieldForms(fs)));
    }
  }

  lemma {:induction false} RearrangedDicts(gs: seq<Field>, fs: seq<Field>)
    requires Rearranges(gs, fs) && NoConflict(fs) && Acceptable(Record(gs)) && Acceptable(Record(fs))
    ensures Alike(DictOf(FieldForms(gs)), DictOf(FieldForms(fs)))
  {
    var c, d := DictOf(FieldForms(gs)), DictOf(FieldForms(fs));
    RearrangedKeys(gs, fs);
    SameElements(gs, fs);
    forall m | 0 <= m < |c| ensures Text(c[m].value) == Text(d[m].value) {
      FindAt(c, m);
      FindAt(d, m);
      var i := FieldFound(gs, c[m].name);
      var j := FieldFound(fs, d[m].name);
      assert gs[i] in fs;
      var n :| 0 <= n < |fs| && fs[n] == gs[i];
      assert TextOr(fs[n].value) == TextOr(fs[j].value);
    }
  }

  // ---------- the law ----------

  /** The canonical text does not depend on the iteration order of mappings and sets at any depth, as long as
      keys that share their `str()` agree; in particular when no two keys share it. */
  lemma {:induction false} OrderIndependence(v: Value, w: Value)
    requires Same(v, w) && KeysAgree(v)
    ensures SameText(v, w)
    decreases v
  {
    match v
    case Record(fs) =>
      forall i | 0 <= i < |fs| { OrderIndependence(fs[i].value, w.fields[i].value); }
      SameTextFields(fs, w.fields, PlainDict, PlainDict);
    case Sequence(vs) =>
      forall i | 0 <= i < |vs| { OrderIndependence(vs[i], w.elements[i]); }
      SameTextSequences(vs, w.elements);
    case Mapping(kind, fs) =>
      var gs: seq<Field> :|
        && Rearranges(gs, fs) && |gs| == |w.pairs|
        && (forall i | 0 <= i < |gs| && gs[i] in fs :: gs[i].name == w.pairs[i].name && Same(gs[i].value, w.pairs[i].value));
      SameElements(gs, fs);
      forall i | 0 <= i < |gs| ensures gs[i].name == w.pairs[i].name && SameText(gs[i].value, w.pairs[i].value) {
        assert gs[i] in fs;
        OrderIndependence(gs[i].value, w.pairs[i].value);
      }
      RearrangedMapping(gs, fs, kind);
      SameTextFields(gs, w.pairs, kind, kind);
    case Collection(vs) =>
      var us: seq<Value> :|
        && Rearranges(us, vs) && |us| == |w.elements|
        && (forall i | 0 <= i < |us| && us[i] in vs :: Same(us[i], w.elements[i]));
      SameElements(us, vs);
      forall i | 0 <= i < |us| ensures SameText(us[i], w.elements[i]) {
        assert us[i] in vs;
        OrderIndependence(us[i], w.elements[i]);
      }
      RearrangedTexts(us, vs);
      SameTextItems(us, w.elements);
      SameTextSets(vs, w.elements);
    case _ =>
  }

  lemma {:induction false} SameTextSequences(vs: seq<Value>, ws: seq<Value>)
    requires |vs| == |ws| && forall i :: 0 <= i < |vs| ==> SameText(vs[i], ws[i])
    ensures SameText(Sequence(vs), Sequence(ws))
  {
    SameTextItems(vs, ws);
    if Acceptable(Sequence(vs)) {
      ArraysAlike(Forms(vs), Forms(ws));
    }
  }

  /** Then the forms themselves are equal too, where no surrogates can be joined. */
  lemma {:induction false} OrderIndependenceOfForm(v: Value, w: Value)
    requires Same(v, w) && KeysAgree(v) && Acceptable(v)
    ensures Acceptable(w) && (NoPairs(Form(v)) && NoPairs(Form(w)) ==> Form(v) == Form(w))
  {
    OrderIndependence(v, w);
    if NoPairs(Form(v)) && NoPairs(Form(w)) {
      TextInjective(Compact, Form(v), Form(w));
    }
  }

  // ---------- when the order of a mapping matters ----------

  /** The fields with the `i`-th one moved to the end of the iteration order. */
  function MovedLast(fs: seq<Field>, i: nat): (gs: seq<Field>)
    requires i < |fs|
    ensures Rearranges(gs, fs)
  {
    Without(fs, i) + [fs[i]]
  }

  lemma {:induction false} LastWins(fs: seq<Field>, i: nat)
    requires Acceptable(Record(fs)) && i < |fs|
    ensures Acceptable(Record(MovedLast(fs, i)))
    ensures Find(DictOf(FieldForms(MovedLast(fs, i))), fs[i].name) == Some(Form(fs[i].value))
  {
    var gs := MovedLast(fs, i);
    RearrangedFieldsAcceptable(gs, fs);
    assert gs[|gs| - 1] == fs[i];
    DictFindsLast(FieldForms(gs), fs[i].name);
  }

  lemma {:induction false} JoinedMemberAt(es: seq<Entry>, m: nat)
    requires m < |es|
    ensures m < |JoinedMembers(es)| && JoinedMembers(es)[m] == JoinedEntry(es[m])
  {
    if m > 0 {
      JoinedMemberAt(es[1..], m - 1);
    }
  }

  lemma {:induction false} MembersShow(c: seq<Entry>, d: seq<Entry>, m: nat)
    requires m < |c| && m < |d| && Text(Object(c)) == Text(Object(d))
    ensures Text(c[m].value) == Text(d[m].value)
  {
    TextIff(Compact, Object(c), Object(d));
    JoinedMemberAt(c, m);
    JoinedMemberAt(d, m);
    TextIff(Compact, c[m].value, d[m].value);
  }

  lemma {:induction false} ConflictShows(fs: seq<Field>, i: nat, j: nat)
    requires Acceptable(Record(fs)) && i < |fs| && j < |fs| && fs[i].name == fs[j].name
    requires Text(Form(fs[i].value)) != Text(Form(fs[j].value))
    ensures Acceptable(Record(MovedLast(fs, i))) && Acceptable(Record(MovedLast(fs, j)))
    ensures Text(Form(Record(MovedLast(fs, i)))) != Text(Form(Record(MovedLast(fs, j))))
  {
    LastWins(fs, i);
    LastWins(fs, j);
    var a, b := MovedLast(fs, i), MovedLast(fs, j);
    var c, d := DictOf(FieldForms(a)), DictOf(FieldForms(b));
    RearrangedKeys(a, b);
    FoundNames(c, fs[i].name);
    var m :| 0 <= m < |c| && c[m].name == fs[i].name;
    FindAt(c, m);
    FindAt(d, m);
    if Text(Object(c)) == Text(Object(d)) {
      MembersShow(c, d, m);
    }
  }

  ghost predicate OrderFree(kind: MappingKind, fs: seq<Field>) {
    forall gs: seq<Field> :: Rearranges(gs, fs) ==> TextOr(Mapping(kind, gs)) == TextOr(Mapping(kind, fs))
  }

  /** A mapping's canonical text is independent of its iteration order iff keys that share their `str()` agree. */
  lemma {:induction false} MappingOrderMattersIff(kind: MappingKind, fs: seq<Field>)
    requires Acceptable(Mapping(kind, fs))
    ensures OrderFree(kind, fs) <==> NoConflict(fs)
  {
    if NoConflict(fs) {
      forall gs: seq<Field> | Rearranges(gs, fs) ensures TextOr(Mapping(kind, gs)) == TextOr(Mapping(kind, fs)) {
        RearrangedMapping(gs, fs, kind);
      }
    } else {
      ConflictBreaksOrder(kind, fs);
    }
  }

  lemma {:induction false} ConflictBreaksOrder(kind: MappingKind, fs: seq<Field>)
    requires Acceptable(Mapping(kind, fs)) && !NoConflict(fs)
    ensures !OrderFree(kind, fs)
  {
    var i, j :| 0 <= i < |fs| && 0 <= j < |fs| && fs[i].name == fs[j].name && TextOr(fs[i].value) != TextOr(fs[j].value);
    assert Acceptable(fs[i].value) && Acceptable(fs[j].value);
    ConflictShows(fs, i, j);
    TextOfMapping(kind, MovedLast(fs, i));
    TextOfMapping(kind, MovedLast(fs, j));
    if OrderFree(kind, fs) {
      OrderFreeAt(kind, fs, MovedLast(fs, i));
      OrderFreeAt(kind, fs, MovedLast(fs, j));
    }
  }

  lemma {:induction false} TextOfMapping(kind: MappingKind, fs: seq<Field>)
    requires Acceptable(Record(fs))
    ensures TextOr(Mapping(kind, fs)) == Text(Form(Record(fs)))
  {
    assert Acceptable(Mapping(kind, fs));
  }

  lemma {:induction false} OrderFreeAt(kind: MappingKind, fs: seq<Field>, gs: seq<Field>)
    requires OrderFree(kind, fs) && Rearranges(gs, fs)
    ensures TextOr(Mapping(kind, gs)) == TextOr(Mapping(kind, fs))
  {
  }

  /** The dict with the keys 1 and "1", holding 1 and 2: which value survives depends on the insertion order. */
  lemma {:induction false} CollidingKeysDependOnOrder()
    ensures var key: PyStr := [0x31];
            !OrderFree(PlainDict, [Field(key, Plain(Integer(1))), Field(key, Plain(Integer(2)))])
  {
    var key: PyStr := [0x31];
    var fs := [Field(key, Plain(Integer(1))), Field(key, Plain(Integer(2)))];
    assert TextOr(fs[0].value) == Digits(1) && TextOr(fs[1].value) == Digits(2);
    DigitsInjectiveAt(1, 2);
    assert fs[0].name == fs[1].name && TextOr(fs[0].value) != TextOr(fs[1].value);
    ConflictBreaksOrder(PlainDict, fs);
  }

  lemma {:induction false} DigitsInjectiveAt(m: nat, n: nat)
    requires m != n
    ensures Digits(m) != Digits(n)
  {
    if Digits(m) == Digits(n) {
      DigitsInjective(m, n);
    }
  }

  // ---------- mappings without colliding keys ----------

  /** No two keys of one mapping share their `str()`. */
  ghost predicate NoCollisions(v: Value) {
    match v
    case Record(fs) => forall i | 0 <= i < |fs| :: NoCollisions(fs[i].value)
    case Mapping(_, fs) => DistinctNames(fs) && forall i | 0 <= i < |fs| :: NoCollisions(fs[i].value)
    case Collection(vs) => forall i | 0 <= i < |vs| :: NoCollisions(vs[i])
    case Sequence(vs) => forall i | 0 <= i < |vs| :: NoCollisions(vs[i])
    case _ => true
  }

  ghost predicate DistinctNames(fs: seq<Field>) {
    forall i, j | 0 <= i < j < |fs| :: fs[i].name != fs[j].name
  }

  lemma {:induction false} NoCollisionsAgree(v: Value)
    requires NoCollisions(v)
    ensures KeysAgree(v)
    decreases v
  {
    match v
    case Record(fs) =>
      forall i | 0 <= i < |fs| { NoCollisionsAgree(fs[i].value); }
    case Mapping(_, fs) =>
      forall i | 0 <= i < |fs| { NoCollisionsAgree(fs[i].value); }
    case Collection(vs) =>
      forall i | 0 <= i < |vs| { NoCollisionsAgree(vs[i]); }
    case Sequence(vs) =>
      forall i | 0 <= i < |vs| { NoCollisionsAgree(vs[i]); }
    case _ =>
  }
}
