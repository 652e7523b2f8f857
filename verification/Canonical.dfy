/** The two canonicalisers: `experiments/contracts.py` (`_canonical_value`, `canonical_json`) and
    `artifacts/store.py` (`_json_value`). Both compute one specification, `Form`. */
module Canonical {
  import opened Wrappers
  import opened Sequences
  import opened JsonStrings
  import opened JsonText
  import opened JsonObjects
  import L = Lexicographic
  import T = Text

  datatype CanonError = NaiveDatetime | NonFinite | Unsupported

  /** What is handed to a canonicaliser. An enum member carries the raw value it returns; a datetime the UTC
      text it formats to, or none when it is naive; mapping keys count by their `str()`. Sets and mappings
      list their elements in iteration order. */
  datatype Value =
    | Plain(scalar: Scalar)
    | Member(payload: Scalar)
    | Instant(utc: Option<PyStr>)
    | Record(fields: seq<Field>)
    | Mapping(kind: MappingKind, pairs: seq<Field>)
    | Collection(elements: seq<Value>)
    | Sequence(elements: seq<Value>)
    | Foreign

  /** What a mapping is: a dict, a dict with a key that is or holds a record, a read-only view
      (`MappingProxyType`), which cannot be copied deeply, or a mapping of another, copyable type. */
  datatype MappingKind = PlainDict | RecordKeyedDict | ReadOnlyView | OtherMapping

  datatype Field = Field(name: PyStr, value: Value)

  type Outcome = Result<Json, CanonError>

  // ---------- `_canonical_value` ----------

  const ZERO: Repr := "0.0"

  /** `0.0 if value == 0 else value` */
  function NormalFloat(f: Float): Float {
    if f == Finite("-0.0") then Finite(ZERO) else f
  }

  function CanonScalar(a: Scalar): Outcome {
    match a
    case Number(f) => if f.Finite? then Ok(Leaf(Number(NormalFloat(f)))) else Err(NonFinite)
    case _ => Ok(Leaf(a))
  }

  function CanonInstant(utc: Option<PyStr>): Outcome {
    match utc
    case None => Err(NaiveDatetime)
    case Some(text) => Ok(Leaf(Str(text)))
  }

  /** A field whose value has been canonicalised, or failed to be. */
  datatype Item = Item(name: PyStr, outcome: Outcome)

  predicate ItemLe(a: Item, b: Item) {
    L.Le(a.name, b.name)
  }

  predicate TextLe(a: Json, b: Json) {
    T.Le(Text(a), Text(b))
  }

  /** The first failure, or all results. */
  function Gather(rs: seq<Outcome>): (r: Result<seq<Json>, CanonError>)
    ensures r.Ok? <==> forall i :: 0 <= i < |rs| ==> rs[i].Ok?
    ensures r.Ok? ==> |r.value| == |rs| && forall i :: 0 <= i < |rs| ==> r.value[i] == rs[i].value
  {
    if rs == [] then Ok([])
    else if rs[0].Err? then Err(rs[0].error)
    else
      var rest := Gather(rs[1..]);
      if rest.Err? then Err(rest.error) else Ok([rs[0].value] + rest.value)
  }

  function GatherItems(items: seq<Item>): (r: Result<seq<Entry>, CanonError>)
    ensures r.Ok? <==> forall i :: 0 <= i < |items| ==> items[i].outcome.Ok?
    ensures r.Ok? ==> |r.value| == |items|
    ensures r.Ok? ==> forall i :: 0 <= i < |items| ==> r.value[i] == Entry(items[i].name, items[i].outcome.value)
  {
    if items == [] then Ok([])
    else if items[0].outcome.Err? then Err(items[0].outcome.error)
    else
      var rest := GatherItems(items[1..]);
      if rest.Err? then Err(rest.error) else Ok([Entry(items[0].name, items[0].outcome.value)] + rest.value)
  }

  function DictOutcome(items: seq<Item>): Outcome {
    var es := GatherItems(items);
    if es.Err? then Err(es.error) else Ok(Object(DictOf(es.value)))
  }

  function ListOutcome(rs: seq<Outcome>): Outcome {
    var items := Gather(rs);
    if items.Err? then Err(items.error) else Ok(Array(items.value))
  }

  function SetOutcome(rs: seq<Outcome>): Outcome {
    var items := Gather(rs);
    if items.Err? then Err(items.error) else Ok(Array(StableSort(TextLe, items.value)))
  }

  function Canon(v: Value): Outcome
    decreases v
  {
    match v
    case Member(payload) => Ok(Leaf(payload))
    case Instant(utc) => CanonInstant(utc)
    case Record(fs) => DictOutcome(CanonFields(fs))
    case Mapping(_, fs) => DictOutcome(StableSort(ItemLe, CanonFields(fs)))
    case Collection(vs) => SetOutcome(CanonAll(vs))
    case Sequence(vs) => ListOutcome(CanonAll(vs))
    case Plain(a) => CanonScalar(a)
    case Foreign => Err(Unsupported)
  }

  function CanonAll(vs: seq<Value>): (rs: seq<Outcome>)
    ensures |rs| == |vs| && forall i :: 0 <= i < |vs| ==> rs[i] == Canon(vs[i])
    decreases vs
  {
    seq(|vs|, i requires 0 <= i < |vs| => Canon(vs[i]))
  }

  function CanonFields(fs: seq<Field>): (items: seq<Item>)
    ensures |items| == |fs| && forall i :: 0 <= i < |fs| ==> items[i] == Item(fs[i].name, Canon(fs[i].value))
    decreases fs
  {
    seq(|fs|, i requires 0 <= i < |fs| => Item(fs[i].name, Canon(fs[i].value)))
  }

  predicate FiniteScalar(a: Scalar) {
    a.Number? ==> a.f.Finite?
  }

  predicate FiniteJson(j: Json) {
    match j
    case Leaf(a) => FiniteScalar(a)
    case Array(items) => forall i | 0 <= i < |items| :: FiniteJson(items[i])
    case Object(es) => forall i | 0 <= i < |es| :: FiniteJson(es[i].value)
  }

  /** `canonical_json`; dumping refuses non-finite numbers, which only an enum payload can bring in. */
  function CanonicalJson(v: Value): Result<string, CanonError> {
    var j := Canon(v);
    if j.Err? then Err(j.error)
    else if !FiniteJson(j.value) then Err(NonFinite)
    else Ok(Text(j.value))
  }

  // ---------- the specification ----------

  /** Nothing in the value is naive, non-finite or of a foreign type. */
  predicate Acceptable(v: Value) {
    match v
    case Plain(a) => FiniteScalar(a)
    case Member(_) => true
    case Instant(utc) => utc.Some?
    case Record(fs) => forall i | 0 <= i < |fs| :: Acceptable(fs[i].value)
    case Mapping(_, fs) => forall i | 0 <= i < |fs| :: Acceptable(fs[i].value)
    case Collection(vs) => forall i | 0 <= i < |vs| :: Acceptable(vs[i])
    case Sequence(vs) => forall i | 0 <= i < |vs| :: Acceptable(vs[i])
    case Foreign => false
  }

  function NormalScalar(a: Scalar): Scalar {
    if a.Number? then Number(NormalFloat(a.f)) else a
  }

  /** The canonical form. */
  function Form(v: Value): Json
    requires Acceptable(v)
    decreases v
  {
    match v
    case Plain(a) => Leaf(NormalScalar(a))
    case Member(payload) => Leaf(payload)
    case Instant(utc) => Leaf(Str(utc.value))
    case Record(fs) => Object(DictOf(FieldForms(fs)))
    case Mapping(_, fs) => Object(DictOf(FieldForms(fs)))
    case Collection(vs) => Array(StableSort(TextLe, Forms(vs)))
    case Sequence(vs) => Array(Forms(vs))
  }

  function Forms(vs: seq<Value>): (js: seq<Json>)
    requires forall i :: 0 <= i < |vs| ==> Acceptable(vs[i])
    ensures |js| == |vs| && forall i :: 0 <= i < |vs| ==> js[i] == Form(vs[i])
    decreases vs
  {
    seq(|vs|, i requires 0 <= i < |vs| => Form(vs[i]))
  }

  function FieldForms(fs: seq<Field>): (es: seq<Entry>)
    requires forall i :: 0 <= i < |fs| ==> Acceptable(fs[i].value)
    ensures |es| == |fs| && forall i :: 0 <= i < |fs| ==> es[i] == Entry(fs[i].name, Form(fs[i].value))
    decreases fs
  {
    seq(|fs|, i requires 0 <= i < |fs| => Entry(fs[i].name, Form(fs[i].value)))
  }

  /** The entries as items that all succeeded. */
  function Lift(es: seq<Entry>): (items: seq<Item>)
    ensures |items| == |es| && forall i :: 0 <= i < |es| ==> items[i] == Item(es[i].name, Ok(es[i].value))
  {
    seq(|es|, i requires 0 <= i < |es| => Item(es[i].name, Ok(es[i].value)))
  }

  lemma {:induction false} LiftCons(e: Entry, es: seq<Entry>)
    ensures Lift([e] + es) == [Item(e.name, Ok(e.value))] + Lift(es)
  {
  }

  lemma {:induction false} InsertLifts(e: Entry, es: seq<Entry>)
    ensures Insert(ItemLe, Item(e.name, Ok(e.value)), Lift(es)) == Lift(Insert(NameLe, e, es))
  {
    if es == [] {
      assert Lift([e]) == [Item(e.name, Ok(e.value))];
    } else if NameLe(e, es[0]) {
      LiftCons(e, es);
    } else {
      InsertLifts(e, es[1..]);
      assert Lift(es)[1..] == Lift(es[1..]);
      LiftCons(es[0], Insert(NameLe, e, es[1..]));
    }
  }

  /** Sorting the outcomes by key is sorting the entries by key. */
  lemma {:induction false} SortLifts(es: seq<Entry>)
    ensures StableSort(ItemLe, Lift(es)) == Lift(StableSort(NameLe, es))
  {
    if es != [] {
      SortLifts(es[1..]);
      assert Lift(es)[1..] == Lift(es[1..]);
      InsertLifts(es[0], StableSort(NameLe, es[1..]));
    }
  }

  lemma {:induction false} GatherLifted(es: seq<Entry>)
    ensures GatherItems(Lift(es)) == Ok(es)
  {
    assert GatherItems(Lift(es)).value == es;
  }

  lemma {:induction false} SortedFails(items: seq<Item>, i: int)
    requires 0 <= i < |items| && items[i].outcome.Err?
    ensures DictOutcome(StableSort(ItemLe, items)).Err?
  {
    var sorted := StableSort(ItemLe, items);
    SameElements(sorted, items);
    assert items[i] in sorted;
    var k :| 0 <= k < |sorted| && sorted[k] == items[i];
  }

  lemma {:induction false} MappingOutcome(es: seq<Entry>)
    ensures DictOutcome(StableSort(ItemLe, Lift(es))) == Ok(Object(DictOf(es)))
  {
    SortLifts(es);
    GatherLifted(StableSort(NameLe, es));
    DictOfSorted(es);
  }

  /** An outcome says no more than the specification: success exactly on acceptable values, with their form. */
  ghost predicate Meets(r: Outcome, v: Value) {
    (r.Ok? <==> Acceptable(v)) && (r.Ok? ==> r.value == Form(v))
  }

  lemma {:induction false} LiftedFields(items: seq<Item>, fs: seq<Field>)
    requires |items| == |fs| && forall i :: 0 <= i < |fs| ==> items[i].name == fs[i].name && Meets(items[i].outcome, fs[i].value)
    requires Acceptable(Record(fs))
    ensures items == Lift(FieldForms(fs))
  {
    forall i | 0 <= i < |fs| ensures items[i] == Lift(FieldForms(fs))[i] {
      assert Meets(items[i].outcome, fs[i].value);
    }
  }

  lemma {:induction false} SomeFieldFails(items: seq<Item>, fs: seq<Field>) returns (i: int)
    requires |items| == |fs| && forall i :: 0 <= i < |fs| ==> items[i].name == fs[i].name && Meets(items[i].outcome, fs[i].value)
    requires !Acceptable(Record(fs))
    ensures 0 <= i < |items| && items[i].outcome.Err?
  {
    i :| 0 <= i < |fs| && !Acceptable(fs[i].value);
    assert Meets(items[i].outcome, fs[i].value);
  }

  lemma {:induction false} FieldsMeet(items: seq<Item>, fs: seq<Field>, kind: MappingKind)
    requires |items| == |fs| && forall i :: 0 <= i < |fs| ==> items[i].name == fs[i].name && Meets(items[i].outcome, fs[i].value)
    ensures Meets(DictOutcome(items), Record(fs)) && Meets(DictOutcome(StableSort(ItemLe, items)), Mapping(kind, fs))
  {
    assert Acceptable(Record(fs)) == Acceptable(Mapping(kind, fs));
    if Acceptable(Record(fs)) {
      LiftedFields(items, fs);
      AllFieldsMeet(items, fs, kind);
    } else {
      var i := SomeFieldFails(items, fs);
      SortedFails(items, i);
    }
  }

  lemma {:induction false} AllFieldsMeet(items: seq<Item>, fs: seq<Field>, kind: MappingKind)
    requires Acceptable(Record(fs)) && Acceptable(Mapping(kind, fs)) && items == Lift(FieldForms(fs))
    ensures DictOutcome(items) == Ok(Form(Record(fs)))
    ensures DictOutcome(StableSort(ItemLe, items)) == Ok(Form(Mapping(kind, fs)))
  {
    GatherLifted(FieldForms(fs));
    MappingOutcome(FieldForms(fs));
  }

  lemma {:induction false} ElementsMeet(rs: seq<Outcome>, vs: seq<Value>)
    requires |rs| == |vs| && forall i :: 0 <= i < |vs| ==> Meets(rs[i], vs[i])
    ensures Meets(ListOutcome(rs), Sequence(vs)) && Meets(SetOutcome(rs), Collection(vs))
  {
    if forall i :: 0 <= i < |vs| ==> Acceptable(vs[i]) {
      assert Gather(rs).Ok? && Gather(rs).value == Forms(vs);
    }
  }

  /** `_canonical_value` accepts exactly the acceptable values and returns their canonical form. */
  lemma {:induction false} CanonIsForm(v: Value)
    ensures Meets(Canon(v), v)
    decreases v
  {
    match v
    case Record(fs) =>
      forall i | 0 <= i < |fs| { CanonIsForm(fs[i].value); }
      FieldsMeet(CanonFields(fs), fs, PlainDict);
    case Mapping(kind, fs) =>
      forall i | 0 <= i < |fs| { CanonIsForm(fs[i].value); }
      FieldsMeet(CanonFields(fs), fs, kind);
    case Collection(vs) =>
      forall i | 0 <= i < |vs| { CanonIsForm(vs[i]); }
      ElementsMeet(CanonAll(vs), vs);
    case Sequence(vs) =>
      forall i | 0 <= i < |vs| { CanonIsForm(vs[i]); }
      ElementsMeet(CanonAll(vs), vs);
    case _ =>
  }

  // ---------- values with the same form ----------

  /** Accepted alike, with one form. */
  ghost predicate SameForm(v: Value, w: Value) {
    (Acceptable(v) <==> Acceptable(w)) && (Acceptable(v) ==> Form(v) == Form(w))
  }

  lemma {:induction false} SameFields(fs: seq<Field>, gs: seq<Field>, k: MappingKind, l: MappingKind)
    requires |fs| == |gs| && forall i :: 0 <= i < |fs| ==> fs[i].name == gs[i].name && SameForm(fs[i].value, gs[i].value)
    ensures SameForm(Record(fs), Mapping(l, gs)) && SameForm(Mapping(k, fs), Mapping(l, gs)) && SameForm(Record(fs), Record(gs))
  {
    assert forall i :: 0 <= i < |fs| ==> Acceptable(fs[i].value) == Acceptable(gs[i].value);
    if Acceptable(Record(fs)) {
      assert FieldForms(fs) == FieldForms(gs);
    }
  }

  lemma {:induction false} SameItems(vs: seq<Value>, ws: seq<Value>)
    requires |vs| == |ws| && forall i :: 0 <= i < |vs| ==> SameForm(vs[i], ws[i])
    ensures SameForm(Sequence(vs), Sequence(ws)) && SameForm(Collection(vs), Collection(ws))
  {
    assert forall i :: 0 <= i < |vs| ==> Acceptable(vs[i]) == Acceptable(ws[i]);
    if Acceptable(Sequence(vs)) {
      assert Forms(vs) == Forms(ws);
    }
  }
}
