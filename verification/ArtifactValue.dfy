/** `artifacts/store.py`, `_json_value` and `canonical_bytes`: the store's own canonicaliser. It turns a record
    into nested dicts (`dataclasses.asdict`) before it starts, which fails on some values that the other one
    accepts; where it succeeds it computes the same form. */
module ArtifactValue {
  import opened Wrappers
  import opened Sequences
  import opened JsonStrings
  import opened JsonText
  import opened Canonical

  /** How much work is left; a record weighs more than the dict it becomes. */
  function Size(v: Value): (n: nat)
    ensures n >= 1
    decreases v
  {
    match v
    case Record(fs) => 2 + FieldsSize(fs)
    case Mapping(_, fs) => 1 + FieldsSize(fs)
    case Collection(vs) => 1 + TotalSize(vs)
    case Sequence(vs) => 1 + TotalSize(vs)
    case _ => 1
  }

  function TotalSize(vs: seq<Value>): (n: nat)
    ensures forall i :: 0 <= i < |vs| ==> Size(vs[i]) <= n
    decreases vs
  {
    if vs == [] then 0 else Size(vs[0]) + TotalSize(vs[1..])
  }

  function FieldsSize(fs: seq<Field>): (n: nat)
    ensures forall i :: 0 <= i < |fs| ==> Size(fs[i].value) <= n
    decreases fs
  {
    if fs == [] then 0 else Size(fs[0].value) + FieldsSize(fs[1..])
  }

  // ---------- `dataclasses.asdict` ----------

  /** `copy.deepcopy` succeeds: there is no read-only view inside. */
  predicate Copyable(v: Value)
    decreases v
  {
    match v
    case Record(fs) => forall i | 0 <= i < |fs| :: Copyable(fs[i].value)
    case Mapping(kind, fs) => !kind.ReadOnlyView? && forall i | 0 <= i < |fs| :: Copyable(fs[i].value)
    case Collection(vs) => forall i | 0 <= i < |vs| :: Copyable(vs[i])
    case Sequence(vs) => forall i | 0 <= i < |vs| :: Copyable(vs[i])
    case _ => true
  }

  /** `asdict` raises on what it meets here: a dict key that is or holds a record becomes an unhashable dict,
      and what is not a record, dict, list or tuple is copied deeply. */
  predicate Blocked(v: Value)
    decreases v
  {
    match v
    case Record(fs) => exists i | 0 <= i < |fs| :: Blocked(fs[i].value)
    case Mapping(PlainDict, fs) => exists i | 0 <= i < |fs| :: Blocked(fs[i].value)
    case Mapping(RecordKeyedDict, fs) => true
    case Sequence(vs) => exists i | 0 <= i < |vs| :: Blocked(vs[i])
    case _ => !Copyable(v)
  }

  /** Only a read-only view stops a deep copy, wherever it is. */
  lemma {:induction false} CopyableIff(vs: seq<Value>, fs: seq<Field>, kind: MappingKind, a: Scalar)
    ensures Copyable(Sequence(vs)) <==> forall v :: v in vs ==> Copyable(v)
    ensures Copyable(Collection(vs)) <==> forall v :: v in vs ==> Copyable(v)
    ensures Copyable(Record(fs)) <==> forall f :: f in fs ==> Copyable(f.value)
    ensures Copyable(Mapping(kind, fs)) <==> kind != ReadOnlyView && forall f :: f in fs ==> Copyable(f.value)
    ensures Copyable(Plain(a)) && Copyable(Member(a))
  {
    assert forall i :: 0 <= i < |vs| ==> vs[i] in vs;
    assert forall i :: 0 <= i < |fs| ==> fs[i] in fs;
  }

  /** What `asdict` raises on: it walks records, dicts, lists and tuples, refuses a dict with a record among its
      keys, and copies everything else. */
  lemma {:induction false} BlockedIff(vs: seq<Value>, fs: seq<Field>, kind: MappingKind)
    ensures Blocked(Sequence(vs)) <==> exists v :: v in vs && Blocked(v)
    ensures Blocked(Record(fs)) <==> exists f :: f in fs && Blocked(f.value)
    ensures Blocked(Mapping(PlainDict, fs)) <==> exists f :: f in fs && Blocked(f.value)
    ensures Blocked(Mapping(RecordKeyedDict, fs)) && Blocked(Mapping(ReadOnlyView, fs))
    ensures Blocked(Mapping(OtherMapping, fs)) <==> exists f :: f in fs && !Copyable(f.value)
    ensures Blocked(Collection(vs)) <==> exists v :: v in vs && !Copyable(v)
  {
    assert forall i :: 0 <= i < |vs| ==> vs[i] in vs;
    assert forall i :: 0 <= i < |fs| ==> fs[i] in fs;
  }

  /** What `asdict` makes of a value inside a record. */
  function AsDict(v: Value): (r: Value)
    requires !Blocked(v)
    ensures !r.Record?
    decreases v
  {
    match v
    case Record(fs) => Mapping(PlainDict, AsDictFields(fs))
    case Mapping(PlainDict, fs) => Mapping(PlainDict, AsDictFields(fs))
    case Sequence(vs) => Sequence(AsDictAll(vs))
    case _ => v
  }

  function AsDictAll(vs: seq<Value>): (rs: seq<Value>)
    requires forall i :: 0 <= i < |vs| ==> !Blocked(vs[i])
    ensures |rs| == |vs| && forall i :: 0 <= i < |vs| ==> rs[i] == AsDict(vs[i])
    decreases vs
  {
    if vs == [] then [] else [AsDict(vs[0])] + AsDictAll(vs[1..])
  }

  function AsDictFields(fs: seq<Field>): (rs: seq<Field>)
    requires forall i :: 0 <= i < |fs| ==> !Blocked(fs[i].value)
    ensures |rs| == |fs| && forall i :: 0 <= i < |fs| ==> rs[i] == Field(fs[i].name, AsDict(fs[i].value))
    decreases fs
  {
    if fs == [] then [] else [Field(fs[0].name, AsDict(fs[0].value))] + AsDictFields(fs[1..])
  }

  lemma {:induction false} AsDictShrinks(v: Value)
    requires !Blocked(v)
    ensures Size(AsDict(v)) <= Size(v) && (v.Record? ==> Size(AsDict(v)) < Size(v))
    decreases v
  {
    match v
    case Record(fs) => FieldsShrink(fs);
    case Mapping(PlainDict, fs) => FieldsShrink(fs);
    case Sequence(vs) => AllShrink(vs);
    case _ =>
  }

  lemma {:induction false} AllShrink(vs: seq<Value>)
    requires forall i :: 0 <= i < |vs| ==> !Blocked(vs[i])
    ensures TotalSize(AsDictAll(vs)) <= TotalSize(vs)
    decreases vs
  {
    if vs != [] {
      AsDictShrinks(vs[0]);
      AllShrink(vs[1..]);
      assert AsDictAll(vs)[1..] == AsDictAll(vs[1..]);
    }
  }

  lemma {:induction false} FieldsShrink(fs: seq<Field>)
    requires forall i :: 0 <= i < |fs| ==> !Blocked(fs[i].value)
    ensures FieldsSize(AsDictFields(fs)) <= FieldsSize(fs)
    decreases fs
  {
    if fs != [] {
      AsDictShrinks(fs[0].value);
      FieldsShrink(fs[1..]);
      assert AsDictFields(fs)[1..] == AsDictFields(fs[1..]);
    }
  }

  // ---------- `_json_value` ----------

  function JsonValue(v: Value): Outcome
    decreases Size(v), 0
  {
    match v
    case Member(payload) => Ok(Leaf(payload))
    case Instant(utc) => CanonInstant(utc)
    case Record(fs) =>
      if Blocked(v) then Err(Unsupported)
      else
        AsDictShrinks(v);
        JsonValue(AsDict(v))
    case Mapping(_, fs) => DictOutcome(StableSort(ItemLe, JsonFields(fs)))
    case Sequence(vs) => ListOutcome(JsonValues(vs))
    case Collection(vs) => SetOutcome(JsonValues(vs))
    case Plain(a) => CanonScalar(a)
    case Foreign => Err(Unsupported)
  }

  function JsonValues(vs: seq<Value>): (rs: seq<Outcome>)
    ensures |rs| == |vs| && forall i :: 0 <= i < |vs| ==> rs[i] == JsonValue(vs[i])
    decreases TotalSize(vs), 1
  {
    seq(|vs|, i requires 0 <= i < |vs| => JsonValue(vs[i]))
  }

  function JsonFields(fs: seq<Field>): (items: seq<Item>)
    ensures |items| == |fs| && forall i :: 0 <= i < |fs| ==> items[i] == Item(fs[i].name, JsonValue(fs[i].value))
    decreases FieldsSize(fs), 1
  {
    seq(|fs|, i requires 0 <= i < |fs| => Item(fs[i].name, JsonValue(fs[i].value)))
  }

  /** Somewhere in the value there is a record that `asdict` raises on. */
  predicate HoldsBlocked(v: Value)
    decreases v
  {
    match v
    case Record(fs) => Blocked(v) || exists i | 0 <= i < |fs| :: HoldsBlocked(fs[i].value)
    case Mapping(_, fs) => exists i | 0 <= i < |fs| :: HoldsBlocked(fs[i].value)
    case Collection(vs) => exists i | 0 <= i < |vs| :: HoldsBlocked(vs[i])
    case Sequence(vs) => exists i | 0 <= i < |vs| :: HoldsBlocked(vs[i])
    case _ => false
  }

  /** Turning records into dicts beforehand changes neither acceptance nor the form. */
  lemma {:induction false} AsDictForm(v: Value)
    requires !Blocked(v)
    ensures SameForm(v, AsDict(v))
    decreases v
  {
    match v
    case Record(fs) =>
      forall i | 0 <= i < |fs| { AsDictForm(fs[i].value); }
      SameFields(fs, AsDictFields(fs), PlainDict, PlainDict);
    case Mapping(PlainDict, fs) =>
      forall i | 0 <= i < |fs| { AsDictForm(fs[i].value); }
      SameFields(fs, AsDictFields(fs), PlainDict, PlainDict);
    case Sequence(vs) =>
      forall i | 0 <= i < |vs| { AsDictForm(vs[i]); }
      SameItems(vs, AsDictAll(vs));
    case _ =>
  }

  /** Nor does it hide or add a record that will be raised on. */
  lemma {:induction false} AsDictKeepsBlocked(v: Value)
    requires !Blocked(v)
    ensures HoldsBlocked(AsDict(v)) <==> HoldsBlocked(v)
    decreases v
  {
    match v
    case Record(fs) =>
      forall i | 0 <= i < |fs| { AsDictKeepsBlocked(fs[i].value); }
    case Mapping(PlainDict, fs) =>
      forall i | 0 <= i < |fs| { AsDictKeepsBlocked(fs[i].value); }
    case Sequence(vs) =>
      forall i | 0 <= i < |vs| { AsDictKeepsBlocked(vs[i]); }
    case _ =>
  }

  /** The outcome of the store's canonicaliser: failure where `asdict` raises, and otherwise the specification. */
  ghost predicate MeetsUnlessBlocked(r: Outcome, v: Value) {
    if HoldsBlocked(v) then r.Err? else Meets(r, v)
  }

  lemma {:induction false} MappingMeets(items: seq<Item>, kind: MappingKind, fs: seq<Field>)
    requires |items| == |fs|
    requires forall i :: 0 <= i < |fs| ==> items[i].name == fs[i].name && MeetsUnlessBlocked(items[i].outcome, fs[i].value)
    ensures MeetsUnlessBlocked(DictOutcome(StableSort(ItemLe, items)), Mapping(kind, fs))
  {
    MappingHolds(kind, fs);
    if i :| 0 <= i < |fs| && HoldsBlocked(fs[i].value) {
      SortedFails(items, i);
    } else {
      AllMeet(items, fs);
      FieldsMeet(items, fs, kind);
    }
  }

  lemma {:induction false} MappingHolds(kind: MappingKind, fs: seq<Field>)
    ensures HoldsBlocked(Mapping(kind, fs)) <==> exists i :: 0 <= i < |fs| && HoldsBlocked(fs[i].value)
  {
  }

  lemma {:induction false} AllMeet(items: seq<Item>, fs: seq<Field>)
    requires |items| == |fs| && !exists i :: 0 <= i < |fs| && HoldsBlocked(fs[i].value)
    requires forall i :: 0 <= i < |fs| ==> items[i].name == fs[i].name && MeetsUnlessBlocked(items[i].outcome, fs[i].value)
    ensures forall i :: 0 <= i < |fs| ==> items[i].name == fs[i].name && Meets(items[i].outcome, fs[i].value)
  {
  }

  lemma {:induction false} ElementsMeetUnlessBlocked(rs: seq<Outcome>, vs: seq<Value>)
    requires |rs| == |vs| && forall i :: 0 <= i < |vs| ==> MeetsUnlessBlocked(rs[i], vs[i])
    ensures MeetsUnlessBlocked(ListOutcome(rs), Sequence(vs)) && MeetsUnlessBlocked(SetOutcome(rs), Collection(vs))
  {
    ElementsHold(vs);
    if i :| 0 <= i < |vs| && HoldsBlocked(vs[i]) {
      assert rs[i].Err?;
    } else {
      AllElementsMeet(rs, vs);
      ElementsMeet(rs, vs);
    }
  }

  lemma {:induction false} ElementsHold(vs: seq<Value>)
    ensures HoldsBlocked(Sequence(vs)) <==> exists i :: 0 <= i < |vs| && HoldsBlocked(vs[i])
    ensures HoldsBlocked(Collection(vs)) <==> exists i :: 0 <= i < |vs| && HoldsBlocked(vs[i])
  {
  }

  lemma {:induction false} AllElementsMeet(rs: seq<Outcome>, vs: seq<Value>)
    requires |rs| == |vs| && !exists i :: 0 <= i < |vs| && HoldsBlocked(vs[i])
    requires forall i :: 0 <= i < |vs| ==> MeetsUnlessBlocked(rs[i], vs[i])
    ensures forall i :: 0 <= i < |vs| ==> Meets(rs[i], vs[i])
  {
  }

  /** The store's canonicaliser fails where a record is raised on, and otherwise meets the specification. */
  lemma {:induction false} JsonValueIsForm(v: Value)
    ensures MeetsUnlessBlocked(JsonValue(v), v)
    decreases Size(v)
  {
    match v
    case Record(fs) =>
      if !Blocked(v) {
        AsDictShrinks(v);
        JsonValueIsForm(AsDict(v));
        AsDictForm(v);
        AsDictKeepsBlocked(v);
      }
    case Mapping(kind, fs) =>
      forall i | 0 <= i < |fs| { JsonValueIsForm(fs[i].value); }
      MappingMeets(JsonFields(fs), kind, fs);
    case Collection(vs) =>
      forall i | 0 <= i < |vs| { JsonValueIsForm(vs[i]); }
      ElementsMeetUnlessBlocked(JsonValues(vs), vs);
    case Sequence(vs) =>
      forall i | 0 <= i < |vs| { JsonValueIsForm(vs[i]); }
      ElementsMeetUnlessBlocked(JsonValues(vs), vs);
    case _ =>
  }

  /** The two canonicalisers agree on every value that both accept. The store's accepts nothing more, and what
      it refuses of the other's is exactly the values holding a record that `asdict` raises on. */
  lemma {:induction false} CanonicalisersAgree(v: Value)
    ensures JsonValue(v).Ok? ==> JsonValue(v) == Canon(v)
    ensures Canon(v).Ok? && JsonValue(v).Err? <==> Acceptable(v) && HoldsBlocked(v)
  {
    CanonIsForm(v);
    JsonValueIsForm(v);
  }

  /** A record with a read-only view among its fields, or with a dict that has a record among its keys, is
      accepted by the one canonicaliser and refused by the other. */
  lemma {:induction false} AcceptanceDiffers(fs: seq<Field>, i: nat)
    requires Acceptable(Record(fs)) && i < |fs| && fs[i].value.Mapping?
    requires fs[i].value.kind == ReadOnlyView || fs[i].value.kind == RecordKeyedDict
    ensures Canon(Record(fs)) == Ok(Form(Record(fs))) && JsonValue(Record(fs)).Err?
  {
    CanonIsForm(Record(fs));
    assert Blocked(fs[i].value);
  }

  function Name(s: string): (name: PyStr)
    ensures |name| == |s|
  {
    seq(|s|, i requires 0 <= i < |s| => s[i] as int)
  }

  function Float64(r: Repr): Value {
    Plain(Number(Finite(r)))
  }

  /** A market data bar without a trading date: its time, its five numbers and the mapping of its extra columns. */
  function BarRecord(utc: PyStr, open: Repr, high: Repr, low: Repr, close: Repr, volume: Repr, extra: Value): Value {
    Record([Field(Name("timestamp"), Instant(Some(utc))), Field(Name("open"), Float64(open)), Field(Name("high"), Float64(high)),
            Field(Name("low"), Float64(low)), Field(Name("close"), Float64(close)), Field(Name("volume"), Float64(volume)),
            Field(Name("extra"), extra), Field(Name("trading_date"), Plain(Null))])
  }

  predicate IsFloat(v: Value) {
    v.Plain? && v.scalar.Number? && v.scalar.f.Finite?
  }

  lemma {:induction false} ColumnFacts(kind: MappingKind, columns: seq<Field>)
    requires forall i | 0 <= i < |columns| :: IsFloat(columns[i].value)
    ensures Acceptable(Mapping(kind, columns)) && !HoldsBlocked(Mapping(kind, columns))
    ensures Blocked(Mapping(kind, columns)) <==> kind == RecordKeyedDict || kind == ReadOnlyView
  {
    forall i | 0 <= i < |columns| ensures Acceptable(columns[i].value) && !HoldsBlocked(columns[i].value) && !Blocked(columns[i].value) && Copyable(columns[i].value) {
    }
  }

  /** A record all of whose fields but one are atoms. */
  lemma {:induction false} OneField(fs: seq<Field>, m: nat)
    requires m < |fs| && forall i | 0 <= i < |fs| && i != m :: fs[i].value.Instant? || fs[i].value.Plain?
    ensures HoldsBlocked(Record(fs)) <==> Blocked(fs[m].value) || HoldsBlocked(fs[m].value)
  {
    forall i | 0 <= i < |fs| && i != m ensures !Blocked(fs[i].value) && !HoldsBlocked(fs[i].value) {
    }
  }

  lemma {:induction false} AcceptedApart(v: Value)
    requires Acceptable(v)
    ensures Canon(v).Ok? && (JsonValue(v).Ok? <==> !HoldsBlocked(v))
  {
    CanonIsForm(v);
    JsonValueIsForm(v);
  }

  /** A bar is accepted by the one canonicaliser whatever its finite extra columns are kept in. The store's accepts
      it iff they are kept in a mapping that can be copied: not a bar built without extra columns, whose default
      is a read-only view, but one whose columns are a dict. */
  lemma {:induction false} BarsDiffer(utc: PyStr, open: Repr, high: Repr, low: Repr, close: Repr, volume: Repr,
                                      kind: MappingKind, columns: seq<Field>)
    requires forall i | 0 <= i < |columns| :: IsFloat(columns[i].value)
    ensures var bar := BarRecord(utc, open, high, low, close, volume, Mapping(kind, columns));
            Canon(bar).Ok? && (JsonValue(bar).Ok? <==> kind == PlainDict || kind == OtherMapping)
  {
    var bar := BarRecord(utc, open, high, low, close, volume, Mapping(kind, columns));
    ColumnFacts(kind, columns);
    OneField(bar.fields, 6);
    AcceptedApart(bar);
  }
}
