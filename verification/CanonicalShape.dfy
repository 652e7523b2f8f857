/** The canonical form, spelled out: what becomes of numbers, records, mappings and sets. */
module CanonicalShape {
  import opened Wrappers
  import opened Sequences
  import opened JsonStrings
  import opened JsonText
  import opened JsonObjects
  import opened Canonical
  import CanonicalLaws
  import L = Lexicographic
  import T = Text

  /** Numbers and texts stay as they are, except that the negative zero becomes zero. */
  lemma {:induction false} ScalarsStay(a: Scalar)
    requires FiniteScalar(a)
    ensures a == Number(Finite("-0.0")) ==> Form(Plain(a)) == Leaf(Number(Finite("0.0")))
    ensures a != Number(Finite("-0.0")) ==> Form(Plain(a)) == Leaf(a)
    ensures Form(Member(a)) == Leaf(a)
  {
  }

  /** Only naive datetimes, non-finite floats outside enum members, and foreign objects are refused. */
  lemma {:induction false} RefusedAtoms(a: Scalar, utc: Option<PyStr>)
    ensures Acceptable(Plain(a)) <==> a != Number(NotANumber) && a != Number(Infinite(true)) && a != Number(Infinite(false))
    ensures Acceptable(Member(a)) && !Acceptable(Foreign)
    ensures Acceptable(Instant(utc)) <==> utc != None
    ensures utc != None ==> Form(Instant(utc)) == Leaf(Str(utc.value))
  {
  }

  /** In the object for a record or a mapping, keys are in code point order, every key occurs once, and the value of
      a key is the form of the last field with that name. */
  lemma {:induction false} ObjectShape(fs: seq<Field>, kind: MappingKind, i: nat, j: nat)
    requires Acceptable(Record(fs))
    ensures Acceptable(Mapping(kind, fs)) && Form(Mapping(kind, fs)) == Form(Record(fs)) && Form(Record(fs)).Object?
    ensures var es := Form(Record(fs)).entries;
            && (i < j < |es| ==> es[i].name != es[j].name && exists k: nat :: L.DecidedAt(es[i].name, es[j].name, k))
            && (i < |es| ==> exists n: nat :: IsLastField(fs, es[i].name, n) && es[i].value == Form(fs[n].value))
            && (i < |fs| ==> exists n: nat :: n < |es| && es[n].name == fs[i].name)
  {
    var es := DictOf(FieldForms(fs));
    DictIncreases(FieldForms(fs));
    assert es == Form(Record(fs)).entries;
    if i < j < |es| {
      L.LeIff(es[i].name, es[j].name);
    }
    if i < |es| {
      var n := EntryIsLast(fs, i);
    }
    if i < |fs| {
      FieldIsListed(fs, i);
    }
  }

  /** Field `n` is the last one named `name`. */
  ghost predicate IsLastField(fs: seq<Field>, name: PyStr, n: nat) {
    n < |fs| && fs[n].name == name && forall m | n < m < |fs| :: fs[m].name != name
  }

  lemma {:induction false} LastNamedIs(fs: seq<Field>, es: seq<Entry>, name: PyStr) returns (n: nat)
    requires (forall i :: 0 <= i < |fs| ==> Acceptable(fs[i].value)) && es == FieldForms(fs) && LastNamed(es, name).Some?
    ensures IsLastField(fs, name, n) && LastNamed(es, name) == Some(Form(fs[n].value))
  {
    var m := |es| - 1;
    if es[m].name == name {
      n := m;
    } else {
      assert es[..m] == FieldForms(fs[..m]);
      n := LastNamedIs(fs[..m], es[..m], name);
    }
  }

  lemma {:induction false} EntryIsLast(fs: seq<Field>, i: nat) returns (n: nat)
    requires (forall i :: 0 <= i < |fs| ==> Acceptable(fs[i].value)) && i < |DictOf(FieldForms(fs))|
    ensures var e := DictOf(FieldForms(fs))[i]; IsLastField(fs, e.name, n) && e.value == Form(fs[n].value)
  {
    var es := FieldForms(fs);
    var d := DictOf(es);
    DictIncreases(es);
    CanonicalLaws.FindAt(d, i);
    DictFindsLast(es, d[i].name);
    n := LastNamedIs(fs, es, d[i].name);
  }

  lemma {:induction false} FieldIsListed(fs: seq<Field>, i: nat)
    requires (forall i :: 0 <= i < |fs| ==> Acceptable(fs[i].value)) && i < |fs|
    ensures exists n: nat :: n < |DictOf(FieldForms(fs))| && DictOf(FieldForms(fs))[n].name == fs[i].name
  {
    var es := FieldForms(fs);
    CanonicalLaws.NamedIsFound(es, i);
    DictFindsLast(es, es[i].name);
    FoundNames(DictOf(es), es[i].name);
  }

  /** The array for a list has the forms in order; that for a set has them in the code point order of their texts. */
  lemma {:induction false} ArrayShape(vs: seq<Value>, i: nat, j: nat)
    requires Acceptable(Sequence(vs))
    ensures Form(Sequence(vs)).Array? && |Form(Sequence(vs)).items| == |vs|
    ensures i < |vs| ==> Form(Sequence(vs)).items[i] == Form(vs[i])
    ensures Acceptable(Collection(vs)) && Form(Collection(vs)).Array?
    ensures multiset(Form(Collection(vs)).items) == multiset(Form(Sequence(vs)).items)
    ensures var items := Form(Collection(vs)).items; i < j < |items| ==> T.InCodeOrder(Dumps(Compact, items[i]), Dumps(Compact, items[j]))
  {
    var items := StableSort(TextLe, Forms(vs));
    CanonicalLaws.TextOrder();
    SortSorts(TextLe, Forms(vs));
    if i < j < |items| {
      assert TextLe(items[i], items[j]);
      T.LeIff(Text(items[i]), Text(items[j]));
    }
  }

  /** A value is hashed iff it is acceptable and the payloads of its enum members are finite where they survive. */
  lemma {:induction false} HashedIff(v: Value)
    ensures CanonicalJson(v).Ok? <==> Acceptable(v) && FiniteJson(Form(v))
    ensures CanonicalJson(v).Ok? ==> CanonicalJson(v).value == Dumps(Compact, Form(v))
  {
    CanonIsForm(v);
  }

  /** A form can be written without `allow_nan` iff every number in it, at any depth, is finite. */
  lemma {:induction false} FiniteIff(a: Scalar, items: seq<Json>, es: seq<Entry>)
    ensures FiniteJson(Leaf(a)) <==> a != Number(NotANumber) && a != Number(Infinite(true)) && a != Number(Infinite(false))
    ensures FiniteJson(Array(items)) <==> forall j :: j in items ==> FiniteJson(j)
    ensures FiniteJson(Object(es)) <==> forall e :: e in es ==> FiniteJson(e.value)
  {
    assert forall i :: 0 <= i < |items| ==> items[i] in items;
    assert forall i :: 0 <= i < |es| ==> es[i] in es;
  }
}
