/** When canonicalising a canonical form again changes nothing. */
module Idempotence {
  import opened Wrappers
  import opened Sequences
  import opened JsonStrings
  import opened JsonText
  import opened JsonObjects
  import opened Canonical
  import opened CanonicalLaws

  /** A canonical form read back as a value. */
  function Embed(j: Json): (v: Value)
    decreases j
  {
    match j
    case Leaf(a) => Plain(a)
    case Array(items) => Sequence(EmbedAll(items))
    case Object(es) => Mapping(PlainDict, EmbedFields(es))
  }

  function EmbedAll(js: seq<Json>): (vs: seq<Value>)
    ensures |vs| == |js| && forall i :: 0 <= i < |js| ==> vs[i] == Embed(js[i])
    decreases js
  {
    seq(|js|, i requires 0 <= i < |js| => Embed(js[i]))
  }

  function EmbedFields(es: seq<Entry>): (fs: seq<Field>)
    ensures |fs| == |es| && forall i :: 0 <= i < |es| ==> fs[i] == Field(es[i].name, Embed(es[i].value))
    decreases es
  {
    seq(|es|, i requires 0 <= i < |es| => Field(es[i].name, Embed(es[i].value)))
  }

  /** A number that `_canonical_value` keeps as it is, or no number. */
  predicate NormalNumber(a: Scalar) {
    FiniteScalar(a) && NormalScalar(a) == a
  }

  /** Keys in order, and every number finite and not the negative zero. */
  ghost predicate Normal(j: Json) {
    match j
    case Leaf(a) => NormalNumber(a)
    case Array(items) => forall i | 0 <= i < |items| :: Normal(items[i])
    case Object(es) => KeysIncrease(es) && forall i | 0 <= i < |es| :: Normal(es[i].value)
  }

  /** No later field has the name of field `i`: the one whose value the dict keeps. */
  ghost predicate Survives(fs: seq<Field>, i: int) {
    0 <= i < |fs| && forall j | i < j < |fs| :: fs[j].name != fs[i].name
  }

  /** Every enum payload that survives key collisions is a number the canonicaliser would keep, or no number. */
  ghost predicate NormalMembers(v: Value) {
    match v
    case Member(payload) => NormalNumber(payload)
    case Record(fs) => forall i | 0 <= i < |fs| && Survives(fs, i) :: NormalMembers(fs[i].value)
    case Mapping(_, fs) => forall i | 0 <= i < |fs| && Survives(fs, i) :: NormalMembers(fs[i].value)
    case Collection(vs) => forall i | 0 <= i < |vs| :: NormalMembers(vs[i])
    case Sequence(vs) => forall i | 0 <= i < |vs| :: NormalMembers(vs[i])
    case _ => true
  }

  /** A form in normal form is its own canonical form. */
  lemma {:induction false} NormalIsFixed(j: Json)
    requires Normal(j)
    ensures Acceptable(Embed(j)) && Form(Embed(j)) == j
    decreases j
  {
    match j
    case Array(items) =>
      forall i | 0 <= i < |items| { NormalIsFixed(items[i]); }
      assert Forms(EmbedAll(items)) == items;
    case Object(es) =>
      forall i | 0 <= i < |es| { NormalIsFixed(es[i].value); }
      assert FieldForms(EmbedFields(es)) == es;
      DictOfDict(es);
    case _ =>
  }

  lemma {:induction false} EmbedHasNoMembers(j: Json)
    ensures NormalMembers(Embed(j))
    decreases j
  {
    match j
    case Array(items) =>
      forall i | 0 <= i < |items| { EmbedHasNoMembers(items[i]); }
    case Object(es) =>
      forall i | 0 <= i < |es| { EmbedHasNoMembers(es[i].value); }
    case _ =>
  }

  // ---------- the entries of a dict are the surviving fields ----------

  lemma {:induction false} LastNamedSurvives(es: seq<Entry>, fs: seq<Field>, k: PyStr) returns (i: int)
    requires |es| == |fs| && forall j :: 0 <= j < |fs| ==> es[j].name == fs[j].name
    requires LastNamed(es, k).Some?
    ensures Survives(fs, i) && fs[i].name == k && LastNamed(es, k) == Some(es[i].value)
  {
    var n := |es| - 1;
    if es[n].name == k {
      i := n;
    } else {
      i := LastNamedSurvives(es[..n], fs[..n], k);
      assert fs[..n][i] == fs[i];
      forall j | i < j < |fs| ensures fs[j].name != fs[i].name {
        assert j < n ==> fs[..n][j].name != fs[..n][i].name;
      }
    }
  }

  lemma {:induction false} SurvivorIsLast(es: seq<Entry>, fs: seq<Field>, i: int)
    requires |es| == |fs| && forall j :: 0 <= j < |fs| ==> es[j].name == fs[j].name
    requires Survives(fs, i)
    ensures LastNamed(es, fs[i].name) == Some(es[i].value)
  {
    var n := |es| - 1;
    if i < n {
      assert fs[n].name != fs[i].name;
      assert fs[..n][i] == fs[i];
      forall j | i < j < n ensures fs[..n][j].name != fs[..n][i].name {
        assert fs[..n][j] == fs[j];
      }
      SurvivorIsLast(es[..n], fs[..n], i);
    }
  }

  lemma {:induction false} FoundIsEntry(d: seq<Entry>, k: PyStr) returns (m: int)
    requires Find(d, k).Some?
    ensures 0 <= m < |d| && d[m] == Entry(k, Find(d, k).value)
  {
    if d[0].name == k {
      m := 0;
    } else {
      m := FoundIsEntry(d[1..], k);
      m := m + 1;
    }
  }

  ghost predicate SurvivorsNormal(fs: seq<Field>)
    requires Acceptable(Record(fs))
  {
    forall i | 0 <= i < |fs| && Survives(fs, i) :: Normal(Form(fs[i].value))
  }

  /** The dict of the fields is normal iff the forms of the surviving fields are. */
  lemma {:induction false} DictNormalIff(fs: seq<Field>)
    requires Acceptable(Record(fs))
    ensures Normal(Object(DictOf(FieldForms(fs)))) <==> SurvivorsNormal(fs)
  {
    var es := FieldForms(fs);
    var d := DictOf(es);
    DictIncreases(es);
    if SurvivorsNormal(fs) {
      forall m | 0 <= m < |d| ensures Normal(d[m].value) {
        FindAt(d, m);
        DictFindsLast(es, d[m].name);
        var i := LastNamedSurvives(es, fs, d[m].name);
      }
    }
    if Normal(Object(d)) {
      forall i | 0 <= i < |fs| && Survives(fs, i) ensures Normal(Form(fs[i].value)) {
        SurvivorIsLast(es, fs, i);
        DictFindsLast(es, fs[i].name);
        var m := FoundIsEntry(d, fs[i].name);
        assert Normal(d[m].value);
      }
    }
  }

  lemma {:induction false} SetNormalIff(vs: seq<Value>)
    requires Acceptable(Collection(vs))
    ensures Normal(Form(Collection(vs))) <==> forall i :: 0 <= i < |vs| ==> Normal(Form(vs[i]))
  {
    var js, sorted := Forms(vs), StableSort(TextLe, Forms(vs));
    var normal := (j: Json) => Normal(j);
    assert Normal(Array(sorted)) == All(normal, sorted);
    if All(normal, js) {
      RearrangedAll(normal, sorted, js);
    } else if All(normal, sorted) {
      RearrangedAll(normal, js, sorted);
    }
    assert All(normal, js) <==> forall i :: 0 <= i < |vs| ==> Normal(Form(vs[i])) by {
      assert forall i :: 0 <= i < |vs| ==> js[i] == Form(vs[i]);
    }
  }

  /** The form is normal iff the surviving enum payloads are. */
  lemma {:induction false} FormNormalIff(v: Value)
    requires Acceptable(v)
    ensures Normal(Form(v)) <==> NormalMembers(v)
    decreases v
  {
    match v
    case Record(fs) =>
      forall i | 0 <= i < |fs| ensures Normal(Form(fs[i].value)) <==> NormalMembers(fs[i].value) { FormNormalIff(fs[i].value); }
      DictNormalIff(fs);
    case Mapping(_, fs) =>
      forall i | 0 <= i < |fs| ensures Normal(Form(fs[i].value)) <==> NormalMembers(fs[i].value) { FormNormalIff(fs[i].value); }
      DictNormalIff(fs);
    case Collection(vs) =>
      forall i | 0 <= i < |vs| ensures Normal(Form(vs[i])) <==> NormalMembers(vs[i]) { FormNormalIff(vs[i]); }
      SetNormalIff(vs);
    case Sequence(vs) =>
      forall i | 0 <= i < |vs| ensures Normal(Forms(vs)[i]) <==> NormalMembers(vs[i]) { FormNormalIff(vs[i]); }
    case _ =>
  }

  ghost predicate Idempotent(v: Value)
    requires Acceptable(v)
  {
    Canon(Embed(Form(v))) == Ok(Form(v))
  }

  /** Canonicalising twice is canonicalising once iff every enum payload that survives key collisions is finite
      and not the negative zero: payloads are returned raw, so a negative zero in one survives the first pass. */
  lemma {:induction false} CanonicalFormIsIdempotentIff(v: Value)
    requires Acceptable(v)
    ensures Idempotent(v) <==> NormalMembers(v)
  {
    var j := Form(v);
    FormNormalIff(v);
    CanonIsForm(Embed(j));
    if Normal(j) {
      NormalIsFixed(j);
    } else if Acceptable(Embed(j)) {
      EmbedHasNoMembers(j);
      FormNormalIff(Embed(j));
    }
  }

  /** An enum member whose value is the negative zero is changed by a second pass. */
  lemma {:induction false} NegativeZeroMemberChanges()
    ensures !Idempotent(Member(Number(Finite("-0.0"))))
    ensures Canon(Embed(Form(Member(Number(Finite("-0.0")))))) == Ok(Leaf(Number(Finite("0.0"))))
  {
  }
}
