/**
  When two values have the same canonical text: exactly when they are the same JSON data, up to the order in
  which properties were created and what JSON cannot say.
 */
module CanonicalMeaning {
  import opened Common
  import opened CanonicalJson

  /** A bigint anywhere inside makes the value unusable. */
  ghost predicate HasBigInt(v: JsValue) {
    match v
    case BigInt => true
    case List(items) => exists i :: 0 <= i < |items| && HasBigInt(items[i])
    case Record(fields) => exists i :: 0 <= i < |fields| && HasBigInt(fields[i].value)
    case _ => false
  }

  /** In a list, what JSON cannot say stands as null. */
  predicate NullInList(v: JsValue) {
    v.Null? || v.NotFinite? || v.Unprintable?
  }

  /** A scalar as JSON says it: a number that is not finite is null, minus zero is zero. */
  function Said(v: JsValue): JsValue {
    match v
    case NotFinite => Null
    case NegativeZero => Finite([0x30])
    case _ => v
  }

  /** The same JSON data; properties without a value do not count, nor does their order. */
  ghost predicate SameData(v: JsValue, w: JsValue)
    decreases v
  {
    match (v, w)
    case (List(a), List(b)) =>
      |a| == |b| && forall i :: 0 <= i < |a| ==> SameData(a[i], b[i]) || (NullInList(a[i]) && NullInList(b[i]))
    case (Record(a), Record(b)) => AllSaid(a, b) && AllSay(a, b)
    case _ => Said(v) == Said(w)
  }

  ghost predicate AllSaid(a: seq<Field>, b: seq<Field>)
    decreases a, 1
  {
    forall i :: 0 <= i < |a| && !a[i].value.Unprintable? ==> SaidBy(a[i], b)
  }

  ghost predicate AllSay(a: seq<Field>, b: seq<Field>)
    decreases a, 1
  {
    forall j :: 0 <= j < |b| && !b[j].value.Unprintable? ==> SaysIt(a, b[j])
  }

  /** Property `f` has its counterpart in `b`. */
  ghost predicate SaidBy(f: Field, b: seq<Field>)
    decreases f
  {
    exists j :: 0 <= j < |b| && b[j].name == f.name && !b[j].value.Unprintable? && SameData(f.value, b[j].value)
  }

  /** Property `g` has its counterpart in `a`. */
  ghost predicate SaysIt(a: seq<Field>, g: Field)
    decreases a, 0
  {
    exists i :: 0 <= i < |a| && a[i].name == g.name && !a[i].value.Unprintable? && SameData(a[i].value, g.value)
  }

  // ---------------------------------------------------------------------------------------------
  // Which values are refused
  // ---------------------------------------------------------------------------------------------

  lemma {:induction false} RefusedIff(v: JsValue)
    ensures Canonicalize(v).Refused? <==> HasBigInt(v)
    ensures Canonicalize(v).Nothing? <==> v.Unprintable?
    decreases v, 1
  {
    match v
    case List(items) => ItemsRefusedIff(items);
    case Record(fields) =>
      CanonicalFieldsHold(fields);
      forall i | 0 <= i < |fields| ensures Canonicalize(fields[i].value).Refused? <==> HasBigInt(fields[i].value) {
        RefusedIff(fields[i].value);
      }
    case _ =>
  }

  lemma {:induction false} ItemsRefusedIff(items: seq<JsValue>)
    ensures CanonicalItems(items).None? <==> exists i :: 0 <= i < |items| && HasBigInt(items[i])
    decreases items, 0
  {
    if items != [] {
      RefusedIff(items[0]);
      ItemsRefusedIff(items[1..]);
      assert items == [items[0]] + items[1..];
    }
  }

  // ---------------------------------------------------------------------------------------------
  // Lists
  // ---------------------------------------------------------------------------------------------

  function InList(c: Canonical): Json
    requires !c.Refused?
  {
    if c.Nothing? then JNull else c.json
  }

  lemma {:induction false} ItemsAre(items: seq<JsValue>)
    requires CanonicalItems(items).Some?
    ensures |CanonicalItems(items).value| == |items|
    ensures forall i :: 0 <= i < |items| ==>
      !Canonicalize(items[i]).Refused? && CanonicalItems(items).value[i] == InList(Canonicalize(items[i]))
    decreases items
  {
    if items != [] {
      ItemsAre(items[1..]);
      assert forall i :: 1 <= i < |items| ==> items[i] == items[1..][i - 1];
    }
  }

  lemma ItemIsNull(v: JsValue)
    requires !Canonicalize(v).Refused?
    ensures InList(Canonicalize(v)) == JNull <==> NullInList(v)
  {
  }

  lemma {:induction false} SameItems(a: seq<JsValue>, b: seq<JsValue>)
    requires CanonicalItems(a).Some? && CanonicalItems(b).Some? && |a| == |b|
    requires forall i :: 0 <= i < |a| ==>
      Canonicalize(a[i]) == Canonicalize(b[i]) || (NullInList(a[i]) && NullInList(b[i]))
    ensures CanonicalItems(a) == CanonicalItems(b)
  {
    ItemsAre(a);
    ItemsAre(b);
    var x, y := CanonicalItems(a).value, CanonicalItems(b).value;
    forall i | 0 <= i < |a| ensures x[i] == y[i] {
      ItemIsNull(a[i]);
      ItemIsNull(b[i]);
    }
    assert x == y;
  }

  /** Equal items of equal lists: the same canonical value, or null twice. */
  lemma EqualItems(a: seq<JsValue>, b: seq<JsValue>, i: nat)
    requires CanonicalItems(a).Some? && CanonicalItems(a) == CanonicalItems(b) && i < |a|
    ensures i < |b| && !Canonicalize(a[i]).Refused? && !Canonicalize(b[i]).Refused?
    ensures Canonicalize(a[i]) == Canonicalize(b[i]) || (NullInList(a[i]) && NullInList(b[i]))
  {
    ItemsAre(a);
    ItemsAre(b);
    ItemIsNull(a[i]);
    ItemIsNull(b[i]);
  }

  // ---------------------------------------------------------------------------------------------
  // Objects
  // ---------------------------------------------------------------------------------------------

  ghost predicate SameMembers(a: seq<JField>, b: seq<JField>) {
    forall g :: g in a <==> g in b
  }

  /** Sorting forgets the order and nothing else. */
  lemma SortedAgreeIff(a: seq<JField>, b: seq<JField>)
    requires DistinctNames(a) && DistinctNames(b)
    ensures Sorted(a) == Sorted(b) <==> SameMembers(a, b)
  {
    SortedIsOrdered(a);
    SortedIsOrdered(b);
    if SameMembers(a, b) {
      OrderedIsUnique(Sorted(a), Sorted(b));
    }
  }

  /** Objects agree exactly when they print the same properties. */
  lemma RecordsAgreeIff(a: seq<Field>, b: seq<Field>)
    requires Tidy(Record(a)) && Tidy(Record(b)) && CanonicalFields(a).Some? && CanonicalFields(b).Some?
    ensures Canonicalize(Record(a)) == Canonicalize(Record(b)) <==>
      SameMembers(CanonicalFields(a).value, CanonicalFields(b).value)
  {
    CanonicalNamesAreDistinct(a);
    CanonicalNamesAreDistinct(b);
    SortedAgreeIff(CanonicalFields(a).value, CanonicalFields(b).value);
  }

  ghost predicate PrintedBy(f: Field, b: seq<Field>) {
    exists j :: 0 <= j < |b| && b[j].name == f.name && Canonicalize(b[j].value) == Canonicalize(f.value)
  }

  /** Every printed property of `a` is printed by `b`. */
  ghost predicate PrintsAll(a: seq<Field>, b: seq<Field>) {
    forall i :: 0 <= i < |a| && Canonicalize(a[i].value).Printed? ==> PrintedBy(a[i], b)
  }

  lemma PrintedIsMember(a: seq<Field>, b: seq<Field>, g: JField)
    requires CanonicalFields(a).Some? && CanonicalFields(b).Some? && PrintsAll(a, b)
    requires g in CanonicalFields(a).value
    ensures g in CanonicalFields(b).value
  {
    CanonicalFieldsHold(a);
    CanonicalFieldsHold(b);
    var i :| 0 <= i < |a| && Prints(a[i], g);
    assert PrintedBy(a[i], b);
    var j :| 0 <= j < |b| && b[j].name == a[i].name && Canonicalize(b[j].value) == Canonicalize(a[i].value);
    assert Prints(b[j], g);
  }

  lemma MemberIsPrinted(a: seq<Field>, b: seq<Field>, i: nat)
    requires CanonicalFields(a).Some? && CanonicalFields(b).Some?
    requires i < |a| && Canonicalize(a[i].value).Printed?
    requires forall g :: g in CanonicalFields(a).value ==> g in CanonicalFields(b).value
    ensures PrintedBy(a[i], b)
  {
    CanonicalFieldsHold(a);
    CanonicalFieldsHold(b);
    var g := JField(a[i].name, Canonicalize(a[i].value).json);
    assert Prints(a[i], g);
    assert g in CanonicalFields(a).value;
    var j :| 0 <= j < |b| && Prints(b[j], g);
    assert b[j].name == a[i].name && Canonicalize(b[j].value) == Canonicalize(a[i].value);
  }

  lemma MembersIff(a: seq<Field>, b: seq<Field>)
    requires CanonicalFields(a).Some? && CanonicalFields(b).Some?
    ensures PrintsAll(a, b) <==> forall g :: g in CanonicalFields(a).value ==> g in CanonicalFields(b).value
  {
    if PrintsAll(a, b) {
      forall g | g in CanonicalFields(a).value ensures g in CanonicalFields(b).value {
        PrintedIsMember(a, b, g);
      }
    }
    if forall g :: g in CanonicalFields(a).value ==> g in CanonicalFields(b).value {
      forall i | 0 <= i < |a| && Canonicalize(a[i].value).Printed? ensures PrintedBy(a[i], b) {
        MemberIsPrinted(a, b, i);
      }
    }
  }

  lemma ObjectsAgreeIff(a: seq<Field>, b: seq<Field>)
    requires Tidy(Record(a)) && Tidy(Record(b)) && CanonicalFields(a).Some? && CanonicalFields(b).Some?
    ensures Canonicalize(Record(a)) == Canonicalize(Record(b)) <==> PrintsAll(a, b) && PrintsAll(b, a)
  {
    RecordsAgreeIff(a, b);
    MembersIff(a, b);
    MembersIff(b, a);
  }

  // ---------------------------------------------------------------------------------------------
  // The same text means the same data
  // ---------------------------------------------------------------------------------------------

  lemma FieldsUsable(fields: seq<Field>)
    requires !HasBigInt(Record(fields))
    ensures CanonicalFields(fields).Some?
    ensures forall i :: 0 <= i < |fields| ==> !HasBigInt(fields[i].value)
    ensures forall i :: 0 <= i < |fields| ==>
      (Canonicalize(fields[i].value).Printed? <==> !fields[i].value.Unprintable?)
  {
    RefusedIff(Record(fields));
    forall i | 0 <= i < |fields|
      ensures Canonicalize(fields[i].value).Printed? <==> !fields[i].value.Unprintable?
    {
      RefusedIff(fields[i].value);
    }
  }

  lemma {:induction false} TextSaysData(v: JsValue, w: JsValue)
    requires Tidy(v) && Tidy(w) && !HasBigInt(v) && !HasBigInt(w)
    ensures Canonicalize(v) == Canonicalize(w) <==> SameData(v, w)
    decreases v, 2
  {
    RefusedIff(v);
    RefusedIff(w);
    match (v, w)
    case (List(a), List(b)) => ListSaysData(a, b);
    case (Record(a), Record(b)) => ObjectSaysData(a, b);
    case _ =>
  }

  lemma {:induction false} ListSaysData(a: seq<JsValue>, b: seq<JsValue>)
    requires Tidy(List(a)) && Tidy(List(b)) && !HasBigInt(List(a)) && !HasBigInt(List(b))
    ensures Canonicalize(List(a)) == Canonicalize(List(b)) <==> SameData(List(a), List(b))
    decreases a, 1
  {
    RefusedIff(List(a));
    RefusedIff(List(b));
    ItemsAre(a);
    ItemsAre(b);
    if |a| == |b| {
      forall i | 0 <= i < |a| ensures Canonicalize(a[i]) == Canonicalize(b[i]) <==> SameData(a[i], b[i]) {
        TextSaysData(a[i], b[i]);
      }
      if Canonicalize(List(a)) == Canonicalize(List(b)) {
        forall i | 0 <= i < |a| ensures SameData(a[i], b[i]) || (NullInList(a[i]) && NullInList(b[i])) {
          EqualItems(a, b, i);
        }
      }
      if SameData(List(a), List(b)) {
        SameItems(a, b);
      }
    }
  }

  lemma {:induction false} FieldSaysData(a: seq<Field>, b: seq<Field>, i: nat)
    requires Tidy(Record(a)) && Tidy(Record(b)) && !HasBigInt(Record(a)) && !HasBigInt(Record(b))
    requires i < |a| && !a[i].value.Unprintable?
    ensures PrintedBy(a[i], b) <==> SaidBy(a[i], b)
    decreases a, 0
  {
    FieldsUsable(a);
    FieldsUsable(b);
    forall j | 0 <= j < |b|
      ensures Canonicalize(a[i].value) == Canonicalize(b[j].value) <==> SameData(a[i].value, b[j].value)
    {
      TextSaysData(a[i].value, b[j].value);
    }
  }

  lemma {:induction false} FieldIsData(a: seq<Field>, b: seq<Field>, j: nat)
    requires Tidy(Record(a)) && Tidy(Record(b)) && !HasBigInt(Record(a)) && !HasBigInt(Record(b))
    requires j < |b| && !b[j].value.Unprintable?
    ensures PrintedBy(b[j], a) <==> SaysIt(a, b[j])
    decreases a, 0
  {
    FieldsUsable(a);
    FieldsUsable(b);
    forall i | 0 <= i < |a|
      ensures Canonicalize(a[i].value) == Canonicalize(b[j].value) <==> SameData(a[i].value, b[j].value)
    {
      TextSaysData(a[i].value, b[j].value);
    }
  }

  ghost predicate Usable(a: seq<Field>, b: seq<Field>) {
    Tidy(Record(a)) && Tidy(Record(b)) && !HasBigInt(Record(a)) && !HasBigInt(Record(b))
  }

  lemma {:induction false} AllSaidIff(a: seq<Field>, b: seq<Field>)
    requires Usable(a, b)
    ensures PrintsAll(a, b) <==> AllSaid(a, b)
    decreases a, 1
  {
    FieldsUsable(a);
    forall i | 0 <= i < |a| && !a[i].value.Unprintable? ensures PrintedBy(a[i], b) <==> SaidBy(a[i], b) {
      FieldSaysData(a, b, i);
    }
  }

  lemma {:induction false} AllSayIff(a: seq<Field>, b: seq<Field>)
    requires Usable(a, b)
    ensures PrintsAll(b, a) <==> AllSay(a, b)
    decreases a, 1
  {
    FieldsUsable(b);
    forall j | 0 <= j < |b| && !b[j].value.Unprintable? ensures PrintedBy(b[j], a) <==> SaysIt(a, b[j]) {
      FieldIsData(a, b, j);
    }
  }

  lemma {:induction false} ObjectSaysData(a: seq<Field>, b: seq<Field>)
    requires Usable(a, b)
    ensures Canonicalize(Record(a)) == Canonicalize(Record(b)) <==> SameData(Record(a), Record(b))
    decreases a, 2
  {
    FieldsUsable(a);
    FieldsUsable(b);
    ObjectsAgreeIff(a, b);
    AllSaidIff(a, b);
    AllSayIff(a, b);
  }
}
