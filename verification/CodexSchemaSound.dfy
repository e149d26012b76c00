/**
  Exactly when schema adaptation preserves meaning. `Harmless` is a check on the author's schema: it fails
  for properties under a type that excludes objects, and for a property that one of the schemas of a place
  requires, with null allowed, while another makes its null synthetic; in both cases only where the adapted
  schemas can be satisfied at all. Every value of the adapted schema restores to a value of the author's
  schema if and only if the schema is harmless.
 */
module CodexSchemaSound {
  import opened Common
  import opened CodexSchema
  import opened CodexRestore
  import opened CodexNodes

  // ---------------------------------------------------------------------------------------------
  // Which places can be reached: satisfiability of adapted schemas
  // ---------------------------------------------------------------------------------------------

  /** A number that no `maximum` excludes. */
  function Low(nodes: seq<Schema>): (low: int)
    ensures low <= 0
    ensures forall n :: n in nodes && n.maximum.Some? ==> low <= n.maximum.value
  {
    if nodes == [] then 0
    else
      var rest := Low(nodes[1..]);
      assert forall n :: n in nodes ==> n == nodes[0] || n in nodes[1..];
      if nodes[0].maximum.Some? && nodes[0].maximum.value < rest then nodes[0].maximum.value else rest
  }

  predicate Names(s: Schema, c: Value) {
    s.constant == Some(c) || (s.enumeration.Some? && c in s.enumeration.value)
  }

  /** If any scalar is accepted then one of these is. */
  predicate Candidate(nodes: seq<Schema>, c: Value) {
    || c == Null || c == Boolean(true) || c == Boolean(false) || c == Text("") || c == Number(Low(nodes))
    || exists n :: n in nodes && Names(n, c)
  }

  ghost predicate ScalarOpen(env: Env, nodes: seq<Schema>)
    requires Good(env)
  {
    exists c :: Candidate(nodes, c) && Scalar(c) && AllMeet(env, nodes, c)
  }

  predicate ListOpen(nodes: seq<Schema>) {
    forall n :: n in nodes ==> !ObjectLike(n) && TypeAllows(n.types, ArrayType) && Unconstant(n)
  }

  predicate ObjectTypes(nodes: seq<Schema>) {
    forall n :: n in nodes ==> (ObjectLike(n) || TypeAllows(n.types, ObjectType)) && Unconstant(n)
  }

  /** Every node that closes objects declares every property that is declared, since adapted nodes require
      all they declare. */
  ghost predicate NamesAgree(nodes: seq<Schema>) {
    forall a, b, key :: a in nodes && b in nodes && Has(a, key) && (ObjectLike(b) || b.closed) ==> Has(b, key)
  }

  predicate Declares(nodes: seq<Schema>, key: string) {
    exists n :: n in nodes && Has(n, key)
  }

  /** Null passes for the property, allowed by its schema or in place of an absent value. */
  ghost predicate NullStands(env: Env, nodes: seq<Schema>, key: string)
    requires Good(env)
  {
    forall n :: n in nodes && Has(n, key) ==> Synthetic(env, n, key) || Accepts(env, ChildAt(n, key), Null)
  }

  /** Some object satisfies the adapted form of all nodes. */
  ghost predicate ObjectOpen(env: Env, nodes: seq<Schema>, h: nat)
    requires Good(env) && h > 0
    decreases h, 0
  {
    && ObjectTypes(nodes) && NamesAgree(nodes)
    && forall key :: Declares(nodes, key) ==> NullStands(env, nodes, key) || Sat(env, NodesAt(env, nodes, key), h - 1)
  }

  /** Some value satisfies the adapted form of all nodes, which unfold to depth `h`. */
  ghost predicate Sat(env: Env, nodes: seq<Schema>, h: nat)
    requires Good(env)
    decreases h, 1
  {
    || ScalarOpen(env, nodes)
    || (h > 0 && ListOpen(nodes) &&
      ((forall n :: n in nodes ==> n.minItems == 0) || Sat(env, NodesOfItems(env, nodes), h - 1)))
    || (h > 0 && ObjectOpen(env, nodes, h))
  }

  // ---------------------------------------------------------------------------------------------
  // The check
  // ---------------------------------------------------------------------------------------------

  predicate RequiredIn(nodes: seq<Schema>, key: string) {
    exists n :: n in nodes && key in n.required
  }

  /** One node requires the property and all let null pass, but to another that null means absence. */
  ghost predicate Clash(env: Env, nodes: seq<Schema>, key: string)
    requires Good(env)
  {
    RequiredIn(nodes, key) && SyntheticAt(env, nodes, key) && NullStands(env, nodes, key)
  }

  predicate AllowObjects(nodes: seq<Schema>) {
    forall n :: n in nodes ==> TypeAllows(n.types, ObjectType)
  }

  ghost predicate Harmless(env: Env, nodes: seq<Schema>, h: nat)
    requires Good(env)
    decreases h
  {
    h > 0 ==>
      && (ObjectOpen(env, nodes, h) ==>
            && AllowObjects(nodes)
            && (forall key :: !Clash(env, nodes, key))
            && (forall key :: Declares(nodes, key) ==> Harmless(env, NodesAt(env, nodes, key), h - 1)))
      && (ListOpen(nodes) ==> Harmless(env, NodesOfItems(env, nodes), h - 1))
  }

  // ---------------------------------------------------------------------------------------------
  // A value that is accepted shows that its places can be reached
  // ---------------------------------------------------------------------------------------------

  /** What all nodes make of an object they accept. */
  lemma ObjectMeets(env: Env, nodes: seq<Schema>, entries: seq<Entry>, h: nat)
    requires Good(env) && AllWithin(env, nodes, h) && AllMeet(env, nodes, Object(entries))
    ensures ObjectTypes(nodes) && NamesAgree(nodes)
    ensures forall n, key :: n in nodes && Has(n, key) ==> HasKey(entries, key)
    ensures forall n, i :: n in nodes && 0 <= i < |entries| ==> Stands(env, n, entries[i])
  {
    forall n | n in nodes
      ensures (ObjectLike(n) || TypeAllows(n.types, ObjectType)) && Unconstant(n)
      ensures forall key :: Has(n, key) ==> HasKey(entries, key)
      ensures forall i :: 0 <= i < |entries| ==> Stands(env, n, entries[i])
    {
      assert Meets(env, n, Object(entries)) && Within(env, n, h);
      MeetsObjectIff(env, n, entries);
    }
    forall a, b, key | a in nodes && b in nodes && Has(a, key) && (ObjectLike(b) || b.closed) ensures Has(b, key) {
      var i :| 0 <= i < |entries| && entries[i].key == key;
      assert Stands(env, b, entries[i]);
    }
  }

  lemma ListMeets(env: Env, nodes: seq<Schema>, items: seq<Value>, h: nat)
    requires Good(env) && AllWithin(env, nodes, h) && AllMeet(env, nodes, List(items))
    ensures ListOpen(nodes) && forall n :: n in nodes ==> n.minItems <= |items|
    ensures forall i :: 0 <= i < |items| ==> AcceptedInList(env, nodes, items[i])
  {
    forall n | n in nodes
      ensures !ObjectLike(n) && TypeAllows(n.types, ArrayType) && Unconstant(n) && n.minItems <= |items|
      ensures n.items.Some? ==> forall i :: 0 <= i < |items| ==> Accepts(env, n.items.value, items[i])
    {
      assert Meets(env, n, List(items)) && Within(env, n, h);
      MeetsListIff(env, n, items);
    }
  }

  lemma EntryIsAccepted(env: Env, nodes: seq<Schema>, e: Entry)
    requires Good(env) && forall n :: n in nodes ==> Stands(env, n, e)
    ensures e.value == Null ==> NullStands(env, nodes, e.key)
    ensures !Dropped(env, nodes, e) ==> AcceptedAt(env, nodes, e.key, e.value)
  {
    forall n | n in nodes && Has(n, e.key) && !Dropped(env, nodes, e) ensures Accepts(env, ChildAt(n, e.key), e.value) {
      assert Stands(env, n, e);
    }
  }

  lemma ScalarIsOpen(env: Env, nodes: seq<Schema>, v: Value, h: nat)
    requires Good(env) && AllWithin(env, nodes, h) && AllMeet(env, nodes, v) && Scalar(v)
    ensures ScalarOpen(env, nodes)
  {
    if exists n :: n in nodes && !Unconstant(n) {
      var n :| n in nodes && !Unconstant(n);
      assert Meets(env, n, v) && Within(env, n, h);
      ScalarMeets(env, n, v);
      assert Names(n, v);
      assert Candidate(nodes, v);
    } else {
      var c := match v case Text(_) => Text("") case Number(_) => Number(Low(nodes)) case _ => v;
      assert Candidate(nodes, c);
      forall n | n in nodes ensures Meets(env, n, c) {
        assert Meets(env, n, v) && Within(env, n, h);
        ScalarMeets(env, n, v);
        ScalarMeets(env, n, c);
      }
    }
  }

  lemma SomeDepth(env: Env, nodes: seq<Schema>)
    requires nodes != []
    ensures !AllWithin(env, nodes, 0)
  {
    assert !Within(env, nodes[0], 0);
  }

  /** A property of an accepted object has a null that stands, or a value its schemas accept. */
  lemma PropertyOfObject(env: Env, nodes: seq<Schema>, entries: seq<Entry>, key: string) returns (i: nat)
    requires Good(env) && Declares(nodes, key)
    requires forall n, k :: n in nodes && Has(n, k) ==> HasKey(entries, k)
    requires forall n, j :: n in nodes && 0 <= j < |entries| ==> Stands(env, n, entries[j])
    ensures i < |entries| && entries[i].key == key
    ensures if entries[i].value == Null then NullStands(env, nodes, key)
      else AcceptedAt(env, nodes, key, entries[i].value)
  {
    var n :| n in nodes && Has(n, key);
    i :| 0 <= i < |entries| && entries[i].key == key;
    EntryIsAccepted(env, nodes, entries[i]);
  }

  lemma {:induction false} MeetsIsSat(env: Env, nodes: seq<Schema>, v: Value, h: nat)
    requires Good(env) && AllWithin(env, nodes, h) && AllMeet(env, nodes, v)
    ensures Sat(env, nodes, h)
    ensures v.Object? && h > 0 ==> ObjectOpen(env, nodes, h)
    decreases v, 1
  {
    if Scalar(v) {
      ScalarIsOpen(env, nodes, v, h);
    } else if h == 0 {
      if nodes != [] {
        SomeDepth(env, nodes);
      }
      ScalarIsOpen(env, nodes, Null, h);
    } else if v.List? {
      ListMeets(env, nodes, v.items, h);
      if v.items != [] {
        ItemsIff(env, nodes, h - 1, v.items[0]);
        MeetsIsSat(env, NodesOfItems(env, nodes), v.items[0], h - 1);
      }
    } else {
      ObjectIsOpen(env, nodes, v, h);
    }
  }

  lemma {:induction false} ObjectIsOpen(env: Env, nodes: seq<Schema>, v: Value, h: nat)
    requires Good(env) && AllWithin(env, nodes, h) && v.Object? && AllMeet(env, nodes, v) && h > 0
    ensures ObjectOpen(env, nodes, h)
    decreases v, 0
  {
    ObjectMeets(env, nodes, v.entries, h);
    forall key | Declares(nodes, key) ensures NullStands(env, nodes, key) || Sat(env, NodesAt(env, nodes, key), h - 1) {
      var i := PropertyOfObject(env, nodes, v.entries, key);
      if v.entries[i].value != Null {
        AtIff(env, nodes, key, h - 1, v.entries[i].value);
        MeetsIsSat(env, NodesAt(env, nodes, key), v.entries[i].value, h - 1);
      }
    }
  }

  // ---------------------------------------------------------------------------------------------
  // Harmless schemas are sound
  // ---------------------------------------------------------------------------------------------

  lemma {:induction false} PeelIsValid(env: Env, nodes: seq<Schema>, v: Value, h: nat)
    requires Good(env) && AllWithin(env, nodes, h) && AllMeet(env, nodes, v) && Harmless(env, nodes, h)
    ensures AllValid(env, nodes, Peel(env, nodes, v))
    decreases v, 1
  {
    if Scalar(v) {
      forall n | n in nodes ensures OwnValid(env, n, v) {
        assert Meets(env, n, v) && Within(env, n, h);
        ScalarMeets(env, n, v);
      }
    } else if h == 0 {
      if nodes != [] {
        SomeDepth(env, nodes);
      }
    } else if v.List? {
      ListIsValid(env, nodes, v, h);
    } else {
      ObjectIsValid(env, nodes, v, h);
    }
  }

  lemma {:induction false} ListIsValid(env: Env, nodes: seq<Schema>, v: Value, h: nat)
    requires Good(env) && AllWithin(env, nodes, h) && AllMeet(env, nodes, v) && Harmless(env, nodes, h) && v.List? &&
      h > 0
    ensures AllValid(env, nodes, Peel(env, nodes, v))
    decreases v, 0
  {
    ListMeets(env, nodes, v.items, h);
    var below := NodesOfItems(env, nodes);
    var items := PeelItems(env, below, v.items);
    forall i | 0 <= i < |items| ensures ValidInList(env, nodes, items[i]) {
      ItemsIff(env, nodes, h - 1, v.items[i]);
      PeelIsValid(env, below, v.items[i], h - 1);
      PeelItemsAt(env, below, v.items, i);
      ItemsIff(env, nodes, h - 1, items[i]);
    }
    forall n | n in nodes ensures OwnValid(env, n, List(items)) {
      assert Within(env, n, h);
      ValidListIff(env, n, items);
    }
  }

  /** The author's nodes accept an entry of the result. */
  ghost predicate LeftValid(env: Env, nodes: seq<Schema>, e: Entry)
    requires Good(env)
  {
    forall n :: n in nodes ==> if Has(n, e.key) then Valid(env, ChildAt(n, e.key), e.value) else !n.closed
  }

  lemma EntryIsLeftValid(env: Env, nodes: seq<Schema>, e: Entry, h: nat)
    requires Good(env) && h > 0 && AllWithin(env, nodes, h) && forall n :: n in nodes ==> Stands(env, n, e)
    requires Declares(nodes, e.key) ==>
      AllValid(env, NodesAt(env, nodes, e.key), Peel(env, NodesAt(env, nodes, e.key), e.value))
    ensures LeftValid(env, nodes, PeelEntry(env, nodes, e))
  {
    var r := PeelEntry(env, nodes, e);
    AtIff(env, nodes, e.key, h - 1, r.value);
    forall n | n in nodes ensures if Has(n, e.key) then Valid(env, ChildAt(n, e.key), r.value) else !n.closed {
      assert Stands(env, n, e);
    }
  }

  lemma RequiredIsKept(env: Env, nodes: seq<Schema>, n: Schema, entries: seq<Entry>, key: string)
    requires Good(env) && n in nodes && InFragment(n) && key in n.required && !Clash(env, nodes, key)
    requires forall m, k :: m in nodes && Has(m, k) ==> HasKey(entries, k)
    requires forall m, i :: m in nodes && 0 <= i < |entries| ==> Stands(env, m, entries[i])
    ensures HasKey(PeelEntries(env, nodes, entries), key)
  {
    NamesHold(Declared(n), key);
    assert Has(n, key);
    var i :| 0 <= i < |entries| && entries[i].key == key;
    EntryIsAccepted(env, nodes, entries[i]);
    assert RequiredIn(nodes, key);
    var j := EntryKept(env, nodes, entries, i);
    assert PeelEntries(env, nodes, entries)[j].key == key;
  }

  lemma {:induction false} ObjectIsValid(env: Env, nodes: seq<Schema>, v: Value, h: nat)
    requires Good(env) && AllWithin(env, nodes, h) && AllMeet(env, nodes, v) && Harmless(env, nodes, h) &&
      v.Object? && h > 0
    ensures AllValid(env, nodes, Peel(env, nodes, v))
    decreases v, 0
  {
    MeetsIsSat(env, nodes, v, h);
    ObjectMeets(env, nodes, v.entries, h);
    var entries := PeelEntries(env, nodes, v.entries);
    forall j | 0 <= j < |entries| ensures LeftValid(env, nodes, entries[j]) {
      var i := EntrySource(env, nodes, v.entries, j);
      var e := v.entries[i];
      EntryIsAccepted(env, nodes, e);
      if Declares(nodes, e.key) {
        AtIff(env, nodes, e.key, h - 1, e.value);
        PeelIsValid(env, NodesAt(env, nodes, e.key), e.value, h - 1);
      }
      EntryIsLeftValid(env, nodes, e, h);
    }
    forall n, key | n in nodes && key in n.required ensures HasKey(entries, key) {
      assert Within(env, n, h);
      RequiredIsKept(env, nodes, n, v.entries, key);
    }
    forall n | n in nodes ensures OwnValid(env, n, Object(entries)) {
      assert Within(env, n, h);
      assert forall j :: 0 <= j < |entries| ==> LeftValid(env, nodes, entries[j]);
      ValidObjectIff(env, n, entries);
    }
  }

  // ---------------------------------------------------------------------------------------------
  // Reachable places have values
  // ---------------------------------------------------------------------------------------------

  /** The value may stand at the property. */
  ghost predicate FitsAt(env: Env, nodes: seq<Schema>, key: string, x: Value)
    requires Good(env)
  {
    (x == Null && NullStands(env, nodes, key)) || AcceptedAt(env, nodes, key, x)
  }

  function MostItems(nodes: seq<Schema>): (m: nat)
    ensures forall n :: n in nodes ==> n.minItems <= m
  {
    if nodes == [] then 0
    else
      var rest := MostItems(nodes[1..]);
      assert forall n :: n in nodes ==> n == nodes[0] || n in nodes[1..];
      if nodes[0].minItems > rest then nodes[0].minItems else rest
  }

  function Copies(x: Value, count: nat): (items: seq<Value>)
    ensures |items| == count && forall i :: 0 <= i < count ==> items[i] == x
  {
    if count == 0 then [] else [x] + Copies(x, count - 1)
  }

  lemma ListOfCopies(env: Env, nodes: seq<Schema>, x: Value, count: nat, h: nat)
    requires Good(env) && AllWithin(env, nodes, h) && ListOpen(nodes) && forall n :: n in nodes ==> n.minItems <= count
    requires count > 0 ==> AcceptedInList(env, nodes, x)
    ensures AllMeet(env, nodes, List(Copies(x, count)))
  {
    forall n | n in nodes ensures Meets(env, n, List(Copies(x, count))) {
      assert Within(env, n, h);
      MeetsListIff(env, n, Copies(x, count));
    }
  }

  lemma {:induction false} SatWitness(env: Env, nodes: seq<Schema>, h: nat) returns (v: Value)
    requires Good(env) && AllWithin(env, nodes, h) && Sat(env, nodes, h)
    ensures AllMeet(env, nodes, v)
    decreases h, 2, 0
  {
    if ScalarOpen(env, nodes) {
      v :| Candidate(nodes, v) && Scalar(v) && AllMeet(env, nodes, v);
    } else if ListOpen(nodes) && forall n :: n in nodes ==> n.minItems == 0 {
      v := List(Copies(Null, 0));
      ListOfCopies(env, nodes, Null, 0, h);
    } else if ListOpen(nodes) && Sat(env, NodesOfItems(env, nodes), h - 1) {
      ItemsIff(env, nodes, h - 1, Null);
      var x := SatWitness(env, NodesOfItems(env, nodes), h - 1);
      ItemsIff(env, nodes, h - 1, x);
      v := List(Copies(x, MostItems(nodes)));
      ListOfCopies(env, nodes, x, MostItems(nodes), h);
    } else {
      var entries := AnyObject(env, nodes, h);
      v := Object(entries);
    }
  }

  lemma {:induction false} ValueAt(env: Env, nodes: seq<Schema>, h: nat, key: string) returns (x: Value)
    requires Good(env) && h > 0 && AllWithin(env, nodes, h) && ObjectOpen(env, nodes, h) && Declares(nodes, key)
    ensures FitsAt(env, nodes, key, x)
    decreases h, 0, 0
  {
    if NullStands(env, nodes, key) {
      x := Null;
    } else {
      AtIff(env, nodes, key, h - 1, Null);
      x := SatWitness(env, NodesAt(env, nodes, key), h - 1);
      AtIff(env, nodes, key, h - 1, x);
    }
  }

  ghost predicate AllFit(env: Env, nodes: seq<Schema>, entries: seq<Entry>)
    requires Good(env)
  {
    forall i :: 0 <= i < |entries| ==> FitsAt(env, nodes, entries[i].key, entries[i].value)
  }

  predicate Spells(entries: seq<Entry>, names: seq<string>, key0: string, x0: Value) {
    && |entries| == |names|
    && forall i :: 0 <= i < |names| ==> entries[i].key == names[i] && (names[i] == key0 ==> entries[i].value == x0)
  }

  lemma OneMoreSpelled(e: Entry, rest: seq<Entry>, names: seq<string>, key0: string, x0: Value)
    requires names != [] && Spells(rest, names[1..], key0, x0) && e.key == names[0] && (e.key == key0 ==> e.value == x0)
    ensures Spells([e] + rest, names, key0, x0)
  {
  }

  lemma OneMoreFits(env: Env, nodes: seq<Schema>, e: Entry, rest: seq<Entry>)
    requires Good(env) && FitsAt(env, nodes, e.key, e.value) && AllFit(env, nodes, rest)
    ensures AllFit(env, nodes, [e] + rest)
  {
    var all := [e] + rest;
    forall i | 0 <= i < |all| ensures FitsAt(env, nodes, all[i].key, all[i].value) {
      assert i > 0 ==> all[i] == rest[i - 1];
    }
  }

  /** An entry for each name, with `x0` at `key0`. */
  lemma {:induction false} EntriesFor(env: Env, nodes: seq<Schema>, h: nat, names: seq<string>, key0: string, x0: Value)
      returns (entries: seq<Entry>)
    requires Good(env) && h > 0 && AllWithin(env, nodes, h) && ObjectOpen(env, nodes, h)
    requires (forall k :: k in names ==> Declares(nodes, k)) && (Declares(nodes, key0) ==> FitsAt(env, nodes, key0, x0))
    ensures AllFit(env, nodes, entries) && Spells(entries, names, key0, x0)
    decreases h, 0, 1 + |names|
  {
    if names == [] {
      entries := [];
    } else {
      var rest := EntriesFor(env, nodes, h, names[1..], key0, x0);
      var x := x0;
      if names[0] != key0 {
        x := ValueAt(env, nodes, h, names[0]);
      }
      entries := [Entry(names[0], x)] + rest;
      OneMoreFits(env, nodes, Entry(names[0], x), rest);
      OneMoreSpelled(Entry(names[0], x), rest, names, key0, x0);
    }
  }

  lemma FittingEntryStands(env: Env, nodes: seq<Schema>, n: Schema, first: Schema, e: Entry)
    requires Good(env) && NamesAgree(nodes) && n in nodes && first in nodes && Has(first, e.key) &&
      FitsAt(env, nodes, e.key, e.value)
    ensures Stands(env, n, e)
  {
  }

  /** An object that satisfies all adapted nodes, with `x0` at `key0`. */
  lemma {:induction false} ObjectWitness(env: Env, nodes: seq<Schema>, h: nat, key0: string, x0: Value)
      returns (entries: seq<Entry>)
    requires Good(env) && h > 0 && AllWithin(env, nodes, h) && ObjectOpen(env, nodes, h)
    requires Declares(nodes, key0) ==> FitsAt(env, nodes, key0, x0)
    ensures AllMeet(env, nodes, Object(entries))
    ensures forall i :: 0 <= i < |entries| && entries[i].key == key0 ==> entries[i].value == x0
    ensures Declares(nodes, key0) ==> HasKey(entries, key0)
    decreases h, 1, 0
  {
    if exists n :: n in nodes && ObjectLike(n) {
      var first :| first in nodes && ObjectLike(first);
      var names := CodexSchema.Names(Declared(first));
      forall k ensures k in names <==> Has(first, k) {
        NamesHold(Declared(first), k);
      }
      entries := EntriesFor(env, nodes, h, names, key0, x0);
      forall key | Declares(nodes, key) ensures HasKey(entries, key) {
        assert key in names;
        var i :| 0 <= i < |names| && names[i] == key;
        assert entries[i].key == key;
      }
      forall n | n in nodes ensures Meets(env, n, Object(entries)) {
        forall i | 0 <= i < |entries| ensures Stands(env, n, entries[i]) {
          assert names[i] in names;
          FittingEntryStands(env, nodes, n, first, entries[i]);
        }
        assert Within(env, n, h);
        MeetsObjectIff(env, n, entries);
      }
    } else {
      entries := [];
      forall n | n in nodes ensures Meets(env, n, Object([])) {
        assert Within(env, n, h);
        MeetsObjectIff(env, n, []);
      }
    }
  }

  lemma {:induction false} AnyObject(env: Env, nodes: seq<Schema>, h: nat) returns (entries: seq<Entry>)
    requires Good(env) && h > 0 && AllWithin(env, nodes, h) && ObjectOpen(env, nodes, h)
    ensures AllMeet(env, nodes, Object(entries))
    decreases h, 1, 1
  {
    var x := Null;
    if Declares(nodes, "") {
      x := ValueAt(env, nodes, h, "");
    }
    entries := ObjectWitness(env, nodes, h, "", x);
  }

  // ---------------------------------------------------------------------------------------------
  // Every other schema is unsound
  // ---------------------------------------------------------------------------------------------

  /** An accepted value whose restoration the author's schemas reject. */
  ghost predicate Breaks(env: Env, nodes: seq<Schema>, v: Value)
    requires Good(env)
  {
    AllMeet(env, nodes, v) && !AllValid(env, nodes, Peel(env, nodes, v))
  }

  /** The ways in which a schema can fail the check. */
  lemma HarmIs(env: Env, nodes: seq<Schema>, h: nat)
    requires Good(env) && !Harmless(env, nodes, h)
    ensures h > 0
    ensures || (ListOpen(nodes) && !Harmless(env, NodesOfItems(env, nodes), h - 1))
            || (ObjectOpen(env, nodes, h) && !AllowObjects(nodes))
            || (ObjectOpen(env, nodes, h) && exists key :: Clash(env, nodes, key))
            || (ObjectOpen(env, nodes, h) && exists key ::
              Declares(nodes, key) &&
              !Harmless(env, NodesAt(env, nodes, key), h - 1))
  {
  }

  lemma ItemRejected(env: Env, nodes: seq<Schema>, items: seq<Value>, i: nat)
    requires Good(env) && i < |items| && !ValidInList(env, nodes, items[i])
    ensures !AllValid(env, nodes, List(items))
  {
    var n :| n in nodes && n.items.Some? && !Valid(env, n.items.value, items[i]);
    assert !OwnValid(env, n, List(items));
  }

  lemma ListBreaks(env: Env, nodes: seq<Schema>, h: nat, x: Value) returns (v: Value)
    requires Good(env) && h > 0 && AllWithin(env, nodes, h) && ListOpen(nodes) &&
      Breaks(env, NodesOfItems(env, nodes), x)
    ensures Breaks(env, nodes, v)
  {
    var count := MostItems(nodes) + 1;
    var items := Copies(x, count);
    v := List(items);
    ItemsIff(env, nodes, h - 1, x);
    ListOfCopies(env, nodes, x, count, h);
    var r := PeelItems(env, NodesOfItems(env, nodes), items);
    PeelItemsAt(env, NodesOfItems(env, nodes), items, 0);
    ItemsIff(env, nodes, h - 1, r[0]);
    ItemRejected(env, nodes, r, 0);
  }

  lemma TypeBreaks(env: Env, nodes: seq<Schema>, h: nat) returns (v: Value)
    requires Good(env) && h > 0 && AllWithin(env, nodes, h) && ObjectOpen(env, nodes, h) && !AllowObjects(nodes)
    ensures Breaks(env, nodes, v)
  {
    var entries := AnyObject(env, nodes, h);
    v := Object(entries);
    var n :| n in nodes && !TypeAllows(n.types, ObjectType);
    assert !OwnValid(env, n, Peel(env, nodes, v));
  }

  lemma AbsenceRejected(env: Env, nodes: seq<Schema>, entries: seq<Entry>, key: string)
    requires Good(env) && RequiredIn(nodes, key) && !HasKey(entries, key)
    ensures !AllValid(env, nodes, Object(entries))
  {
    var n :| n in nodes && key in n.required;
    assert !PlainValid(n, Object(entries));
    assert !OwnValid(env, n, Object(entries));
  }

  lemma ClashBreaks(env: Env, nodes: seq<Schema>, h: nat, key: string) returns (v: Value)
    requires Good(env) && h > 0 && AllWithin(env, nodes, h) && ObjectOpen(env, nodes, h) && Clash(env, nodes, key)
    ensures Breaks(env, nodes, v)
  {
    var entries := ObjectWitness(env, nodes, h, key, Null);
    v := Object(entries);
    var r := PeelEntries(env, nodes, entries);
    forall j | 0 <= j < |r| ensures r[j].key != key {
      var i := EntrySource(env, nodes, entries, j);
    }
    AbsenceRejected(env, nodes, r, key);
  }

  lemma BreakFits(env: Env, nodes: seq<Schema>, h: nat, key: string, x: Value)
    requires Good(env) && h > 0 && AllWithin(env, nodes, h) && Breaks(env, NodesAt(env, nodes, key), x)
    ensures FitsAt(env, nodes, key, x)
  {
    AtIff(env, nodes, key, h - 1, x);
  }

  lemma EntryRejected(env: Env, nodes: seq<Schema>, entries: seq<Entry>, j: nat, h: nat)
    requires Good(env) && AllWithin(env, nodes, h) && j < |entries| &&
      !ValidAt(env, nodes, entries[j].key, entries[j].value)
    ensures !AllValid(env, nodes, Object(entries))
  {
    var n :| n in nodes && Has(n, entries[j].key) && !Valid(env, ChildAt(n, entries[j].key), entries[j].value);
    assert Within(env, n, h);
    ValidObjectIff(env, n, entries);
    assert !OwnValid(env, n, Object(entries));
  }

  lemma NullNeverBreaks(env: Env, nodes: seq<Schema>, h: nat)
    requires Good(env) && AllWithin(env, nodes, h)
    ensures !Breaks(env, nodes, Null)
  {
    forall n | n in nodes && AllMeet(env, nodes, Null) ensures OwnValid(env, n, Null) {
      assert Meets(env, n, Null) && Within(env, n, h);
      ScalarMeets(env, n, Null);
    }
  }

  lemma EntryBreaks(env: Env, nodes: seq<Schema>, entries: seq<Entry>, i: nat, h: nat)
    requires Good(env) && h > 0 && AllWithin(env, nodes, h) && i < |entries|
    requires Breaks(env, NodesAt(env, nodes, entries[i].key), entries[i].value)
    ensures !AllValid(env, nodes, Object(PeelEntries(env, nodes, entries)))
  {
    var e, r := entries[i], PeelEntries(env, nodes, entries);
    AtIff(env, nodes, e.key, h - 1, Null);
    NullNeverBreaks(env, NodesAt(env, nodes, e.key), h - 1);
    var j := EntryKept(env, nodes, entries, i);
    AtIff(env, nodes, e.key, h - 1, r[j].value);
    EntryRejected(env, nodes, r, j, h);
  }

  lemma ChildBreaks(env: Env, nodes: seq<Schema>, h: nat, key: string, x: Value) returns (v: Value)
    requires Good(env) && h > 0 && AllWithin(env, nodes, h) && ObjectOpen(env, nodes, h) && Declares(nodes, key)
    requires Breaks(env, NodesAt(env, nodes, key), x)
    ensures Breaks(env, nodes, v)
  {
    BreakFits(env, nodes, h, key, x);
    var entries := ObjectWitness(env, nodes, h, key, x);
    v := Object(entries);
    var i :| 0 <= i < |entries| && entries[i].key == key;
    EntryBreaks(env, nodes, entries, i, h);
  }

  lemma {:induction false} HarmShows(env: Env, nodes: seq<Schema>, h: nat) returns (v: Value)
    requires Good(env) && AllWithin(env, nodes, h) && !Harmless(env, nodes, h)
    ensures Breaks(env, nodes, v)
    decreases h
  {
    HarmIs(env, nodes, h);
    if ListOpen(nodes) && !Harmless(env, NodesOfItems(env, nodes), h - 1) {
      ItemsIff(env, nodes, h - 1, Null);
      var x := HarmShows(env, NodesOfItems(env, nodes), h - 1);
      v := ListBreaks(env, nodes, h, x);
    } else if !AllowObjects(nodes) {
      v := TypeBreaks(env, nodes, h);
    } else if exists key :: Clash(env, nodes, key) {
      var key :| Clash(env, nodes, key);
      v := ClashBreaks(env, nodes, h, key);
    } else {
      var key :| Declares(nodes, key) && !Harmless(env, NodesAt(env, nodes, key), h - 1);
      AtIff(env, nodes, key, h - 1, Null);
      var x := HarmShows(env, NodesAt(env, nodes, key), h - 1);
      v := ChildBreaks(env, nodes, h, key, x);
    }
  }

  // ---------------------------------------------------------------------------------------------
  // The theorem
  // ---------------------------------------------------------------------------------------------

  /** Adaptation preserves meaning for `s`. */
  ghost predicate Preserved(env: Env, s: Schema)
    requires Good(env)
  {
    forall v :: Accepts(env, s, v) ==> Valid(env, s, Restore(env, s, v))
  }

  /** Whatever satisfies the adapted schema satisfies, once restored, the author's schema, if and only if the
      author's schema is harmless. `h` bounds how deep the schema unfolds. */
  lemma AdaptationIsSound(env: Env, s: Schema, b: nat, h: nat)
    requires Good(env) && Fits(env, s, b) && Within(env, s, h)
    ensures Preserved(env, s) <==> Harmless(env, Nodes(env, s), h)
  {
    var nodes := Nodes(env, s);
    NodesWithin(env, s, h);
    forall v ensures Accepts(env, s, v) <==> AllMeet(env, nodes, v) {
      AcceptsIff(env, s, h, v);
    }
    forall v ensures Valid(env, s, Restore(env, s, v)) <==> AllValid(env, nodes, Peel(env, nodes, v)) {
      RestoreIsPeel(env, s, v, b);
      ValidIff(env, s, h, Peel(env, nodes, v));
    }
    if Harmless(env, nodes, h) {
      forall v | Accepts(env, s, v) ensures Valid(env, s, Restore(env, s, v)) {
        PeelIsValid(env, nodes, v, h);
      }
    } else {
      var v := HarmShows(env, nodes, h);
      assert Accepts(env, s, v) && !Valid(env, s, Restore(env, s, v));
    }
  }

  // ---------------------------------------------------------------------------------------------
  // A simple class of harmless schemas
  // ---------------------------------------------------------------------------------------------

  /** Wherever properties are declared the type allows objects, and references have no properties or items
      beside them. */
  ghost predicate Lone(env: Env, s: Schema, h: nat)
    requires Good(env)
    decreases h
  {
    && Within(env, s, h)
    && (s.reference.Some? ==> !ObjectLike(s) && s.items.None? && Lone(env, env.defs[s.reference.value], h - 1))
    && (ObjectLike(s) ==> TypeAllows(s.types, ObjectType))
    && (s.items.Some? ==> Lone(env, s.items.value, h - 1))
    && forall i :: 0 <= i < |Declared(s)| ==> Lone(env, Declared(s)[i].schema, h - 1)
  }

  predicate Blank(s: Schema) {
    !ObjectLike(s) && s.items.None?
  }

  lemma {:induction false} LoneMore(env: Env, s: Schema, h: nat, more: nat)
    requires Good(env) && Lone(env, s, h) && h <= more
    ensures Lone(env, s, more)
    decreases h
  {
    WithinMore(env, s, h, more);
    if s.reference.Some? {
      LoneMore(env, env.defs[s.reference.value], h - 1, more - 1);
    }
    if s.items.Some? {
      LoneMore(env, s.items.value, h - 1, more - 1);
    }
    forall i | 0 <= i < |Declared(s)| ensures Lone(env, Declared(s)[i].schema, more - 1) {
      LoneMore(env, Declared(s)[i].schema, h - 1, more - 1);
    }
  }

  /** The definition at the end of a schema's references. */
  ghost function Core(env: Env, s: Schema): Schema
    requires Good(env)
    decreases Rank(env, s)
  {
    if s.reference.Some? && Defined(env, s.reference.value) then Core(env, env.defs[s.reference.value]) else s
  }

  lemma {:induction false} CoreIsLone(env: Env, s: Schema, h: nat)
    requires Good(env) && Lone(env, s, h)
    ensures Lone(env, Core(env, s), h)
    decreases h
  {
    if s.reference.Some? {
      CoreIsLone(env, env.defs[s.reference.value], h - 1);
      LoneMore(env, Core(env, s), h - 1, h);
    }
  }

  /** Of the nodes of a lone schema only the core has properties or items. */
  lemma {:induction false} OthersAreBlank(env: Env, s: Schema, h: nat)
    requires Good(env) && Lone(env, s, h)
    ensures forall n :: n in Nodes(env, s) ==> (n == Core(env, s) || Blank(n)) && InFragment(n)
    decreases h
  {
    if s.reference.Some? {
      OthersAreBlank(env, env.defs[s.reference.value], h - 1);
    }
  }

  lemma {:induction false} LoneAt(env: Env, s: Schema, h: nat, key: string)
    requires Good(env) && Lone(env, s, h)
    ensures var core := Core(env, s);
      NodesAt(env, Nodes(env, s), key) == if Has(core, key) then Nodes(env, ChildAt(core, key)) else []
    decreases h
  {
    assert [s][1..] == [];
    if s.reference.Some? {
      var d := env.defs[s.reference.value];
      LoneAt(env, d, h - 1, key);
      NodesAtAppend(env, Nodes(env, d), [s], key);
    }
  }

  lemma {:induction false} LoneItems(env: Env, s: Schema, h: nat)
    requires Good(env) && Lone(env, s, h)
    ensures var core := Core(env, s);
      NodesOfItems(env, Nodes(env, s)) == if core.items.Some? then Nodes(env, core.items.value) else []
    decreases h
  {
    assert [s][1..] == [];
    if s.reference.Some? {
      var d := env.defs[s.reference.value];
      LoneItems(env, d, h - 1);
      NodesOfItemsAppend(env, Nodes(env, d), [s]);
    }
  }

  lemma LoneChild(env: Env, s: Schema, key: string, h: nat)
    requires Good(env) && Lone(env, s, h) && Has(s, key)
    ensures h > 0 && Lone(env, ChildAt(s, key), h - 1)
  {
  }

  lemma HarmlessByParts(env: Env, nodes: seq<Schema>, h: nat)
    requires Good(env) && h > 0 && (ObjectTypes(nodes) ==> AllowObjects(nodes)) && forall key :: !Clash(env, nodes, key)
    requires forall key :: Harmless(env, NodesAt(env, nodes, key), h - 1)
    requires Harmless(env, NodesOfItems(env, nodes), h - 1)
    ensures Harmless(env, nodes, h)
  {
  }

  lemma LoneNeverClashes(env: Env, nodes: seq<Schema>, core: Schema, key: string)
    requires Good(env) && forall n :: n in nodes ==> (n == core || Blank(n)) && InFragment(n)
    ensures !Clash(env, nodes, key)
  {
    if RequiredIn(nodes, key) {
      var n :| n in nodes && key in n.required;
      NamesHold(Declared(n), key);
      assert n == core;
    }
  }

  lemma LoneIsClean(env: Env, nodes: seq<Schema>, core: Schema)
    requires Good(env) && (ObjectLike(core) ==> TypeAllows(core.types, ObjectType))
    requires forall n :: n in nodes ==> (n == core || Blank(n)) && InFragment(n)
    ensures ObjectTypes(nodes) ==> AllowObjects(nodes)
    ensures forall key :: !Clash(env, nodes, key)
  {
    forall key ensures !Clash(env, nodes, key) {
      LoneNeverClashes(env, nodes, core, key);
    }
  }

  lemma {:induction false} NothingIsHarmless(env: Env, h: nat)
    requires Good(env)
    ensures Harmless(env, [], h)
    decreases h
  {
    if h > 0 {
      NothingIsHarmless(env, h - 1);
    }
  }

  lemma {:induction false} LoneIsHarmless(env: Env, s: Schema, h: nat)
    requires Good(env) && Lone(env, s, h)
    ensures Harmless(env, Nodes(env, s), h)
    decreases h
  {
    var nodes, core := Nodes(env, s), Core(env, s);
    CoreIsLone(env, s, h);
    OthersAreBlank(env, s, h);
    LoneIsClean(env, nodes, core);
    forall key ensures Harmless(env, NodesAt(env, nodes, key), h - 1) {
      LoneAt(env, s, h, key);
      if Has(core, key) {
        LoneChild(env, core, key, h);
        LoneIsHarmless(env, ChildAt(core, key), h - 1);
      } else {
        NothingIsHarmless(env, h - 1);
      }
    }
    LoneItems(env, s, h);
    if core.items.Some? {
      LoneIsHarmless(env, core.items.value, h - 1);
    } else {
      NothingIsHarmless(env, h - 1);
    }
    HarmlessByParts(env, nodes, h);
  }

  /** So schemas whose references stand alone, and whose types allow the properties they declare, keep
      their meaning. */
  lemma LoneReferencesAreSound(env: Env, s: Schema, b: nat, h: nat)
    requires Good(env) && Fits(env, s, b) && Lone(env, s, h)
    ensures Preserved(env, s)
  {
    LoneIsHarmless(env, s, h);
    AdaptationIsSound(env, s, b, h);
  }

  // ---------------------------------------------------------------------------------------------
  // The two ways to fail
  // ---------------------------------------------------------------------------------------------

  const ANY := Schema(AnyType, None, None, None, Undeclared, [], false, None, 0, None)
  const TEXT := ANY.(types := One(StringType))
  const TEXT_OR_NULL := ANY.(types := Many([StringType, NullType]))

  /** A definition in which `k` is optional text, and a schema that refers to it and itself requires `k`
      to be text or null. */
  const OPTIONAL_K := ANY.(properties := Declaring([Property("k", TEXT, false)]))
  const REQUIRED_K := ANY.(reference := Some("d"), properties := Declaring([Property("k", TEXT_OR_NULL, false)]),
    required := ["k"])
  const ENV := Env(map["d" := OPTIONAL_K], map["d" := 0])

  /** Properties, if only none, under a type that excludes objects. */
  const TEXT_WITH_PROPERTIES := TEXT.(properties := Declaring([]))

  lemma OneName(p: Property)
    ensures CodexSchema.Names([p]) == [p.name]
  {
    assert [p][1..] == [];
  }

  lemma ExamplesFit()
    ensures Good(ENV) && Fits(ENV, REQUIRED_K, 1) && Within(ENV, REQUIRED_K, 3)
    ensures Fits(ENV, TEXT_WITH_PROPERTIES, 1) && Within(ENV, TEXT_WITH_PROPERTIES, 3)
  {
    OneName(Property("k", TEXT_OR_NULL, false));
    assert Fits(ENV, TEXT, 0) && Fits(ENV, TEXT_OR_NULL, 1);
    assert Fits(ENV, OPTIONAL_K, 0);
    EnvFitsIsGood(ENV);
    assert Within(ENV, TEXT, 1) && Within(ENV, TEXT_OR_NULL, 2);
    assert Within(ENV, OPTIONAL_K, 2);
  }

  lemma OnlyK(key: string)
    ensures Has(OPTIONAL_K, key) <==> key == "k"
    ensures Has(REQUIRED_K, key) <==> key == "k"
  {
  }

  lemma NullOfKStands()
    requires Good(ENV)
    ensures Synthetic(ENV, OPTIONAL_K, "k") && !Synthetic(ENV, REQUIRED_K, "k")
    ensures NullStands(ENV, [OPTIONAL_K, REQUIRED_K], "k")
  {
    OnlyK("k");
    assert !AllowsNull(ENV, TEXT, {}) && AllowsNull(ENV, TEXT_OR_NULL, {});
    assert ChildAt(REQUIRED_K, "k") == TEXT_OR_NULL && Adapt(ENV, TEXT_OR_NULL) == TEXT_OR_NULL;
    assert Accepts(ENV, TEXT_OR_NULL, Null);
  }

  lemma SiblingsClash()
    requires Good(ENV)
    ensures Clash(ENV, [OPTIONAL_K, REQUIRED_K], "k")
  {
    NullOfKStands();
    var nodes := [OPTIONAL_K, REQUIRED_K];
    assert nodes[0] in nodes && nodes[1] in nodes && "k" in REQUIRED_K.required;
  }

  lemma SameNames()
    ensures ObjectTypes([OPTIONAL_K, REQUIRED_K]) && NamesAgree([OPTIONAL_K, REQUIRED_K])
    ensures forall key :: Declares([OPTIONAL_K, REQUIRED_K], key) ==> key == "k"
  {
    var nodes := [OPTIONAL_K, REQUIRED_K];
    forall n, key | n in nodes ensures Has(n, key) <==> key == "k" {
      OnlyK(key);
    }
  }

  lemma SiblingsAreOpen()
    requires Good(ENV)
    ensures ObjectOpen(ENV, [OPTIONAL_K, REQUIRED_K], 3)
  {
    NullOfKStands();
    SameNames();
  }

  /** A reference's definition takes the null of `k` for its absence; the schema beside the reference requires
      `k` and allows null. */
  lemma SiblingsOfReferencesBreak()
    ensures Good(ENV) && Fits(ENV, REQUIRED_K, 1) && !Preserved(ENV, REQUIRED_K)
  {
    ExamplesFit();
    SiblingsClash();
    SiblingsAreOpen();
    assert Nodes(ENV, REQUIRED_K) == [OPTIONAL_K, REQUIRED_K];
    assert !Harmless(ENV, [OPTIONAL_K, REQUIRED_K], 3);
    AdaptationIsSound(ENV, REQUIRED_K, 1, 3);
  }

  /** An empty object satisfies the adapted schema, whose type was replaced. */
  lemma TypeWithoutObjectBreaks()
    ensures Good(ENV) && Fits(ENV, TEXT_WITH_PROPERTIES, 1) && !Preserved(ENV, TEXT_WITH_PROPERTIES)
  {
    ExamplesFit();
    var nodes := Nodes(ENV, TEXT_WITH_PROPERTIES);
    assert nodes == [TEXT_WITH_PROPERTIES] && TEXT_WITH_PROPERTIES in nodes;
    assert ObjectOpen(ENV, nodes, 3);
    AdaptationIsSound(ENV, TEXT_WITH_PROPERTIES, 1, 3);
  }
}
