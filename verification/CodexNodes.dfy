/**
  Validity node by node: what an adapted schema and the author's schema demand of a value at one place,
  where a schema stands for its own keywords and those of the definitions it refers to.
 */
module CodexNodes {
  import opened Common
  import opened CodexSchema
  import opened CodexRestore

  // ---------------------------------------------------------------------------------------------
  // Validity, node by node
  // ---------------------------------------------------------------------------------------------

  /** The value satisfies the adapted form of `s`. */
  ghost predicate Accepts(env: Env, s: Schema, v: Value)
    requires Good(env)
  {
    Valid(AdaptEnv(env), Adapt(env, s), v)
  }

  /** The value satisfies a schema's own keywords: all but its reference. */
  ghost predicate OwnValid(env: Env, s: Schema, v: Value)
    requires Ranked(env)
  {
    && PlainValid(s, v)
    && (v.List? && s.items.Some? ==> forall i :: 0 <= i < |v.items| ==> Valid(env, s.items.value, v.items[i]))
    && (v.Object? ==> forall i :: 0 <= i < |v.entries| ==> EntryValid(env, s, v.entries[i]))
  }

  ghost predicate Meets(env: Env, s: Schema, v: Value)
    requires Good(env)
  {
    OwnValid(AdaptEnv(env), Adapt(env, s), v)
  }

  ghost predicate AllValid(env: Env, nodes: seq<Schema>, v: Value)
    requires Ranked(env)
  {
    forall n :: n in nodes ==> OwnValid(env, n, v)
  }

  ghost predicate AllMeet(env: Env, nodes: seq<Schema>, v: Value)
    requires Good(env)
  {
    forall n :: n in nodes ==> Meets(env, n, v)
  }

  lemma AllAppend(env: Env, a: seq<Schema>, b: seq<Schema>, v: Value)
    requires Good(env)
    ensures AllValid(env, a + b, v) <==> AllValid(env, a, v) && AllValid(env, b, v)
    ensures AllMeet(env, a + b, v) <==> AllMeet(env, a, v) && AllMeet(env, b, v)
  {
    assert forall n :: n in a + b <==> n in a || n in b;
  }

  lemma AllOne(env: Env, s: Schema, v: Value)
    requires Good(env)
    ensures AllValid(env, [s], v) <==> OwnValid(env, s, v)
    ensures AllMeet(env, [s], v) <==> Meets(env, s, v)
  {
    assert s in [s];
  }

  /** Every reference in the schema is defined, and unfolds to a depth below `h`. */
  ghost predicate Within(env: Env, s: Schema, h: nat)
    decreases h
  {
    && h > 0 && InFragment(s)
    && (s.reference.Some? ==> Defined(env, s.reference.value) && Within(env, env.defs[s.reference.value], h - 1))
    && (s.items.Some? ==> Within(env, s.items.value, h - 1))
    && forall i :: 0 <= i < |Declared(s)| ==> Within(env, Declared(s)[i].schema, h - 1)
  }

  ghost predicate AllWithin(env: Env, nodes: seq<Schema>, h: nat) {
    forall n :: n in nodes ==> Within(env, n, h)
  }

  lemma {:induction false} WithinMore(env: Env, s: Schema, h: nat, more: nat)
    requires Within(env, s, h) && h <= more
    ensures Within(env, s, more)
    decreases h
  {
    if s.reference.Some? {
      WithinMore(env, env.defs[s.reference.value], h - 1, more - 1);
    }
    if s.items.Some? {
      WithinMore(env, s.items.value, h - 1, more - 1);
    }
    forall i | 0 <= i < |Declared(s)| ensures Within(env, Declared(s)[i].schema, more - 1) {
      WithinMore(env, Declared(s)[i].schema, h - 1, more - 1);
    }
  }

  lemma {:induction false} NodesWithin(env: Env, s: Schema, h: nat)
    requires Good(env) && Within(env, s, h)
    ensures AllWithin(env, Nodes(env, s), h)
    decreases h
  {
    if s.reference.Some? {
      var d := env.defs[s.reference.value];
      NodesWithin(env, d, h - 1);
      forall n | n in Nodes(env, d) ensures Within(env, n, h) {
        WithinMore(env, n, h - 1, h);
      }
    }
  }

  lemma Widened(env: Env, properties: seq<Property>, h: nat, more: nat) returns (r: nat)
    requires h <= more && forall i :: 0 <= i < |properties| ==> Within(env, properties[i].schema, h)
    ensures r == more && forall i :: 0 <= i < |properties| ==> Within(env, properties[i].schema, more)
  {
    forall i | 0 <= i < |properties| ensures Within(env, properties[i].schema, more) {
      WithinMore(env, properties[i].schema, h, more);
    }
    r := more;
  }

  /** Schemas without recursion unfold to some depth. */
  lemma {:induction false} FitsWithin(env: Env, s: Schema, b: nat) returns (h: nat)
    requires Good(env) && Fits(env, s, b)
    ensures Within(env, s, h)
    decreases b, s, 1
  {
    var below := FitPropertiesWithin(env, Declared(s), s, b);
    if s.reference.Some? {
      var name := s.reference.value;
      var x := FitsWithin(env, env.defs[name], env.rank[name]);
      WithinMore(env, env.defs[name], x, x + below);
      below := Widened(env, Declared(s), below, x + below);
    }
    if s.items.Some? {
      var x := FitsWithin(env, s.items.value, b);
      WithinMore(env, s.items.value, x, x + below);
      if s.reference.Some? {
        WithinMore(env, env.defs[s.reference.value], below, x + below);
      }
      below := Widened(env, Declared(s), below, x + below);
    }
    h := below + 1;
  }

  lemma {:induction false} FitPropertiesWithin(env: Env, properties: seq<Property>, s: Schema, b: nat) returns (h: nat)
    requires Good(env) && forall i :: 0 <= i < |properties| ==> properties[i] < s && Fits(env, properties[i].schema, b)
    ensures forall i :: 0 <= i < |properties| ==> Within(env, properties[i].schema, h)
    decreases b, s, 0, |properties|
  {
    h := 0;
    if properties != [] {
      var x := FitsWithin(env, properties[0].schema, b);
      var y := FitPropertiesWithin(env, properties[1..], s, b);
      WithinMore(env, properties[0].schema, x, x + y);
      var z := Widened(env, properties[1..], y, x + y);
      h := x + y;
    }
  }

  /** A value satisfies a schema if it satisfies the keywords of each of its nodes. */
  lemma {:induction false} ValidIff(env: Env, s: Schema, h: nat, v: Value)
    requires Good(env) && Within(env, s, h)
    ensures Valid(env, s, v) <==> AllValid(env, Nodes(env, s), v)
    decreases h
  {
    AllOne(env, s, v);
    if s.reference.Some? {
      var d := env.defs[s.reference.value];
      ValidIff(env, d, h - 1, v);
      AllAppend(env, Nodes(env, d), [s], v);
    }
  }

  lemma {:induction false} AcceptsIff(env: Env, s: Schema, h: nat, v: Value)
    requires Good(env) && Within(env, s, h)
    ensures Accepts(env, s, v) <==> AllMeet(env, Nodes(env, s), v)
    decreases h
  {
    AllOne(env, s, v);
    if s.reference.Some? {
      var d := env.defs[s.reference.value];
      AcceptsIff(env, d, h - 1, v);
      AllAppend(env, Nodes(env, d), [s], v);
      assert AdaptEnv(env).defs[s.reference.value] == Adapt(env, d);
    }
  }

  ghost predicate AcceptedAt(env: Env, nodes: seq<Schema>, key: string, v: Value)
    requires Good(env)
  {
    forall n :: n in nodes && Has(n, key) ==> Accepts(env, ChildAt(n, key), v)
  }

  ghost predicate ValidAt(env: Env, nodes: seq<Schema>, key: string, v: Value)
    requires Good(env)
  {
    forall n :: n in nodes && Has(n, key) ==> Valid(env, ChildAt(n, key), v)
  }

  ghost predicate AcceptedInList(env: Env, nodes: seq<Schema>, v: Value)
    requires Good(env)
  {
    forall n :: n in nodes && n.items.Some? ==> Accepts(env, n.items.value, v)
  }

  ghost predicate ValidInList(env: Env, nodes: seq<Schema>, v: Value)
    requires Good(env)
  {
    forall n :: n in nodes && n.items.Some? ==> Valid(env, n.items.value, v)
  }

  /** One more schema applies. */
  lemma OneMore(env: Env, s: Schema, rest: seq<Schema>, h: nat, v: Value)
    requires Good(env) && Within(env, s, h) && AllWithin(env, rest, h)
    ensures AllWithin(env, Nodes(env, s) + rest, h)
    ensures AllMeet(env, Nodes(env, s) + rest, v) <==> Accepts(env, s, v) && AllMeet(env, rest, v)
    ensures AllValid(env, Nodes(env, s) + rest, v) <==> Valid(env, s, v) && AllValid(env, rest, v)
  {
    ValidIff(env, s, h, v);
    AcceptsIff(env, s, h, v);
    NodesWithin(env, s, h);
    AllAppend(env, Nodes(env, s), rest, v);
  }

  lemma FirstAndRest(env: Env, n: Schema, rest: seq<Schema>, key: string, v: Value)
    requires Good(env)
    ensures AcceptedAt(env, [n] + rest, key, v) <==>
      (Has(n, key) ==> Accepts(env, ChildAt(n, key), v)) &&
      AcceptedAt(env, rest, key, v)
    ensures ValidAt(env, [n] + rest, key, v) <==>
      (Has(n, key) ==> Valid(env, ChildAt(n, key), v)) &&
      ValidAt(env, rest, key, v)
    ensures AcceptedInList(env, [n] + rest, v) <==>
      (n.items.Some? ==> Accepts(env, n.items.value, v)) && AcceptedInList(env, rest, v)
    ensures ValidInList(env, [n] + rest, v) <==>
      (n.items.Some? ==> Valid(env, n.items.value, v)) &&
      ValidInList(env, rest, v)
  {
    assert forall m :: m in [n] + rest <==> m == n || m in rest;
  }

  lemma ChildWithin(env: Env, s: Schema, key: string, h: nat)
    requires Within(env, s, h + 1) && Has(s, key)
    ensures Within(env, ChildAt(s, key), h)
  {
  }

  /** What the first of several nodes adds. */
  lemma AtFirst(env: Env, n: Schema, rest: seq<Schema>, key: string, h: nat, v: Value)
    requires Good(env) && Within(env, n, h + 1) && AllWithin(env, NodesAt(env, rest, key), h)
    ensures var all := NodesAt(env, [n] + rest, key);
      && AllWithin(env, all, h)
      && (AllMeet(env, all, v) <==>
        (Has(n, key) ==> Accepts(env, ChildAt(n, key), v)) &&
        AllMeet(env, NodesAt(env, rest, key), v))
      && (AllValid(env, all, v) <==>
        (Has(n, key) ==> Valid(env, ChildAt(n, key), v)) &&
        AllValid(env, NodesAt(env, rest, key), v))
  {
    assert ([n] + rest)[1..] == rest;
    if Has(n, key) {
      ChildWithin(env, n, key, h);
      OneMore(env, ChildAt(n, key), NodesAt(env, rest, key), h, v);
    } else {
      assert [] + NodesAt(env, rest, key) == NodesAt(env, rest, key);
    }
  }

  /** What `nodes` say of a property's value. */
  lemma {:induction false} AtIff(env: Env, nodes: seq<Schema>, key: string, h: nat, v: Value)
    requires Good(env) && AllWithin(env, nodes, h + 1)
    ensures AllWithin(env, NodesAt(env, nodes, key), h)
    ensures AllMeet(env, NodesAt(env, nodes, key), v) <==> AcceptedAt(env, nodes, key, v)
    ensures AllValid(env, NodesAt(env, nodes, key), v) <==> ValidAt(env, nodes, key, v)
    decreases |nodes|
  {
    if nodes != [] {
      var n, rest := nodes[0], nodes[1..];
      assert nodes == [n] + rest && n in nodes && Within(env, n, h + 1);
      AtIff(env, rest, key, h, v);
      AtFirst(env, n, rest, key, h, v);
      FirstAndRest(env, n, rest, key, v);
    }
  }

  lemma ItemsFirst(env: Env, n: Schema, rest: seq<Schema>, h: nat, v: Value)
    requires Good(env) && Within(env, n, h + 1) && AllWithin(env, NodesOfItems(env, rest), h)
    ensures var all, other := NodesOfItems(env, [n] + rest), NodesOfItems(env, rest);
      && AllWithin(env, all, h)
      && (AllMeet(env, all, v) <==> (n.items.Some? ==> Accepts(env, n.items.value, v)) && AllMeet(env, other, v))
      && (AllValid(env, all, v) <==> (n.items.Some? ==> Valid(env, n.items.value, v)) && AllValid(env, other, v))
  {
    assert ([n] + rest)[1..] == rest;
    if n.items.Some? {
      OneMore(env, n.items.value, NodesOfItems(env, rest), h, v);
    } else {
      assert [] + NodesOfItems(env, rest) == NodesOfItems(env, rest);
    }
  }

  /** What `nodes` say of the items of a list. */
  lemma {:induction false} ItemsIff(env: Env, nodes: seq<Schema>, h: nat, v: Value)
    requires Good(env) && AllWithin(env, nodes, h + 1)
    ensures AllWithin(env, NodesOfItems(env, nodes), h)
    ensures AllMeet(env, NodesOfItems(env, nodes), v) <==> AcceptedInList(env, nodes, v)
    ensures AllValid(env, NodesOfItems(env, nodes), v) <==> ValidInList(env, nodes, v)
    decreases |nodes|
  {
    if nodes != [] {
      var n, rest := nodes[0], nodes[1..];
      assert nodes == [n] + rest && n in nodes && Within(env, n, h + 1);
      ItemsIff(env, rest, h, v);
      ItemsFirst(env, n, rest, h, v);
      FirstAndRest(env, n, rest, "", v);
    }
  }

  // ---------------------------------------------------------------------------------------------
  // One node, one kind of value
  // ---------------------------------------------------------------------------------------------

  predicate Unconstant(s: Schema) {
    s.constant.None? && s.enumeration.None?
  }

  /** The property's value, or the null that stands for its absence. */
  ghost predicate Stands(env: Env, s: Schema, e: Entry)
    requires Good(env)
  {
    if Has(s, e.key) then (Synthetic(env, s, e.key) && e.value == Null) || Accepts(env, ChildAt(s, e.key), e.value)
    else !ObjectLike(s) && !s.closed
  }

  lemma AdaptedEntry(env: Env, s: Schema, e: Entry)
    requires Good(env) && InFragment(s)
    ensures EntryValid(AdaptEnv(env), Adapt(env, s), e) <==> Stands(env, s, e)
  {
    if s.properties.Declaring? {
      var list := s.properties.list;
      var k := FindProperty(list, e.key);
      SameLookup(env, s.required, list, e.key);
      if k < |list| {
        AdaptedProperty(env, s.required, list, k);
      }
    }
  }

  /** What the adapted form of a node demands of an object. */
  lemma MeetsObjectIff(env: Env, s: Schema, entries: seq<Entry>)
    requires Good(env) && InFragment(s)
    ensures Meets(env, s, Object(entries)) <==>
      && (ObjectLike(s) || TypeAllows(s.types, ObjectType)) && Unconstant(s)
      && (forall key :: Has(s, key) ==> HasKey(entries, key))
      && (forall i :: 0 <= i < |entries| ==> Stands(env, s, entries[i]))
  {
    var v := Object(entries);
    assert v.entries == entries;
    forall i | 0 <= i < |entries| ensures EntryValid(AdaptEnv(env), Adapt(env, s), entries[i]) <==>
      Stands(env, s, entries[i]) {
      AdaptedEntry(env, s, entries[i]);
    }
    forall key ensures key in Adapt(env, s).required <==> Has(s, key) {
      NamesHold(Declared(s), key);
      assert s.properties.Undeclared? ==> Declared(s) == [] && Names(Declared(s)) == [];
    }
  }

  /** What the author's node demands of an object. */
  lemma ValidObjectIff(env: Env, s: Schema, entries: seq<Entry>)
    requires Good(env) && InFragment(s)
    ensures OwnValid(env, s, Object(entries)) <==>
      && TypeAllows(s.types, ObjectType) && Unconstant(s)
      && (forall key :: key in s.required ==> HasKey(entries, key))
      && (forall i :: 0 <= i < |entries| ==>
            if Has(s, entries[i].key) then Valid(env, ChildAt(s, entries[i].key), entries[i].value) else !s.closed)
  {
    var v := Object(entries);
    assert v.entries == entries;
  }

  lemma MeetsListIff(env: Env, s: Schema, items: seq<Value>)
    requires Good(env) && InFragment(s)
    ensures Meets(env, s, List(items)) <==>
      && !ObjectLike(s) && TypeAllows(s.types, ArrayType) && Unconstant(s) && s.minItems <= |items|
      && (s.items.Some? ==> forall i :: 0 <= i < |items| ==> Accepts(env, s.items.value, items[i]))
  {
    var v := List(items);
    assert v.items == items;
  }

  lemma ValidListIff(env: Env, s: Schema, items: seq<Value>)
    requires Good(env) && InFragment(s)
    ensures OwnValid(env, s, List(items)) <==>
      && TypeAllows(s.types, ArrayType) && Unconstant(s) && s.minItems <= |items|
      && (s.items.Some? ==> forall i :: 0 <= i < |items| ==> Valid(env, s.items.value, items[i]))
  {
    var v := List(items);
    assert v.items == items;
  }

  /** Scalars are accepted by an adapted node only when the author's node accepts them. */
  lemma ScalarMeets(env: Env, s: Schema, v: Value)
    requires Good(env) && InFragment(s) && Scalar(v)
    ensures Meets(env, s, v) <==> !ObjectLike(s) && PlainValid(s, v)
    ensures OwnValid(env, s, v) <==> PlainValid(s, v)
  {
  }
}
