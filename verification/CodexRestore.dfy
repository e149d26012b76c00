/**
  What `restore` does to a value, place by place: at every place it removes the null that any schema which
  applies there made synthetic. Several schemas apply to one place where a reference has siblings, so
  everything is said of lists of nodes: the definitions a schema refers to, and then the schema itself.
 */
module CodexRestore {
  import opened Common
  import opened CodexSchema

  // ---------------------------------------------------------------------------------------------
  // The fragment
  // ---------------------------------------------------------------------------------------------

  predicate Scalar(v: Value) {
    !v.List? && !v.Object?
  }

  /** Required properties are declared, and constants are scalars. */
  predicate InFragment(s: Schema) {
    && (forall key :: key in s.required ==> key in Names(Declared(s)))
    && (forall i :: 0 <= i < |Declared(s)| ==> !Declared(s)[i].orNull)
    && (s.constant.Some? ==> Scalar(s.constant.value))
    && (s.enumeration.Some? ==> forall v :: v in s.enumeration.value ==> Scalar(v))
  }

  /** Every node is in the fragment, and every reference is defined with a rank below `b`. */
  ghost predicate Fits(env: Env, s: Schema, b: nat)
    decreases s
  {
    && InFragment(s)
    && (s.reference.Some? ==> Defined(env, s.reference.value) && env.rank[s.reference.value] < b)
    && (s.items.Some? ==> Fits(env, s.items.value, b))
    && (s.properties.Declaring? ==> forall i :: 0 <= i < |s.properties.list| ==>
      Fits(env, s.properties.list[i].schema, b))
  }

  /** Definitions refer only to definitions of lower rank: no recursion. */
  ghost predicate EnvFits(env: Env) {
    forall name :: name in env.defs ==> name in env.rank && Fits(env, env.defs[name], env.rank[name])
  }

  ghost predicate Good(env: Env) {
    EnvFits(env) && Ranked(env) && Ranked(AdaptEnv(env))
  }

  lemma EnvFitsIsGood(env: Env)
    requires EnvFits(env)
    ensures Good(env)
  {
    assert Ranked(env);
    AdaptEnvRanked(env);
  }

  /** No reference that `b` bounds is being followed. */
  ghost predicate Clear(env: Env, active: set<string>, b: nat) {
    forall name :: name in active ==> name in env.rank && env.rank[name] >= b
  }

  predicate Has(s: Schema, key: string) {
    FindProperty(Declared(s), key) < |Declared(s)|
  }

  function ChildAt(s: Schema, key: string): Schema
    requires Has(s, key)
  {
    Declared(s)[FindProperty(Declared(s), key)].schema
  }

  lemma {:induction false} NamesHold(properties: seq<Property>, key: string)
    ensures key in Names(properties) <==> FindProperty(properties, key) < |properties|
    decreases |properties|
  {
    if properties != [] {
      NamesHold(properties[1..], key);
    }
  }

  // ---------------------------------------------------------------------------------------------
  // Projections, in the order in which they are made
  // ---------------------------------------------------------------------------------------------

  lemma {:induction false} ProjectAllAppend(v: Value, a: seq<Projection>, b: seq<Projection>,
      refs: map<string, Projection>, active: set<string>)
    ensures ProjectAll(v, a + b, refs, active) == ProjectAll(ProjectAll(v, a, refs, active), b, refs, active)
    decreases |a|
  {
    if a == [] {
      assert a + b == b;
    } else {
      assert (a + b)[1..] == a[1..] + b;
      ProjectAllAppend(Project(v, a[0], refs, active), a[1..], b, refs, active);
    }
  }

  lemma ProjectAllOne(v: Value, p: Projection, refs: map<string, Projection>, active: set<string>)
    ensures ProjectAll(v, [p], refs, active) == Project(v, p, refs, active)
  {
    assert [p][1..] == [];
  }

  /** Combining projections that do something is making them in turn. */
  lemma CombineProjects(v: Value, ps: seq<Projection>, refs: map<string, Projection>, active: set<string>)
    requires forall p :: p in ps ==> p != Identity
    ensures Project(v, Combine(ps), refs, active) == ProjectAll(v, ps, refs, active)
  {
    FilterAll(ps, (p: Projection) => p != Identity);
    if |ps| == 1 {
      assert ps == [ps[0]];
      ProjectAllOne(v, ps[0], refs, active);
    }
  }

  ghost function Fields(env: Env, s: Schema): seq<Projected>
    requires Ranked(env)
  {
    if s.properties.Declaring? then ProjectedProperties(env, s.required, s.properties.list) else []
  }

  /** A schema's own part of the projection: what its references do not do. */
  ghost function ProjectOwn(env: Env, s: Schema, v: Value, refs: map<string, Projection>, active: set<string>): Value
    requires Ranked(env)
  {
    if v.Object? && ObjectLike(s) then Object(ProjectEntries(v.entries, Fields(env, s), refs, active))
    else if v.List? && s.items.Some? then List(ProjectItems(v.items, ProjectionOf(env, s.items.value), refs, active))
    else v
  }

  lemma AtMostOne(v: Value, ps: seq<Projection>, refs: map<string, Projection>, active: set<string>)
    requires |ps| <= 1
    ensures ProjectAll(v, ps, refs, active) == if ps == [] then v else Project(v, ps[0], refs, active)
  {
    if ps != [] {
      assert ps == [ps[0]];
      ProjectAllOne(v, ps[0], refs, active);
    }
  }

  /** Up to three projections in turn. */
  lemma InOrder(v: Value, r: seq<Projection>, o: seq<Projection>, a: seq<Projection>,
      refs: map<string, Projection>, active: set<string>)
    requires |r| <= 1 && |o| <= 1 && |a| <= 1
    ensures ProjectAll(v, r + o + a, refs, active) ==
      var w := if r == [] then v else Project(v, r[0], refs, active);
      var x := if o == [] then w else Project(w, o[0], refs, active);
      if a == [] then x else Project(x, a[0], refs, active)
  {
    ProjectAllAppend(v, r + o, a, refs, active);
    ProjectAllAppend(v, r, o, refs, active);
    AtMostOne(v, r, refs, active);
    AtMostOne(ProjectAll(v, r, refs, active), o, refs, active);
    AtMostOne(ProjectAll(v, r + o, refs, active), a, refs, active);
  }

  lemma OwnInOrder(env: Env, s: Schema, w: Value, refs: map<string, Projection>, active: set<string>)
    requires Ranked(env)
    ensures ProjectOwn(env, s, w, refs, active) ==
      var x := if ObjectLike(s) then Project(w, ObjectProjection(Fields(env, s)), refs, active) else w;
      if s.items.Some? then Project(x, ArrayProjection(ProjectionOf(env, s.items.value)), refs, active) else x
  {
  }

  /** The projection of a schema follows its reference, then does the schema's own part. */
  lemma ProjectInOrder(env: Env, s: Schema, v: Value, refs: map<string, Projection>, active: set<string>)
    requires Ranked(env)
    ensures Project(v, ProjectionOf(env, s), refs, active) ==
      var w := if s.reference.Some? then Project(v, ReferenceProjection(s.reference.value), refs, active) else v;
      ProjectOwn(env, s, w, refs, active)
  {
    var r := if s.reference.Some? then [ReferenceProjection(s.reference.value)] else [];
    var o := if ObjectLike(s) then [ObjectProjection(Fields(env, s))] else [];
    var a := if s.items.Some? then [ArrayProjection(ProjectionOf(env, s.items.value))] else [];
    CombineProjects(v, r + o + a, refs, active);
    InOrder(v, r, o, a, refs, active);
    var w := if r == [] then v else Project(v, r[0], refs, active);
    OwnInOrder(env, s, w, refs, active);
  }

  lemma FollowReference(v: Value, name: string, refs: map<string, Projection>, active: set<string>)
    requires name in refs && name !in active
    ensures Project(v, ReferenceProjection(name), refs, active) == Project(v, refs[name], refs, active + {name})
  {
    FollowingShrinks(refs, active, name);
  }

  lemma {:induction false} ProjectEntriesShorter(entries: seq<Entry>, fields: seq<Projected>,
      refs: map<string, Projection>, active: set<string>)
    ensures |ProjectEntries(entries, fields, refs, active)| <= |entries|
    decreases |entries|
  {
    if entries != [] {
      ProjectEntriesShorter(entries[1..], fields, refs, active);
    }
  }

  predicate SameShape(v: Value, r: Value) {
    && TypeOf(r) == TypeOf(v) && (Scalar(v) ==> r == v) && (v.List? ==> |r.items| == |v.items|)
    && (v.Object? ==> |r.entries| <= |v.entries|)
  }

  lemma {:induction false} ProjectKeepsShape(v: Value, p: Projection, refs: map<string, Projection>,
      active: set<string>)
    ensures SameShape(v, Project(v, p, refs, active))
    decreases Size(v), Unfollowed(refs, active), p, 1
  {
    match p
    case Composite(projections) => ProjectAllKeepsShape(v, projections, refs, active);
    case ObjectProjection(fields) =>
      if v.Object? {
        ProjectEntriesShorter(v.entries, fields, refs, active);
      }
    case ReferenceProjection(name) =>
      if name !in active && name in refs {
        FollowingShrinks(refs, active, name);
        ProjectKeepsShape(v, refs[name], refs, active + {name});
      }
    case _ =>
  }

  lemma {:induction false} ProjectAllKeepsShape(v: Value, projections: seq<Projection>,
      refs: map<string, Projection>, active: set<string>)
    ensures SameShape(v, ProjectAll(v, projections, refs, active))
    decreases Size(v), Unfollowed(refs, active), projections, 0
  {
    if projections != [] {
      ProjectKeepsShape(v, projections[0], refs, active);
      ProjectAllKeepsShape(Project(v, projections[0], refs, active), projections[1..], refs, active);
    }
  }

  // ---------------------------------------------------------------------------------------------
  // Nulls
  // ---------------------------------------------------------------------------------------------

  /** A schema that null satisfies is recognized as allowing null. */
  lemma {:induction false} NullIsAllowed(env: Env, s: Schema, visited: set<string>)
    requires Ranked(env) && Valid(env, s, Null) && Clear(env, visited, Rank(env, s))
    ensures AllowsNull(env, s, visited)
    decreases Rank(env, s)
  {
    if s.reference.Some? {
      var name := s.reference.value;
      assert name !in visited;
      NullIsAllowed(env, env.defs[name], visited + {name});
    }
  }

  /** Only nulls that the author's schema rejects are synthetic. */
  lemma AllowedNullIsKept(env: Env, required: seq<string>, p: Property)
    requires Ranked(env) && Valid(env, p.schema, Null)
    ensures !NeedsSyntheticNull(env, required, p)
  {
    NullIsAllowed(env, p.schema, {});
  }

  lemma {:induction false} SameLookup(env: Env, required: seq<string>, properties: seq<Property>, key: string)
    requires Ranked(env)
    ensures FindProperty(AdaptProperties(env, required, properties), key) == FindProperty(properties, key)
    ensures FindProjected(ProjectedProperties(env, required, properties), key) == FindProperty(properties, key)
    decreases |properties|
  {
    if properties != [] {
      SameLookup(env, required, properties[1..], key);
    }
  }

  /** The null that adaptation lets stand for an absent property. */
  ghost predicate Synthetic(env: Env, s: Schema, key: string)
    requires Ranked(env)
  {
    Has(s, key) && NeedsSyntheticNull(env, s.required, Declared(s)[FindProperty(Declared(s), key)])
  }

  lemma SyntheticIsRejected(env: Env, s: Schema, key: string)
    requires Ranked(env) && Synthetic(env, s, key)
    ensures key !in s.required && !Valid(env, ChildAt(s, key), Null)
  {
    if Valid(env, ChildAt(s, key), Null) {
      AllowedNullIsKept(env, s.required, Declared(s)[FindProperty(Declared(s), key)]);
    }
  }

  // ---------------------------------------------------------------------------------------------
  // The nodes that apply to a place
  // ---------------------------------------------------------------------------------------------

  /** The definitions a schema refers to, the last one first, and the schema itself. */
  ghost function Nodes(env: Env, s: Schema): seq<Schema>
    requires Ranked(env)
    decreases Rank(env, s)
  {
    if s.reference.Some? && Defined(env, s.reference.value) then Nodes(env, env.defs[s.reference.value]) + [s] else [s]
  }

  /** What applies to a property, when `nodes` apply to the object. */
  ghost function NodesAt(env: Env, nodes: seq<Schema>, key: string): seq<Schema>
    requires Ranked(env)
  {
    if nodes == [] then []
    else (if Has(nodes[0], key) then Nodes(env, ChildAt(nodes[0], key)) else []) + NodesAt(env, nodes[1..], key)
  }

  /** What applies to the items, when `nodes` apply to the list. */
  ghost function NodesOfItems(env: Env, nodes: seq<Schema>): seq<Schema>
    requires Ranked(env)
  {
    if nodes == [] then []
    else (if nodes[0].items.Some? then Nodes(env, nodes[0].items.value) else []) + NodesOfItems(env, nodes[1..])
  }

  lemma {:induction false} NodesAtAppend(env: Env, a: seq<Schema>, b: seq<Schema>, key: string)
    requires Ranked(env)
    ensures NodesAt(env, a + b, key) == NodesAt(env, a, key) + NodesAt(env, b, key)
    decreases |a|
  {
    if a == [] {
      assert a + b == b;
    } else {
      assert (a + b)[1..] == a[1..] + b;
      NodesAtAppend(env, a[1..], b, key);
    }
  }

  lemma {:induction false} NodesOfItemsAppend(env: Env, a: seq<Schema>, b: seq<Schema>)
    requires Ranked(env)
    ensures NodesOfItems(env, a + b) == NodesOfItems(env, a) + NodesOfItems(env, b)
    decreases |a|
  {
    if a == [] {
      assert a + b == b;
    } else {
      assert (a + b)[1..] == a[1..] + b;
      NodesOfItemsAppend(env, a[1..], b);
    }
  }

  // ---------------------------------------------------------------------------------------------
  // Restoring, place by place
  // ---------------------------------------------------------------------------------------------

  ghost predicate SyntheticAt(env: Env, nodes: seq<Schema>, key: string)
    requires Ranked(env)
  {
    exists n :: n in nodes && Synthetic(env, n, key)
  }

  ghost predicate Dropped(env: Env, nodes: seq<Schema>, e: Entry)
    requires Ranked(env)
  {
    e.value == Null && SyntheticAt(env, nodes, e.key)
  }

  /** The value without the nulls that are synthetic for any of the nodes that apply to their place. */
  ghost function Peel(env: Env, nodes: seq<Schema>, v: Value): (r: Value)
    requires Ranked(env)
    ensures TypeOf(r) == TypeOf(v) && (Scalar(v) ==> r == v)
    decreases v, 0
  {
    match v
    case Object(entries) => Object(PeelEntries(env, nodes, entries))
    case List(items) => List(PeelItems(env, NodesOfItems(env, nodes), items))
    case _ => v
  }

  ghost function PeelEntries(env: Env, nodes: seq<Schema>, entries: seq<Entry>): seq<Entry>
    requires Ranked(env)
    decreases entries, 0
  {
    if entries == [] then []
    else
      var rest := PeelEntries(env, nodes, entries[1..]);
      if Dropped(env, nodes, entries[0]) then rest else [PeelEntry(env, nodes, entries[0])] + rest
  }

  ghost function PeelEntry(env: Env, nodes: seq<Schema>, e: Entry): Entry
    requires Ranked(env)
    decreases e, 0
  {
    Entry(e.key, Peel(env, NodesAt(env, nodes, e.key), e.value))
  }

  ghost function PeelItems(env: Env, nodes: seq<Schema>, items: seq<Value>): (r: seq<Value>)
    requires Ranked(env)
    ensures |r| == |items|
    decreases items, 0
  {
    if items == [] then [] else [Peel(env, nodes, items[0])] + PeelItems(env, nodes, items[1..])
  }

  lemma {:induction false} PeelItemsAt(env: Env, nodes: seq<Schema>, items: seq<Value>, i: nat)
    requires Ranked(env) && i < |items|
    ensures PeelItems(env, nodes, items)[i] == Peel(env, nodes, items[i])
    decreases i
  {
    if i > 0 {
      PeelItemsAt(env, nodes, items[1..], i - 1);
    }
  }

  /** What is left of an entry. */
  ghost function Kept(env: Env, nodes: seq<Schema>, e: Entry): seq<Entry>
    requires Ranked(env)
  {
    if Dropped(env, nodes, e) then [] else [PeelEntry(env, nodes, e)]
  }

  lemma FirstKept(env: Env, nodes: seq<Schema>, entries: seq<Entry>)
    requires Ranked(env) && entries != []
    ensures PeelEntries(env, nodes, entries) == Kept(env, nodes, entries[0]) + PeelEntries(env, nodes, entries[1..])
  {
  }

  /** Where an entry of the result comes from. */
  lemma {:induction false} EntrySource(env: Env, nodes: seq<Schema>, entries: seq<Entry>, j: nat) returns (i: nat)
    requires Ranked(env) && j < |PeelEntries(env, nodes, entries)|
    ensures i < |entries| && !Dropped(env, nodes, entries[i])
    ensures PeelEntries(env, nodes, entries)[j] == PeelEntry(env, nodes, entries[i])
    decreases |entries|
  {
    FirstKept(env, nodes, entries);
    var first := Kept(env, nodes, entries[0]);
    if j < |first| {
      i := 0;
    } else {
      var x := EntrySource(env, nodes, entries[1..], j - |first|);
      i := x + 1;
    }
  }

  /** Every entry that is not dropped is in the result. */
  lemma {:induction false} EntryKept(env: Env, nodes: seq<Schema>, entries: seq<Entry>, i: nat) returns (j: nat)
    requires Ranked(env) && i < |entries| && !Dropped(env, nodes, entries[i])
    ensures j < |PeelEntries(env, nodes, entries)|
    ensures PeelEntries(env, nodes, entries)[j] == PeelEntry(env, nodes, entries[i])
    decreases i
  {
    FirstKept(env, nodes, entries);
    if i == 0 {
      j := 0;
    } else {
      var x := EntryKept(env, nodes, entries[1..], i - 1);
      j := |Kept(env, nodes, entries[0])| + x;
    }
  }

  /** What restoring removes from an object is only ever a null that the author's schema rejects. */
  lemma RemovedNullsWereRejected(env: Env, nodes: seq<Schema>, entries: seq<Entry>, i: nat) returns (n: Schema)
    requires Ranked(env) && i < |entries| && !HasKey(PeelEntries(env, nodes, entries), entries[i].key)
    ensures entries[i].value == Null && n in nodes && Has(n, entries[i].key) &&
      !Valid(env, ChildAt(n, entries[i].key), Null)
  {
    if Dropped(env, nodes, entries[i]) {
      n :| n in nodes && Synthetic(env, n, entries[i].key);
      SyntheticIsRejected(env, n, entries[i].key);
    } else {
      var j := EntryKept(env, nodes, entries, i);
    }
  }

  lemma {:induction false} PeelIsSmaller(env: Env, nodes: seq<Schema>, v: Value)
    requires Ranked(env)
    ensures Size(Peel(env, nodes, v)) <= Size(v)
    decreases v, 0
  {
    match v
    case Object(entries) => PeelEntriesSmaller(env, nodes, entries);
    case List(items) => PeelItemsSmaller(env, NodesOfItems(env, nodes), items);
    case _ =>
  }

  lemma {:induction false} PeelEntriesSmaller(env: Env, nodes: seq<Schema>, entries: seq<Entry>)
    requires Ranked(env)
    ensures SizeEntries(PeelEntries(env, nodes, entries)) <= SizeEntries(entries)
    decreases entries, 0
  {
    if entries != [] {
      PeelEntrySmaller(env, nodes, entries[0]);
      PeelEntriesSmaller(env, nodes, entries[1..]);
    }
  }

  lemma {:induction false} PeelEntrySmaller(env: Env, nodes: seq<Schema>, e: Entry)
    requires Ranked(env)
    ensures SizeEntry(PeelEntry(env, nodes, e)) <= SizeEntry(e)
    decreases e, 0
  {
    PeelIsSmaller(env, NodesAt(env, nodes, e.key), e.value);
  }

  lemma {:induction false} PeelItemsSmaller(env: Env, nodes: seq<Schema>, items: seq<Value>)
    requires Ranked(env)
    ensures SizeItems(PeelItems(env, nodes, items)) <= SizeItems(items)
    decreases items, 0
  {
    if items != [] {
      PeelIsSmaller(env, nodes, items[0]);
      PeelItemsSmaller(env, nodes, items[1..]);
    }
  }

  // Restoring by two lists of nodes is restoring by one list after the other.

  lemma SyntheticAppend(env: Env, a: seq<Schema>, b: seq<Schema>, key: string)
    requires Ranked(env)
    ensures SyntheticAt(env, a + b, key) <==> SyntheticAt(env, a, key) || SyntheticAt(env, b, key)
  {
    assert forall n :: n in a + b <==> n in a || n in b;
  }

  lemma {:induction false} PeelAppend(env: Env, a: seq<Schema>, b: seq<Schema>, v: Value)
    requires Ranked(env)
    ensures Peel(env, a + b, v) == Peel(env, b, Peel(env, a, v))
    decreases v, 0
  {
    match v
    case Object(entries) => PeelEntriesAppend(env, a, b, entries);
    case List(items) =>
      NodesOfItemsAppend(env, a, b);
      PeelItemsAppend(env, NodesOfItems(env, a), NodesOfItems(env, b), items);
    case _ =>
  }

  lemma {:induction false} PeelItemsAppend(env: Env, a: seq<Schema>, b: seq<Schema>, items: seq<Value>)
    requires Ranked(env)
    ensures PeelItems(env, a + b, items) == PeelItems(env, b, PeelItems(env, a, items))
    decreases items, 0
  {
    if items != [] {
      PeelAppend(env, a, b, items[0]);
      PeelItemsAppend(env, a, b, items[1..]);
      assert PeelItems(env, a, items)[1..] == PeelItems(env, a, items[1..]);
    }
  }

  lemma {:induction false} PeelEntriesAppend(env: Env, a: seq<Schema>, b: seq<Schema>, entries: seq<Entry>)
    requires Ranked(env)
    ensures PeelEntries(env, a + b, entries) == PeelEntries(env, b, PeelEntries(env, a, entries))
    decreases entries, 0
  {
    if entries != [] {
      var e, first := entries[0], PeelEntries(env, a, entries);
      PeelEntriesAppend(env, a, b, entries[1..]);
      SyntheticAppend(env, a, b, e.key);
      PeelEntryAppend(env, a, b, e);
      if !Dropped(env, a, e) {
        assert first[0] == PeelEntry(env, a, e) && first[1..] == PeelEntries(env, a, entries[1..]);
      }
    }
  }

  lemma {:induction false} PeelEntryAppend(env: Env, a: seq<Schema>, b: seq<Schema>, e: Entry)
    requires Ranked(env)
    ensures PeelEntry(env, a + b, e) == PeelEntry(env, b, PeelEntry(env, a, e))
    ensures PeelEntry(env, a, e).value == Null <==> e.value == Null
    decreases e, 0
  {
    NodesAtAppend(env, a, b, e.key);
    PeelAppend(env, NodesAt(env, a, e.key), NodesAt(env, b, e.key), e.value);
  }

  lemma {:induction false} PeelNothing(env: Env, v: Value)
    requires Ranked(env)
    ensures Peel(env, [], v) == v
    decreases v, 0
  {
    match v
    case Object(entries) => PeelNoEntries(env, entries);
    case List(items) => PeelNoItems(env, items);
    case _ =>
  }

  lemma {:induction false} PeelNoItems(env: Env, items: seq<Value>)
    requires Ranked(env)
    ensures PeelItems(env, [], items) == items
    decreases items, 0
  {
    if items != [] {
      PeelNothing(env, items[0]);
      PeelNoItems(env, items[1..]);
    }
  }

  lemma {:induction false} PeelNoEntries(env: Env, entries: seq<Entry>)
    requires Ranked(env)
    ensures PeelEntries(env, [], entries) == entries
    decreases entries, 0
  {
    if entries != [] {
      PeelNoEntry(env, entries[0]);
      PeelNoEntries(env, entries[1..]);
    }
  }

  lemma {:induction false} PeelNoEntry(env: Env, e: Entry)
    requires Ranked(env)
    ensures PeelEntry(env, [], e) == e
    decreases e, 0
  {
    PeelNothing(env, e.value);
  }

  // ---------------------------------------------------------------------------------------------
  // The source's projections do exactly that
  // ---------------------------------------------------------------------------------------------

  lemma NodesAtOne(env: Env, s: Schema, key: string)
    requires Ranked(env)
    ensures NodesAt(env, [s], key) == if Has(s, key) then Nodes(env, ChildAt(s, key)) else []
    ensures SyntheticAt(env, [s], key) <==> Synthetic(env, s, key)
  {
    assert [s][1..] == [];
  }

  /** A field of the projection is the property's. */
  lemma FieldIs(env: Env, s: Schema, key: string)
    requires Ranked(env)
    ensures var fields := Fields(env, s); var k := FindProjected(fields, key);
      && k == FindProperty(Declared(s), key) && |fields| == |Declared(s)|
      && (k < |fields| ==>
        fields[k].projection == ProjectionOf(env, ChildAt(s, key)) &&
        fields[k].synthetic == Synthetic(env, s, key))
  {
    if s.properties.Declaring? {
      SameLookup(env, s.required, s.properties.list, key);
      var k := FindProperty(s.properties.list, key);
      if k < |s.properties.list| {
        ProjectedProperty(env, s.required, s.properties.list, k);
      }
    }
  }

  /** Below a reference its definition's references are still to be followed. */
  lemma ReferenceIsClear(env: Env, s: Schema, active: set<string>, b: nat)
    requires Good(env) && Fits(env, s, b) && Clear(env, active, b) && s.reference.Some?
    ensures var name := s.reference.value;
      && name in env.defs && name in env.rank && name !in active && Rank(env, env.defs[name]) < Rank(env, s)
      && Fits(env, env.defs[name], env.rank[name]) && Clear(env, active + {name}, env.rank[name])
      && Nodes(env, s) == Nodes(env, env.defs[name]) + [s]
  {
  }

  lemma PeelLast(env: Env, before: seq<Schema>, s: Schema, v: Value, w: Value)
    requires Ranked(env) && w == Peel(env, before, v)
    ensures Peel(env, before + [s], v) == Peel(env, [s], w) && Size(w) <= Size(v)
  {
    PeelAppend(env, before, [s], v);
    PeelIsSmaller(env, before, v);
  }

  /** Following a schema's projection through a value restores it by the schema's nodes. */
  lemma {:induction false} ProjectIsPeel(env: Env, s: Schema, v: Value, active: set<string>, b: nat)
    requires Good(env) && Fits(env, s, b) && Clear(env, active, b)
    ensures Project(v, ProjectionOf(env, s), References(env), active) == Peel(env, Nodes(env, s), v)
    decreases Size(v), Rank(env, s), 3
  {
    ProjectInOrder(env, s, v, References(env), active);
    if s.reference.Some? {
      var name := s.reference.value;
      ReferenceIsClear(env, s, active, b);
      FollowReference(v, name, References(env), active);
      ProjectIsPeel(env, env.defs[name], v, active + {name}, env.rank[name]);
      var w := Project(v, ReferenceProjection(name), References(env), active);
      PeelLast(env, Nodes(env, env.defs[name]), s, v, w);
      OwnIsPeel(env, s, w, active, b);
    } else {
      OwnIsPeel(env, s, v, active, b);
    }
  }

  lemma {:induction false} NothingDeclared(env: Env, s: Schema, entries: seq<Entry>)
    requires Ranked(env) && Declared(s) == []
    ensures PeelEntries(env, [s], entries) == entries
    decreases |entries|
  {
    if entries != [] {
      NodesAtOne(env, s, entries[0].key);
      PeelNothing(env, entries[0].value);
      NothingDeclared(env, s, entries[1..]);
    }
  }

  lemma {:induction false} OwnIsPeel(env: Env, s: Schema, v: Value, active: set<string>, b: nat)
    requires Good(env) && Fits(env, s, b) && Clear(env, active, b)
    ensures ProjectOwn(env, s, v, References(env), active) == Peel(env, [s], v)
    decreases Size(v), Rank(env, s), 2
  {
    var none: seq<Schema> := [];
    if v.Object? {
      if ObjectLike(s) {
        EntriesArePeeled(env, s, v.entries, active, b);
      } else {
        NothingDeclared(env, s, v.entries);
      }
    } else if v.List? {
      assert [s][1..] == none;
      if s.items.Some? {
        ItemsArePeeled(env, s.items.value, v.items, active, b);
        assert NodesOfItems(env, [s]) == Nodes(env, s.items.value);
      } else {
        assert NodesOfItems(env, [s]) == none;
        PeelNoItems(env, v.items);
      }
    }
  }

  lemma {:induction false} ItemsArePeeled(env: Env, s: Schema, items: seq<Value>, active: set<string>, b: nat)
    requires Good(env) && Fits(env, s, b) && Clear(env, active, b)
    ensures ProjectItems(items, ProjectionOf(env, s), References(env), active) == PeelItems(env, Nodes(env, s), items)
    decreases SizeItems(items) + 1, 0, 0
  {
    if items != [] {
      ProjectIsPeel(env, s, items[0], active, b);
      ItemsArePeeled(env, s, items[1..], active, b);
    }
  }

  lemma {:induction false} EntriesArePeeled(env: Env, s: Schema, entries: seq<Entry>, active: set<string>, b: nat)
    requires Good(env) && Fits(env, s, b) && Clear(env, active, b)
    ensures ProjectEntries(entries, Fields(env, s), References(env), active) == PeelEntries(env, [s], entries)
    decreases SizeEntries(entries) + 1, 0, 0
  {
    if entries != [] {
      var e := entries[0];
      assert SizeEntry(e) == Size(e.value);
      FieldIs(env, s, e.key);
      NodesAtOne(env, s, e.key);
      if Has(s, e.key) {
        ProjectIsPeel(env, ChildAt(s, e.key), e.value, active, b);
      } else {
        PeelNothing(env, e.value);
      }
      EntriesArePeeled(env, s, entries[1..], active, b);
    }
  }

  /** `restore` removes, at each place, the nulls that are synthetic for any schema that applies there. */
  lemma RestoreIsPeel(env: Env, s: Schema, v: Value, b: nat)
    requires Good(env) && Fits(env, s, b)
    ensures Restore(env, s, v) == Peel(env, Nodes(env, s), v)
  {
    ProjectIsPeel(env, s, v, {}, b);
  }
}
