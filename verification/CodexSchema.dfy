/**
  The rewriting of an author's JSON Schema into Codex's strict subset, and `restore`, which removes the
  nulls the rewriting introduced: src/codexSchema.ts:57-229, without combinators.
 */
module CodexSchema {
  import opened Common

  datatype Type = NullType | BooleanType | NumberType | StringType | ArrayType | ObjectType

  /** The `type` keyword: absent, one name, or a list. */
  datatype TypeSpec = AnyType | One(t: Type) | Many(ts: seq<Type>)

  datatype Value =
    | Null
    | Boolean(b: bool)
    | Number(n: int)
    | Text(s: string)
    | List(items: seq<Value>)
    | Object(entries: seq<Entry>)

  datatype Entry = Entry(key: string, value: Value)

  /** A property; `orNull` stands for `anyOf: [schema, {type: "null"}]`. */
  datatype Property = Property(name: string, schema: Schema, orNull: bool)

  datatype Properties = Undeclared | Declaring(list: seq<Property>)

  /** `maximum` stands for the keywords that restrict numbers or strings only; `closed` for
      `additionalProperties: false`; `reference` names one of the root's definitions. */
  datatype Schema = Schema(
    types: TypeSpec,
    constant: Option<Value>,
    enumeration: Option<seq<Value>>,
    maximum: Option<int>,
    properties: Properties,
    required: seq<string>,
    closed: bool,
    items: Option<Schema>,
    minItems: nat,
    reference: Option<string>)

  /** The root's definitions, and an order in which references only go down. */
  datatype Env = Env(defs: map<string, Schema>, rank: map<string, nat>)

  // ---------------------------------------------------------------------------------------------
  // Validity
  // ---------------------------------------------------------------------------------------------

  function TypeOf(v: Value): Type {
    match v
    case Null => NullType
    case Boolean(_) => BooleanType
    case Number(_) => NumberType
    case Text(_) => StringType
    case List(_) => ArrayType
    case Object(_) => ObjectType
  }

  predicate TypeAllows(types: TypeSpec, t: Type) {
    match types
    case AnyType => true
    case One(u) => t == u
    case Many(us) => t in us
  }

  predicate Defined(env: Env, name: string) {
    name in env.defs && name in env.rank
  }

  function Rank(env: Env, s: Schema): nat {
    if s.reference.Some? && Defined(env, s.reference.value) then env.rank[s.reference.value] + 1 else 0
  }

  ghost predicate Ranked(env: Env) {
    forall name :: name in env.defs && name in env.rank ==> Rank(env, env.defs[name]) <= env.rank[name]
  }

  predicate HasKey(entries: seq<Entry>, key: string) {
    exists i :: 0 <= i < |entries| && entries[i].key == key
  }

  function FindProperty(properties: seq<Property>, name: string): (i: nat)
    ensures i <= |properties| && (i < |properties| ==> properties[i].name == name)
    ensures forall j :: 0 <= j < i ==> properties[j].name != name
  {
    if properties == [] || properties[0].name == name then 0 else 1 + FindProperty(properties[1..], name)
  }

  /** Keywords that look at the value as a whole. */
  predicate PlainValid(s: Schema, v: Value) {
    && TypeAllows(s.types, TypeOf(v))
    && (s.constant.Some? ==> v == s.constant.value)
    && (s.enumeration.Some? ==> v in s.enumeration.value)
    && (v.Number? && s.maximum.Some? ==> v.n <= s.maximum.value)
    && (v.List? ==> s.minItems <= |v.items|)
    && (v.Object? ==> forall key :: key in s.required ==> HasKey(v.entries, key))
  }

  ghost predicate Valid(env: Env, s: Schema, v: Value)
    requires Ranked(env)
    decreases v, Rank(env, s), 1
  {
    && PlainValid(s, v)
    && (s.reference.Some? ==> Defined(env, s.reference.value) && Valid(env, env.defs[s.reference.value], v))
    && (v.List? && s.items.Some? ==> forall i :: 0 <= i < |v.items| ==> Valid(env, s.items.value, v.items[i]))
    && (v.Object? ==> forall i :: 0 <= i < |v.entries| ==> EntryValid(env, s, v.entries[i]))
  }

  function Declared(s: Schema): seq<Property> {
    if s.properties.Declaring? then s.properties.list else []
  }

  ghost predicate EntryValid(env: Env, s: Schema, e: Entry)
    requires Ranked(env)
    decreases e, 0, 0
  {
    var i := FindProperty(Declared(s), e.key);
    if i == |Declared(s)| then !s.closed
    else (Declared(s)[i].orNull && e.value == Null) || Valid(env, Declared(s)[i].schema, e.value)
  }

  // ---------------------------------------------------------------------------------------------
  // Adaptation
  // ---------------------------------------------------------------------------------------------

  predicate ObjectLike(s: Schema) {
    s.types == One(ObjectType) || s.properties.Declaring?
  }

  /** `schemaAllowsNull`; `visited` are the references being followed. */
  ghost predicate AllowsNull(env: Env, s: Schema, visited: set<string>)
    requires Ranked(env)
    decreases Rank(env, s)
  {
    if s.reference.Some? then
      var name := s.reference.value;
      name !in visited && Defined(env, name) && AllowsNull(env, env.defs[name], visited + {name})
    else if s.constant.Some? then s.constant.value == Null
    else if s.enumeration.Some? then Null in s.enumeration.value
    else TypeAllows(s.types, NullType)
  }

  ghost predicate NeedsSyntheticNull(env: Env, required: seq<string>, p: Property)
    requires Ranked(env)
  {
    p.name !in required && !AllowsNull(env, p.schema, {})
  }

  function Names(properties: seq<Property>): seq<string> {
    if properties == [] then [] else [properties[0].name] + Names(properties[1..])
  }

  ghost function Adapt(env: Env, s: Schema): Schema
    requires Ranked(env)
    decreases s, 1
  {
    var items := if s.items.Some? then Some(Adapt(env, s.items.value)) else None;
    if ObjectLike(s) then
      s.(types := One(ObjectType),
         properties := Declaring(if s.properties.Declaring? then AdaptProperties(env, s.required, s.properties.list)
           else []),
         required := Names(Declared(s)), closed := true, items := items)
    else s.(items := items)
  }

  ghost function AdaptProperties(env: Env, required: seq<string>, properties: seq<Property>): (r: seq<Property>)
    requires Ranked(env)
    ensures |r| == |properties|
    decreases properties, 0
  {
    if properties == [] then []
    else
      var p := properties[0];
      [Property(p.name, Adapt(env, p.schema), NeedsSyntheticNull(env, required, p))] +
        AdaptProperties(env, required, properties[1..])
  }

  ghost function AdaptEnv(env: Env): Env
    requires Ranked(env)
  {
    Env(map name | name in env.defs :: Adapt(env, env.defs[name]), env.rank)
  }

  lemma AdaptKeepsReference(env: Env, s: Schema)
    requires Ranked(env)
    ensures Adapt(env, s).reference == s.reference && Rank(AdaptEnv(env), Adapt(env, s)) == Rank(env, s)
  {
  }

  lemma AdaptEnvRanked(env: Env)
    requires Ranked(env)
    ensures Ranked(AdaptEnv(env))
  {
    forall name | name in env.defs &&
      name in env.rank ensures Rank(AdaptEnv(env), AdaptEnv(env).defs[name]) <= env.rank[name] {
      AdaptKeepsReference(env, env.defs[name]);
    }
  }

  lemma {:induction false} AdaptedProperty(env: Env, required: seq<string>, properties: seq<Property>, i: nat)
    requires Ranked(env) && i < |properties|
    ensures var p := properties[i];
      AdaptProperties(env, required, properties)[i] ==
        Property(p.name, Adapt(env, p.schema), NeedsSyntheticNull(env, required, p))
    decreases i
  {
    if i > 0 {
      AdaptedProperty(env, required, properties[1..], i - 1);
    }
  }

  // ---------------------------------------------------------------------------------------------
  // Projections
  // ---------------------------------------------------------------------------------------------

  datatype Projection =
    | Identity
    | ObjectProjection(fields: seq<Projected>)
    | ArrayProjection(items: Projection)
    | Composite(projections: seq<Projection>)
    | ReferenceProjection(name: string)

  /** A property's projection, and whether its null is synthetic. */
  datatype Projected = Projected(name: string, projection: Projection, synthetic: bool)

  function Active(projections: seq<Projection>): seq<Projection> {
    Filter(projections, (p: Projection) => p != Identity)
  }

  function Combine(projections: seq<Projection>): Projection {
    var active := Active(projections);
    if active == [] then Identity else if |active| == 1 then active[0] else Composite(active)
  }

  ghost function ProjectionOf(env: Env, s: Schema): Projection
    requires Ranked(env)
    decreases s, 1
  {
    Combine(
      (if s.reference.Some? then [ReferenceProjection(s.reference.value)] else [])
      + (if ObjectLike(s) then
           [ObjectProjection(if s.properties.Declaring? then ProjectedProperties(env, s.required, s.properties.list)
             else [])]
         else [])
      + (if s.items.Some? then [ArrayProjection(ProjectionOf(env, s.items.value))] else []))
  }

  ghost function ProjectedProperties(env: Env, required: seq<string>, properties: seq<Property>): (r: seq<Projected>)
    requires Ranked(env)
    ensures |r| == |properties|
    decreases properties, 0
  {
    if properties == [] then []
    else
      var p := properties[0];
      [Projected(p.name, ProjectionOf(env, p.schema), NeedsSyntheticNull(env, required, p))]
      + ProjectedProperties(env, required, properties[1..])
  }

  lemma {:induction false} ProjectedProperty(env: Env, required: seq<string>, properties: seq<Property>, i: nat)
    requires Ranked(env) && i < |properties|
    ensures var p := properties[i];
      ProjectedProperties(env, required, properties)[i] ==
        Projected(p.name, ProjectionOf(env, p.schema), NeedsSyntheticNull(env, required, p))
    decreases i
  {
    if i > 0 {
      ProjectedProperty(env, required, properties[1..], i - 1);
    }
  }

  ghost function References(env: Env): map<string, Projection>
    requires Ranked(env)
  {
    map name | name in env.defs :: ProjectionOf(env, env.defs[name])
  }

  // ---------------------------------------------------------------------------------------------
  // Restoring
  // ---------------------------------------------------------------------------------------------

  function Size(v: Value): nat
    decreases v, 1
  {
    match v
    case List(items) => 1 + SizeItems(items)
    case Object(entries) => 1 + SizeEntries(entries)
    case _ => 1
  }

  function SizeItems(items: seq<Value>): nat
    decreases items, 0
  {
    if items == [] then 0 else 1 + Size(items[0]) + SizeItems(items[1..])
  }

  function SizeEntries(entries: seq<Entry>): nat
    decreases entries, 0
  {
    if entries == [] then 0 else 1 + SizeEntry(entries[0]) + SizeEntries(entries[1..])
  }

  function SizeEntry(e: Entry): nat
    decreases e, 0
  {
    Size(e.value)
  }

  function FindProjected(fields: seq<Projected>, name: string): (i: nat)
    ensures i <= |fields| && (i < |fields| ==> fields[i].name == name)
    ensures forall j :: 0 <= j < i ==> fields[j].name != name
  {
    if fields == [] || fields[0].name == name then 0 else 1 + FindProjected(fields[1..], name)
  }

  /** The projections that are not being followed. */
  function Unfollowed(refs: map<string, Projection>, active: set<string>): nat {
    |refs.Keys - active|
  }

  lemma FollowingShrinks(refs: map<string, Projection>, active: set<string>, name: string)
    requires name in refs && name !in active
    ensures Unfollowed(refs, active + {name}) < Unfollowed(refs, active)
  {
    assert refs.Keys - active == (refs.Keys - (active + {name})) + {name};
  }

  /** `projectSyntheticNulls`, on values. */
  function Project(v: Value, p: Projection, refs: map<string, Projection>, active: set<string>): (r: Value)
    ensures Size(r) <= Size(v)
    decreases Size(v), Unfollowed(refs, active), p, 1
  {
    match p
    case Identity => v
    case ObjectProjection(fields) => if v.Object? then Object(ProjectEntries(v.entries, fields, refs, active)) else v
    case ArrayProjection(items) => if v.List? then List(ProjectItems(v.items, items, refs, active)) else v
    case Composite(projections) => ProjectAll(v, projections, refs, active)
    case ReferenceProjection(name) =>
      if name in active || name !in refs then v
      else
        FollowingShrinks(refs, active, name);
        Project(v, refs[name], refs, active + {name})
  }

  function ProjectAll(v: Value, projections: seq<Projection>, refs: map<string, Projection>,
      active: set<string>): (r: Value)
    ensures Size(r) <= Size(v)
    decreases Size(v), Unfollowed(refs, active), projections, 0
  {
    if projections == [] then v
      else ProjectAll(Project(v, projections[0], refs, active), projections[1..], refs, active)
  }

  function ProjectItems(items: seq<Value>, p: Projection, refs: map<string, Projection>,
      active: set<string>): (r: seq<Value>)
    ensures |r| == |items| && SizeItems(r) <= SizeItems(items)
    decreases SizeItems(items) + 1, Unfollowed(refs, active), p, 0
  {
    if items == [] then []
    else [Project(items[0], p, refs, active)] + ProjectItems(items[1..], p, refs, active)
  }

  /** Synthetic nulls go, other declared properties are projected, the rest stays. */
  function ProjectEntries(entries: seq<Entry>, fields: seq<Projected>, refs: map<string, Projection>,
      active: set<string>): (r: seq<Entry>)
    ensures SizeEntries(r) <= SizeEntries(entries)
    decreases SizeEntries(entries) + 1, Unfollowed(refs, active), fields, 0
  {
    if entries == [] then []
    else
      var e := entries[0];
      var i := FindProjected(fields, e.key);
      var rest := ProjectEntries(entries[1..], fields, refs, active);
      if i == |fields| then [e] + rest
      else if fields[i].synthetic && e.value == Null then rest
      else [Entry(e.key, Project(e.value, fields[i].projection, refs, active))] + rest
  }

  /** `restore` */
  ghost function Restore(env: Env, s: Schema, v: Value): Value
    requires Ranked(env)
  {
    Project(v, ProjectionOf(env, s), References(env), {})
  }
}
