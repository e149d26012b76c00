/** What Codex is promised of an adapted schema: the strict subset of src/codexSchema.ts:27-34, node by node. */
module CodexStrict {
  import opened Common
  import opened CodexSchema

  /** A node that describes objects, by name or by declaring properties, admits the declared ones only and requires
      each of them; so do all nodes below it. */
  predicate Strict(s: Schema)
    decreases s, 1
  {
    && (s.types == One(ObjectType) || s.properties.Declaring? ==>
          s.types == One(ObjectType) && s.properties.Declaring? && s.closed)
    && (forall name :: name in s.required && s.properties.Declaring? ==>
          exists i :: 0 <= i < |s.properties.list| && s.properties.list[i].name == name)
    && (s.properties.Declaring? ==> StrictProperties(s.required, s.properties.list))
    && (s.items.Some? ==> Strict(s.items.value))
  }

  predicate StrictProperties(required: seq<string>, properties: seq<Property>)
    decreases properties, 0
  {
    properties == []
    || (properties[0].name in required && Strict(properties[0].schema) && StrictProperties(required, properties[1..]))
  }

  lemma {:induction false} NamesAre(properties: seq<Property>)
    ensures forall name :: name in Names(properties) <==>
      exists i :: 0 <= i < |properties| && properties[i].name == name
  {
    if properties != [] {
      NamesAre(properties[1..]);
      forall name ensures name in Names(properties) <==>
        exists i :: 0 <= i < |properties| && properties[i].name == name
      {
        if name in Names(properties[1..]) {
          var i :| 0 <= i < |properties[1..]| && properties[1..][i].name == name;
          assert properties[i + 1].name == name;
        }
        if i :| 0 <= i < |properties| && properties[i].name == name {
          assert i > 0 ==> properties[1..][i - 1].name == name;
        }
      }
    }
  }

  /** Adaptation reaches the strict subset whatever the author wrote. */
  lemma {:induction false} AdaptedIsStrict(env: Env, s: Schema)
    requires Ranked(env)
    ensures Strict(Adapt(env, s))
    decreases s, 1
  {
    if s.items.Some? {
      AdaptedIsStrict(env, s.items.value);
    }
    if s.properties.Declaring? {
      NamesAre(s.properties.list);
      AdaptedPropertiesAreStrict(env, s.required, s.properties.list, Names(s.properties.list));
      var adapted := Adapt(env, s);
      forall name | name in adapted.required
        ensures exists i :: 0 <= i < |adapted.properties.list| && adapted.properties.list[i].name == name
      {
        var i :| 0 <= i < |s.properties.list| && s.properties.list[i].name == name;
        AdaptedProperty(env, s.required, s.properties.list, i);
        assert adapted.properties.list[i].name == name;
      }
    }
  }

  lemma {:induction false} AdaptedPropertiesAreStrict(env: Env, required: seq<string>, properties: seq<Property>,
      all: seq<string>)
    requires Ranked(env) && forall i :: 0 <= i < |properties| ==> properties[i].name in all
    ensures StrictProperties(all, AdaptProperties(env, required, properties))
    decreases properties, 0
  {
    if properties != [] {
      AdaptedIsStrict(env, properties[0].schema);
      AdaptedPropertiesAreStrict(env, required, properties[1..], all);
    }
  }

  /** No node, here or below, describes objects. */
  predicate Objectless(s: Schema) {
    s.types != One(ObjectType) && s.properties.Undeclared? && (s.items.Some? ==> Objectless(s.items.value))
  }

  /** A schema without object nodes is handed over as the author wrote it. */
  lemma {:induction false} OthersAreUntouched(env: Env, s: Schema)
    requires Ranked(env) && Objectless(s)
    ensures Adapt(env, s) == s
    decreases s
  {
    if s.items.Some? {
      OthersAreUntouched(env, s.items.value);
    }
  }

  lemma {:induction false} NamesAreKept(env: Env, required: seq<string>, properties: seq<Property>)
    requires Ranked(env)
    ensures Names(AdaptProperties(env, required, properties)) == Names(properties)
    decreases |properties|
  {
    if properties != [] {
      NamesAreKept(env, required, properties[1..]);
    }
  }

  /** What the subset does not prescribe, and which properties are declared, stays. */
  lemma KeywordsAreKept(env: Env, s: Schema)
    requires Ranked(env)
    ensures var a := Adapt(env, s);
      && a.constant == s.constant && a.enumeration == s.enumeration && a.maximum == s.maximum
      && a.minItems == s.minItems && a.reference == s.reference
      && Names(Declared(a)) == Names(Declared(s))
  {
    if s.properties.Declaring? {
      NamesAreKept(env, s.required, s.properties.list);
    }
  }
}
