/**
  What each modelled keyword demands by itself, as the JSON Schema validation vocabulary has it, so that the
  meaning adaptation preserves is the one authors rely on.
 */
module CodexKeywords {
  import opened Common
  import opened CodexSchema

  /** The schema without keywords. */
  const ANYTHING := Schema(AnyType, None, None, None, Undeclared, [], false, None, 0, None)

  lemma {:induction false} NothingForbidsNothing(env: Env, v: Value)
    requires Ranked(env)
    ensures Valid(env, ANYTHING, v)
  {
    if v.Object? {
      forall i | 0 <= i < |v.entries| ensures EntryValid(env, ANYTHING, v.entries[i]) {
        assert Declared(ANYTHING) == [];
      }
    }
  }

  lemma EntriesFree(env: Env, s: Schema, v: Value)
    requires Ranked(env) && v.Object? && s.properties.Undeclared? && !s.closed
    ensures forall i :: 0 <= i < |v.entries| ==> EntryValid(env, s, v.entries[i])
  {
    assert Declared(s) == [];
  }

  predicate HasType(v: Value, t: Type) {
    match t
    case NullType => v.Null?
    case BooleanType => v.Boolean?
    case NumberType => v.Number?
    case StringType => v.Text?
    case ArrayType => v.List?
    case ObjectType => v.Object?
  }

  /** `type`: one name accepts the values of that kind, a list those of any of its names. */
  lemma TypeMeans(env: Env, t: Type, ts: seq<Type>, v: Value)
    requires Ranked(env)
    ensures Valid(env, ANYTHING.(types := One(t)), v) <==> HasType(v, t)
    ensures Valid(env, ANYTHING.(types := Many(ts)), v) <==> exists u :: u in ts && HasType(v, u)
  {
    if v.Object? {
      EntriesFree(env, ANYTHING.(types := One(t)), v);
      EntriesFree(env, ANYTHING.(types := Many(ts)), v);
    }
    assert forall u :: HasType(v, u) <==> u == TypeOf(v);
  }

  /** `const` and `enum` accept the values listed. */
  lemma ConstantsMean(env: Env, w: Value, ws: seq<Value>, v: Value)
    requires Ranked(env)
    ensures Valid(env, ANYTHING.(constant := Some(w)), v) <==> v == w
    ensures Valid(env, ANYTHING.(enumeration := Some(ws)), v) <==> v in ws
  {
    if v.Object? {
      EntriesFree(env, ANYTHING.(constant := Some(w)), v);
      EntriesFree(env, ANYTHING.(enumeration := Some(ws)), v);
    }
  }

  /** `maximum` bounds numbers, inclusively, and `minItems` the length of lists; other values pass. */
  lemma BoundsMean(env: Env, n: int, k: nat, v: Value)
    requires Ranked(env)
    ensures Valid(env, ANYTHING.(maximum := Some(n)), v) <==> (v.Number? ==> v.n <= n)
    ensures Valid(env, ANYTHING.(minItems := k), v) <==> (v.List? ==> |v.items| >= k)
  {
    if v.Object? {
      EntriesFree(env, ANYTHING.(maximum := Some(n)), v);
      EntriesFree(env, ANYTHING.(minItems := k), v);
    }
  }

  /** `required` asks objects for keys, `additionalProperties: false` forbids objects undeclared ones. */
  lemma KeysMean(env: Env, names: seq<string>, v: Value)
    requires Ranked(env)
    ensures Valid(env, ANYTHING.(required := names), v) <==>
      (v.Object? ==> forall key :: key in names ==> exists e :: e in v.entries && e.key == key)
    ensures Valid(env, ANYTHING.(closed := true), v) <==> (v.Object? ==> v.entries == [])
  {
    if v.Object? {
      EntriesFree(env, ANYTHING.(required := names), v);
      forall key | key in names ensures HasKey(v.entries, key) <==> exists e :: e in v.entries && e.key == key {
        if HasKey(v.entries, key) {
          var i :| 0 <= i < |v.entries| && v.entries[i].key == key;
          assert v.entries[i] in v.entries;
        }
        if e :| e in v.entries && e.key == key {
          var i :| 0 <= i < |v.entries| && v.entries[i] == e;
        }
      }
      if v.entries != [] {
        assert !EntryValid(env, ANYTHING.(closed := true), v.entries[0]);
      }
    }
  }

  /** `items` asks every item of a list, `properties` the declared entries of an object. */
  lemma PartsMean(env: Env, s: Schema, name: string, v: Value)
    requires Ranked(env)
    ensures Valid(env, ANYTHING.(items := Some(s)), v) <==>
      (v.List? ==> forall i :: 0 <= i < |v.items| ==> Valid(env, s, v.items[i]))
    ensures Valid(env, ANYTHING.(properties := Declaring([Property(name, s, false)])), v) <==>
      (v.Object? ==> forall i :: 0 <= i < |v.entries| && v.entries[i].key == name ==>
        Valid(env, s, v.entries[i].value))
  {
    var p := ANYTHING.(properties := Declaring([Property(name, s, false)]));
    if v.Object? {
      EntriesFree(env, ANYTHING.(items := Some(s)), v);
      forall i | 0 <= i < |v.entries|
        ensures EntryValid(env, p, v.entries[i]) <==> (v.entries[i].key == name ==> Valid(env, s, v.entries[i].value))
      {
        assert Declared(p)[0].name == name;
      }
    }
  }
}
