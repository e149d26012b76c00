/**
  Which options a call key commits to: the five that affect execution, each by its JSON data, and no other.
 */
module JournalOptions {
  import opened Common
  import opened CanonicalJson
  import opened CanonicalMeaning
  import opened JournalKey

  /** An option that is absent or undefined prints nothing. */
  predicate Absent(options: seq<Field>, name: JsString) {
    var v := Lookup(options, name);
    v.None? || v.value.Unprintable?
  }

  /** Both option objects give this option the same JSON data, or neither gives it any. */
  ghost predicate SameOption(a: seq<Field>, b: seq<Field>, name: JsString) {
    if Absent(a, name) || Absent(b, name) then Absent(a, name) && Absent(b, name)
    else SameData(Lookup(a, name).value, Lookup(b, name).value)
  }

  /** The option, if given, names each property of an object once, at every depth. */
  predicate TidyOption(options: seq<Field>, name: JsString) {
    Lookup(options, name).None? || Tidy(Lookup(options, name).value)
  }

  ghost predicate UsableOption(options: seq<Field>, name: JsString) {
    Lookup(options, name).None? || !HasBigInt(Lookup(options, name).value)
  }

  ghost predicate TidyOptions(options: seq<Field>) {
    && TidyOption(options, Units("schema")) && TidyOption(options, Units("model"))
    && TidyOption(options, Units("effort")) && TidyOption(options, Units("isolation"))
    && TidyOption(options, Units("agentType"))
  }

  ghost predicate SameExecutionOptions(a: seq<Field>, b: seq<Field>) {
    && SameOption(a, b, Units("schema")) && SameOption(a, b, Units("model"))
    && SameOption(a, b, Units("effort")) && SameOption(a, b, Units("isolation"))
    && SameOption(a, b, Units("agentType"))
  }

  lemma {:induction false} SelectedHas(options: seq<Field>, keys: seq<JsString>)
    ensures forall f :: f in Selected(options, keys) <==> f.name in keys && Lookup(options, f.name) == Some(f.value)
    decreases |keys|
  {
    if keys != [] {
      SelectedHas(options, keys[1..]);
      assert keys == [keys[0]] + keys[1..];
    }
  }

  lemma FieldSaid(a: seq<Field>, b: seq<Field>, keys: seq<JsString>, f: Field)
    requires f in Selected(a, keys) && !f.value.Unprintable?
    ensures SaidBy(f, Selected(b, keys)) <==> SameOption(a, b, f.name)
  {
    SelectedHas(a, keys);
    SelectedHas(b, keys);
    var given := Selected(b, keys);
    if SaidBy(f, given) {
      var j :| 0 <= j < |given| && given[j].name == f.name && !given[j].value.Unprintable? &&
        SameData(f.value, given[j].value);
      assert given[j] in given;
    }
    if SameOption(a, b, f.name) {
      var g := Field(f.name, Lookup(b, f.name).value);
      assert g in given;
      var j :| 0 <= j < |given| && given[j] == g;
    }
  }

  lemma FieldSays(a: seq<Field>, b: seq<Field>, keys: seq<JsString>, g: Field)
    requires g in Selected(b, keys) && !g.value.Unprintable?
    ensures SaysIt(Selected(a, keys), g) <==> SameOption(a, b, g.name)
  {
    SelectedHas(a, keys);
    SelectedHas(b, keys);
    var given := Selected(a, keys);
    if SaysIt(given, g) {
      var i :| 0 <= i < |given| && given[i].name == g.name && !given[i].value.Unprintable? &&
        SameData(given[i].value, g.value);
      assert given[i] in given;
    }
    if SameOption(a, b, g.name) {
      var f := Field(g.name, Lookup(a, g.name).value);
      assert f in given;
      var i :| 0 <= i < |given| && given[i] == f;
    }
  }

  lemma OptionIsSame(a: seq<Field>, b: seq<Field>, keys: seq<JsString>, k: JsString)
    requires k in keys && AllSaid(Selected(a, keys), Selected(b, keys)) && AllSay(Selected(a, keys), Selected(b, keys))
    ensures SameOption(a, b, k)
  {
    var (x, y) := (Selected(a, keys), Selected(b, keys));
    SelectedHas(a, keys);
    SelectedHas(b, keys);
    if !Absent(a, k) {
      var f := Field(k, Lookup(a, k).value);
      assert f in x;
      var i :| 0 <= i < |x| && x[i] == f;
      FieldSaid(a, b, keys, f);
    } else if !Absent(b, k) {
      var g := Field(k, Lookup(b, k).value);
      assert g in y;
      var j :| 0 <= j < |y| && y[j] == g;
      FieldSays(a, b, keys, g);
    }
  }

  /** Selected options are the same data exactly when each option is. */
  lemma SelectedSame(a: seq<Field>, b: seq<Field>, keys: seq<JsString>)
    ensures SameData(Record(Selected(a, keys)), Record(Selected(b, keys))) <==>
      forall k :: k in keys ==> SameOption(a, b, k)
  {
    var (x, y) := (Selected(a, keys), Selected(b, keys));
    SelectedHas(a, keys);
    SelectedHas(b, keys);
    forall i | 0 <= i < |x| && !x[i].value.Unprintable? ensures SaidBy(x[i], y) <==> SameOption(a, b, x[i].name) {
      FieldSaid(a, b, keys, x[i]);
    }
    forall j | 0 <= j < |y| && !y[j].value.Unprintable? ensures SaysIt(x, y[j]) <==> SameOption(a, b, y[j].name) {
      FieldSays(a, b, keys, y[j]);
    }
    if AllSaid(x, y) && AllSay(x, y) {
      forall k | k in keys ensures SameOption(a, b, k) {
        OptionIsSame(a, b, keys, k);
      }
    }
    assert forall i :: 0 <= i < |x| ==> x[i] in x;
    assert forall j :: 0 <= j < |y| ==> y[j] in y;
  }

  lemma SelectedUsable(options: seq<Field>, keys: seq<JsString>)
    ensures HasBigInt(Record(Selected(options, keys))) <==> exists k :: k in keys && !UsableOption(options, k)
  {
    var x := Selected(options, keys);
    SelectedHas(options, keys);
    if i :| 0 <= i < |x| && HasBigInt(x[i].value) {
      assert x[i] in x;
      assert !UsableOption(options, x[i].name);
    }
    if k :| k in keys && !UsableOption(options, k) {
      var f := Field(k, Lookup(options, k).value);
      assert f in x;
      var i :| 0 <= i < |x| && x[i] == f;
    }
  }

  lemma FiveAreTidy(options: seq<Field>)
    requires TidyOptions(options)
    ensures Tidy(Record(ExecutionOptions(options)))
  {
    KeysAreNamed();
    KeysAreDistinct();
    SelectedIsTidy(options, EXECUTION_OPTION_KEYS);
  }

  lemma FiveAreSame(a: seq<Field>, b: seq<Field>)
    ensures (forall k :: k in EXECUTION_OPTION_KEYS ==> SameOption(a, b, k)) <==> SameExecutionOptions(a, b)
  {
    KeysAreNamed();
  }

  /** A bigint inside one of the five is the one reason to refuse the options. */
  lemma RefusedOptionsIff(options: seq<Field>)
    ensures CanonicalOptions(options).None? <==>
      || !UsableOption(options, Units("schema")) || !UsableOption(options, Units("model"))
      || !UsableOption(options, Units("effort")) || !UsableOption(options, Units("isolation"))
      || !UsableOption(options, Units("agentType"))
  {
    KeysAreNamed();
    RefusedIff(Record(ExecutionOptions(options)));
    SelectedUsable(options, EXECUTION_OPTION_KEYS);
  }

  /** Two option objects have the same canonical form exactly when `schema`, `model`, `effort`, `isolation`
      and `agentType` are the same data in both; no other option matters. */
  lemma OptionsCommit(a: seq<Field>, b: seq<Field>)
    requires TidyOptions(a) && TidyOptions(b) && CanonicalOptions(a).Some? && CanonicalOptions(b).Some?
    ensures CanonicalOptions(a) == CanonicalOptions(b) <==> SameExecutionOptions(a, b)
  {
    FiveAreTidy(a);
    FiveAreTidy(b);
    RefusedIff(Record(ExecutionOptions(a)));
    RefusedIff(Record(ExecutionOptions(b)));
    TextSaysData(Record(ExecutionOptions(a)), Record(ExecutionOptions(b)));
    SelectedSame(a, b, EXECUTION_OPTION_KEYS);
    FiveAreSame(a, b);
  }

  /** The key of a call commits to the calls before it, its prompt and its five execution options. */
  lemma KeyCommitsToOptions(digest: JsString -> JsString, before: seq<KeyedCall>, prompt: JsString, a: seq<Field>,
      earlier: seq<KeyedCall>, other: JsString, b: seq<Field>)
    requires Injective(digest) && TidyOptions(a) && TidyOptions(b)
    requires CanonicalOptions(a).Some? && CanonicalOptions(b).Some?
    ensures KeyText(digest, before + [KeyedCall(prompt, CanonicalOptions(a).value)]) ==
            KeyText(digest, earlier + [KeyedCall(other, CanonicalOptions(b).value)]) <==>
      SameHistory(before, earlier) && Scalars(prompt) == Scalars(other) && SameExecutionOptions(a, b)
  {
    var x := before + [KeyedCall(prompt, CanonicalOptions(a).value)];
    var y := earlier + [KeyedCall(other, CanonicalOptions(b).value)];
    OptionsCommit(a, b);
    KeyCommitsToHistory(digest, x, y);
    SameHistoryUnchains(x, y);
    assert x[..|x| - 1] == before && y[..|y| - 1] == earlier;
  }

  /** The key of a run's beginning is empty, and every other key is `v2:` and the digest of its frame. */
  lemma KeysAreVersioned(digest: JsString -> JsString, before: seq<KeyedCall>, call: KeyedCall)
    ensures KeyText(digest, []) == []
    ensures KeyText(digest, before + [call]) ==
      Units("v2:") + digest(Message(KeyText(digest, before), call.prompt, Print(call.options)))
  {
    assert VERSION == Units("v2:");
    assert (before + [call])[..|before|] == before;
  }

  /** The frame is the previous key, a NUL, the prompt, a NUL and the options, as UTF-8 carries them. */
  lemma FrameIs(previous: JsString, prompt: JsString, options: JsString)
    ensures Message(previous, prompt, options) ==
      Scalars(previous) + [0] + Scalars(prompt) + [0] + Scalars(options)
  {
    Reassociate(Scalars(previous) + [0], Scalars(prompt) + [0], Scalars(options));
    Reassociate(Scalars(previous) + [0], Scalars(prompt), [0]);
  }
}
