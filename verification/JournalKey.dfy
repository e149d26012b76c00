/**
  Call keys, src/workflowJournal.ts:210-264: the allowlist of execution options, the NUL framing and the
  chained digest. Main result: two chained keys are equal exactly when the calls made so far are, up to
  what UTF-8 keeps of a prompt and to the order and depth-wise layout of the options.
 */
module JournalKey {
  import opened Common
  import opened CanonicalJson
  import JournalModel

  const SCHEMA: JsString := [0x73, 0x63, 0x68, 0x65, 0x6D, 0x61]
  const MODEL: JsString := [0x6D, 0x6F, 0x64, 0x65, 0x6C]
  const EFFORT: JsString := [0x65, 0x66, 0x66, 0x6F, 0x72, 0x74]
  const ISOLATION: JsString := [0x69, 0x73, 0x6F, 0x6C, 0x61, 0x74, 0x69, 0x6F, 0x6E]
  const AGENT_TYPE: JsString := [0x61, 0x67, 0x65, 0x6E, 0x74, 0x54, 0x79, 0x70, 0x65]
  const EXECUTION_OPTION_KEYS: seq<JsString> := [SCHEMA, MODEL, EFFORT, ISOLATION, AGENT_TYPE]

  /** A name of ASCII characters as code units. */
  function Units(s: string): JsString
    requires forall i :: 0 <= i < |s| ==> s[i] < 0x80 as char
  {
    seq(|s|, i requires 0 <= i < |s| => s[i] as int as Unit)
  }

  lemma KeysAreNamed()
    ensures EXECUTION_OPTION_KEYS ==
      [Units("schema"), Units("model"), Units("effort"), Units("isolation"), Units("agentType")]
  {
    assert SCHEMA == Units("schema");
    assert MODEL == Units("model");
    assert EFFORT == Units("effort");
    assert ISOLATION == Units("isolation");
    assert AGENT_TYPE == Units("agentType");
  }

  function Lookup(options: seq<Field>, name: JsString): (r: Option<JsValue>)
    ensures r.Some? ==> Field(name, r.value) in options
    ensures r.None? ==> forall f :: f in options ==> f.name != name
  {
    if options == [] then None
    else if options[0].name == name then Some(options[0].value)
    else
      assert options == [options[0]] + options[1..];
      Lookup(options[1..], name)
  }

  function Selected(options: seq<Field>, keys: seq<JsString>): seq<Field> {
    if keys == [] then []
    else
      var found := Lookup(options, keys[0]);
      (if found.Some? then [Field(keys[0], found.value)] else []) + Selected(options, keys[1..])
  }

  /** Only options that affect execution enter a key. */
  function ExecutionOptions(options: seq<Field>): seq<Field> {
    Selected(options, EXECUTION_OPTION_KEYS)
  }

  /** The canonical options of a call, or the TypeError. */
  function CanonicalOptions(options: seq<Field>): Option<Json> {
    match Canonicalize(Record(ExecutionOptions(options)))
    case Printed(json) => Some(json)
    case _ => None
  }

  ghost predicate AgreeOn(a: seq<Field>, b: seq<Field>, name: JsString) {
    match (Lookup(a, name), Lookup(b, name))
    case (None, None) => true
    case (Some(v), Some(w)) => Tidy(v) && Tidy(w) && Alike(v, w)
    case _ => false
  }

  lemma PutMatch(f: Field, g: Field, x: seq<Field>, y: seq<Field>)
    requires SameField(f, g) && Matched(x, y)
    ensures Matched([f] + x, [g] + y)
  {
    forall i | 0 <= i < |[f] + x| ensures HasMatch(([f] + x)[i], [g] + y) {
      if i == 0 {
        assert SameField(([f] + x)[0], ([g] + y)[0]);
      } else {
        var j :| 0 <= j < |y| && SameField(x[i - 1], y[j]);
        assert SameField(([f] + x)[i], ([g] + y)[j + 1]);
      }
    }
  }

  lemma {:induction false} SelectedMatches(a: seq<Field>, b: seq<Field>, keys: seq<JsString>)
    requires forall k :: k in keys ==> AgreeOn(a, b, k)
    ensures Matched(Selected(a, keys), Selected(b, keys)) && Matched(Selected(b, keys), Selected(a, keys))
    decreases |keys|
  {
    if keys != [] {
      assert AgreeOn(a, b, keys[0]);
      assert forall k :: k in keys[1..] ==> k in keys;
      SelectedMatches(a, b, keys[1..]);
      var (x, y) := (Selected(a, keys[1..]), Selected(b, keys[1..]));
      var (v, w) := (Lookup(a, keys[0]), Lookup(b, keys[0]));
      assert [] + x == x && [] + y == y;
      if v.Some? && w.Some? {
        AlikeIsCanonical(v.value, w.value);
        PutMatch(Field(keys[0], v.value), Field(keys[0], w.value), x, y);
        PutMatch(Field(keys[0], w.value), Field(keys[0], v.value), y, x);
      }
    }
  }

  lemma {:induction false} SelectedIsTidy(options: seq<Field>, keys: seq<JsString>)
    requires forall i, j :: 0 <= i < j < |keys| ==> keys[i] != keys[j]
    requires forall k :: k in keys ==> Lookup(options, k).None? || Tidy(Lookup(options, k).value)
    ensures Tidy(Record(Selected(options, keys)))
    ensures forall i :: 0 <= i < |Selected(options, keys)| ==> Selected(options, keys)[i].name in keys
    decreases |keys|
  {
    if keys != [] {
      assert keys == [keys[0]] + keys[1..];
      SelectedIsTidy(options, keys[1..]);
    }
  }

  lemma KeysAreDistinct()
    ensures forall i, j :: 0 <= i < j < |EXECUTION_OPTION_KEYS| ==> EXECUTION_OPTION_KEYS[i] != EXECUTION_OPTION_KEYS[j]
  {
    assert SCHEMA[0] != EFFORT[0] && ISOLATION[0] != AGENT_TYPE[0];
  }

  lemma AgreedAreCanonical(a: seq<Field>, b: seq<Field>)
    requires forall k :: k in EXECUTION_OPTION_KEYS ==> AgreeOn(a, b, k)
    ensures CanonicalOptions(a) == CanonicalOptions(b)
  {
    SelectedMatches(a, b, EXECUTION_OPTION_KEYS);
    forall k | k in EXECUTION_OPTION_KEYS
      ensures Lookup(a, k).None? || Tidy(Lookup(a, k).value)
      ensures Lookup(b, k).None? || Tidy(Lookup(b, k).value)
    {
      assert AgreeOn(a, b, k);
    }
    KeysAreDistinct();
    SelectedIsTidy(a, EXECUTION_OPTION_KEYS);
    SelectedIsTidy(b, EXECUTION_OPTION_KEYS);
    MatchedIsCanonical(ExecutionOptions(a), ExecutionOptions(b));
  }

  /** Two option objects that agree on `schema`, `model`, `effort`, `isolation` and `agentType` give a call
      the same canonical options. */
  lemma OtherOptionsAreIgnored(a: seq<Field>, b: seq<Field>)
    requires AgreeOn(a, b, Units("schema")) && AgreeOn(a, b, Units("model")) && AgreeOn(a, b, Units("effort"))
    requires AgreeOn(a, b, Units("isolation")) && AgreeOn(a, b, Units("agentType"))
    ensures CanonicalOptions(a) == CanonicalOptions(b)
  {
    KeysAreNamed();
    AgreedAreCanonical(a, b);
  }

  // ---------------------------------------------------------------------------------------------
  // What UTF-8 keeps of a string
  // ---------------------------------------------------------------------------------------------

  /** A surrogate outside a pair is encoded as U+FFFD; everything else survives. */
  function Scalars(s: JsString): JsString {
    if s == [] then []
    else if PairAt(s) then s[..2] + Scalars(s[2..])
    else (if Surrogate(s[0]) then [0xFFFD] else [s[0]]) + Scalars(s[1..])
  }

  lemma {:induction false} CleanSurvives(t: JsString)
    requires Clean(t)
    ensures Scalars(t) == t && 0 !in t
    decreases |t|
  {
    if t == [] {
    } else if PairAt(t) {
      CleanSurvives(t[2..]);
      assert t == t[..2] + t[2..];
    } else {
      CleanSurvives(t[1..]);
      assert t == [t[0]] + t[1..];
    }
  }

  // ---------------------------------------------------------------------------------------------
  // Framing
  // ---------------------------------------------------------------------------------------------

  const NUL: JsString := [0]

  function Frame(a: JsString, b: JsString, c: JsString): JsString {
    a + NUL + (b + NUL + c)
  }

  /** The hashed text: previous key, prompt and options, separated by NUL. */
  function Message(previous: JsString, prompt: JsString, options: JsString): JsString {
    Frame(Scalars(previous), Scalars(prompt), Scalars(options))
  }

  lemma NulAt(a: JsString, b: JsString)
    ensures var t := a + NUL + b; |t| == |a| + 1 + |b| && t[|a|] == 0 && t[..|a|] == a && t[|a| + 1..] == b
    ensures 0 !in a ==> forall i :: 0 <= i < |a| ==> (a + NUL + b)[i] != 0
    ensures 0 !in b ==> forall i :: |a| < i < |a + NUL + b| ==> (a + NUL + b)[i] != 0
  {
  }

  lemma FirstNul(a: JsString, b: JsString, c: JsString, d: JsString)
    requires 0 !in a && 0 !in c && a + NUL + b == c + NUL + d
    ensures a == c && b == d
  {
    NulAt(a, b);
    NulAt(c, d);
    assert |a| == |c|;
  }

  lemma LastNul(a: JsString, b: JsString, c: JsString, d: JsString)
    requires 0 !in b && 0 !in d && a + NUL + b == c + NUL + d
    ensures a == c && b == d
  {
    NulAt(a, b);
    NulAt(c, d);
    assert |a| == |c|;
  }

  /** The frame is unambiguous even when the middle part, the prompt, contains NUL. */
  lemma FrameIsInjective(a: JsString, b: JsString, c: JsString, d: JsString, e: JsString, f: JsString)
    requires 0 !in a && 0 !in d && 0 !in c && 0 !in f && Frame(a, b, c) == Frame(d, e, f)
    ensures a == d && b == e && c == f
  {
    FirstNul(a, b + NUL + c, d, e + NUL + f);
    LastNul(b, c, e, f);
  }

  // ---------------------------------------------------------------------------------------------
  // Chained keys
  // ---------------------------------------------------------------------------------------------

  /** A call with its canonical options. */
  datatype KeyedCall = KeyedCall(prompt: JsString, options: Json)

  const VERSION: JsString := [0x76, 0x32, 0x3A]

  /** SHA-256 in hexadecimal, taken to be collision-free. */
  ghost predicate Injective(digest: JsString -> JsString) {
    && (forall a, b :: digest(a) == digest(b) ==> a == b)
    && (forall a :: Clean(digest(a)))
  }

  function KeyText(digest: JsString -> JsString, calls: seq<KeyedCall>): JsString {
    if calls == [] then []
    else
      var last := calls[|calls| - 1];
      VERSION + digest(Message(KeyText(digest, calls[..|calls| - 1]), last.prompt, Print(last.options)))
  }

  lemma KeyTextIsClean(digest: JsString -> JsString, calls: seq<KeyedCall>)
    requires Injective(digest)
    ensures Clean(KeyText(digest, calls)) && (calls != [] ==> KeyText(digest, calls) != [])
  {
    if calls != [] {
      var last := calls[|calls| - 1];
      PlainIsClean(VERSION);
      CleanAppend(VERSION, digest(Message(KeyText(digest, calls[..|calls| - 1]), last.prompt, Print(last.options))));
    }
  }

  predicate SameCallText(a: KeyedCall, b: KeyedCall) {
    Scalars(a.prompt) == Scalars(b.prompt) && a.options == b.options
  }

  predicate SameHistory(a: seq<KeyedCall>, b: seq<KeyedCall>) {
    |a| == |b| && forall i :: 0 <= i < |a| ==> SameCallText(a[i], b[i])
  }

  lemma KeyTextSurvives(digest: JsString -> JsString, calls: seq<KeyedCall>)
    requires Injective(digest)
    ensures Scalars(KeyText(digest, calls)) == KeyText(digest, calls) && 0 !in KeyText(digest, calls)
  {
    KeyTextIsClean(digest, calls);
    CleanSurvives(KeyText(digest, calls));
  }

  lemma PrintSurvives(j: Json)
    ensures Scalars(Print(j)) == Print(j) && 0 !in Print(j)
  {
    PrintIsClean(j);
    CleanSurvives(Print(j));
  }

  lemma EqualTextsUnchain(digest: JsString -> JsString, a: seq<KeyedCall>, b: seq<KeyedCall>)
    requires Injective(digest) && a != [] && b != [] && KeyText(digest, a) == KeyText(digest, b)
    ensures KeyText(digest, a[..|a| - 1]) == KeyText(digest, b[..|b| - 1])
    ensures SameCallText(a[|a| - 1], b[|b| - 1])
  {
    var (p, q) := (KeyText(digest, a[..|a| - 1]), KeyText(digest, b[..|b| - 1]));
    var (c, d) := (a[|a| - 1], b[|b| - 1]);
    var (x, y) := (digest(Message(p, c.prompt, Print(c.options))), digest(Message(q, d.prompt, Print(d.options))));
    assert (VERSION + x)[3..] == x && (VERSION + y)[3..] == y;
    KeyTextSurvives(digest, a[..|a| - 1]);
    KeyTextSurvives(digest, b[..|b| - 1]);
    PrintSurvives(c.options);
    PrintSurvives(d.options);
    FrameIsInjective(p, Scalars(c.prompt), Print(c.options), q, Scalars(d.prompt), Print(d.options));
    PrintIsInjective(c.options, d.options);
  }

  lemma SameHistoryUnchains(a: seq<KeyedCall>, b: seq<KeyedCall>)
    requires a != [] && b != []
    ensures SameHistory(a, b) <==> SameHistory(a[..|a| - 1], b[..|b| - 1]) && SameCallText(a[|a| - 1], b[|b| - 1])
  {
  }

  /** A key commits to the whole call history, and to nothing else. */
  lemma {:induction false} KeyCommitsToHistory(digest: JsString -> JsString, a: seq<KeyedCall>, b: seq<KeyedCall>)
    requires Injective(digest)
    ensures KeyText(digest, a) == KeyText(digest, b) <==> SameHistory(a, b)
    decreases |a|
  {
    KeyTextIsClean(digest, a);
    KeyTextIsClean(digest, b);
    if a != [] && b != [] {
      KeyCommitsToHistory(digest, a[..|a| - 1], b[..|b| - 1]);
      SameHistoryUnchains(a, b);
      if KeyText(digest, a) == KeyText(digest, b) {
        EqualTextsUnchain(digest, a, b);
      }
    }
  }

  /** The one way different prompts share a key: a lone surrogate hashes like U+FFFD. */
  lemma LoneSurrogatesCollide(digest: JsString -> JsString, options: Json)
    ensures KeyText(digest, [KeyedCall([0xD800], options)]) == KeyText(digest, [KeyedCall([0xFFFD], options)])
  {
    assert Scalars([0xD800]) == [0xFFFD] == Scalars([0xFFFD]);
  }

  /** The key the journal model keeps for these calls, for any way of naming texts. */
  ghost function Chain(name: JsString -> JournalModel.Text, calls: seq<KeyedCall>): JournalModel.Key {
    if calls == [] then JournalModel.Root
    else
      var last := calls[|calls| - 1];
      JournalModel.Link(Chain(name, calls[..|calls| - 1]), name(Scalars(last.prompt)), name(Print(last.options)))
  }

  /** Comparing key texts is comparing the chains JournalModel keeps. */
  lemma {:induction false} KeyTextsMatchChains(digest: JsString -> JsString, name: JsString -> JournalModel.Text,
      a: seq<KeyedCall>, b: seq<KeyedCall>)
    requires Injective(digest) && forall s, t :: name(s) == name(t) ==> s == t
    ensures KeyText(digest, a) == KeyText(digest, b) <==> Chain(name, a) == Chain(name, b)
    decreases |a|
  {
    KeyTextIsClean(digest, a);
    KeyTextIsClean(digest, b);
    if a != [] && b != [] {
      var (x, y) := (a[..|a| - 1], b[..|b| - 1]);
      KeyTextsMatchChains(digest, name, x, y);
      if KeyText(digest, a) == KeyText(digest, b) {
        EqualTextsUnchain(digest, a, b);
      }
      if Chain(name, a) == Chain(name, b) {
        var (c, d) := (a[|a| - 1], b[|b| - 1]);
        assert Print(c.options) == Print(d.options) && Scalars(c.prompt) == Scalars(d.prompt);
      }
    }
  }
}
