/** The bytes a journal key is hashed from: UTF-16 text as code points, and code points as UTF-8. */
module JournalText {
  import opened Common
  import opened CanonicalJson
  import opened JournalKey
  import opened Utf8Meaning

  /** The UTF-16 form of a code point: one unit, or two that carry ten bits each. */
  function Units(c: Scalar): JsString {
    if c < 0x1_0000 then [c as Unit]
    else [(0xD800 + (c - 0x1_0000) / 0x400) as Unit, (0xDC00 + (c - 0x1_0000) % 0x400) as Unit]
  }

  function UnitsAll(cs: seq<Scalar>): JsString {
    if cs == [] then [] else Units(cs[0]) + UnitsAll(cs[1..])
  }

  /** The code points of a string; a surrogate outside a pair counts as U+FFFD. */
  function CodePoints(s: JsString): seq<Scalar>
    decreases |s|
  {
    if s == [] then []
    else if PairAt(s) then [0x1_0000 + (s[0] as nat - 0xD800) * 0x400 + (s[1] as nat - 0xDC00)] + CodePoints(s[2..])
    else [if 0xD800 <= s[0] < 0xE000 then 0xFFFD else s[0] as nat] + CodePoints(s[1..])
  }

  /** What `Buffer.from(s, 'utf8')` and `hash.update(s)` make of a string. */
  function Utf8Of(s: JsString): Bytes {
    EncodedAll(CodePoints(s))
  }

  lemma {:induction false} UnitsOf(c: Scalar, more: JsString)
    ensures CodePoints(Units(c) + more) == [c] + CodePoints(more)
  {
    var s := Units(c) + more;
    if c < 0x1_0000 {
      assert s[1..] == more;
    } else {
      assert s[2..] == more;
    }
  }

  lemma {:induction false} PointsOfUnits(cs: seq<Scalar>)
    ensures CodePoints(UnitsAll(cs)) == cs
  {
    if cs != [] {
      UnitsOf(cs[0], UnitsAll(cs[1..]));
      PointsOfUnits(cs[1..]);
    }
  }

  lemma PairUnits(s: JsString)
    requires PairAt(s)
    ensures Units(0x1_0000 + (s[0] as nat - 0xD800) * 0x400 + (s[1] as nat - 0xDC00)) == s[..2]
  {
  }

  /** Replacing the lone surrogates gives the text of the code points. */
  lemma {:induction false} ScalarsAreText(s: JsString)
    ensures Scalars(s) == UnitsAll(CodePoints(s))
    decreases |s|
  {
    if s != [] {
      var cs := CodePoints(s);
      if PairAt(s) {
        PairUnits(s);
        ScalarsAreText(s[2..]);
        assert cs[1..] == CodePoints(s[2..]);
      } else {
        ScalarsAreText(s[1..]);
        assert cs[1..] == CodePoints(s[1..]);
      }
    }
  }

  /** A string survives exactly when it is the UTF-16 form of some code points. */
  lemma SurvivesIff(s: JsString)
    ensures Scalars(s) == s <==> exists cs :: UnitsAll(cs) == s
  {
    ScalarsAreText(s);
    if cs :| UnitsAll(cs) == s {
      PointsOfUnits(cs);
    }
  }

  /** Two strings are the same bytes exactly when replacing lone surrogates makes them equal. */
  lemma SameBytesIff(s: JsString, t: JsString)
    ensures Utf8Of(s) == Utf8Of(t) <==> Scalars(s) == Scalars(t)
  {
    ScalarsAreText(s);
    ScalarsAreText(t);
    PointsOfUnits(CodePoints(s));
    PointsOfUnits(CodePoints(t));
    if Utf8Of(s) == Utf8Of(t) {
      MeaningIsUnique(CodePoints(s), CodePoints(t));
    }
  }

  /** The bytes hashed for a call: three strings with a NUL after each but the last. */
  function HashedBytes(previous: JsString, prompt: JsString, options: JsString): Bytes {
    Utf8Of(previous) + [0] + Utf8Of(prompt) + [0] + Utf8Of(options)
  }

  lemma {:induction false} PointsBeforeNul(s: JsString, t: JsString)
    ensures CodePoints(s + [0] + t) == CodePoints(s) + [0] + CodePoints(t)
    decreases |s|
  {
    var all := s + [0] + t;
    if s == [] {
      assert all == [0] + t && all[1..] == t && !PairAt(all);
    } else if PairAt(s) {
      assert all[2..] == s[2..] + [0] + t;
      PointsBeforeNul(s[2..], t);
    } else {
      assert all[1..] == s[1..] + [0] + t && !PairAt(all);
      PointsBeforeNul(s[1..], t);
    }
  }

  lemma {:induction false} EncodedAppend(cs: seq<Scalar>, ds: seq<Scalar>)
    ensures EncodedAll(cs + ds) == EncodedAll(cs) + EncodedAll(ds)
  {
    if cs != [] {
      assert (cs + ds)[1..] == cs[1..] + ds;
      EncodedAppend(cs[1..], ds);
    } else {
      assert cs + ds == ds;
    }
  }

  lemma BytesBeforeNul(s: JsString, t: JsString)
    ensures Utf8Of(s + [0] + t) == Utf8Of(s) + [0] + Utf8Of(t)
  {
    PointsBeforeNul(s, t);
    EncodedAppend(CodePoints(s) + [0], CodePoints(t));
    EncodedAppend(CodePoints(s), [0]);
    assert EncodedAll([0]) == [0];
  }

  lemma SurvivorsSurvive(s: JsString)
    ensures Utf8Of(Scalars(s)) == Utf8Of(s)
  {
    ScalarsAreText(s);
    PointsOfUnits(CodePoints(s));
  }

  lemma ThreeParts(a: Bytes, b: Bytes, c: Bytes)
    ensures a + [0] + (b + [0] + c) == a + [0] + b + [0] + c
  {
  }

  /** The text of `Message` is what is hashed. */
  lemma MessageBytes(previous: JsString, prompt: JsString, options: JsString)
    ensures Utf8Of(Message(previous, prompt, options)) == HashedBytes(previous, prompt, options)
  {
    var (a, b, c) := (Scalars(previous), Scalars(prompt), Scalars(options));
    BytesBeforeNul(a, b + [0] + c);
    BytesBeforeNul(b, c);
    SurvivorsSurvive(previous);
    SurvivorsSurvive(prompt);
    SurvivorsSurvive(options);
    ThreeParts(Utf8Of(a), Utf8Of(b), Utf8Of(c));
  }

  lemma {:induction false} UnitsAppend(cs: seq<Scalar>, ds: seq<Scalar>)
    ensures UnitsAll(cs + ds) == UnitsAll(cs) + UnitsAll(ds)
  {
    if cs != [] {
      assert (cs + ds)[1..] == cs[1..] + ds;
      UnitsAppend(cs[1..], ds);
    } else {
      assert cs + ds == ds;
    }
  }

  lemma {:induction false} ScalarsBeforeNul(s: JsString, t: JsString)
    requires Scalars(s) == s && Scalars(t) == t
    ensures Scalars(s + [0] + t) == s + [0] + t
  {
    PointsBeforeNul(s, t);
    ScalarsAreText(s);
    ScalarsAreText(t);
    ScalarsAreText(s + [0] + t);
    UnitsAppend(CodePoints(s) + [0], CodePoints(t));
    UnitsAppend(CodePoints(s), [0]);
    assert UnitsAll([0]) == [0];
  }

  lemma ScalarsTwice(s: JsString)
    ensures Scalars(Scalars(s)) == Scalars(s)
  {
    ScalarsAreText(s);
    PointsOfUnits(CodePoints(s));
    ScalarsAreText(Scalars(s));
  }

  lemma MessageSurvives(previous: JsString, prompt: JsString, options: JsString)
    ensures Scalars(Message(previous, prompt, options)) == Message(previous, prompt, options)
  {
    var (a, b, c) := (Scalars(previous), Scalars(prompt), Scalars(options));
    ScalarsTwice(previous);
    ScalarsTwice(prompt);
    ScalarsTwice(options);
    ScalarsBeforeNul(b, c);
    ScalarsBeforeNul(a, b + [0] + c);
  }

  /** Two calls hash the same bytes exactly when their messages are equal, so a digest that tells bytes apart is one
      that tells messages apart. */
  lemma SameMessageIff(p: JsString, q: JsString, o: JsString, p': JsString, q': JsString, o': JsString)
    ensures HashedBytes(p, q, o) == HashedBytes(p', q', o') <==> Message(p, q, o) == Message(p', q', o')
  {
    MessageBytes(p, q, o);
    MessageBytes(p', q', o');
    SameBytesIff(Message(p, q, o), Message(p', q', o'));
    MessageSurvives(p, q, o);
    MessageSurvives(p', q', o');
  }
}
