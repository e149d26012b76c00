/** Valid text is what encoding code points gives: the definition in section 3 of RFC 3629. */
module Utf8Meaning {
  import opened Common
  import opened Utf8

  /** A code point that is not a surrogate. */
  type Scalar = c: nat | c < 0xD800 || 0xE000 <= c < 0x11_0000

  /** Six bits of a code point, as a continuation byte carries them. */
  function Six(n: nat): Byte {
    (0x80 + n % 64) as Byte
  }

  function Encoded(c: Scalar): (t: Bytes)
    ensures 0 < |t| <= 4
  {
    var (d, e, f) := (c / 64, c / 64 / 64, c / 64 / 64 / 64);
    if c < 0x80 then [c as Byte]
    else if c < 0x800 then [(0xC0 + d) as Byte, Six(c)]
    else if c < 0x1_0000 then [(0xE0 + e) as Byte, Six(d), Six(c)]
    else [(0xF0 + f) as Byte, Six(e), Six(d), Six(c)]
  }

  function EncodedAll(cs: seq<Scalar>): Bytes {
    if cs == [] then [] else Encoded(cs[0]) + EncodedAll(cs[1..])
  }

  lemma EncodedIsOne(c: Scalar, more: Bytes)
    ensures ScalarLength(Encoded(c) + more) == |Encoded(c)|
  {
  }

  /** The six bits of a continuation byte. */
  function Bits(b: Byte): nat
    requires Tail(b)
  {
    b as nat - 0x80
  }

  /** The number that a complete code point stands for. */
  function Decoded(t: Bytes): nat
    requires ScalarLength(t) > 0
  {
    var n := ScalarLength(t);
    if n == 1 then t[0] as nat
    else if n == 2 then (t[0] as nat - 0xC0) * 64 + Bits(t[1])
    else if n == 3 then ((t[0] as nat - 0xE0) * 64 + Bits(t[1])) * 64 + Bits(t[2])
    else (((t[0] as nat - 0xF0) * 64 + Bits(t[1])) * 64 + Bits(t[2])) * 64 + Bits(t[3])
  }

  /** Six more bits. */
  lemma Shifted(n: nat, b: Byte)
    requires Tail(b)
    ensures (n * 64 + Bits(b)) / 64 == n && Six(n * 64 + Bits(b)) == b
  {
  }

  lemma Unshifted(n: nat)
    ensures Tail(Six(n)) && n == n / 64 * 64 + Bits(Six(n))
  {
  }

  /** The start of a text, when it is a complete code point, is the encoding of a code point. */
  lemma OneIsEncoded(t: Bytes) returns (c: Scalar)
    requires ScalarLength(t) > 0
    ensures t[..ScalarLength(t)] == Encoded(c)
  {
    var n, d := ScalarLength(t), Decoded(t);
    if n == 2 {
      Shifted(t[0] as nat - 0xC0, t[1]);
    } else if n == 3 {
      var e := t[0] as nat - 0xE0;
      Shifted(e, t[1]);
      Shifted(e * 64 + Bits(t[1]), t[2]);
    } else if n == 4 {
      var e := t[0] as nat - 0xF0;
      Shifted(e, t[1]);
      Shifted(e * 64 + Bits(t[1]), t[2]);
      Shifted((e * 64 + Bits(t[1])) * 64 + Bits(t[2]), t[3]);
    }
    c := d;
  }

  lemma {:induction false} EncodedIsValid(cs: seq<Scalar>)
    ensures Valid(EncodedAll(cs))
  {
    if cs != [] {
      var more := EncodedAll(cs[1..]);
      EncodedIsOne(cs[0], more);
      assert (Encoded(cs[0]) + more)[|Encoded(cs[0])|..] == more;
      EncodedIsValid(cs[1..]);
    }
  }

  lemma {:induction false} ValidIsEncoded(t: Bytes) returns (cs: seq<Scalar>)
    requires Valid(t)
    ensures EncodedAll(cs) == t
    decreases |t|
  {
    cs := [];
    if t != [] {
      var n := ScalarLength(t);
      var c := OneIsEncoded(t);
      var more := ValidIsEncoded(t[n..]);
      cs := [c] + more;
      assert cs[1..] == more && t == t[..n] + t[n..];
    }
  }

  /** A text is valid exactly when it encodes some code points. */
  lemma ValidIff(t: Bytes)
    ensures Valid(t) <==> exists cs :: EncodedAll(cs) == t
  {
    if Valid(t) {
      var cs := ValidIsEncoded(t);
    }
    if cs :| EncodedAll(cs) == t {
      EncodedIsValid(cs);
    }
  }

  lemma DecodedIs(c: Scalar)
    ensures ScalarLength(Encoded(c)) == |Encoded(c)| && Decoded(Encoded(c)) == c
  {
    EncodedIsOne(c, []);
    assert Encoded(c) + [] == Encoded(c);
    Unshifted(c);
    Unshifted(c / 64);
    Unshifted(c / 64 / 64);
  }

  lemma EncodedIsInjective(c: Scalar, d: Scalar, more: Bytes, rest: Bytes)
    requires Encoded(c) + more == Encoded(d) + rest
    ensures c == d && more == rest
  {
    EncodedIsOne(c, more);
    EncodedIsOne(d, rest);
    var (t, u) := (Encoded(c) + more, Encoded(d) + rest);
    assert t[..|Encoded(c)|] == Encoded(c) && u[..|Encoded(d)|] == Encoded(d);
    assert t[|Encoded(c)|..] == more && u[|Encoded(d)|..] == rest;
    DecodedIs(c);
    DecodedIs(d);
  }

  /** A valid text encodes one list of code points only, so pages of text may be compared as bytes. */
  lemma {:induction false} MeaningIsUnique(cs: seq<Scalar>, ds: seq<Scalar>)
    requires EncodedAll(cs) == EncodedAll(ds)
    ensures cs == ds
  {
    if cs != [] && ds != [] {
      EncodedIsInjective(cs[0], ds[0], EncodedAll(cs[1..]), EncodedAll(ds[1..]));
      MeaningIsUnique(cs[1..], ds[1..]);
    }
  }
}
