/**
  UTF-8 as sections 3 and 4 of RFC 3629 define it: which byte strings are valid, and where their code
  points begin.
 */
module Utf8 {
  import opened Common

  predicate Tail(b: Byte) {
    0x80 <= b <= 0xBF
  }

  /** The range the second byte of a sequence must be in. */
  predicate Second(first: Byte, b: Byte) {
    if first == 0xE0 then 0xA0 <= b <= 0xBF
    else if first == 0xED then 0x80 <= b <= 0x9F
    else if first == 0xF0 then 0x90 <= b <= 0xBF
    else if first == 0xF4 then 0x80 <= b <= 0x8F
    else Tail(b)
  }

  /** The length a first byte announces, or zero. */
  function Announced(first: Byte): nat {
    if first <= 0x7F then 1
    else if 0xC2 <= first <= 0xDF then 2
    else if 0xE0 <= first <= 0xEF then 3
    else if 0xF0 <= first <= 0xF4 then 4
    else 0
  }

  /** The length of the complete code point at the start, or zero. */
  function ScalarLength(t: Bytes): (n: nat)
    ensures n <= 4 && n <= |t|
  {
    if t == [] then 0
    else
      var n := Announced(t[0]);
      if n <= |t| && (n >= 2 ==> Second(t[0], t[1])) && (n >= 3 ==> Tail(t[2])) && (n == 4 ==> Tail(t[3])) then n else 0
  }

  predicate Valid(t: Bytes) {
    t == [] || (ScalarLength(t) > 0 && Valid(t[ScalarLength(t)..]))
  }

  /** What `(byte & 0xc0) === 0x80` accepts. */
  predicate Continuation(b: Byte) {
    Tail(b)
  }

  /** A code point is recognized by its own bytes. */
  lemma ScalarOwnBytes(t: Bytes, u: Bytes)
    requires 0 < ScalarLength(t) <= |u| && t[..ScalarLength(t)] == u[..ScalarLength(t)]
    ensures ScalarLength(u) == ScalarLength(t)
  {
    var n := ScalarLength(t);
    assert forall i :: 0 <= i < n ==> t[i] == t[..n][i] && u[i] == u[..n][i];
  }

  /** The bytes of a code point after the first are continuation bytes, and the first is not. */
  lemma ScalarBytes(t: Bytes, i: nat)
    requires i < ScalarLength(t)
    ensures Continuation(t[i]) <==> i > 0
  {
  }

  /** A prefix that is valid is a whole number of code points: the rest is valid exactly when all is. */
  lemma {:induction false} ValidSplit(t: Bytes, i: nat)
    requires i <= |t| && Valid(t[..i])
    ensures Valid(t) <==> Valid(t[i..])
    decreases i
  {
    if i > 0 {
      var n := ScalarLength(t[..i]);
      assert t[..i][..n] == t[..n];
      ScalarOwnBytes(t[..i], t);
      assert t[..i][n..] == t[n..][..i - n] && t[n..][i - n..] == t[i..];
      ValidSplit(t[n..], i - n);
    } else {
      assert t[0..] == t;
    }
  }

  lemma ValidAppend(a: Bytes, b: Bytes)
    requires Valid(a) && Valid(b)
    ensures Valid(a + b)
  {
    assert (a + b)[..|a|] == a && (a + b)[|a|..] == b;
    ValidSplit(a + b, |a|);
  }

  /** Part of a code point is not valid. */
  lemma PartOfScalar(t: Bytes, i: nat)
    requires 0 < i < ScalarLength(t)
    ensures !Valid(t[..i])
  {
    assert t[..i][0] == t[0];
    assert ScalarLength(t[..i]) == 0;
  }

  /** In valid text a position is a code-point boundary exactly when it is the end or its byte is not a
      continuation byte. */
  lemma {:induction false} BoundaryIff(t: Bytes, i: nat)
    requires Valid(t) && i < |t|
    ensures Valid(t[..i]) <==> !Continuation(t[i])
    decreases |t|
  {
    var n := ScalarLength(t);
    if i < n {
      ScalarBytes(t, i);
      if i > 0 {
        PartOfScalar(t, i);
      }
    } else {
      BoundaryIff(t[n..], i - n);
      assert t[..i][..n] == t[..n] && t[..i][n..] == t[n..][..i - n];
      ScalarOwnBytes(t, t[..i]);
    }
  }

  /** Some boundary lies at most three bytes before any position. */
  lemma {:induction false} BoundaryNear(t: Bytes, i: nat) returns (b: nat)
    requires Valid(t) && i <= |t|
    ensures b <= i <= b + 3 && Valid(t[..b]) && (forall j :: b < j <= i ==> !Valid(t[..j]))
    ensures i >= 4 ==> b > 0
    decreases |t|
  {
    var n := ScalarLength(t);
    if i == 0 || i < n {
      b := 0;
      forall j | b < j <= i ensures !Valid(t[..j]) {
        PartOfScalar(t, j);
      }
    } else {
      var c := BoundaryNear(t[n..], i - n);
      b := n + c;
      assert t[..b][..n] == t[..n] && t[..b][n..] == t[n..][..c];
      ScalarOwnBytes(t, t[..b]);
      forall j | b < j <= i ensures !Valid(t[..j]) {
        assert t[..j][..n] == t[..n] && t[..j][n..] == t[n..][..j - n];
        ScalarOwnBytes(t, t[..j]);
      }
    }
  }
}
