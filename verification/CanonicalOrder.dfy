/** The order of an object's properties in JSON.stringify, in terms of numbers: array indices first, as numbers, and
    then the other names by their code units. */
module CanonicalOrder {
  import opened Common
  import opened CanonicalJson

  /** The decimal text of a number. */
  function Numeral(n: nat): (s: JsString)
    ensures s != []
  {
    if n < 10 then [(0x30 + n) as Unit] else Numeral(n / 10) + [(0x30 + n % 10) as Unit]
  }

  predicate Digits(s: JsString) {
    forall i :: 0 <= i < |s| ==> 0x30 <= s[i] <= 0x39
  }

  /** The number that digits stand for. */
  function Value(s: JsString): nat
    requires Digits(s)
  {
    if s == [] then 0 else 10 * Value(s[..|s| - 1]) + (s[|s| - 1] as nat - 0x30)
  }

  /** Digits without a superfluous zero in front. */
  predicate Plain(s: JsString) {
    s != [] && Digits(s) && (|s| > 1 ==> s[0] != 0x30)
  }

  lemma {:induction false} NumeralIsPlain(n: nat)
    ensures Plain(Numeral(n)) && Value(Numeral(n)) == n && (n > 0 ==> Numeral(n)[0] != 0x30)
  {
    var s := Numeral(n);
    if n < 10 {
      assert s[..0] == [];
    } else {
      NumeralIsPlain(n / 10);
      assert s[..|s| - 1] == Numeral(n / 10);
    }
  }

  /** Numbers are ordered by their last digit once the rest is the same. */
  lemma {:induction false} LexLessPush(a: JsString, x: Unit, b: JsString, y: Unit)
    requires |a| == |b|
    ensures LexLess(a + [x], b + [y]) <==> LexLess(a, b) || (a == b && x < y)
    decreases |a|
  {
    if a != [] {
      assert (a + [x])[1..] == a[1..] + [x] && (b + [y])[1..] == b[1..] + [y];
      LexLessPush(a[1..], x, b[1..], y);
      assert a == [a[0]] + a[1..] && b == [b[0]] + b[1..];
    } else {
      assert [x][1..] == [] == [y][1..];
    }
  }

  /** Digits of one length are ordered as numbers, and differ as numbers. */
  lemma {:induction false} SameLength(a: JsString, b: JsString)
    requires |a| == |b| && Digits(a) && Digits(b)
    ensures (LexLess(a, b) <==> Value(a) < Value(b)) && (a == b <==> Value(a) == Value(b))
    decreases |a|
  {
    if a != [] {
      var n := |a| - 1;
      SameLength(a[..n], b[..n]);
      assert a == a[..n] + [a[n]] && b == b[..n] + [b[n]];
      LexLessPush(a[..n], a[n], b[..n], b[n]);
    }
  }

  lemma {:induction false} PlainIsPositive(b: JsString)
    requires Plain(b) && b[0] != 0x30
    ensures Value(b) > 0
    decreases |b|
  {
    if |b| > 1 {
      PlainIsPositive(b[..|b| - 1]);
    }
  }

  lemma {:induction false} LongerIsLarger(a: JsString, b: JsString)
    requires Plain(a) && Plain(b) && |a| < |b|
    ensures Value(a) < Value(b)
    decreases |a|
  {
    var (m, n) := (|a| - 1, |b| - 1);
    if m == 0 {
      assert a[..0] == [];
      PlainIsPositive(b[..n]);
    } else {
      LongerIsLarger(a[..m], b[..n]);
    }
  }

  /** Plain digits are the text of their number. */
  lemma PlainIsNumeral(s: JsString)
    requires Plain(s)
    ensures s == Numeral(Value(s))
  {
    var t := Numeral(Value(s));
    NumeralIsPlain(Value(s));
    if |s| < |t| {
      LongerIsLarger(s, t);
    } else if |t| < |s| {
      LongerIsLarger(t, s);
    } else {
      SameLength(s, t);
    }
  }

  lemma LastIndex()
    ensures MAX_INDEX == Numeral(4_294_967_294) && |MAX_INDEX| == 10 && Plain(MAX_INDEX) &&
      Value(MAX_INDEX) == 4_294_967_294
  {
    assert Numeral(42) == MAX_INDEX[..2];
    assert Numeral(4_294) == MAX_INDEX[..4];
    assert Numeral(429_496) == MAX_INDEX[..6];
    assert Numeral(42_949_672) == MAX_INDEX[..8];
    NumeralIsPlain(4_294_967_294);
  }

  /** A name is an index exactly when it is the decimal text of a number below 2^32 - 1. */
  lemma IndexIff(s: JsString)
    ensures IsIndex(s) <==> exists n :: n < 4_294_967_295 && s == Numeral(n)
  {
    LastIndex();
    if IsIndex(s) {
      assert Plain(s) by {
        forall i | 0 <= i < |s| ensures 0x30 <= s[i] <= 0x39 {
          assert s[i] in s;
        }
      }
      PlainIsNumeral(s);
      if |s| < 10 {
        LongerIsLarger(s, MAX_INDEX);
      } else {
        SameLength(MAX_INDEX, s);
      }
    }
    if n :| n < 4_294_967_295 && s == Numeral(n) {
      NumeralIsPlain(n);
      if |s| > 10 {
        LongerIsLarger(MAX_INDEX, s);
      } else if |s| == 10 {
        SameLength(MAX_INDEX, s);
      }
    }
  }

  /** Indices come in numeric order, before all other names. */
  lemma IndicesAreNumeric(m: nat, n: nat, s: JsString)
    requires m < 4_294_967_295 && n < 4_294_967_295 && !IsIndex(s)
    ensures (Before(Numeral(m), Numeral(n)) <==> m < n) && Before(Numeral(m), s) && !Before(s, Numeral(m))
  {
    IndexIff(Numeral(m));
    IndexIff(Numeral(n));
    NumeralIsPlain(m);
    NumeralIsPlain(n);
    if |Numeral(m)| < |Numeral(n)| {
      LongerIsLarger(Numeral(m), Numeral(n));
    } else if |Numeral(n)| < |Numeral(m)| {
      LongerIsLarger(Numeral(n), Numeral(m));
    } else {
      SameLength(Numeral(m), Numeral(n));
    }
  }

  /** `a` is a proper beginning of `b`, or has the smaller unit where they first differ. */
  ghost predicate FirstDifference(a: JsString, b: JsString, k: nat) {
    k <= |a| && k < |b| && a[..k] == b[..k] && (k == |a| || a[k] < b[k])
  }

  lemma {:induction false} LexLessIff(a: JsString, b: JsString)
    ensures LexLess(a, b) <==> exists k: nat :: FirstDifference(a, b, k)
    decreases |a|
  {
    if a != [] && b != [] && a[0] == b[0] {
      LexLessIff(a[1..], b[1..]);
      if k: nat :| FirstDifference(a[1..], b[1..], k) {
        assert a[..k + 1] == [a[0]] + a[1..][..k] && b[..k + 1] == [b[0]] + b[1..][..k];
        assert FirstDifference(a, b, k + 1);
      }
      if k: nat :| FirstDifference(a, b, k) {
        assert k > 0 && a[1..][..k - 1] == a[..k][1..] && b[1..][..k - 1] == b[..k][1..];
        assert FirstDifference(a[1..], b[1..], k - 1);
      }
    } else if LexLess(a, b) {
      assert FirstDifference(a, b, 0);
    } else {
      assert forall k: nat :: FirstDifference(a, b, k) && k > 0 ==> a[..k][0] == b[..k][0];
    }
  }

  /** Other names come by their code units. */
  lemma OtherNames(a: JsString, b: JsString)
    requires !IsIndex(a) && !IsIndex(b)
    ensures Before(a, b) <==> exists k: nat :: FirstDifference(a, b, k)
  {
    LexLessIff(a, b);
  }
}
