/** Small value types and sequence facts shared by the models. */
module Common {
  newtype Byte = x: int | 0 <= x < 256

  type Bytes = seq<Byte>

  datatype Option<+T> = None | Some(value: T)

  /** The elements that satisfy `keep`, in order: what a reverse `splice` loop leaves behind. */
  function Filter<T(!new)>(s: seq<T>, keep: T -> bool): (r: seq<T>)
    ensures |r| <= |s|
    ensures forall x :: x in r <==> x in s && keep(x)
  {
    if s == [] then []
    else
      var rest := Filter(s[..|s| - 1], keep);
      assert s == s[..|s| - 1] + [s[|s| - 1]];
      if keep(s[|s| - 1]) then rest + [s[|s| - 1]] else rest
  }

  lemma Associative<T>(a: seq<T>, b: seq<T>, c: seq<T>)
    ensures a + b + c == a + (b + c)
  {
  }

  lemma {:induction false} FilterAppend<T(!new)>(a: seq<T>, b: seq<T>, keep: T -> bool)
    ensures Filter(a + b, keep) == Filter(a, keep) + Filter(b, keep)
  {
    if b == [] {
      assert a + b == a;
    } else {
      var b' := b[..|b| - 1];
      FilterAppend(a, b', keep);
      var (all, x) := (a + b, b[|b| - 1]);
      assert all[..|all| - 1] == a + b' && all[|all| - 1] == x;
      Associative(Filter(a, keep), Filter(b', keep), if keep(x) then [x] else []);
    }
  }

  lemma FilterOne<T(!new)>(x: T, keep: T -> bool)
    ensures Filter([x], keep) == if keep(x) then [x] else []
  {
    assert [x][..0] == [];
  }

  /** Filtering twice is filtering by the conjunction. */
  lemma {:induction false} FilterFilter<T(!new)>(s: seq<T>, p: T -> bool, q: T -> bool)
    ensures Filter(Filter(s, p), q) == Filter(s, x => p(x) && q(x))
  {
    if s != [] {
      var s' := s[..|s| - 1];
      FilterFilter(s', p, q);
      if p(s[|s| - 1]) {
        FilterAppend(Filter(s', p), [s[|s| - 1]], q);
        FilterOne(s[|s| - 1], q);
      }
    }
  }

  /** Two predicates that agree on the elements filter alike. */
  lemma {:induction false} FilterCongruent<T(!new)>(s: seq<T>, p: T -> bool, q: T -> bool)
    requires forall x :: x in s ==> p(x) == q(x)
    ensures Filter(s, p) == Filter(s, q)
  {
    if s != [] {
      FilterCongruent(s[..|s| - 1], p, q);
    }
  }

  lemma {:induction false} FilterAll<T(!new)>(s: seq<T>, p: T -> bool)
    requires forall x :: x in s ==> p(x)
    ensures Filter(s, p) == s
  {
    if s != [] {
      FilterAll(s[..|s| - 1], p);
      assert s == s[..|s| - 1] + [s[|s| - 1]];
    }
  }

  lemma {:induction false} FilterNone<T(!new)>(s: seq<T>, p: T -> bool)
    requires forall x :: x in s ==> !p(x)
    ensures Filter(s, p) == []
  {
    if s != [] {
      FilterNone(s[..|s| - 1], p);
    }
  }

  /** Filters commute where, on the elements of `group`, `keep` decides like `alive`. */
  lemma {:induction false} FilterWithin<T(!new)>(s: seq<T>, keep: T -> bool, group: T -> bool, alive: T -> bool)
    requires forall x :: x in s && group(x) ==> keep(x) == alive(x)
    ensures Filter(Filter(s, keep), group) == Filter(Filter(s, group), alive)
  {
    FilterFilter(s, keep, group);
    FilterFilter(s, group, alive);
    FilterCongruent(s, x => keep(x) && group(x), x => group(x) && alive(x));
  }

  lemma FilterFrom<T(!new)>(all: seq<T>, i: nat, keep: T -> bool)
    requires i < |all|
    ensures Filter(all[i..], keep) == (if keep(all[i]) then [all[i]] else []) + Filter(all[i + 1..], keep)
  {
    assert all[i..] == [all[i]] + all[i + 1..];
    FilterAppend([all[i]], all[i + 1..], keep);
    FilterOne(all[i], keep);
  }

  /** Removing element `i` of `before + [x] + after`. */
  lemma CutMiddle<T>(before: seq<T>, x: T, after: seq<T>)
    ensures var s := before + [x] + after; var i := |before|;
      s[i] == x && s[..i] + s[i + 1..] == before + after
  {
  }

  /** One turn of the loop below, at element `i`. */
  lemma SpliceTurn<T(!new)>(all: seq<T>, i: nat, s: seq<T>, keep: T -> bool)
    requires i < |all| && s == all[..i + 1] + Filter(all[i + 1..], keep)
    ensures s[i] == all[i]
    ensures (if keep(s[i]) then s else s[..i] + s[i + 1..]) == all[..i] + Filter(all[i..], keep)
  {
    var x, rest := all[i], Filter(all[i + 1..], keep);
    FilterFrom(all, i, keep);
    assert all[..i + 1] == all[..i] + [x];
    CutMiddle(all[..i], x, rest);
    assert s == all[..i] + ([x] + rest);
  }

  /** The backward `splice` loop that drops every element failing `keep`. */
  method Splice<T(!new)>(all: seq<T>, keep: T -> bool) returns (s: seq<T>)
    ensures s == Filter(all, keep)
  {
    s := all;
    var index := |s|;
    while index > 0
      invariant 0 <= index <= |all|
      invariant s == all[..index] + Filter(all[index..], keep)
    {
      index := index - 1;
      SpliceTurn(all, index, s, keep);
      if !keep(s[index]) {
        s := s[..index] + s[index + 1..];
      }
    }
  }

  /** The last element that satisfies `p`. */
  function LastWhere<T(!new)>(s: seq<T>, p: T -> bool): (r: Option<T>)
    ensures r.Some? ==> p(r.value)
  {
    if s == [] then None
    else if p(s[|s| - 1]) then Some(s[|s| - 1])
    else LastWhere(s[..|s| - 1], p)
  }

  lemma LastWherePush<T(!new)>(s: seq<T>, x: T, p: T -> bool)
    ensures LastWhere(s + [x], p) == if p(x) then Some(x) else LastWhere(s, p)
  {
    assert (s + [x])[..|s|] == s;
  }

  lemma {:induction false} LastWhereNone<T(!new)>(s: seq<T>, p: T -> bool)
    ensures LastWhere(s, p).None? <==> forall k :: 0 <= k < |s| ==> !p(s[k])
    decreases |s|
  {
    if s != [] {
      LastWhereNone(s[..|s| - 1], p);
      assert forall k :: 0 <= k < |s| - 1 ==> s[..|s| - 1][k] == s[k];
    }
  }

  /** Where it is. */
  lemma {:induction false} LastWhereAt<T(!new)>(s: seq<T>, p: T -> bool) returns (k: nat)
    requires LastWhere(s, p).Some?
    ensures k < |s| && p(s[k]) && LastWhere(s, p) == Some(s[k])
    ensures forall j :: k < j < |s| ==> !p(s[j])
    decreases |s|
  {
    if p(s[|s| - 1]) {
      k := |s| - 1;
    } else {
      k := LastWhereAt(s[..|s| - 1], p);
    }
  }
}
