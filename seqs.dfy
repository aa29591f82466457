/** Small facts about sequences used throughout the model. */
module Seqs {

  /** No element occurs twice. */
  ghost predicate NoDup<T>(s: seq<T>) {
    forall i, j :: 0 <= i < j < |s| ==> s[i] != s[j]
  }

  /** The elements of `s`, as a set. */
  ghost function Elems<T>(s: seq<T>): set<T> {
    set x | x in s
  }

  /** The elements of `s` that satisfy `p`, in their order in `s`. */
  function Filter<T>(s: seq<T>, p: T -> bool): (r: seq<T>)
    ensures |r| <= |s|
    ensures forall i :: 0 <= i < |r| ==> r[i] in s && p(r[i])
    ensures forall i :: 0 <= i < |s| && p(s[i]) ==> s[i] in r
  {
    if s == [] then []
    else Filter(s[..|s| - 1], p) + (if p(s[|s| - 1]) then [s[|s| - 1]] else [])
  }

  /** The elements of `s` that are not in `xs`, in their order in `s`. */
  function Without<T>(s: seq<T>, xs: set<T>): (r: seq<T>)
    ensures |r| <= |s|
    ensures forall i :: 0 <= i < |r| ==> r[i] in s && r[i] !in xs
    ensures forall i :: 0 <= i < |s| && s[i] !in xs ==> s[i] in r
  {
    if s == [] then []
    else Without(s[..|s| - 1], xs) + (if s[|s| - 1] in xs then [] else [s[|s| - 1]])
  }

  lemma FilterSnoc<T>(s: seq<T>, x: T, p: T -> bool)
    ensures Filter(s + [x], p) == Filter(s, p) + (if p(x) then [x] else [])
  {
    assert (s + [x])[..|s|] == s;
  }

  lemma {:induction false} FilterNoDup<T>(s: seq<T>, p: T -> bool)
    requires NoDup(s)
    ensures NoDup(Filter(s, p))
  {
    if s != [] {
      var init := s[..|s| - 1];
      NoDupSplitLast(s);
      FilterNoDup(init, p);
      var last := s[|s| - 1];
      AppendNoDup(Filter(init, p), if p(last) then [last] else []);
    }
  }

  lemma {:induction false} WithoutNoDup<T>(s: seq<T>, xs: set<T>)
    requires NoDup(s)
    ensures NoDup(Without(s, xs))
  {
    if s != [] {
      var init := s[..|s| - 1];
      NoDupSplitLast(s);
      WithoutNoDup(init, xs);
      var last := s[|s| - 1];
      AppendNoDup(Without(init, xs), if last in xs then [] else [last]);
    }
  }

  /** Two duplicate-free sequences with no common element concatenate to a duplicate-free one. */
  lemma AppendNoDup<T>(a: seq<T>, b: seq<T>)
    requires NoDup(a) && NoDup(b)
    requires forall x :: x in a ==> x !in b
    ensures NoDup(a + b)
  {
    var ab := a + b;
    forall i, j | 0 <= i < j < |ab| ensures ab[i] != ab[j] {
      if j < |a| {
      } else if i >= |a| {
        assert ab[i] == b[i - |a|] && ab[j] == b[j - |a|];
      } else {
        assert ab[i] in a && ab[j] == b[j - |a|];
      }
    }
  }

  /** A duplicate-free sequence has as many distinct elements as it is long. */
  lemma {:induction false} NoDupCardinality<T>(s: seq<T>)
    requires NoDup(s)
    ensures |Elems(s)| == |s|
  {
    if s != [] {
      var init := s[..|s| - 1];
      NoDupSplitLast(s);
      NoDupCardinality(init);
    }
  }

  /** An element at position `i` of a duplicate-free sequence does not occur before `i`. */
  lemma NoDupNotBefore<T>(s: seq<T>, i: int)
    requires NoDup(s) && 0 <= i < |s|
    ensures s[i] !in s[..i]
  {
    forall k | 0 <= k < i ensures s[..i][k] != s[i] {
      assert s[..i][k] == s[k];
    }
  }

  /** The concatenation of `ss`. */
  function Flatten<T>(ss: seq<seq<T>>): seq<T> {
    if ss == [] then [] else Flatten(ss[..|ss| - 1]) + ss[|ss| - 1]
  }

  lemma ElemsAppend<T>(a: seq<T>, b: seq<T>)
    ensures Elems(a + b) == Elems(a) + Elems(b)
  {
  }

  lemma {:induction false} FlattenPrefix<T>(ss: seq<seq<T>>, i: int)
    requires 0 <= i <= |ss|
    ensures Elems(Flatten(ss[..i])) <= Elems(Flatten(ss))
  {
    if i < |ss| {
      FlattenPrefix(ss[..|ss| - 1], i);
      assert ss[..|ss| - 1][..i] == ss[..i];
      ElemsAppend(Flatten(ss[..|ss| - 1]), ss[|ss| - 1]);
    } else {
      assert ss[..i] == ss;
    }
  }

  lemma FlattenSnoc<T>(ss: seq<seq<T>>, s: seq<T>)
    ensures Flatten(ss + [s]) == Flatten(ss) + s
  {
    assert (ss + [s])[..|ss|] == ss;
  }

  lemma StrictSubsetCard<T>(a: set<T>, b: set<T>, x: T)
    requires a <= b && x in b && x !in a
    ensures |a| < |b|
  {
    var d := b - a;
    assert x in d;
    assert b == a + d && a * d == {};
  }

  lemma AppendAssoc<T>(a: seq<T>, b: seq<T>, c: seq<T>)
    ensures a + (b + c) == a + b + c
  {
  }

  /** Dropping the last element of a duplicate-free sequence leaves one without it. */
  lemma NoDupSplitLast<T>(s: seq<T>)
    requires NoDup(s) && s != []
    ensures NoDup(s[..|s| - 1]) && s[|s| - 1] !in s[..|s| - 1]
    ensures Elems(s) == Elems(s[..|s| - 1]) + {s[|s| - 1]}
  {
    var init := s[..|s| - 1];
    forall i, j | 0 <= i < j < |init| ensures init[i] != init[j] {
      assert init[i] == s[i] && init[j] == s[j];
    }
    NoDupNotBefore(s, |s| - 1);
    assert s == init + [s[|s| - 1]];
    ElemsAppend(init, [s[|s| - 1]]);
  }

  /** A prefix of `a + [x]` no longer than `a` is a prefix of `a`. */
  lemma PrefixOfSnoc<T>(a: seq<T>, x: T, i: int)
    requires 0 <= i <= |a|
    ensures (a + [x])[..i] == a[..i]
  {
  }

  /** Dropping the last element of `a + b`, for a non-empty `b`, drops it from `b`. */
  lemma InitOfAppend<T>(a: seq<T>, b: seq<T>)
    requires b != []
    ensures (a + b)[..|a + b| - 1] == a + b[..|b| - 1]
    ensures (a + b)[|a + b| - 1] == b[|b| - 1]
  {
  }

  /** Removing `xs` from a duplicate-free sequence drops exactly the elements it has in common with `xs`. */
  lemma {:induction false} WithoutCount<T>(s: seq<T>, xs: set<T>)
    requires NoDup(s)
    ensures |Without(s, xs)| + |Elems(s) * xs| == |s|
  {
    if s == [] {
      assert Elems(s) * xs == {};
    } else {
      var init := s[..|s| - 1];
      var last := s[|s| - 1];
      NoDupSplitLast(s);
      WithoutCount(init, xs);
      var common := Elems(init) * xs;
      assert last !in common;
      assert Without(s, xs) == Without(init, xs) + (if last in xs then [] else [last]);
      if last in xs {
        assert Elems(s) * xs == common + {last};
      } else {
        assert Elems(s) * xs == common;
      }
    }
  }

  /** Two duplicate-free sequences with the same elements have the same length. */
  lemma SameElemsSameLength<T>(a: seq<T>, b: seq<T>)
    requires NoDup(a) && NoDup(b)
    requires forall x :: x in a <==> x in b
    ensures |a| == |b|
  {
    NoDupCardinality(a);
    NoDupCardinality(b);
    assert Elems(a) == Elems(b);
  }
}
