/**
 * The ordering rule shared by the bootstrap: PriorityOrdered objects always come
 * before plain Ordered ones whatever their order values, lower order values come
 * first within a group, an object that is not Ordered has the lowest precedence,
 * and sorting is stable, so ties keep discovery order.
 */
module Ordering {
  import opened Seqs

  /** Which ordering interface an object implements. */
  datatype Tier = PriorityTier | OrderedTier | PlainTier

  /** Integer.MAX_VALUE: the order value of an object that states none. */
  const LowestPrecedence: int := 2147483647

  /** The sort key of OrderComparator: the group (0 for PriorityOrdered) and the order value. */
  datatype OrderKey = OrderKey(group: nat, order: int)

  function KeyOf(tier: Tier, order: int): (k: OrderKey)
    ensures k.group == 0 <==> tier == PriorityTier
    ensures tier == PlainTier ==> k.order == LowestPrecedence
  {
    match tier
    case PriorityTier => OrderKey(0, order)
    case OrderedTier => OrderKey(1, order)
    case PlainTier => OrderKey(1, LowestPrecedence)
  }

  /** `a` may come before `b`. */
  predicate KeyLe(a: OrderKey, b: OrderKey) {
    a.group < b.group || (a.group == b.group && a.order <= b.order)
  }

  /** PriorityOrdered objects come before plain Ordered ones regardless of their order values. */
  lemma PriorityBeforeOrdered(p: int, o: int)
    ensures KeyLe(KeyOf(PriorityTier, p), KeyOf(OrderedTier, o))
    ensures !KeyLe(KeyOf(OrderedTier, o), KeyOf(PriorityTier, p))
  {
  }

  ghost predicate SortedBy<T>(s: seq<T>, key: T -> OrderKey) {
    forall i, j :: 0 <= i < j < |s| ==> KeyLe(key(s[i]), key(s[j]))
  }

  /** The elements of `s` whose key is `k`, in their order in `s`. */
  function WithKey<T>(s: seq<T>, key: T -> OrderKey, k: OrderKey): seq<T> {
    if s == [] then [] else (if key(s[0]) == k then [s[0]] else []) + WithKey(s[1..], key, k)
  }

  /** Puts `x` in front of the first element it may precede. */
  function Insert<T>(x: T, s: seq<T>, key: T -> OrderKey): seq<T> {
    if s == [] || KeyLe(key(x), key(s[0])) then [x] + s
    else [s[0]] + Insert(x, s[1..], key)
  }

  /** A stable sort by key, as List.sort with an order comparator performs it. */
  function Sort<T>(s: seq<T>, key: T -> OrderKey): seq<T> {
    if s == [] then [] else Insert(s[0], Sort(s[1..], key), key)
  }

  lemma {:induction false} InsertPermutation<T>(x: T, s: seq<T>, key: T -> OrderKey)
    ensures multiset(Insert(x, s, key)) == multiset(s) + multiset{x}
  {
    if s != [] && !KeyLe(key(x), key(s[0])) {
      InsertPermutation(x, s[1..], key);
      assert s == [s[0]] + s[1..];
    }
  }

  lemma {:induction false} InsertSorted<T>(x: T, s: seq<T>, key: T -> OrderKey)
    requires SortedBy(s, key)
    ensures SortedBy(Insert(x, s, key), key)
  {
    if s == [] || KeyLe(key(x), key(s[0])) {
      var r := [x] + s;
      forall i, j | 0 <= i < j < |r| ensures KeyLe(key(r[i]), key(r[j])) {
        if i > 0 {
          assert r[i] == s[i - 1] && r[j] == s[j - 1];
        } else {
          assert r[j] == s[j - 1];
        }
      }
    } else {
      var tail := s[1..];
      assert SortedBy(tail, key) by {
        forall i, j | 0 <= i < j < |tail| ensures KeyLe(key(tail[i]), key(tail[j])) {
          assert tail[i] == s[i + 1] && tail[j] == s[j + 1];
        }
      }
      InsertSorted(x, tail, key);
      InsertPermutation(x, tail, key);
      var ins := Insert(x, tail, key);
      var r := [s[0]] + ins;
      forall i, j | 0 <= i < j < |r| ensures KeyLe(key(r[i]), key(r[j])) {
        if i > 0 {
          assert r[i] == ins[i - 1] && r[j] == ins[j - 1];
        } else {
          assert r[j] == ins[j - 1];
          assert r[j] in multiset(tail) + multiset{x};
          if r[j] != x {
            assert r[j] in tail;
            var m :| 0 <= m < |tail| && tail[m] == r[j];
            assert tail[m] == s[m + 1];
          }
        }
      }
    }
  }

  lemma {:induction false} InsertWithKey<T>(x: T, s: seq<T>, key: T -> OrderKey, k: OrderKey)
    requires SortedBy(s, key)
    ensures WithKey(Insert(x, s, key), key, k) == (if key(x) == k then [x] else []) + WithKey(s, key, k)
  {
    if s == [] || KeyLe(key(x), key(s[0])) {
    } else {
      var tail := s[1..];
      assert SortedBy(tail, key) by {
        forall i, j | 0 <= i < j < |tail| ensures KeyLe(key(tail[i]), key(tail[j])) {
          assert tail[i] == s[i + 1] && tail[j] == s[j + 1];
        }
      }
      InsertWithKey(x, tail, key, k);
      // x goes after s[0], so s[0] has a strictly smaller key and x's key is not s[0]'s
      assert key(s[0]) != key(x);
      var ins := Insert(x, tail, key);
      assert Insert(x, s, key) == [s[0]] + ins;
      assert ([s[0]] + ins)[1..] == ins;
      if key(x) == k {
        assert key(s[0]) != k;
      }
    }
  }

  /** The sorted sequence is ordered by key. */
  lemma {:induction false} SortSorted<T>(s: seq<T>, key: T -> OrderKey)
    ensures SortedBy(Sort(s, key), key)
  {
    if s != [] {
      SortSorted(s[1..], key);
      InsertSorted(s[0], Sort(s[1..], key), key);
    }
  }

  /** Sorting neither loses nor adds an element. */
  lemma {:induction false} SortPermutation<T>(s: seq<T>, key: T -> OrderKey)
    ensures multiset(Sort(s, key)) == multiset(s)
  {
    if s != [] {
      SortPermutation(s[1..], key);
      InsertPermutation(s[0], Sort(s[1..], key), key);
      assert s == [s[0]] + s[1..];
    }
  }

  /** Sorting is stable: elements with equal keys keep their relative order. */
  lemma {:induction false} SortStable<T>(s: seq<T>, key: T -> OrderKey, k: OrderKey)
    ensures WithKey(Sort(s, key), key, k) == WithKey(s, key, k)
  {
    if s != [] {
      SortStable(s[1..], key, k);
      SortSorted(s[1..], key);
      InsertWithKey(s[0], Sort(s[1..], key), key, k);
    }
  }

  /** Sorting keeps the same set of elements and, when they are distinct, keeps them distinct. */
  lemma SortElems<T>(s: seq<T>, key: T -> OrderKey)
    ensures Elems(Sort(s, key)) == Elems(s)
    ensures |Sort(s, key)| == |s|
    ensures NoDup(s) ==> NoDup(Sort(s, key))
  {
    SortPermutation(s, key);
    var r := Sort(s, key);
    assert |r| == |multiset(r)| == |multiset(s)| == |s|;
    forall x ensures x in r <==> x in s {
      assert x in r <==> x in multiset(r);
      assert x in s <==> x in multiset(s);
    }
    assert Elems(r) == Elems(s);
    if NoDup(s) {
      forall i, j | 0 <= i < j < |r| ensures r[i] != r[j] {
        if r[i] == r[j] {
          MultiplicityAtLeastTwo(r, i, j);
          NoDupMultiplicity(s, r[i]);
        }
      }
    }
  }

  lemma MultiplicityAtLeastTwo<T>(r: seq<T>, i: int, j: int)
    requires 0 <= i < j < |r| && r[i] == r[j]
    ensures multiset(r)[r[i]] >= 2
  {
    var x := r[i];
    assert r == r[..i] + [x] + r[i + 1..j] + [x] + r[j + 1..];
  }

  lemma {:induction false} NoDupMultiplicity<T>(s: seq<T>, x: T)
    requires NoDup(s)
    ensures multiset(s)[x] <= 1
  {
    if s != [] {
      var tail := s[1..];
      assert NoDup(tail) by {
        forall i, j | 0 <= i < j < |tail| ensures tail[i] != tail[j] {
          assert tail[i] == s[i + 1] && tail[j] == s[j + 1];
        }
      }
      NoDupMultiplicity(tail, x);
      assert s == [s[0]] + tail;
      if s[0] == x {
        assert x !in tail by {
          forall m | 0 <= m < |tail| ensures tail[m] != x {
            assert tail[m] == s[m + 1];
          }
        }
      }
    }
  }
}
