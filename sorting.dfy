/**
 * A stable sort by a real-valued key. It stands for the engine's
 * `Array.prototype.sort` with a numeric comparator, which the sources call
 * to order samples (by index or by value) and variants (by bandwidth).
 * Since ECMAScript 2019 that sort is stable, and so is this insertion sort.
 */
module Sorting {

  /** `s` is in ascending order of `key`. */
  ghost predicate SortedBy<T>(s: seq<T>, key: T -> real) {
    forall i, j :: 0 <= i < j < |s| ==> key(s[i]) <= key(s[j])
  }

  /** Inserts `x` before the first element whose key is not smaller. */
  function Insert<T>(x: T, s: seq<T>, key: T -> real): (r: seq<T>)
    requires SortedBy(s, key)
    ensures SortedBy(r, key)
    ensures multiset(r) == multiset(s) + multiset{x}
    ensures |r| == |s| + 1
  {
    if s == [] || key(x) <= key(s[0]) then
      [x] + s
    else
      var rest := Insert(x, s[1..], key);
      HeadStaysFirst(x, s, rest, key);
      [s[0]] + rest
  }

  /**
   * When `x` goes after the head of `s`, the head still comes first: it is
   * no greater than anything `x` was inserted among, nor than `x`.
   */
  lemma HeadStaysFirst<T>(x: T, s: seq<T>, rest: seq<T>, key: T -> real)
    requires s != [] && SortedBy(s, key) && key(s[0]) < key(x)
    requires SortedBy(rest, key) && multiset(rest) == multiset(s[1..]) + multiset{x}
    ensures SortedBy([s[0]] + rest, key)
    ensures multiset([s[0]] + rest) == multiset(s) + multiset{x}
  {
    assert multiset(s) == multiset{s[0]} + multiset(s[1..]) by {
      assert s == [s[0]] + s[1..];
    }
    forall k | 0 <= k < |rest|
      ensures key(s[0]) <= key(rest[k])
    {
      assert rest[k] in multiset(rest);
      assert rest[k] == x || rest[k] in multiset(s[1..]);
    }
    var r := [s[0]] + rest;
    forall i, j | 0 <= i < j < |r|
      ensures key(r[i]) <= key(r[j])
    {
      if i > 0 {
        assert r[i] == rest[i - 1] && r[j] == rest[j - 1];
      } else {
        assert r[j] == rest[j - 1];
      }
    }
  }

  /** The stable sort: the result is ordered by `key` and is a permutation of `s`. */
  function SortBy<T>(s: seq<T>, key: T -> real): (r: seq<T>)
    ensures SortedBy(r, key)
    ensures multiset(r) == multiset(s)
    ensures |r| == |s|
  {
    if s == [] then []
    else
      assert s == [s[0]] + s[1..];
      Insert(s[0], SortBy(s[1..], key), key)
  }

  /** The elements of `s` whose key is `c`, in their order in `s`. */
  ghost function WithKey<T>(s: seq<T>, key: T -> real, c: real): seq<T> {
    if s == [] then []
    else (if key(s[0]) == c then [s[0]] else []) + WithKey(s[1..], key, c)
  }

  lemma WithKeyCons<T>(y: T, t: seq<T>, key: T -> real, c: real)
    ensures WithKey([y] + t, key, c) == (if key(y) == c then [y] else []) + WithKey(t, key, c)
  {
    assert ([y] + t)[1..] == t;
  }

  /** `x` is inserted before every element of `s` with the same key. */
  lemma {:induction false} InsertGoesFirstAmongEqual<T>(x: T, s: seq<T>, key: T -> real, c: real)
    requires SortedBy(s, key)
    ensures WithKey(Insert(x, s, key), key, c) == (if key(x) == c then [x] else []) + WithKey(s, key, c)
    decreases |s|
  {
    if s == [] || key(x) <= key(s[0]) {
      assert Insert(x, s, key) == [x] + s;
      WithKeyCons(x, s, key, c);
    } else {
      var t := s[1..];
      var rest := Insert(x, t, key);
      assert Insert(x, s, key) == [s[0]] + rest;
      WithKeyCons(s[0], rest, key, c);
      InsertGoesFirstAmongEqual(x, t, key, c);
      assert s == [s[0]] + t;
      WithKeyCons(s[0], t, key, c);
      assert key(s[0]) != c || key(x) != c;
    }
  }

  /** The sort is stable: the elements sharing any one key keep their relative order. */
  lemma {:induction false} SortIsStable<T>(s: seq<T>, key: T -> real, c: real)
    ensures WithKey(SortBy(s, key), key, c) == WithKey(s, key, c)
    decreases |s|
  {
    if s != [] {
      SortIsStable(s[1..], key, c);
      InsertGoesFirstAmongEqual(s[0], SortBy(s[1..], key), key, c);
    }
  }
}
