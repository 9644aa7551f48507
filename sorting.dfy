/**
 * Laravel's `sortByDesc` on a collection: a stable sort by a key, largest
 * first (PHP 8's sort keeps equal elements in their original order).
 */
module Sorting {

  predicate SortedDesc<T>(s: seq<T>, key: T -> int) {
    forall i, j :: 0 <= i < j < |s| ==> key(s[i]) >= key(s[j])
  }

  /** The elements whose key is k, in their order. */
  function WithKey<T>(s: seq<T>, key: T -> int, k: int): (r: seq<T>)
    ensures |r| <= |s|
    decreases |s|
  {
    if s == [] then []
    else (if key(s[0]) == k then [s[0]] else []) + WithKey(s[1..], key, k)
  }

  /** Put x before the first element whose key is not larger than x's. */
  function Insert<T>(x: T, s: seq<T>, key: T -> int): (r: seq<T>)
    ensures |r| == |s| + 1
    decreases |s|
  {
    if s == [] || key(s[0]) <= key(x) then [x] + s
    else [s[0]] + Insert(x, s[1..], key)
  }

  function SortByDesc<T>(s: seq<T>, key: T -> int): (r: seq<T>)
    ensures |r| == |s|
    decreases |s|
  {
    if s == [] then [] else Insert(s[0], SortByDesc(s[1..], key), key)
  }

  lemma {:induction false} InsertPermutes<T>(x: T, s: seq<T>, key: T -> int)
    ensures multiset(Insert(x, s, key)) == multiset{x} + multiset(s)
    decreases |s|
  {
    if s != [] && key(s[0]) > key(x) {
      InsertPermutes(x, s[1..], key);
      assert s == [s[0]] + s[1..];
    }
  }

  lemma {:induction false} InsertSorted<T>(x: T, s: seq<T>, key: T -> int)
    requires SortedDesc(s, key)
    ensures SortedDesc(Insert(x, s, key), key)
    decreases |s|
  {
    if s != [] && key(s[0]) > key(x) {
      InsertSorted(x, s[1..], key);
      InsertPermutes(x, s[1..], key);
      var tail := Insert(x, s[1..], key);
      forall j | 0 <= j < |tail|
        ensures key(s[0]) >= key(tail[j])
      {
        assert tail[j] in multiset(tail);
        assert tail[j] == x || tail[j] in s[1..];
      }
    }
  }

  /** Inserting x into a sorted list adds it to its key's group, ahead of that group. */
  lemma {:induction false} InsertKeepsGroups<T>(x: T, s: seq<T>, key: T -> int, k: int)
    requires SortedDesc(s, key)
    ensures WithKey(Insert(x, s, key), key, k) == WithKey([x] + s, key, k)
    decreases |s|
  {
    if s != [] && key(s[0]) > key(x) {
      InsertKeepsGroups(x, s[1..], key, k);
      assert ([x] + s)[1..] == s;
      assert ([x] + s[1..])[1..] == s[1..];
      assert (Insert(x, s, key))[1..] == Insert(x, s[1..], key);
      if key(x) == k {
        // s[0] has a larger key than x, so it is outside x's group
        assert key(s[0]) != k;
      }
    }
  }

  /** `sortByDesc` orders by key, largest first. */
  lemma {:induction false} SortByDescSorted<T>(s: seq<T>, key: T -> int)
    ensures SortedDesc(SortByDesc(s, key), key)
    decreases |s|
  {
    if s != [] {
      SortByDescSorted(s[1..], key);
      InsertSorted(s[0], SortByDesc(s[1..], key), key);
    }
  }

  /** `sortByDesc` keeps exactly the same elements. */
  lemma {:induction false} SortByDescPermutes<T>(s: seq<T>, key: T -> int)
    ensures multiset(SortByDesc(s, key)) == multiset(s)
    decreases |s|
  {
    if s != [] {
      SortByDescPermutes(s[1..], key);
      InsertPermutes(s[0], SortByDesc(s[1..], key), key);
      assert s == [s[0]] + s[1..];
    }
  }

  /** `sortByDesc` is stable: elements with equal keys keep their original order. */
  lemma {:induction false} SortByDescStable<T>(s: seq<T>, key: T -> int, k: int)
    ensures WithKey(SortByDesc(s, key), key, k) == WithKey(s, key, k)
    decreases |s|
  {
    if s != [] {
      var rest := SortByDesc(s[1..], key);
      SortByDescStable(s[1..], key, k);
      SortByDescSorted(s[1..], key);
      InsertKeepsGroups(s[0], rest, key, k);
      assert ([s[0]] + rest)[1..] == rest;
    }
  }
}
