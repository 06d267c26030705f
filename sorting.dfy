/**
 * The `List.Sort` calls of the source, all of which order by one integer
 * key (piece type, level number). The library sort is unstable; the model
 * uses a stable insertion sort; the contracts here say nothing about the
 * order of elements with equal keys.
 */
module Sorting {

  /** Non-decreasing by `key`. */
  predicate SortedBy<T>(s: seq<T>, key: T -> int) {
    forall i, j :: 0 <= i < j < |s| ==> key(s[i]) <= key(s[j])
  }

  /** An element of a sequence made of `s` plus `x` is `x` or an element of `s`. */
  lemma InsertedFrom<T>(x: T, s: seq<T>, r: seq<T>, j: int)
    requires multiset(r) == multiset(s) + multiset{x}
    requires 0 <= j < |r|
    ensures r[j] == x || exists k :: 0 <= k < |s| && s[k] == r[j]
  {
    assert r[j] in multiset(r);
    if r[j] != x {
      assert r[j] in multiset(s);
      assert r[j] in s;
    }
  }
  /** The keys of `s`, in order. */
  function Keys<T>(s: seq<T>, key: T -> int): (r: seq<int>)
    ensures |r| == |s|
    ensures forall i :: 0 <= i < |s| ==> r[i] == key(s[i])
  {
    if s == [] then [] else [key(s[0])] + Keys(s[1..], key)
  }
  /** Inserts `x` into the key-sorted `s`. */
  function Insert<T>(x: T, s: seq<T>, key: T -> int): (r: seq<T>)
    requires SortedBy(s, key)
    ensures |r| == |s| + 1
    ensures multiset(r) == multiset(s) + multiset{x}
    ensures SortedBy(r, key)
  {
    if s == [] then [x]
    else if key(x) <= key(s[0]) then [x] + s
    else
      var rest := Insert(x, s[1..], key);
      assert s == [s[0]] + s[1..];
      assert forall j :: 0 <= j < |rest| ==> key(s[0]) <= key(rest[j]) by {
        forall j | 0 <= j < |rest| ensures key(s[0]) <= key(rest[j]) {
          InsertedFrom(x, s[1..], rest, j);
        }
      }
      [s[0]] + rest
  }
  /** Inserting `x` adds exactly one occurrence of its key. */
  lemma {:induction false} InsertKeys<T>(x: T, s: seq<T>, key: T -> int)
    requires SortedBy(s, key)
    ensures multiset(Keys(Insert(x, s, key), key)) == multiset(Keys(s, key)) + multiset{key(x)}
  {
    var r := Insert(x, s, key);
    if s == [] {
    } else if key(x) <= key(s[0]) {
      assert r[1..] == s;
    } else {
      var rest := Insert(x, s[1..], key);
      InsertKeys(x, s[1..], key);
      assert r[1..] == rest;
    }
  }

  /** The key-ordered permutation of `s`. */
  function SortBy<T>(s: seq<T>, key: T -> int): (r: seq<T>)
    ensures |r| == |s|
    ensures SortedBy(r, key)
    ensures multiset(r) == multiset(s)
  {
    if s == [] then []
    else
      assert s == [s[0]] + s[1..];
      Insert(s[0], SortBy(s[1..], key), key)
  }

  /** Sorting keeps the multiset of keys. */
  lemma {:induction false} SortByKeys<T>(s: seq<T>, key: T -> int)
    ensures multiset(Keys(SortBy(s, key), key)) == multiset(Keys(s, key))
  {
    if s != [] {
      SortByKeys(s[1..], key);
      InsertKeys(s[0], SortBy(s[1..], key), key);
    }
  }

  /** Two equal entries in a sequence make its multiset count that value twice. */
  lemma RepeatedCountsTwice(t: seq<int>, i: int, j: int)
    requires 0 <= i < j < |t| && t[i] == t[j]
    ensures multiset(t)[t[i]] >= 2
  {
    assert t == t[..j] + t[j..];
    assert t[i] in t[..j] && t[j] in t[j..];
    assert multiset(t) == multiset(t[..j]) + multiset(t[j..]);
  }

  /**
   * Four non-decreasing keys that are 0, 1, 2 and 3 in some order are
   * exactly 0, 1, 2, 3: after the sort by type, index i holds type i.
   */
  lemma SortedOnePerType(t: seq<int>)
    requires |t| == 4
    requires forall i, j :: 0 <= i < j < |t| ==> t[i] <= t[j]
    requires multiset(t) == multiset{0, 1, 2, 3}
    ensures t == [0, 1, 2, 3]
  {
    forall i | 0 <= i < 4 ensures 0 <= t[i] <= 3 {
      assert t[i] in multiset(t);
    }
    forall i | 0 <= i < 3 ensures t[i] < t[i + 1] {
      if t[i] == t[i + 1] {
        RepeatedCountsTwice(t, i, i + 1);
      }
    }
  }

  /** Key-sorted elements whose keys are 0, 1, 2, 3 in some order have keys 0, 1, 2, 3 in this order. */
  lemma SortedKeysOnePerKey<T>(r: seq<T>, key: T -> int)
    requires SortedBy(r, key)
    requires multiset(Keys(r, key)) == multiset{0, 1, 2, 3}
    ensures Keys(r, key) == [0, 1, 2, 3]
  {
    var t := Keys(r, key);
    assert |t| == |multiset(t)| == 4;
    SortedOnePerType(t);
  }

  /**
   * Sorting elements whose keys are 0, 1, 2, 3 in some order gives keys
   * 0, 1, 2, 3 in this order, and puts the element with key k at index k.
   */
  lemma SortByOnePerKey<T>(s: seq<T>, key: T -> int)
    requires multiset(Keys(s, key)) == multiset{0, 1, 2, 3}
    ensures Keys(SortBy(s, key), key) == [0, 1, 2, 3]
    ensures |s| == |SortBy(s, key)| == 4
    ensures forall k :: 0 <= k < 4 ==> key(SortBy(s, key)[k]) == k
    ensures forall i :: 0 <= i < |s| ==> 0 <= key(s[i]) < 4 && SortBy(s, key)[key(s[i])] == s[i]
  {
    var r := SortBy(s, key);
    SortByKeys(s, key);
    SortedKeysOnePerKey(r, key);
    KeysInOrder(r, key);
    IndexedByKey(s, r, key);
  }

  /** A sequence whose keys are 0, 1, 2, 3 in this order has four elements, the one at index k with key k. */
  lemma KeysInOrder<T>(r: seq<T>, key: T -> int)
    requires Keys(r, key) == [0, 1, 2, 3]
    ensures |r| == 4
    ensures forall k :: 0 <= k < 4 ==> key(r[k]) == k
  {
    var kr := Keys(r, key);
    forall k | 0 <= k < 4 ensures key(r[k]) == k {
      assert kr[k] == k;
    }
  }

  /** In a permutation `r` of `s` whose keys are 0, 1, 2, 3 in order, each element of `s` sits at its key. */
  lemma IndexedByKey<T>(s: seq<T>, r: seq<T>, key: T -> int)
    requires multiset(r) == multiset(s)
    requires Keys(r, key) == [0, 1, 2, 3]
    ensures forall i :: 0 <= i < |s| ==> 0 <= key(s[i]) < 4 && r[key(s[i])] == s[i]
  {
    forall i | 0 <= i < |s|
      ensures 0 <= key(s[i]) < 4 && r[key(s[i])] == s[i]
    {
      ElementOfPermutation(s, r, i);
      var k :| 0 <= k < |r| && r[k] == s[i];
      assert Keys(r, key)[k] == k;
    }
  }

  /** Every element of `s` sits somewhere in a permutation `r` of `s`. */
  lemma ElementOfPermutation<T>(s: seq<T>, r: seq<T>, i: int)
    requires multiset(r) == multiset(s) && 0 <= i < |s|
    ensures exists k :: 0 <= k < |r| && r[k] == s[i]
  {
    assert s[i] in multiset(s);
    assert s[i] in r;
  }
}
