/** The app sorts with `Array.prototype.sort` and a numeric comparator
    `(a, b) => key(a) - key(b)`.  That sort is stable, so its result is fully
    determined: ordered by key, a permutation of the input, and elements with
    equal keys in their input order.  `SortBy` is an insertion sort with those
    three properties; a descending order is a sort by the negated key. */
module Sorting {

  ghost predicate SortedBy<T>(s: seq<T>, key: T -> int)
  {
    forall i, j :: 0 <= i < j < |s| ==> key(s[i]) <= key(s[j])
  }

  /** Places `x` before the first element whose key is not smaller. */
  function Insert<T>(x: T, s: seq<T>, key: T -> int): (r: seq<T>)
    ensures |r| == |s| + 1
  {
    if s == [] || key(x) <= key(s[0]) then [x] + s
    else [s[0]] + Insert(x, s[1..], key)
  }

  function SortBy<T>(s: seq<T>, key: T -> int): (r: seq<T>)
    ensures |r| == |s|
  {
    if s == [] then [] else Insert(s[0], SortBy(s[1..], key), key)
  }

  /** The elements of `s` whose key is `k`, in their order in `s`. */
  function KeyFilter<T>(s: seq<T>, key: T -> int, k: int): (r: seq<T>)
    ensures |r| <= |s|
  {
    if s == [] then []
    else (if key(s[0]) == k then [s[0]] else []) + KeyFilter(s[1..], key, k)
  }

  lemma {:induction false} InsertPermutes<T>(x: T, s: seq<T>, key: T -> int)
    ensures multiset(Insert(x, s, key)) == multiset(s) + multiset{x}
  {
    if s != [] && key(x) > key(s[0]) {
      InsertPermutes(x, s[1..], key);
      assert s == [s[0]] + s[1..];
    }
  }

  lemma {:induction false} InsertSorted<T>(x: T, s: seq<T>, key: T -> int)
    requires SortedBy(s, key)
    ensures SortedBy(Insert(x, s, key), key)
  {
    if s != [] && key(x) > key(s[0]) {
      InsertSorted(x, s[1..], key);
      InsertPermutes(x, s[1..], key);
      var r := Insert(x, s, key);
      forall i, j | 0 <= i < j < |r| ensures key(r[i]) <= key(r[j]) {
        if i == 0 {
          assert r[j] in multiset(s[1..]) + multiset{x};
          if r[j] != x {
            assert r[j] in s[1..];
          }
        }
      }
    }
  }

  /** The result is ordered by key. */
  lemma {:induction false} SortByIsSorted<T>(s: seq<T>, key: T -> int)
    ensures SortedBy(SortBy(s, key), key)
  {
    if s != [] {
      SortByIsSorted(s[1..], key);
      InsertSorted(s[0], SortBy(s[1..], key), key);
    }
  }

  /** The result is a permutation of the input. */
  lemma {:induction false} SortByPermutes<T>(s: seq<T>, key: T -> int)
    ensures multiset(SortBy(s, key)) == multiset(s)
  {
    if s != [] {
      SortByPermutes(s[1..], key);
      InsertPermutes(s[0], SortBy(s[1..], key), key);
      assert s == [s[0]] + s[1..];
    }
  }

  lemma {:induction false} InsertKeyFilter<T>(x: T, s: seq<T>, key: T -> int, k: int)
    ensures KeyFilter(Insert(x, s, key), key, k)
         == (if key(x) == k then [x] else []) + KeyFilter(s, key, k)
  {
    var xs := if key(x) == k then [x] else [];
    if s == [] || key(x) <= key(s[0]) {
      var r := [x] + s;
      assert r[0] == x && r[1..] == s;
      assert KeyFilter(r, key, k) == xs + KeyFilter(s, key, k);
    } else {
      var rest := Insert(x, s[1..], key);
      var r := [s[0]] + rest;
      var heads := if key(s[0]) == k then [s[0]] else [];
      assert r[0] == s[0] && r[1..] == rest;
      assert KeyFilter(r, key, k) == heads + KeyFilter(rest, key, k);
      assert KeyFilter(rest, key, k) == xs + KeyFilter(s[1..], key, k) by {
        InsertKeyFilter(x, s[1..], key, k);
      }
      assert heads == [] || xs == [];
      assert KeyFilter(s, key, k) == heads + KeyFilter(s[1..], key, k);
      assert heads + (xs + KeyFilter(s[1..], key, k)) == xs + (heads + KeyFilter(s[1..], key, k));
    }
  }

  /** Stability: among elements with the same key the input order is kept. */
  lemma {:induction false} SortByStable<T>(s: seq<T>, key: T -> int, k: int)
    ensures KeyFilter(SortBy(s, key), key, k) == KeyFilter(s, key, k)
  {
    if s != [] {
      SortByStable(s[1..], key, k);
      InsertKeyFilter(s[0], SortBy(s[1..], key), key, k);
    }
  }

  /** The first element with key `k` heads the elements with that key. */
  lemma {:induction false} KeyFilterFirst<T>(s: seq<T>, key: T -> int, k: int, j: int)
    requires 0 <= j < |s| && key(s[j]) == k
    requires forall i :: 0 <= i < j ==> key(s[i]) != k
    ensures KeyFilter(s, key, k) != [] && KeyFilter(s, key, k)[0] == s[j]
  {
    if j > 0 {
      KeyFilterFirst(s[1..], key, k, j - 1);
    }
  }

  /** After sorting, the head is the first input element of least key. */
  lemma SortByHead<T>(s: seq<T>, key: T -> int, j: int)
    requires 0 <= j < |s|
    requires forall i :: 0 <= i < |s| ==> key(s[j]) <= key(s[i])
    requires forall i :: 0 <= i < j ==> key(s[i]) != key(s[j])
    ensures SortBy(s, key)[0] == s[j]
  {
    var r := SortBy(s, key);
    var k := key(s[j]);
    SortByIsSorted(s, key);
    SortByPermutes(s, key);
    SortByStable(s, key, k);
    assert r[0] in multiset(s);
    assert s[j] in multiset(r);
    var m :| 0 <= m < |r| && r[m] == s[j];
    assert key(r[0]) == k;
    KeyFilterFirst(s, key, k, j);
    KeyFilterFirst(r, key, k, 0);
  }
}
