/** The array methods the app leans on, as functions over sequences:
    `filter`, `find` and a `reduce` that adds up a number per element. */
module Lists {
  import opened Common

  /** `r` is `s` with some elements dropped and the rest in their order. */
  ghost predicate SubsequenceOf<T>(r: seq<T>, s: seq<T>)
  {
    if r == [] then true
    else if s == [] then false
    else (r[|r| - 1] == s[|s| - 1] && SubsequenceOf(r[..|r| - 1], s[..|s| - 1]))
         || SubsequenceOf(r, s[..|s| - 1])
  }

  /** `s.filter(f)`: exactly the elements satisfying `f`, in their order. */
  function Filter<T(==)>(s: seq<T>, f: T -> bool): (r: seq<T>)
    ensures |r| <= |s|
    ensures forall i :: 0 <= i < |r| ==> f(r[i]) && r[i] in s
    ensures forall i :: 0 <= i < |s| && f(s[i]) ==> s[i] in r
    ensures SubsequenceOf(r, s)
  {
    if s == [] then []
    else
      var rest := Filter(s[..|s| - 1], f);
      var last := s[|s| - 1];
      assert s == s[..|s| - 1] + [last];
      if f(last) then
        assert (rest + [last])[..|rest|] == rest;
        rest + [last]
      else rest
  }

  /** Membership in the filtered sequence, element-wise. */
  lemma FilterMembers<T>(s: seq<T>, f: T -> bool)
    ensures forall x :: x in Filter(s, f) <==> x in s && f(x)
  {
    var r := Filter(s, f);
    forall x | x in s && f(x) ensures x in r {
      var i :| 0 <= i < |s| && s[i] == x;
    }
  }

  /** Filtering a concatenation filters each part: together with the
      singleton case this fixes the order of `filter`'s output. */
  lemma {:induction false} FilterAppend<T>(a: seq<T>, b: seq<T>, f: T -> bool)
    ensures Filter(a + b, f) == Filter(a, f) + Filter(b, f)
    decreases |b|
  {
    if b == [] {
      assert a + b == a;
    } else {
      assert (a + b)[..|a + b| - 1] == a + b[..|b| - 1];
      FilterAppend(a, b[..|b| - 1], f);
    }
  }

  /** `s.find(f)`: the first element satisfying `f`, or `undefined`. */
  function Find<T(==)>(s: seq<T>, f: T -> bool): (r: Option<T>)
    ensures r.None? <==> forall i :: 0 <= i < |s| ==> !f(s[i])
    ensures r.Some? ==> exists i :: 0 <= i < |s| && s[i] == r.value && f(s[i])
                                    && forall j :: 0 <= j < i ==> !f(s[j])
  {
    if s == [] then None
    else if f(s[0]) then Some(s[0])
    else
      var r := Find(s[1..], f);
      assert forall i :: 0 < i < |s| ==> s[i] == s[1..][i - 1];
      assert r.Some? ==> exists i :: 0 <= i < |s| && s[i] == r.value && f(s[i])
                                     && forall j :: 0 <= j < i ==> !f(s[j]) by {
        if r.Some? {
          var i :| 0 <= i < |s[1..]| && s[1..][i] == r.value && f(s[1..][i])
                   && forall j :: 0 <= j < i ==> !f(s[1..][j]);
          assert s[i + 1] == r.value && forall j :: 0 <= j < i + 1 ==> !f(s[j]);
        }
      }
      r
  }

  /** A first match by key in the tail of `s` is a first match in `s` when
      the head's key differs. */
  lemma FirstMatchInTail<T, K>(s: seq<T>, key: T -> K, id: K, x: T)
    requires s != [] && key(s[0]) != id
    requires exists i :: 0 <= i < |s| - 1 && s[1..][i] == x && forall j :: 0 <= j < i ==> key(s[1..][j]) != id
    ensures exists i :: 0 <= i < |s| && s[i] == x && forall j :: 0 <= j < i ==> key(s[j]) != id
  {
    var i :| 0 <= i < |s| - 1 && s[1..][i] == x && forall j :: 0 <= j < i ==> key(s[1..][j]) != id;
    assert s[i + 1] == x;
    assert forall j :: 0 < j < i + 1 ==> key(s[j]) == key(s[1..][j - 1]);
  }

  /** `s.findIndex(f)`: the first index whose element satisfies `f`, or -1. */
  function FindIndex<T>(s: seq<T>, f: T -> bool): (k: int)
    ensures -1 <= k < |s|
    ensures k == -1 <==> forall i :: 0 <= i < |s| ==> !f(s[i])
    ensures k >= 0 ==> f(s[k]) && forall j :: 0 <= j < k ==> !f(s[j])
  {
    if s == [] then -1
    else if f(s[0]) then 0
    else
      var k := FindIndex(s[1..], f);
      assert forall i :: 0 < i < |s| ==> s[i] == s[1..][i - 1];
      if k == -1 then -1 else k + 1
  }

  /** `[...s].reverse()`. */
  function Reverse<T>(s: seq<T>): (r: seq<T>)
    ensures |r| == |s|
    ensures forall i :: 0 <= i < |s| ==> r[i] == s[|s| - 1 - i]
  {
    if s == [] then [] else [s[|s| - 1]] + Reverse(s[..|s| - 1])
  }

  /** `find` on the reversed sequence finds the last element satisfying `f`,
      at position `k` of the original; -1 when there is none. */
  lemma FindInReverse<T>(s: seq<T>, f: T -> bool) returns (k: int)
    ensures Find(Reverse(s), f).Some? ==>
      0 <= k < |s| && Find(Reverse(s), f).value == s[k] && f(s[k])
      && forall i :: k < i < |s| ==> !f(s[i])
    ensures Find(Reverse(s), f).None? ==> k == -1 && forall i :: 0 <= i < |s| ==> !f(s[i])
  {
    var rev := Reverse(s);
    var found := Find(rev, f);
    if found.Some? {
      var m :| 0 <= m < |rev| && rev[m] == found.value && f(rev[m]) && forall j :: 0 <= j < m ==> !f(rev[j]);
      k := |s| - 1 - m;
      forall i | k < i < |s| ensures !f(s[i]) {
        assert rev[|s| - 1 - i] == s[i];
      }
    } else {
      k := -1;
      forall i | 0 <= i < |s| ensures !f(s[i]) {
        assert rev[|s| - 1 - i] == s[i];
      }
    }
  }

  /** When at most one element satisfies `f`, `find` returns it. */
  lemma FindUnique<T>(s: seq<T>, f: T -> bool, i: int)
    requires 0 <= i < |s| && f(s[i])
    requires forall j :: 0 <= j < |s| && f(s[j]) ==> j == i
    ensures Find(s, f) == Some(s[i])
  {
  }

  /** `s.reduce((acc, x) => acc + f(x), 0)`. */
  function SumBy<T>(s: seq<T>, f: T -> int): int
  {
    if s == [] then 0 else SumBy(s[..|s| - 1], f) + f(s[|s| - 1])
  }

  /** The sum of a longer prefix adds the next summand. */
  lemma SumByPrefixStep<T>(s: seq<T>, k: int, f: T -> int)
    requires 0 <= k < |s|
    ensures SumBy(s[..k + 1], f) == SumBy(s[..k], f) + f(s[k])
  {
    assert s[..k + 1][..k] == s[..k];
  }

  lemma {:induction false} SumByAppend<T>(a: seq<T>, b: seq<T>, f: T -> int)
    ensures SumBy(a + b, f) == SumBy(a, f) + SumBy(b, f)
    decreases |b|
  {
    if b == [] {
      assert a + b == a;
    } else {
      assert (a + b)[..|a + b| - 1] == a + b[..|b| - 1];
      SumByAppend(a, b[..|b| - 1], f);
    }
  }

  /** Sums of pointwise equal summands agree. */
  lemma {:induction false} SumByExtensional<T>(s: seq<T>, f: T -> int, g: T -> int)
    requires forall x :: f(x) == g(x)
    ensures SumBy(s, f) == SumBy(s, g)
  {
    if s != [] {
      SumByExtensional(s[..|s| - 1], f, g);
    }
  }

  /** Taking one element out of a sequence takes its summand out of the sum. */
  lemma SumBySplit<T>(before: seq<T>, x: T, after: seq<T>, f: T -> int)
    ensures SumBy(before + [x] + after, f) == SumBy(before + after, f) + f(x)
  {
    SumByAppend(before, [x] + after, f);
    SumByAppend([x], after, f);
    SumByAppend(before, after, f);
    assert SumBy([x], f) == SumBy([], f) + f(x);
    assert before + [x] + after == before + ([x] + after);
  }

  /** Two multisets that agree once `x` is added to both agree. */
  lemma MultisetCancel<T>(m: multiset<T>, n: multiset<T>, x: T)
    requires m + multiset{x} == n + multiset{x}
    ensures m == n
  {
    assert forall y :: m[y] == (m + multiset{x})[y] - multiset{x}[y];
    assert forall y :: n[y] == (n + multiset{x})[y] - multiset{x}[y];
  }

  /** A permutation has the same members. */
  lemma SameMembers<T>(s: seq<T>, t: seq<T>)
    requires multiset(s) == multiset(t)
    ensures forall x :: x in s <==> x in t
  {
    forall x
      ensures x in s <==> x in t
    {
      assert x in s <==> x in multiset(s);
      assert x in t <==> x in multiset(t);
    }
  }

  /** A sum does not depend on the order of the elements. */
  lemma {:induction false} SumByPermutation<T>(s: seq<T>, t: seq<T>, f: T -> int)
    requires multiset(s) == multiset(t)
    ensures SumBy(s, f) == SumBy(t, f)
    decreases |s|
  {
    if s == [] {
      assert |t| == |multiset(t)| == 0;
    } else {
      var init := s[..|s| - 1];
      var x := s[|s| - 1];
      assert s == init + [x];
      assert x in multiset(t);
      var k :| 0 <= k < |t| && t[k] == x;
      var before, after := t[..k], t[k + 1..];
      assert t == before + [x] + after;
      assert multiset(before + after) + multiset{x} == multiset(init) + multiset{x} by {
        assert multiset(t) == multiset(before) + multiset([x]) + multiset(after);
        assert multiset(s) == multiset(init) + multiset([x]);
      }
      MultisetCancel(multiset(before + after), multiset(init), x);
      SumByPermutation(init, before + after, f);
      SumBySplit(before, x, after, f);
    }
  }

  /** `s.length` after `filter(f)`, counted element by element. */
  lemma {:induction false} FilterLengthIsCount<T>(s: seq<T>, f: T -> bool)
    ensures |Filter(s, f)| == SumBy(s, x => if f(x) then 1 else 0)
  {
    if s != [] {
      FilterLengthIsCount(s[..|s| - 1], f);
    }
  }
}
