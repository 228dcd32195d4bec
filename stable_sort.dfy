/** Python's `list.sort(key=..., reverse=True)`, which both the leaderboard
    and the keyword filter use: a stable sort into non-increasing key order. */
module StableSort {

  /** `s` is non-increasing in `key`. */
  predicate SortedDesc<T>(s: seq<T>, key: T -> int) {
    forall i, j :: 0 <= i < j < |s| ==> key(s[i]) >= key(s[j])
  }

  /** The elements of `s` whose key is `k`, in their order in `s`. */
  function WithKey<T>(s: seq<T>, key: T -> int, k: int): (r: seq<T>)
    ensures |r| <= |s|
    decreases |s|
  {
    if |s| == 0 then []
    else WithKey(s[..|s| - 1], key, k) + (if key(s[|s| - 1]) == k then [s[|s| - 1]] else [])
  }

  /** `x` put into `t` behind every element whose key is at least `key(x)`,
      scanning from the back of `t`. */
  function InsertDesc<T>(t: seq<T>, x: T, key: T -> int): (r: seq<T>)
    ensures |r| == |t| + 1
    decreases |t|
  {
    if |t| == 0 || key(t[|t| - 1]) >= key(x) then t + [x]
    else InsertDesc(t[..|t| - 1], x, key) + [t[|t| - 1]]
  }

  /** Reference definition of the stable descending sort: the elements are
      inserted one after the other, each behind the ones already placed that
      have a key at least as large. */
  function SortDesc<T>(s: seq<T>, key: T -> int): (r: seq<T>)
    ensures |r| == |s|
    decreases |s|
  {
    if |s| == 0 then [] else InsertDesc(SortDesc(s[..|s| - 1], key), s[|s| - 1], key)
  }

  lemma {:induction false} InsertDescPerm<T>(t: seq<T>, x: T, key: T -> int)
    ensures multiset(InsertDesc(t, x, key)) == multiset(t) + multiset{x}
    decreases |t|
  {
    if !(|t| == 0 || key(t[|t| - 1]) >= key(x)) {
      var t' := t[..|t| - 1];
      assert t == t' + [t[|t| - 1]];
      InsertDescPerm(t', x, key);
    }
  }

  lemma {:induction false} InsertDescSorted<T>(t: seq<T>, x: T, key: T -> int)
    requires SortedDesc(t, key)
    ensures SortedDesc(InsertDesc(t, x, key), key)
    decreases |t|
  {
    if !(|t| == 0 || key(t[|t| - 1]) >= key(x)) {
      var t' := t[..|t| - 1];
      var last := t[|t| - 1];
      InsertDescSorted(t', x, key);
      InsertDescPerm(t', x, key);
      var u := InsertDesc(t', x, key);
      forall i | 0 <= i < |u|
        ensures key(u[i]) >= key(last)
      {
        assert u[i] in multiset(u);
        if u[i] != x {
          assert u[i] in multiset(t');
          var k :| 0 <= k < |t'| && t'[k] == u[i];
          assert t[k] == u[i];
        }
      }
    }
  }

  lemma {:induction false} WithKeyAppend<T>(a: seq<T>, b: seq<T>, key: T -> int, k: int)
    ensures WithKey(a + b, key, k) == WithKey(a, key, k) + WithKey(b, key, k)
    decreases |b|
  {
    if |b| == 0 {
      assert a + b == a;
    } else {
      var b' := b[..|b| - 1];
      assert (a + b)[..|a + b| - 1] == a + b';
      WithKeyAppend(a, b', key, k);
    }
  }

  /** Insertion keeps the order of equal keys: `x` lands behind every element
      of `t` with the same key. */
  lemma {:induction false} InsertDescStable<T>(t: seq<T>, x: T, key: T -> int, k: int)
    ensures WithKey(InsertDesc(t, x, key), key, k) == WithKey(t, key, k) + WithKey([x], key, k)
    decreases |t|
  {
    assert [x][..0] == [];
    if |t| == 0 || key(t[|t| - 1]) >= key(x) {
      WithKeyAppend(t, [x], key, k);
    } else {
      var t' := t[..|t| - 1];
      var last := t[|t| - 1];
      assert [last][..0] == [];
      assert t == t' + [last];
      InsertDescStable(t', x, key, k);
      WithKeyAppend(InsertDesc(t', x, key), [last], key, k);
      WithKeyAppend(t', [last], key, k);
    }
  }

  /** The sort is a permutation, ordered by non-increasing key, and stable:
      the elements of each key keep their original order. */
  lemma {:induction false} SortDescFacts<T>(s: seq<T>, key: T -> int)
    ensures multiset(SortDesc(s, key)) == multiset(s)
    ensures SortedDesc(SortDesc(s, key), key)
    ensures forall k :: WithKey(SortDesc(s, key), key, k) == WithKey(s, key, k)
    decreases |s|
  {
    if |s| > 0 {
      var front := s[..|s| - 1];
      var x := s[|s| - 1];
      SortDescFacts(front, key);
      InsertDescPerm(SortDesc(front, key), x, key);
      InsertDescSorted(SortDesc(front, key), x, key);
      assert s == front + [x];
      forall k
        ensures WithKey(SortDesc(s, key), key, k) == WithKey(s, key, k)
      {
        InsertDescStable(SortDesc(front, key), x, key, k);
        WithKeyAppend(front, [x], key, k);
      }
    }
  }

  /** No two elements of `s` share a `p`-value. */
  predicate DistinctBy<T, U(==)>(s: seq<T>, p: T -> U) {
    forall i, j :: 0 <= i < j < |s| ==> p(s[i]) != p(s[j])
  }

  lemma {:induction false} InsertDescDistinct<T, U>(t: seq<T>, x: T, key: T -> int, p: T -> U)
    requires DistinctBy(t, p) && forall y :: y in t ==> p(y) != p(x)
    ensures DistinctBy(InsertDesc(t, x, key), p)
    decreases |t|
  {
    if |t| == 0 || key(t[|t| - 1]) >= key(x) {
      var r := t + [x];
      forall i, j | 0 <= i < j < |r|
        ensures p(r[i]) != p(r[j])
      {
        if j == |t| {
          assert r[i] in t;
        }
      }
    } else {
      var t' := t[..|t| - 1];
      var last := t[|t| - 1];
      forall y | y in t'
        ensures p(y) != p(x)
      {
        assert y in t;
      }
      InsertDescDistinct(t', x, key, p);
      InsertDescPerm(t', x, key);
      var u := InsertDesc(t', x, key);
      var r := u + [last];
      forall i, j | 0 <= i < j < |r|
        ensures p(r[i]) != p(r[j])
      {
        if j == |u| {
          assert r[i] in multiset(u);
          if r[i] != x {
            assert r[i] in multiset(t');
            var k :| 0 <= k < |t'| && t'[k] == r[i];
            assert t[k] == r[i];
          } else {
            assert last in t;
          }
        }
      }
    }
  }

  /** Sorting never makes two elements share a `p`-value. */
  lemma {:induction false} SortDescDistinct<T, U>(s: seq<T>, key: T -> int, p: T -> U)
    requires DistinctBy(s, p)
    ensures DistinctBy(SortDesc(s, key), p)
    decreases |s|
  {
    if |s| > 0 {
      var front := s[..|s| - 1];
      var x := s[|s| - 1];
      assert DistinctBy(front, p) by {
        forall i, j | 0 <= i < j < |front|
          ensures p(front[i]) != p(front[j])
        {
          assert front[i] == s[i] && front[j] == s[j];
        }
      }
      SortDescDistinct(front, key, p);
      SortDescFacts(front, key);
      forall y | y in SortDesc(front, key)
        ensures p(y) != p(x)
      {
        assert y in multiset(SortDesc(front, key));
        var k :| 0 <= k < |front| && front[k] == y;
        assert s[k] == y;
      }
      InsertDescDistinct(SortDesc(front, key), x, key, p);
    }
  }

  /** Cutting a sorted sequence keeps its largest keys: nothing cut off has
      a larger key than anything kept. */
  lemma PrefixKeepsTop<T>(t: seq<T>, n: int, key: T -> int, x: T, y: T)
    requires SortedDesc(t, key) && 0 <= n <= |t|
    requires x in t && x !in t[..n] && y in t[..n]
    ensures key(y) >= key(x)
  {
    assert t == t[..n] + t[n..];
    assert x in t[n..];
    var k :| 0 <= k < |t| - n && t[n..][k] == x;
    var j :| 0 <= j < n && t[..n][j] == y;
    assert t[j] == y && t[n + k] == x;
  }

  /** The in-place sort: `list.sort(key=key, reverse=True)` on `a`. */
  method SortByKeyDesc<T>(a: array<T>, key: T -> int)
    modifies a
    ensures a[..] == SortDesc(old(a[..]), key)
  {
    ghost var s := a[..];
    var i := 0;
    while i < a.Length
      invariant 0 <= i <= a.Length
      invariant a[..i] == SortDesc(s[..i], key)
      invariant a[i..] == s[i..]
    {
      assert s[..i + 1][..i] == s[..i] && s[i] == a[i];
      InsertNext(a, i, key);
      i := i + 1;
    }
    assert a[..] == a[..a.Length] && s == s[..a.Length];
  }

  /** One step of the insertion sort: `a[i]` moves into the sorted prefix
      `a[..i]`, shifting the larger-keyed tail of the prefix one place right. */
  method InsertNext<T>(a: array<T>, i: int, key: T -> int)
    requires 0 <= i < a.Length
    modifies a
    ensures a[..i + 1] == InsertDesc(old(a[..i]), old(a[i]), key)
    ensures a[i + 1..] == old(a[i + 1..])
  {
    var x := a[i];
    ghost var t := a[..i];
    var j := i;
    while j > 0 && key(a[j - 1]) < key(x)
      invariant 0 <= j <= i
      invariant forall k :: 0 <= k < j ==> a[k] == t[k]
      invariant forall k :: j < k <= i ==> a[k] == t[k - 1]
      invariant forall k :: i < k < a.Length ==> a[k] == old(a[k])
      invariant forall k :: j <= k < i ==> key(t[k]) < key(x)
    {
      a[j] := a[j - 1];
      j := j - 1;
    }
    a[j] := x;
    InsertDescAt(t, x, key, j);
    assert a[..i + 1] == t[..j] + [x] + t[j..];
  }

  /** Where insertion puts `x`: behind position `j` when everything from `j`
      on has a smaller key and the element before `j` does not. */
  lemma {:induction false} InsertDescAt<T>(t: seq<T>, x: T, key: T -> int, j: int)
    requires 0 <= j <= |t| && (j == 0 || key(t[j - 1]) >= key(x))
    requires forall k :: j <= k < |t| ==> key(t[k]) < key(x)
    ensures InsertDesc(t, x, key) == t[..j] + [x] + t[j..]
    decreases |t|
  {
    if j < |t| {
      var t' := t[..|t| - 1];
      InsertDescAt(t', x, key, j);
      assert t'[..j] == t[..j];
      assert t[j..] == t'[j..] + [t[|t| - 1]];
    } else {
      assert t[..j] == t;
    }
  }
}
