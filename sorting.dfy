/**
 * `Array.prototype.sort((a, b) => key(a) - key(b))` on a list of records:
 * an insertion sort that leaves records with equal keys in their original
 * order, as the (stable) JavaScript sort does.
 */
module Sorting {

  /** The keys do not decrease from left to right. */
  ghost predicate SortedBy<T>(s: seq<T>, key: T -> int)
  {
    forall i, j :: 0 <= i < j < |s| ==> key(s[i]) <= key(s[j])
  }

  /** `s` with `x` placed after every element whose key is at most `key(x)`. */
  function Insert<T>(s: seq<T>, x: T, key: T -> int): (r: seq<T>)
    requires SortedBy(s, key)
    ensures SortedBy(r, key)
    ensures multiset(r) == multiset(s) + multiset{x}
    ensures |r| == |s| + 1
  {
    if |s| == 0 then [x]
    else if key(x) < key(s[0]) then
      ConsSorted(x, s, key);
      [x] + s
    else
      var rest := Insert(s[1..], x, key);
      assert s == [s[0]] + s[1..];
      LowerBoundKept(rest, s[1..], x, key, key(s[0]));
      ConsSorted(s[0], rest, key);
      [s[0]] + rest
  }

  /** A record whose key is at most every key of a sorted sequence may go in front of it. */
  lemma ConsSorted<T>(h: T, t: seq<T>, key: T -> int)
    requires SortedBy(t, key)
    requires forall k :: 0 <= k < |t| ==> key(h) <= key(t[k])
    ensures SortedBy([h] + t, key)
  {
    forall i, j | 0 <= i < j < |t| + 1 ensures key(([h] + t)[i]) <= key(([h] + t)[j]) {
      if i > 0 { assert ([h] + t)[i] == t[i - 1]; }
      assert ([h] + t)[j] == t[j - 1];
    }
  }

  /** A lower bound on the keys of `s` and of `x` bounds the keys of any sequence holding exactly those records. */
  lemma LowerBoundKept<T>(r: seq<T>, s: seq<T>, x: T, key: T -> int, b: int)
    requires multiset(r) == multiset(s) + multiset{x}
    requires forall k :: 0 <= k < |s| ==> b <= key(s[k])
    requires b <= key(x)
    ensures forall k :: 0 <= k < |r| ==> b <= key(r[k])
  {
    forall k | 0 <= k < |r| ensures b <= key(r[k]) {
      assert r[k] in multiset(r);
      if r[k] != x {
        assert r[k] in multiset(s);
        var m :| 0 <= m < |s| && s[m] == r[k];
      }
    }
  }

  /** Sorts `s` by `key`: the result is ordered and holds the same records. */
  method SortBy<T>(s: seq<T>, key: T -> int) returns (r: seq<T>)
    ensures SortedBy(r, key)
    ensures multiset(r) == multiset(s)
    ensures |r| == |s|
  {
    r := [];
    var i := 0;
    while i < |s|
      invariant 0 <= i <= |s|
      invariant SortedBy(r, key)
      invariant multiset(r) == multiset(s[..i])
      invariant |r| == i
    {
      r := Insert(r, s[i], key);
      assert s[..i + 1] == s[..i] + [s[i]];
      i := i + 1;
    }
    assert s[..i] == s;
  }

  /** No two records share a key. */
  ghost predicate DistinctKeys<T>(s: seq<T>, key: T -> int)
  {
    forall i, j :: 0 <= i < j < |s| ==> key(s[i]) != key(s[j])
  }

  /** A value that occurs twice in the multiset of `s` sits at two different positions. */
  lemma {:induction false} TwoPositions<T>(s: seq<T>, x: T)
    requires multiset(s)[x] >= 2
    ensures exists a, b :: 0 <= a < b < |s| && s[a] == x && s[b] == x
  {
    assert s == [s[0]] + s[1..];
    if s[0] == x {
      assert x in multiset(s[1..]);
      var b :| 0 <= b < |s[1..]| && s[1..][b] == x;
      assert s[b + 1] == x;
    } else {
      TwoPositions(s[1..], x);
      var a, b :| 0 <= a < b < |s[1..]| && s[1..][a] == x && s[1..][b] == x;
      assert s[a + 1] == x && s[b + 1] == x;
    }
  }

  /** Reordering records keeps their keys distinct. */
  lemma PermutationKeepsDistinctKeys<T>(r: seq<T>, s: seq<T>, key: T -> int)
    requires multiset(r) == multiset(s) && DistinctKeys(s, key)
    ensures DistinctKeys(r, key)
  {
    forall i, j | 0 <= i < j < |r|
      ensures key(r[i]) != key(r[j])
    {
      assert r[i] in multiset(s) && r[j] in multiset(s);
      var a :| 0 <= a < |s| && s[a] == r[i];
      var b :| 0 <= b < |s| && s[b] == r[j];
      if r[i] == r[j] {
        Twice(r, i, j);
        TwoPositions(s, r[i]);
      }
    }
  }

  /** A value at two different positions occurs at least twice in the multiset. */
  lemma Twice<T>(r: seq<T>, i: int, j: int)
    requires 0 <= i < j < |r| && r[i] == r[j]
    ensures multiset(r)[r[i]] >= 2
  {
    assert r == r[..j] + r[j..];
    assert r[..j][i] == r[i] && r[j..][0] == r[j];
    assert r[i] in multiset(r[..j]) && r[j] in multiset(r[j..]);
  }

  /** `s.filter(p).length`. */
  function Count<T>(s: seq<T>, p: T -> bool): (n: nat)
    ensures n <= |s|
  {
    if |s| == 0 then 0 else (if p(s[0]) then 1 else 0) + Count(s[1..], p)
  }

  /** Counting over two parts adds up. */
  lemma {:induction false} CountAppend<T>(a: seq<T>, b: seq<T>, p: T -> bool)
    ensures Count(a + b, p) == Count(a, p) + Count(b, p)
  {
    if |a| > 0 {
      assert (a + b)[1..] == a[1..] + b;
      CountAppend(a[1..], b, p);
    } else {
      assert a + b == b;
      assert Count(a, p) == 0;
    }
  }

  /** The count does not depend on the order of the records: sorting first changes nothing. */
  lemma {:induction false} CountPermutation<T>(r: seq<T>, s: seq<T>, p: T -> bool)
    requires multiset(r) == multiset(s)
    ensures Count(r, p) == Count(s, p)
    decreases |s|
  {
    if |s| == 0 {
      assert |r| == |multiset(r)| == 0;
    } else {
      var x := s[0];
      assert x in multiset(r);
      var i :| 0 <= i < |r| && r[i] == x;
      var rest := r[..i] + r[i + 1..];
      assert r == r[..i] + ([x] + r[i + 1..]);
      CountAppend(r[..i], [x] + r[i + 1..], p);
      CountAppend(r[..i], r[i + 1..], p);
      assert s == [x] + s[1..];
      assert multiset(r) == multiset(r[..i]) + multiset{x} + multiset(r[i + 1..]);
      assert multiset(rest) == multiset(r[..i]) + multiset(r[i + 1..]);
      assert multiset(s) == multiset{x} + multiset(s[1..]);
      assert multiset(rest) == multiset(r) - multiset{x};
      assert multiset(s[1..]) == multiset(s) - multiset{x};
      CountPermutation(rest, s[1..], p);
      assert ([x] + r[i + 1..])[1..] == r[i + 1..];
      assert Count([x] + r[i + 1..], p) == (if p(x) then 1 else 0) + Count(r[i + 1..], p);
      assert Count(s, p) == (if p(x) then 1 else 0) + Count(s[1..], p);
    }
  }
}
