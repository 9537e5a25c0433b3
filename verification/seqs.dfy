/**
 * The array operations the handlers and pages rely on: `Array.prototype.filter`, a sort by
 * a numeric key in descending order (Mongo's `.sort({ key: -1 })` and
 * `arr.sort((a, b) => b.v - a.v)`), and `slice(0, n)` / `.limit(n)`.
 */
module Seqs {

  /** `s.filter(p)`: the elements of `s` that satisfy `p`, in their original order. */
  function Filter<T>(p: T -> bool, s: seq<T>): (r: seq<T>)
    ensures |r| <= |s|
    ensures forall i :: 0 <= i < |r| ==> p(r[i])
    ensures multiset(r) <= multiset(s)
  {
    if s == [] then []
    else
      var rest := Filter(p, s[1..]);
      assert s == [s[0]] + s[1..];
      assert multiset(s) == multiset{s[0]} + multiset(s[1..]);
      if p(s[0]) then [s[0]] + rest else rest
  }

  /** `a` can be obtained from `b` by deleting elements: it keeps their relative order. */
  predicate IsSubsequence<T(==)>(a: seq<T>, b: seq<T>)
    decreases |b|
  {
    a == [] || (b != [] && (if a[0] == b[0] then IsSubsequence(a[1..], b[1..]) else IsSubsequence(a, b[1..])))
  }

  lemma {:induction false} FilterIsSubsequence<T>(p: T -> bool, s: seq<T>)
    ensures IsSubsequence(Filter(p, s), s)
  {
    if s != [] {
      FilterIsSubsequence(p, s[1..]);
      var rest := Filter(p, s[1..]);
      if p(s[0]) {
        assert Filter(p, s) == [s[0]] + rest;
      } else if rest != [] {
        assert p(rest[0]);
        assert rest[0] != s[0];
      }
    }
  }

  /** Every element of `s` satisfying `p` is kept by the filter, as often as it occurs. */
  lemma {:induction false} FilterKeepsEveryMatch<T>(p: T -> bool, s: seq<T>, x: T)
    requires p(x)
    ensures multiset(Filter(p, s))[x] == multiset(s)[x]
  {
    if s != [] {
      FilterKeepsEveryMatch(p, s[1..], x);
      var rest := Filter(p, s[1..]);
      assert s == [s[0]] + s[1..];
      assert multiset(s) == multiset{s[0]} + multiset(s[1..]);
      if p(s[0]) {
        assert multiset(Filter(p, s)) == multiset{s[0]} + multiset(rest);
      } else {
        assert Filter(p, s) == rest;
      }
    }
  }

  /** The filter keeps every matching element of `s`, as often as `s` holds it. */
  lemma FilterComplete<T>(p: T -> bool, s: seq<T>)
    ensures forall i :: 0 <= i < |s| && p(s[i]) ==> multiset(Filter(p, s))[s[i]] == multiset(s)[s[i]]
  {
    forall i | 0 <= i < |s| && p(s[i])
      ensures multiset(Filter(p, s))[s[i]] == multiset(s)[s[i]]
    {
      FilterKeepsEveryMatch(p, s, s[i]);
    }
  }

  /** The number of elements of `s` that satisfy `p` (`s.filter(p).length`). */
  function CountIf<T>(p: T -> bool, s: seq<T>): (n: nat)
    ensures n == |Filter(p, s)|
    ensures n <= |s|
  {
    if s == [] then 0 else (if p(s[0]) then 1 else 0) + CountIf(p, s[1..])
  }

  /** Weakening the condition can only raise the count. */
  lemma {:induction false} CountIfMonotone<T>(p: T -> bool, q: T -> bool, s: seq<T>)
    requires forall i :: 0 <= i < |s| && p(s[i]) ==> q(s[i])
    ensures CountIf(p, s) <= CountIf(q, s)
  {
    if s != [] {
      CountIfMonotone(p, q, s[1..]);
    }
  }

  /** A condition no element satisfies counts zero. */
  lemma {:induction false} CountIfNone<T>(p: T -> bool, s: seq<T>)
    requires forall i :: 0 <= i < |s| ==> !p(s[i])
    ensures CountIf(p, s) == 0
  {
    if s != [] {
      CountIfNone(p, s[1..]);
    }
  }

  /** Filtering with a predicate that holds everywhere changes nothing. */
  lemma {:induction false} FilterKeepsAll<T>(p: T -> bool, s: seq<T>)
    requires forall i :: 0 <= i < |s| ==> p(s[i])
    ensures Filter(p, s) == s
  {
    if s != [] {
      FilterKeepsAll(p, s[1..]);
    }
  }

  /** A trailing element the predicate rejects is dropped. */
  lemma {:induction false} FilterDropsRejectedLast<T>(p: T -> bool, s: seq<T>, x: T)
    requires !p(x)
    ensures Filter(p, s + [x]) == Filter(p, s)
  {
    if s == [] {
      assert [x][1..] == [];
    } else {
      assert (s + [x])[1..] == s[1..] + [x];
      FilterDropsRejectedLast(p, s[1..], x);
    }
  }

  predicate NoDuplicates<T(==)>(s: seq<T>)
  {
    forall i, j :: 0 <= i < j < |s| ==> s[i] != s[j]
  }

  lemma {:induction false} FilterKeepsNoDuplicates<T>(p: T -> bool, s: seq<T>)
    requires NoDuplicates(s)
    ensures NoDuplicates(Filter(p, s))
  {
    if s != [] {
      var rest := Filter(p, s[1..]);
      assert NoDuplicates(s[1..]);
      FilterKeepsNoDuplicates(p, s[1..]);
      if p(s[0]) {
        assert s[0] !in multiset(s[1..]);
        assert s[0] !in multiset(rest);
        assert forall j :: 0 <= j < |rest| ==> rest[j] != s[0];
      }
    }
  }

  /** `[...new Set(xs)]`: the distinct elements of `xs` in order of first occurrence. */
  function Distinct<T(==,!new)>(xs: seq<T>): (d: seq<T>)
    ensures forall i, j :: 0 <= i < j < |d| ==> d[i] != d[j]
    ensures forall t :: t in d <==> t in xs
  {
    if xs == [] then []
    else
      var d := Distinct(xs[..|xs| - 1]);
      assert xs == xs[..|xs| - 1] + [xs[|xs| - 1]];
      if xs[|xs| - 1] in d then d else d + [xs[|xs| - 1]]
  }

  /** `s` is in non-increasing order of `key`. */
  predicate SortedDesc<T>(s: seq<T>, key: T -> int)
  {
    forall i, j :: 0 <= i < j < |s| ==> key(s[i]) >= key(s[j])
  }

  /** Putting an element with a key at least the head's in front of a sorted sequence keeps it sorted. */
  lemma SortedCons<T>(a: T, s: seq<T>, key: T -> int)
    requires SortedDesc(s, key)
    requires s == [] || key(s[0]) <= key(a)
    ensures SortedDesc([a] + s, key)
  {
    var r := [a] + s;
    forall i, j | 0 <= i < j < |r|
      ensures key(r[i]) >= key(r[j])
    {
      if i == 0 && j > 1 {
        assert r[j] == s[j - 1];
        assert key(s[0]) >= key(s[j - 1]);
      }
    }
  }

  /** Inserts `x` into the sorted `s` after every element whose key is greater than `key(x)`. */
  function InsertDesc<T>(x: T, s: seq<T>, key: T -> int): (r: seq<T>)
    requires SortedDesc(s, key)
    ensures SortedDesc(r, key)
    ensures multiset(r) == multiset(s) + multiset{x}
    ensures |r| == |s| + 1
    ensures r[0] == x || (s != [] && r[0] == s[0])
  {
    if s == [] then [x]
    else if key(s[0]) > key(x) then
      var rest := InsertDesc(x, s[1..], key);
      assert s == [s[0]] + s[1..];
      assert key(rest[0]) <= key(s[0]);
      SortedCons(s[0], rest, key);
      [s[0]] + rest
    else
      SortedCons(x, s, key);
      [x] + s
  }

  /**
   * A stable sort of `s` into non-increasing order of `key` (SortDescIsStable): the order
   * of `arr.sort((a, b) => key(b) - key(a))`, and the order in which a query with
   * `.sort({ key: -1 })` returns its documents.
   */
  function SortDesc<T>(s: seq<T>, key: T -> int): (r: seq<T>)
    ensures SortedDesc(r, key)
    ensures multiset(r) == multiset(s)
    ensures |r| == |s|
  {
    if s == [] then []
    else
      assert s == [s[0]] + s[1..];
      InsertDesc(s[0], SortDesc(s[1..], key), key)
  }

  /** The elements of `s` whose key is `v`, in their order in `s`. */
  function WithKey<T>(s: seq<T>, key: T -> int, v: int): (r: seq<T>)
    ensures |r| <= |s|
    ensures forall i :: 0 <= i < |r| ==> key(r[i]) == v
  {
    if s == [] then [] else (if key(s[0]) == v then [s[0]] else []) + WithKey(s[1..], key, v)
  }

  /** A sequence whose elements all have key `v` is its own selection for `v`. */
  lemma {:induction false} WithKeyOfUniform<T>(s: seq<T>, key: T -> int, v: int)
    requires forall i :: 0 <= i < |s| ==> key(s[i]) == v
    ensures WithKey(s, key, v) == s
  {
    if s != [] {
      WithKeyOfUniform(s[1..], key, v);
    }
  }

  /** Inserting `x` puts it in front of every element that has the same key. */
  lemma {:induction false} InsertDescWithKey<T>(x: T, s: seq<T>, key: T -> int, v: int)
    requires SortedDesc(s, key)
    ensures WithKey(InsertDesc(x, s, key), key, v) == (if key(x) == v then [x] else []) + WithKey(s, key, v)
  {
    var r := InsertDesc(x, s, key);
    if s == [] {
      assert r == [x] + [];
      WithKeyCons(x, [], key, v);
    } else if key(s[0]) > key(x) {
      var rest := InsertDesc(x, s[1..], key);
      assert r == [s[0]] + rest;
      assert s == [s[0]] + s[1..];
      InsertDescWithKey(x, s[1..], key, v);
      WithKeyPastGreater(s[0], x, s[1..], rest, key, v);
    } else {
      assert r == [x] + s;
      WithKeyCons(x, s, key, v);
    }
  }

  /** Putting `a`, whose key is greater than that of `x`, in front of both sides keeps `x` ahead of its ties. */
  lemma WithKeyPastGreater<T>(a: T, x: T, t: seq<T>, rest: seq<T>, key: T -> int, v: int)
    requires key(a) > key(x)
    requires WithKey(rest, key, v) == (if key(x) == v then [x] else []) + WithKey(t, key, v)
    ensures WithKey([a] + rest, key, v) == (if key(x) == v then [x] else []) + WithKey([a] + t, key, v)
  {
    WithKeyCons(a, rest, key, v);
    WithKeyCons(a, t, key, v);
    if key(x) == v {
      assert key(a) != v;
    } else {
      assert WithKey([a] + rest, key, v) == (if key(a) == v then [a] else []) + WithKey(t, key, v);
    }
  }

  /** The elements of key `v` in `[a] + t`. */
  lemma WithKeyCons<T>(a: T, t: seq<T>, key: T -> int, v: int)
    ensures WithKey([a] + t, key, v) == (if key(a) == v then [a] else []) + WithKey(t, key, v)
  {
    assert ([a] + t)[1..] == t;
  }

  /** Sorting keeps the relative order of the elements of each key. */
  lemma {:induction false} SortDescStableAt<T>(s: seq<T>, key: T -> int, v: int)
    ensures WithKey(SortDesc(s, key), key, v) == WithKey(s, key, v)
  {
    if s != [] {
      SortDescStableAt(s[1..], key, v);
      InsertDescWithKey(s[0], SortDesc(s[1..], key), key, v);
    }
  }

  lemma SortDescIsStable<T>(s: seq<T>, key: T -> int)
    ensures forall v :: WithKey(SortDesc(s, key), key, v) == WithKey(s, key, v)
  {
    forall v
      ensures WithKey(SortDesc(s, key), key, v) == WithKey(s, key, v)
    {
      SortDescStableAt(s, key, v);
    }
  }

  /** `s.findIndex(p)`: the position of the first element satisfying `p`, or -1 when none does. */
  function FirstIndex<T>(p: T -> bool, s: seq<T>): (k: int)
    ensures -1 <= k < |s|
    ensures k >= 0 ==> p(s[k]) && forall j :: 0 <= j < k ==> !p(s[j])
    ensures k < 0 ==> forall j :: 0 <= j < |s| ==> !p(s[j])
  {
    if s == [] then -1
    else if p(s[0]) then 0
    else
      var k := FirstIndex(p, s[1..]);
      if k < 0 then -1 else k + 1
  }

  /**
   * `find(filter).sort({ key: -1 })`: every element satisfying `p`, with its
   * multiplicity, and nothing else, in non-increasing order of `key`.
   */
  function SelectSorted<T>(p: T -> bool, s: seq<T>, key: T -> int): (r: seq<T>)
    ensures SortedDesc(r, key)
    ensures forall i :: 0 <= i < |r| ==> p(r[i])
    ensures forall i :: 0 <= i < |s| && p(s[i]) ==> multiset(r)[s[i]] == multiset(s)[s[i]]
    ensures multiset(r) <= multiset(s)
  {
    FilterComplete(p, s);
    var found := Filter(p, s);
    var r := SortDesc(found, key);
    assert forall i :: 0 <= i < |r| ==> r[i] in multiset(found);
    r
  }

  /** `s.slice(0, n)` / `.limit(n)`: the first `n` elements, or all of them when fewer. */
  function Take<T>(s: seq<T>, n: nat): (r: seq<T>)
    ensures |r| == if |s| <= n then |s| else n
    ensures r == s[..|r|]
  {
    if |s| <= n then s else s[..n]
  }

  /** A prefix of a sorted sequence is sorted, and holds nothing the sequence does not. */
  lemma TakeOfSorted<T>(s: seq<T>, n: nat, key: T -> int)
    requires SortedDesc(s, key)
    ensures SortedDesc(Take(s, n), key)
    ensures multiset(Take(s, n)) <= multiset(s)
    ensures forall i :: 0 <= i < |Take(s, n)| ==> Take(s, n)[i] in s
  {
    var r := Take(s, n);
    assert s == r + s[|r|..];
    assert forall i :: 0 <= i < |r| ==> r[i] == s[i];
  }
}
