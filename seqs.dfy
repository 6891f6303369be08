/**
 * Sequence helpers shared by the storage queries, the monitoring statistics and the
 * client views: order-preserving filtering, SQL-style LIMIT, and the stable sort that
 * stands for `ORDER BY` and for JavaScript's `Array.prototype.sort`.
 */
module Seqs {

  /** The elements of `s` that satisfy `p`, in their original order (a SQL WHERE, a JS filter). */
  function Filter<T(!new)>(s: seq<T>, p: T -> bool): (r: seq<T>)
    ensures |r| <= |s|
    ensures forall x :: x in r <==> x in s && p(x)
  {
    if s == [] then []
    else Filter(s[..|s| - 1], p) + (if p(s[|s| - 1]) then [s[|s| - 1]] else [])
  }

  /** Number of elements of `s` that satisfy `p`. */
  function Count<T(!new)>(s: seq<T>, p: T -> bool): nat
  {
    |Filter(s, p)|
  }

  lemma {:induction false} FilterConcat<T(!new)>(a: seq<T>, b: seq<T>, p: T -> bool)
    ensures Filter(a + b, p) == Filter(a, p) + Filter(b, p)
    decreases |b|
  {
    if b == [] {
      assert a + b == a;
    } else {
      var b' := b[..|b| - 1];
      assert (a + b)[..|a + b| - 1] == a + b';
      FilterConcat(a, b', p);
    }
  }

  /** Counting one more element: the count grows by one exactly when it satisfies `p`. */
  lemma CountSnoc<T(!new)>(s: seq<T>, x: T, p: T -> bool)
    ensures Count(s + [x], p) == Count(s, p) + (if p(x) then 1 else 0)
  {
    assert (s + [x])[..|s + [x]| - 1] == s;
  }

  /** A SQL `LIMIT n` / JS `slice(0, n)`: the first min(n, |s|) elements. */
  function Take<T>(s: seq<T>, n: nat): (r: seq<T>)
    ensures |r| == if n < |s| then n else |s|
    ensures r <= s
    ensures forall x :: x in r ==> x in s
  {
    if n < |s| then s[..n] else s
  }

  /** A LIMIT on a sorted sequence keeps a top part: every element it drops may follow every element it keeps. */
  lemma TakeSortedIsTop<T>(s: seq<T>, n: nat, le: (T, T) -> bool)
    requires SortedBy(s, le)
    ensures forall t, x :: t in Take(s, n) && x in s && x !in Take(s, n) ==> le(t, x)
  {
    var top := Take(s, n);
    forall t, x | t in top && x in s && x !in top ensures le(t, x) {
      var i :| 0 <= i < |top| && top[i] == t;
      var j :| 0 <= j < |s| && s[j] == x;
      assert forall k :: 0 <= k < |top| ==> top[k] in top;
      assert j >= |top|;
      assert s[i] == t;
    }
  }

  /** No two positions of `s` share the same key. */
  ghost predicate DistinctBy<T, K>(s: seq<T>, key: T -> K)
  {
    forall i, j :: 0 <= i < j < |s| ==> key(s[i]) != key(s[j])
  }

  /** `le(a, b)` reads "a may come before b"; a comparator must be total and transitive. */
  ghost predicate IsTotalPreorder<T(!new)>(le: (T, T) -> bool)
  {
    && (forall a, b :: le(a, b) || le(b, a))
    && (forall a, b, c :: le(a, b) && le(b, c) ==> le(a, c))
  }

  ghost predicate SortedBy<T>(s: seq<T>, le: (T, T) -> bool)
  {
    forall i, j :: 0 <= i < j < |s| ==> le(s[i], s[j])
  }

  /**
   * Inserts `x` into `s` after every trailing element that may come before it, so that
   * elements the comparator ties keep their arrival order (a stable sort).
   */
  function Insert<T>(s: seq<T>, x: T, le: (T, T) -> bool): (r: seq<T>)
    ensures multiset(r) == multiset(s) + multiset{x}
    ensures |r| == |s| + 1
  {
    if s == [] then [x]
    else if le(s[|s| - 1], x) then s + [x]
    else
      var front := s[..|s| - 1];
      assert s == front + [s[|s| - 1]];
      Insert(front, x, le) + [s[|s| - 1]]
  }

  /** Stable insertion sort: the model of `ORDER BY` and of JavaScript's stable `sort`. */
  function SortBy<T>(s: seq<T>, le: (T, T) -> bool): (r: seq<T>)
    ensures multiset(r) == multiset(s)
    ensures |r| == |s|
  {
    if s == [] then []
    else
      var front := s[..|s| - 1];
      assert s == front + [s[|s| - 1]];
      Insert(SortBy(front, le), s[|s| - 1], le)
  }

  /** Sorting neither adds nor drops elements. */
  lemma SortByMembers<T>(s: seq<T>, le: (T, T) -> bool)
    ensures forall x :: x in SortBy(s, le) <==> x in s
  {
    var r := SortBy(s, le);
    forall x ensures x in r <==> x in s {
      assert x in r <==> x in multiset(r);
      assert x in s <==> x in multiset(s);
    }
  }

  lemma {:induction false} InsertSorted<T(!new)>(s: seq<T>, x: T, le: (T, T) -> bool)
    requires IsTotalPreorder(le)
    requires SortedBy(s, le)
    ensures SortedBy(Insert(s, x, le), le)
    decreases |s|
  {
    if s == [] {
    } else if le(s[|s| - 1], x) {
      var r := s + [x];
      forall i, j | 0 <= i < j < |r| ensures le(r[i], r[j]) {
        if j == |s| && i < |s| - 1 {
          assert le(s[i], s[|s| - 1]);
        }
      }
    } else {
      var last := s[|s| - 1];
      var front := s[..|s| - 1];
      assert le(x, last);
      InsertSorted(front, x, le);
      var ins := Insert(front, x, le);
      var r := ins + [last];
      forall i, j | 0 <= i < j < |r| ensures le(r[i], r[j]) {
        if j == |ins| {
          var y := ins[i];
          assert y in multiset(ins);
          assert y in multiset(front) || y == x;
          if y != x {
            assert y in front;
            var k :| 0 <= k < |front| && front[k] == y;
            assert le(s[k], s[|s| - 1]);
          }
        }
      }
    }
  }

  lemma {:induction false} SortBySorted<T(!new)>(s: seq<T>, le: (T, T) -> bool)
    requires IsTotalPreorder(le)
    ensures SortedBy(SortBy(s, le), le)
    decreases |s|
  {
    if s != [] {
      SortBySorted(s[..|s| - 1], le);
      InsertSorted(SortBy(s[..|s| - 1], le), s[|s| - 1], le);
    }
  }

  lemma {:induction false} InsertDistinct<T, K>(s: seq<T>, x: T, le: (T, T) -> bool, key: T -> K)
    requires DistinctBy(s, key)
    requires forall y :: y in s ==> key(y) != key(x)
    ensures DistinctBy(Insert(s, x, le), key)
    decreases |s|
  {
    if s == [] {
    } else if le(s[|s| - 1], x) {
    } else {
      var last := s[|s| - 1];
      var front := s[..|s| - 1];
      assert DistinctBy(front, key);
      InsertDistinct(front, x, le, key);
      var ins := Insert(front, x, le);
      forall i | 0 <= i < |ins| ensures key(ins[i]) != key(last) {
        var y := ins[i];
        assert y in multiset(ins);
        if y != x {
          assert y in front;
          var k :| 0 <= k < |front| && front[k] == y;
          assert s[k] == y;
        }
      }
    }
  }

  /** Sorting keeps rows with pairwise distinct keys pairwise distinct. */
  lemma {:induction false} SortByDistinct<T, K>(s: seq<T>, le: (T, T) -> bool, key: T -> K)
    requires DistinctBy(s, key)
    ensures DistinctBy(SortBy(s, le), key)
    decreases |s|
  {
    if s != [] {
      var front := s[..|s| - 1];
      assert DistinctBy(front, key);
      SortByDistinct(front, le, key);
      forall y | y in SortBy(front, le) ensures key(y) != key(s[|s| - 1]) {
        assert y in multiset(SortBy(front, le));
        var k :| 0 <= k < |front| && front[k] == y;
        assert s[k] == y;
      }
      InsertDistinct(SortBy(front, le), s[|s| - 1], le, key);
    }
  }
}
