/**
 * Sequence operations the access layer is built from: a Firestore `limit` /
 * JavaScript `slice(0, n)`, an order-keeping `filter`, and `Array.prototype.sort`
 * with a comparator, which JavaScript performs stably.
 */
module Seqs {

  /** The first `n` elements of `s`, or all of `s` when it is shorter. */
  function Take<T>(s: seq<T>, n: nat): (r: seq<T>)
    ensures |r| == if n < |s| then n else |s|
    ensures r <= s
  {
    if n < |s| then s[..n] else s
  }

  /** The elements of `s` that satisfy `p`, in their original order. */
  function Filter<T(==)>(s: seq<T>, p: T -> bool): (r: seq<T>)
    ensures |r| <= |s|
    ensures forall i :: 0 <= i < |r| ==> p(r[i])
    ensures multiset(r) <= multiset(s)
  {
    if s == [] then []
    else
      assert s == [s[0]] + s[1..];
      (if p(s[0]) then [s[0]] else []) + Filter(s[1..], p)
  }

  /** Filtering distributes over concatenation. */
  lemma {:induction false} FilterAppend<T>(a: seq<T>, b: seq<T>, p: T -> bool)
    ensures Filter(a + b, p) == Filter(a, p) + Filter(b, p)
  {
    if a == [] {
      assert a + b == b;
    } else {
      assert (a + b)[1..] == a[1..] + b;
      FilterAppend(a[1..], b, p);
    }
  }

  /** Filtering a sequence extended by one element. */
  lemma FilterSnoc<T>(a: seq<T>, x: T, p: T -> bool)
    ensures Filter(a + [x], p) == Filter(a, p) + (if p(x) then [x] else [])
  {
    FilterAppend(a, [x], p);
    assert [x][1..] == [];
  }

  /** Filtering with a predicate and with its negation splits the sequence. */
  lemma {:induction false} FilterSplitLength<T>(s: seq<T>, p: T -> bool, q: T -> bool)
    requires forall i :: 0 <= i < |s| ==> q(s[i]) == !p(s[i])
    ensures |Filter(s, p)| + |Filter(s, q)| == |s|
  {
    if s != [] {
      FilterSplitLength(s[1..], p, q);
    }
  }

  /** An element survives filtering exactly when it was there and satisfies `p`. */
  lemma {:induction false} FilterMember<T>(s: seq<T>, p: T -> bool, x: T)
    ensures x in Filter(s, p) <==> x in s && p(x)
  {
    if s != [] {
      FilterMember(s[1..], p, x);
      assert x in s <==> x == s[0] || x in s[1..];
    }
  }

  /**
   * Stable insertion: `x` goes in front of the first element it does not sort
   * after (`cmp(x, y) <= 0`), as a JavaScript comparator reads.
   */
  function Insert<T(==)>(x: T, s: seq<T>, cmp: (T, T) -> int): (r: seq<T>)
    ensures multiset(r) == multiset(s) + multiset{x}
  {
    if s == [] || cmp(x, s[0]) <= 0 then [x] + s
    else
      assert s == [s[0]] + s[1..];
      [s[0]] + Insert(x, s[1..], cmp)
  }

  /** Stable insertion sort of `s` under the JavaScript comparator `cmp`. */
  function SortBy<T(==)>(s: seq<T>, cmp: (T, T) -> int): (r: seq<T>)
    ensures multiset(r) == multiset(s)
  {
    if s == [] then []
    else
      assert s == [s[0]] + s[1..];
      Insert(s[0], SortBy(s[1..], cmp), cmp)
  }

  /** `s` is non-decreasing in `key`. */
  ghost predicate OrderedBy<T>(s: seq<T>, key: T -> int) {
    forall i, j :: 0 <= i < j < |s| ==> key(s[i]) <= key(s[j])
  }

  /**
   * On the elements of `s`, the comparator is the difference of an integer key,
   * the shape of every comparator in the access layer once each record has the
   * compared timestamp.
   */
  ghost predicate ComparesByKey<T>(s: seq<T>, cmp: (T, T) -> int, key: T -> int) {
    forall a, b :: a in s && b in s ==> cmp(a, b) == key(a) - key(b)
  }

  /** Inserting adds `x` and nothing else. */
  lemma InsertMembers<T>(x: T, s: seq<T>, cmp: (T, T) -> int, e: T)
    ensures e in Insert(x, s, cmp) <==> e == x || e in s
  {
    var r := Insert(x, s, cmp);
    assert e in r <==> e in multiset(r);
    assert e in s <==> e in multiset(s);
  }

  lemma {:induction false} InsertOrdered<T>(x: T, s: seq<T>, cmp: (T, T) -> int, key: T -> int)
    requires OrderedBy(s, key)
    requires forall b :: b in s ==> cmp(x, b) == key(x) - key(b)
    ensures OrderedBy(Insert(x, s, cmp), key)
  {
    if s != [] && cmp(x, s[0]) > 0 {
      var rest := Insert(x, s[1..], cmp);
      InsertOrdered(x, s[1..], cmp, key);
      assert forall e :: e in rest ==> key(s[0]) <= key(e) by {
        forall e | e in rest
          ensures key(s[0]) <= key(e)
        {
          InsertMembers(x, s[1..], cmp, e);
          if e != x {
            var k :| 0 <= k < |s[1..]| && s[1..][k] == e;
            assert s[k + 1] == e;
          }
        }
      }
      var r := [s[0]] + rest;
      assert forall j :: 0 < j < |r| ==> r[j] == rest[j - 1];
      assert forall j :: 0 < j < |r| ==> r[j] in rest;
    }
  }

  /**
   * Sorting with a key-difference comparator orders the result by that key;
   * together with `SortBy`'s own contract, the result is the sorted
   * permutation of the input.
   */
  lemma {:induction false} SortByOrdered<T>(s: seq<T>, cmp: (T, T) -> int, key: T -> int)
    requires ComparesByKey(s, cmp, key)
    ensures OrderedBy(SortBy(s, cmp), key)
  {
    if s != [] {
      assert forall b :: b in s[1..] ==> b in s;
      SortByOrdered(s[1..], cmp, key);
      var sorted := SortBy(s[1..], cmp);
      forall b | b in sorted
        ensures cmp(s[0], b) == key(s[0]) - key(b)
      {
        assert b in multiset(sorted);
        assert b in multiset(s[1..]);
        assert b in s[1..];
      }
      InsertOrdered(s[0], sorted, cmp, key);
    }
  }

  /** Membership survives sorting in both directions. */
  lemma SortByMembers<T>(s: seq<T>, cmp: (T, T) -> int, x: T)
    ensures x in SortBy(s, cmp) <==> x in s
  {
    var r := SortBy(s, cmp);
    assert x in r <==> x in multiset(r);
    assert x in s <==> x in multiset(s);
  }
}
