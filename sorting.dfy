/**
 * Stable sorting by an integer key, the behaviour of `Array.prototype.sort` with a numeric
 * comparator such as `(a, b) => a.timestamp - b.timestamp`.
 */
module Sorting {
  import opened Seqs

  /** Non-decreasing by `key`. */
  ghost predicate SortedAsc<T>(s: seq<T>, key: T -> int)
  {
    forall i, j :: 0 <= i < j < |s| ==> key(s[i]) <= key(s[j])
  }

  /** Non-increasing by `key`. */
  ghost predicate SortedDesc<T>(s: seq<T>, key: T -> int)
  {
    forall i, j :: 0 <= i < j < |s| ==> key(s[i]) >= key(s[j])
  }

  /** No two positions of `s` carry the same `f`-value. */
  ghost predicate DistinctBy<T, K>(s: seq<T>, f: T -> K)
  {
    forall i, j :: 0 <= i < j < |s| ==> f(s[i]) != f(s[j])
  }

  /** Inserts `x` before the first element whose key is not smaller, so that `x` precedes equal keys. */
  function Insert<T>(x: T, s: seq<T>, key: T -> int): (r: seq<T>)
    ensures |r| == |s| + 1
    ensures multiset(r) == multiset(s) + multiset{x}
  {
    if s == [] then [x]
    else if key(x) <= key(s[0]) then [x] + s
    else
      assert s == [s[0]] + s[1..];
      [s[0]] + Insert(x, s[1..], key)
  }

  /** Stable insertion sort, ascending by `key`: of two elements with equal keys the earlier stays first. */
  function SortAsc<T>(s: seq<T>, key: T -> int): (r: seq<T>)
    ensures |r| == |s|
    ensures multiset(r) == multiset(s)
  {
    if s == [] then []
    else
      assert s == [s[0]] + s[1..];
      Insert(s[0], SortAsc(s[1..], key), key)
  }

  /** Stable sort, descending by `key` (the comparator `(a, b) => key(b) - key(a)`). */
  function SortDesc<T>(s: seq<T>, key: T -> int): (r: seq<T>)
  {
    SortAsc(s, x => -key(x))
  }

  /** The inserted sequence holds `x` and the elements of `s`, and nothing else. */
  lemma {:induction false} InsertMembers<T>(x: T, s: seq<T>, key: T -> int, y: T)
    ensures y in Insert(x, s, key) <==> y == x || y in s
  {
    if s != [] && key(x) > key(s[0]) {
      InsertMembers(x, s[1..], key, y);
      assert Insert(x, s, key) == [s[0]] + Insert(x, s[1..], key);
      assert s == [s[0]] + s[1..];
    }
  }

  /** An element of `s[1..]` is an element at some position of `s` after the first. */
  lemma TailMember<T>(s: seq<T>, y: T) returns (m: nat)
    requires s != [] && y in s[1..]
    ensures 0 < m < |s| && s[m] == y
  {
    var k :| 0 <= k < |s[1..]| && s[1..][k] == y;
    m := k + 1;
  }

  lemma {:induction false} InsertSorted<T>(x: T, s: seq<T>, key: T -> int)
    requires SortedAsc(s, key)
    ensures SortedAsc(Insert(x, s, key), key)
  {
    var r := Insert(x, s, key);
    if s == [] {
    } else if key(x) <= key(s[0]) {
      assert r == [x] + s;
      forall i, j | 0 <= i < j < |r| ensures key(r[i]) <= key(r[j]) {
        assert r[j] == s[j - 1];
        if i > 0 {
          assert r[i] == s[i - 1];
        }
      }
    } else {
      InsertSorted(x, s[1..], key);
      var t := Insert(x, s[1..], key);
      assert r == [s[0]] + t;
      forall k | 0 <= k < |t| ensures key(s[0]) <= key(t[k]) {
        InsertMembers(x, s[1..], key, t[k]);
        if t[k] != x {
          var m := TailMember(s, t[k]);
        }
      }
      forall i, j | 0 <= i < j < |r| ensures key(r[i]) <= key(r[j]) {
        assert r[j] == t[j - 1];
        if i > 0 {
          assert r[i] == t[i - 1];
        }
      }
    }
  }

  /** The ascending sort is a sorted permutation of its input. */
  lemma {:induction false} SortAscSorted<T>(s: seq<T>, key: T -> int)
    ensures SortedAsc(SortAsc(s, key), key)
  {
    if s != [] {
      SortAscSorted(s[1..], key);
      InsertSorted(s[0], SortAsc(s[1..], key), key);
    }
  }

  /** The descending sort is ordered newest (largest key) first. */
  lemma SortDescSorted<T>(s: seq<T>, key: T -> int)
    ensures SortedDesc(SortDesc(s, key), key)
    ensures multiset(SortDesc(s, key)) == multiset(s)
  {
    var neg := x => -key(x);
    SortAscSorted(s, neg);
    var r := SortAsc(s, neg);
    forall i, j | 0 <= i < j < |r| ensures key(r[i]) >= key(r[j]) {
      assert neg(r[i]) <= neg(r[j]);
    }
  }

  /** Sorting keeps an element exactly when the input had it. */
  lemma SortMembership<T>(s: seq<T>, key: T -> int, x: T)
    ensures x in SortAsc(s, key) <==> x in s
  {
    var r := SortAsc(s, key);
    assert x in r <==> x in multiset(r);
    assert x in s <==> x in multiset(s);
  }

  /** The descending sort keeps an element exactly when the input had it. */
  lemma SortDescMembership<T>(s: seq<T>, key: T -> int, x: T)
    ensures x in SortDesc(s, key) <==> x in s
  {
    SortMembership(s, y => -key(y), x);
  }

  lemma {:induction false} InsertDistinct<T, K>(x: T, s: seq<T>, key: T -> int, f: T -> K)
    requires DistinctBy(s, f)
    requires forall i :: 0 <= i < |s| ==> f(s[i]) != f(x)
    ensures DistinctBy(Insert(x, s, key), f)
  {
    var r := Insert(x, s, key);
    if s == [] {
    } else if key(x) <= key(s[0]) {
      assert r == [x] + s;
      forall i, j | 0 <= i < j < |r| ensures f(r[i]) != f(r[j]) {
        assert r[j] == s[j - 1];
        if i > 0 {
          assert r[i] == s[i - 1];
        }
      }
    } else {
      InsertDistinct(x, s[1..], key, f);
      var t := Insert(x, s[1..], key);
      forall k | 0 <= k < |t| ensures f(t[k]) != f(s[0]) {
        InsertMembers(x, s[1..], key, t[k]);
        if t[k] != x {
          var m := TailMember(s, t[k]);
        }
      }
      assert r == [s[0]] + t;
      forall i, j | 0 <= i < j < |r| ensures f(r[i]) != f(r[j]) {
        assert r[j] == t[j - 1];
        if i > 0 {
          assert r[i] == t[i - 1];
        }
      }
    }
  }

  /** Sorting never makes two elements share an `f`-value that were distinct before. */
  lemma {:induction false} SortAscDistinct<T, K>(s: seq<T>, key: T -> int, f: T -> K)
    requires DistinctBy(s, f)
    ensures DistinctBy(SortAsc(s, key), f)
  {
    if s != [] {
      SortAscDistinct(s[1..], key, f);
      var t := SortAsc(s[1..], key);
      forall k | 0 <= k < |t| ensures f(t[k]) != f(s[0]) {
        SortMembership(s[1..], key, t[k]);
        var m := TailMember(s, t[k]);
      }
      InsertDistinct(s[0], t, key, f);
    }
  }

  /** The descending sort keeps distinct `f`-values distinct. */
  lemma SortDescDistinct<T, K>(s: seq<T>, key: T -> int, f: T -> K)
    requires DistinctBy(s, f)
    ensures DistinctBy(SortDesc(s, key), f)
  {
    SortAscDistinct(s, x => -key(x), f);
  }

  /** A first element no smaller than the rest extends a descending order. */
  lemma ConsSortedDesc<T>(x: T, rest: seq<T>, key: T -> int)
    requires SortedDesc(rest, key)
    requires forall j :: 0 <= j < |rest| ==> key(x) >= key(rest[j])
    ensures SortedDesc([x] + rest, key)
  {
    var r := [x] + rest;
    forall i, j | 0 <= i < j < |r| ensures key(r[i]) >= key(r[j]) {
      assert r[j] == rest[j - 1];
      if i > 0 {
        assert r[i] == rest[i - 1];
      }
    }
  }

  /** The head of a descending sequence bounds everything filtered from its tail. */
  lemma HeadBoundsFilter<T>(s: seq<T>, p: T -> bool, key: T -> int)
    requires s != [] && SortedDesc(s, key)
    ensures forall j :: 0 <= j < |Filter(s[1..], p)| ==> key(s[0]) >= key(Filter(s[1..], p)[j])
  {
    var rest := Filter(s[1..], p);
    forall j | 0 <= j < |rest| ensures key(s[0]) >= key(rest[j]) {
      assert rest[j] in s[1..];
      var m := TailMember(s, rest[j]);
    }
  }

  /** Filtering a sequence sorted newest first keeps it sorted newest first. */
  lemma {:induction false} FilterSortedDesc<T>(s: seq<T>, p: T -> bool, key: T -> int)
    requires SortedDesc(s, key)
    ensures SortedDesc(Filter(s, p), key)
  {
    if s != [] {
      var tail := s[1..];
      assert SortedDesc(tail, key);
      FilterSortedDesc(tail, p, key);
      var rest := Filter(tail, p);
      if p(s[0]) {
        HeadBoundsFilter(s, p, key);
        ConsSortedDesc(s[0], rest, key);
        assert Filter(s, p) == [s[0]] + rest;
      } else {
        assert Filter(s, p) == rest;
      }
    }
  }
}
