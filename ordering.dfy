/**
 * Orderings, sorting and first-occurrence de-duplication shared by the
 * pipelines of app.py.
 *
 * Python compares the sort keys used in app.py (integers, strings and
 * tuples of integers) lexicographically; every key is therefore modelled
 * as a sequence of integers (an integer k becomes [k], a tuple (a, b)
 * becomes [a, b], a string becomes its code points) compared by `LexLe`.
 * `Sort` is Python's `sorted(s, key=..., reverse=...)` / `list.sort`:
 * stable in both directions.
 */
module Ordering {

  /** Python's `a <= b` on tuples / strings: lexicographic, a proper prefix is smaller. */
  predicate LexLe(a: seq<int>, b: seq<int>)
    decreases |a|
  {
    |a| == 0 || (|b| > 0 && (a[0] < b[0] || (a[0] == b[0] && LexLe(a[1..], b[1..]))))
  }

  lemma LexRefl(a: seq<int>)
    ensures LexLe(a, a)
    decreases |a|
  {
    if |a| > 0 { LexRefl(a[1..]); }
  }

  lemma LexTotal(a: seq<int>, b: seq<int>)
    ensures LexLe(a, b) || LexLe(b, a)
    decreases |a|
  {
    if |a| > 0 && |b| > 0 && a[0] == b[0] { LexTotal(a[1..], b[1..]); }
  }

  lemma LexTrans(a: seq<int>, b: seq<int>, c: seq<int>)
    requires LexLe(a, b) && LexLe(b, c)
    ensures LexLe(a, c)
    decreases |a|
  {
    if |a| > 0 && |b| > 0 && |c| > 0 && a[0] == b[0] && b[0] == c[0] {
      LexTrans(a[1..], b[1..], c[1..]);
    }
  }

  lemma LexAntisym(a: seq<int>, b: seq<int>)
    requires LexLe(a, b) && LexLe(b, a)
    ensures a == b
    decreases |a|
  {
    if |a| > 0 {
      LexAntisym(a[1..], b[1..]);
      assert a == [a[0]] + a[1..] && b == [b[0]] + b[1..];
    }
  }

  /** Code points of a string, its sort key in Python. */
  function CodePoints(s: string): (r: seq<int>)
    ensures |r| == |s| && forall i :: 0 <= i < |s| ==> r[i] == s[i] as int
  {
    seq(|s|, i requires 0 <= i < |s| => s[i] as int)
  }

  lemma CodePointsInjective(a: string, b: string)
    requires CodePoints(a) == CodePoints(b)
    ensures a == b
  {
    assert |a| == |b|;
    forall i | 0 <= i < |a| ensures a[i] == b[i] {
      assert CodePoints(a)[i] == CodePoints(b)[i];
    }
  }

  /** May `a` stand before `b` in a list sorted by `key` (descending when `reverse`)? */
  predicate Precedes<T>(key: T -> seq<int>, reverse: bool, a: T, b: T)
  {
    if reverse then LexLe(key(b), key(a)) else LexLe(key(a), key(b))
  }

  lemma PrecedesRefl<T>(key: T -> seq<int>, reverse: bool, a: T)
    ensures Precedes(key, reverse, a, a)
  {
    LexRefl(key(a));
  }

  lemma PrecedesTotal<T>(key: T -> seq<int>, reverse: bool, a: T, b: T)
    ensures Precedes(key, reverse, a, b) || Precedes(key, reverse, b, a)
  {
    LexTotal(key(a), key(b));
  }

  lemma PrecedesTrans<T>(key: T -> seq<int>, reverse: bool, a: T, b: T, c: T)
    requires Precedes(key, reverse, a, b) && Precedes(key, reverse, b, c)
    ensures Precedes(key, reverse, a, c)
  {
    if reverse { LexTrans(key(c), key(b), key(a)); } else { LexTrans(key(a), key(b), key(c)); }
  }

  lemma PrecedesBothWays<T>(key: T -> seq<int>, reverse: bool, a: T, b: T)
    requires Precedes(key, reverse, a, b) && Precedes(key, reverse, b, a)
    ensures key(a) == key(b)
  {
    LexAntisym(key(a), key(b));
  }

  predicate Sorted<T>(s: seq<T>, key: T -> seq<int>, reverse: bool)
  {
    forall i, j :: 0 <= i < j < |s| ==> Precedes(key, reverse, s[i], s[j])
  }

  /** Inserts x after every element that may precede it (so after its equals: stability). */
  function Insert<T>(x: T, s: seq<T>, key: T -> seq<int>, reverse: bool): seq<T>
  {
    if |s| == 0 then [x]
    else if Precedes(key, reverse, s[0], x) then [s[0]] + Insert(x, s[1..], key, reverse)
    else [x] + s
  }

  /** Python's `sorted(s, key=key, reverse=reverse)` (insertion sort, stable). */
  function Sort<T>(s: seq<T>, key: T -> seq<int>, reverse: bool): seq<T>
  {
    if |s| == 0 then [] else Insert(s[|s| - 1], Sort(s[..|s| - 1], key, reverse), key, reverse)
  }

  lemma InsertMultiset<T>(x: T, s: seq<T>, key: T -> seq<int>, reverse: bool)
    ensures multiset(Insert(x, s, key, reverse)) == multiset(s) + multiset{x}
  {
    if |s| > 0 && Precedes(key, reverse, s[0], x) {
      InsertMultiset(x, s[1..], key, reverse);
      assert s == [s[0]] + s[1..];
    }
  }

  lemma InsertSorted<T>(x: T, s: seq<T>, key: T -> seq<int>, reverse: bool)
    requires Sorted(s, key, reverse)
    ensures Sorted(Insert(x, s, key, reverse), key, reverse)
  {
    if |s| == 0 {
    } else if Precedes(key, reverse, s[0], x) {
      InsertSorted(x, s[1..], key, reverse);
      InsertSortedBehind(x, s, key, reverse);
    } else {
      InsertSortedAhead(x, s, key, reverse);
    }
  }

  /** x goes behind s[0]: s[0] precedes everything the tail insertion returns. */
  lemma InsertSortedBehind<T>(x: T, s: seq<T>, key: T -> seq<int>, reverse: bool)
    requires |s| > 0 && Sorted(s, key, reverse) && Precedes(key, reverse, s[0], x)
    requires Sorted(Insert(x, s[1..], key, reverse), key, reverse)
    ensures Sorted(Insert(x, s, key, reverse), key, reverse)
  {
    var tail := Insert(x, s[1..], key, reverse);
    assert Insert(x, s, key, reverse) == [s[0]] + tail;
    InsertMultiset(x, s[1..], key, reverse);
    forall k | 0 <= k < |tail| ensures Precedes(key, reverse, s[0], tail[k]) {
      assert tail[k] in multiset(tail);
      if tail[k] != x {
        assert tail[k] in multiset(s[1..]);
        var m :| 0 <= m < |s[1..]| && s[1..][m] == tail[k];
        assert s[1 + m] == tail[k];
      }
    }
    var r := [s[0]] + tail;
    forall i, j | 0 <= i < j < |r| ensures Precedes(key, reverse, r[i], r[j]) {
      assert r[j] == tail[j - 1];
      if i > 0 { assert r[i] == tail[i - 1]; }
    }
  }

  /** x goes in front of s. */
  lemma InsertSortedAhead<T>(x: T, s: seq<T>, key: T -> seq<int>, reverse: bool)
    requires |s| > 0 && Sorted(s, key, reverse) && !Precedes(key, reverse, s[0], x)
    ensures Sorted(Insert(x, s, key, reverse), key, reverse)
  {
    PrecedesTotal(key, reverse, s[0], x);
    var r := [x] + s;
    assert Insert(x, s, key, reverse) == r;
    forall i, j | 0 <= i < j < |r| ensures Precedes(key, reverse, r[i], r[j]) {
      assert r[j] == s[j - 1];
      if i == 0 {
        if j > 1 { PrecedesTrans(key, reverse, x, s[0], s[j - 1]); }
      } else {
        assert r[i] == s[i - 1];
      }
    }
  }

  /** The result of Sort is ordered by `key` and is a permutation of its input. */
  lemma {:induction false} SortSortedPermutation<T>(s: seq<T>, key: T -> seq<int>, reverse: bool)
    ensures Sorted(Sort(s, key, reverse), key, reverse)
    ensures multiset(Sort(s, key, reverse)) == multiset(s)
    ensures |Sort(s, key, reverse)| == |s|
  {
    if |s| > 0 {
      var p := s[..|s| - 1];
      SortSortedPermutation(p, key, reverse);
      InsertSorted(s[|s| - 1], Sort(p, key, reverse), key, reverse);
      InsertMultiset(s[|s| - 1], Sort(p, key, reverse), key, reverse);
      assert s == p + [s[|s| - 1]];
      assert |Sort(s, key, reverse)| == |multiset(Sort(s, key, reverse))|;
    }
  }

  lemma SortMembers<T>(s: seq<T>, key: T -> seq<int>, reverse: bool)
    ensures forall x :: x in Sort(s, key, reverse) <==> x in s
  {
    SortSortedPermutation(s, key, reverse);
    forall x ensures x in Sort(s, key, reverse) <==> x in s {
      assert x in Sort(s, key, reverse) <==> x in multiset(Sort(s, key, reverse));
      assert x in s <==> x in multiset(s);
    }
  }

  /** The elements of s whose key is k, in their order in s. */
  function KeyClass<T>(s: seq<T>, key: T -> seq<int>, k: seq<int>): seq<T>
  {
    if |s| == 0 then []
    else KeyClass(s[..|s| - 1], key, k) + (if key(s[|s| - 1]) == k then [s[|s| - 1]] else [])
  }

  lemma KeyClassAppend<T>(a: seq<T>, b: seq<T>, key: T -> seq<int>, k: seq<int>)
    ensures KeyClass(a + b, key, k) == KeyClass(a, key, k) + KeyClass(b, key, k)
    decreases |b|
  {
    if |b| > 0 {
      var b' := b[..|b| - 1];
      assert (a + b)[..|a + b| - 1] == a + b';
      KeyClassAppend(a, b', key, k);
    } else {
      assert a + b == a;
    }
  }

  lemma KeyClassNone<T>(s: seq<T>, key: T -> seq<int>, k: seq<int>)
    requires forall i :: 0 <= i < |s| ==> key(s[i]) != k
    ensures KeyClass(s, key, k) == []
  {
    if |s| > 0 { KeyClassNone(s[..|s| - 1], key, k); }
  }

  lemma {:induction false} InsertStable<T>(x: T, s: seq<T>, key: T -> seq<int>, reverse: bool, k: seq<int>)
    requires Sorted(s, key, reverse)
    ensures KeyClass(Insert(x, s, key, reverse), key, k)
         == KeyClass(s, key, k) + (if key(x) == k then [x] else [])
    decreases |s|
  {
    if |s| == 0 {
      KeyClassSingle(x, key, k);
    } else if Precedes(key, reverse, s[0], x) {
      var t := Insert(x, s[1..], key, reverse);
      assert Insert(x, s, key, reverse) == [s[0]] + t;
      SortedTail(s, key, reverse);
      InsertStable(x, s[1..], key, reverse, k);
      assert KeyClass(t, key, k) == KeyClass(s[1..], key, k) + (if key(x) == k then [x] else []);
      KeyClassAppend([s[0]], t, key, k);
      KeyClassAppend([s[0]], s[1..], key, k);
      assert s == [s[0]] + s[1..];
    } else {
      assert Insert(x, s, key, reverse) == [x] + s;
      KeyClassAppend([x], s, key, k);
      KeyClassSingle(x, key, k);
      if key(x) == k { NoEqualAfterStrictlyLater(x, s, key, reverse); }
    }
  }

  lemma KeyClassSingle<T>(x: T, key: T -> seq<int>, k: seq<int>)
    ensures KeyClass([x], key, k) == if key(x) == k then [x] else []
  {
    assert [x][..0] == [];
  }

  lemma SortedTail<T>(s: seq<T>, key: T -> seq<int>, reverse: bool)
    requires |s| > 0 && Sorted(s, key, reverse)
    ensures Sorted(s[1..], key, reverse)
  {
    forall i, j | 0 <= i < j < |s| - 1 ensures Precedes(key, reverse, s[1..][i], s[1..][j]) {
      assert s[1..][i] == s[i + 1] && s[1..][j] == s[j + 1];
    }
  }

  lemma NoEqualAfterStrictlyLater<T>(x: T, s: seq<T>, key: T -> seq<int>, reverse: bool)
    requires Sorted(s, key, reverse)
    requires |s| > 0 && !Precedes(key, reverse, s[0], x)
    ensures KeyClass(s, key, key(x)) == []
  {
    forall i | 0 <= i < |s| ensures key(s[i]) != key(x) {
      if key(s[i]) == key(x) {
        LexRefl(key(x));
        assert Precedes(key, reverse, s[i], x);
        if i > 0 { PrecedesTrans(key, reverse, s[0], s[i], x); }
      }
    }
    KeyClassNone(s, key, key(x));
  }

  /** Stability: elements with equal keys keep their relative order. */
  lemma {:induction false} SortStable<T>(s: seq<T>, key: T -> seq<int>, reverse: bool, k: seq<int>)
    ensures KeyClass(Sort(s, key, reverse), key, k) == KeyClass(s, key, k)
  {
    if |s| > 0 {
      var p := s[..|s| - 1];
      SortStable(p, key, reverse, k);
      SortSortedPermutation(p, key, reverse);
      InsertStable(s[|s| - 1], Sort(p, key, reverse), key, reverse, k);
    }
  }

  /** A sequence already sorted by `key` is left as it is. */
  lemma {:induction false} SortOfSorted<T>(s: seq<T>, key: T -> seq<int>, reverse: bool)
    requires Sorted(s, key, reverse)
    ensures Sort(s, key, reverse) == s
  {
    if |s| > 0 {
      var p := s[..|s| - 1];
      var x := s[|s| - 1];
      SortOfSorted(p, key, reverse);
      InsertAtEnd(x, p, key, reverse);
      assert s == p + [x];
    }
  }

  lemma InsertAtEnd<T>(x: T, s: seq<T>, key: T -> seq<int>, reverse: bool)
    requires forall i :: 0 <= i < |s| ==> Precedes(key, reverse, s[i], x)
    ensures Insert(x, s, key, reverse) == s + [x]
  {
    if |s| > 0 {
      InsertAtEnd(x, s[1..], key, reverse);
      assert s == [s[0]] + s[1..];
    }
  }

  // ---------------------------------------------------------------------
  // Stability as a tie order, and sorting by two keys that agree
  // ---------------------------------------------------------------------

  /** Elements with equal keys stand in increasing `rank`. */
  predicate TiesRanked<T>(s: seq<T>, key: T -> seq<int>, rank: T -> int)
  {
    forall i, j :: 0 <= i < j < |s| ==> key(s[i]) == key(s[j]) ==> rank(s[i]) < rank(s[j])
  }

  lemma TiesRankedCons<T>(y: T, t: seq<T>, key: T -> seq<int>, rank: T -> int)
    requires TiesRanked(t, key, rank)
    requires forall k :: 0 <= k < |t| ==> key(t[k]) == key(y) ==> rank(y) < rank(t[k])
    ensures TiesRanked([y] + t, key, rank)
  {
    var r := [y] + t;
    forall i, j | 0 <= i < j < |r| ensures key(r[i]) == key(r[j]) ==> rank(r[i]) < rank(r[j]) {
      if i > 0 {
        assert r[i] == t[i - 1];
      }
      assert r[j] == t[j - 1];
    }
  }

  /** Everything after an element that x strictly precedes has a key other than x's. */
  lemma KeysDifferAfter<T>(x: T, s: seq<T>, key: T -> seq<int>, reverse: bool)
    requires Sorted(s, key, reverse) && |s| > 0 && !Precedes(key, reverse, s[0], x)
    ensures forall m :: 0 <= m < |s| ==> key(s[m]) != key(x)
  {
    forall m | 0 <= m < |s| ensures key(s[m]) != key(x) {
      PrecedesRefl(key, reverse, x);
      if m > 0 {
        assert Precedes(key, reverse, s[0], s[m]);
      }
    }
  }

  lemma {:induction false} InsertTiesRanked<T>(x: T, s: seq<T>, key: T -> seq<int>, reverse: bool, rank: T -> int)
    requires Sorted(s, key, reverse) && TiesRanked(s, key, rank)
    requires forall k :: 0 <= k < |s| ==> rank(s[k]) < rank(x)
    ensures TiesRanked(Insert(x, s, key, reverse), key, rank)
    decreases |s|
  {
    if |s| > 0 {
      if Precedes(key, reverse, s[0], x) {
        var t := s[1..];
        SortedTail(s, key, reverse);
        assert TiesRanked(t, key, rank) by {
          forall i, j | 0 <= i < j < |t| ensures key(t[i]) == key(t[j]) ==> rank(t[i]) < rank(t[j]) {
            assert t[i] == s[i + 1] && t[j] == s[j + 1];
          }
        }
        InsertTiesRanked(x, t, key, reverse, rank);
        var it := Insert(x, t, key, reverse);
        InsertMultiset(x, t, key, reverse);
        forall k | 0 <= k < |it| ensures key(it[k]) == key(s[0]) ==> rank(s[0]) < rank(it[k]) {
          var z := it[k];
          assert z in multiset(it);
          if z != x {
            assert z in multiset(t);
            var m :| 0 <= m < |t| && t[m] == z;
            assert s[m + 1] == z;
          }
        }
        TiesRankedCons(s[0], it, key, rank);
      } else {
        KeysDifferAfter(x, s, key, reverse);
        TiesRankedCons(x, s, key, rank);
      }
    }
  }

  /**
   * Stability: when `rank` grows along s, elements of `Sort(s)` with equal
   * keys keep that order.
   */
  lemma {:induction false} SortTiesRanked<T>(s: seq<T>, key: T -> seq<int>, reverse: bool, rank: T -> int)
    requires forall i, j :: 0 <= i < j < |s| ==> rank(s[i]) < rank(s[j])
    ensures TiesRanked(Sort(s, key, reverse), key, rank)
  {
    if |s| > 0 {
      var p := s[..|s| - 1];
      var x := s[|s| - 1];
      assert forall i, j :: 0 <= i < j < |p| ==> rank(p[i]) < rank(p[j]) by {
        forall i, j | 0 <= i < j < |p| ensures rank(p[i]) < rank(p[j]) {
          assert p[i] == s[i] && p[j] == s[j];
        }
      }
      SortTiesRanked(p, key, reverse, rank);
      SortSortedPermutation(p, key, reverse);
      var sp := Sort(p, key, reverse);
      forall k | 0 <= k < |sp| ensures rank(sp[k]) < rank(x) {
        assert sp[k] in multiset(sp);
        assert sp[k] in multiset(p);
        var m :| 0 <= m < |p| && p[m] == sp[k];
        assert s[m] == sp[k];
      }
      InsertTiesRanked(x, sp, key, reverse, rank);
    }
  }

  lemma {:induction false} FilterTiesRanked<T>(s: seq<T>, p: T -> bool, key: T -> seq<int>, rank: T -> int)
    requires TiesRanked(s, key, rank)
    ensures TiesRanked(Filter(s, p), key, rank)
  {
    if |s| > 0 {
      var q := s[..|s| - 1];
      assert TiesRanked(q, key, rank) by {
        forall i, j | 0 <= i < j < |q| ensures key(q[i]) == key(q[j]) ==> rank(q[i]) < rank(q[j]) {
          assert q[i] == s[i] && q[j] == s[j];
        }
      }
      FilterTiesRanked(q, p, key, rank);
      var fq := Filter(q, p);
      if p(s[|s| - 1]) {
        var r := fq + [s[|s| - 1]];
        forall i, j | 0 <= i < j < |r| ensures key(r[i]) == key(r[j]) ==> rank(r[i]) < rank(r[j]) {
          if j < |fq| {
            assert r[i] == fq[i] && r[j] == fq[j];
          } else {
            var k := FilterIndex(q, p, i);
            assert r[i] == s[k] && r[j] == s[|s| - 1];
          }
        }
      }
    }
  }

  lemma {:induction false} InsertCongruent<T>(x: T, s: seq<T>, k1: T -> seq<int>, k2: T -> seq<int>, reverse: bool)
    requires k1(x) == k2(x) && forall i :: 0 <= i < |s| ==> k1(s[i]) == k2(s[i])
    ensures Insert(x, s, k1, reverse) == Insert(x, s, k2, reverse)
    decreases |s|
  {
    if |s| > 0 {
      InsertCongruent(x, s[1..], k1, k2, reverse);
    }
  }

  /** Sorting by two keys that agree on every element gives the same list. */
  lemma {:induction false} SortCongruent<T>(s: seq<T>, k1: T -> seq<int>, k2: T -> seq<int>, reverse: bool)
    requires forall i :: 0 <= i < |s| ==> k1(s[i]) == k2(s[i])
    ensures Sort(s, k1, reverse) == Sort(s, k2, reverse)
  {
    if |s| > 0 {
      var p := s[..|s| - 1];
      assert forall i :: 0 <= i < |p| ==> p[i] == s[i];
      SortCongruent(p, k1, k2, reverse);
      var sp := Sort(p, k1, reverse);
      SortSortedPermutation(p, k1, reverse);
      forall i | 0 <= i < |sp| ensures k1(sp[i]) == k2(sp[i]) {
        assert sp[i] in multiset(sp);
        assert sp[i] in multiset(p);
      }
      InsertCongruent(s[|s| - 1], sp, k1, k2, reverse);
    }
  }

  /** Python's `s[:n]` for n >= 0. */
  function Take<T>(s: seq<T>, n: nat): (r: seq<T>)
    ensures |r| == if n < |s| then n else |s|
    ensures r == s[..|r|]
  {
    if n < |s| then s[..n] else s
  }

  lemma TakeSorted<T>(s: seq<T>, n: nat, key: T -> seq<int>, reverse: bool)
    requires Sorted(s, key, reverse)
    ensures Sorted(Take(s, n), key, reverse)
  {
  }

  /** A list comprehension `[x for x in s if p(x)]`. */
  function Filter<T>(s: seq<T>, p: T -> bool): (r: seq<T>)
    ensures |r| <= |s|
  {
    if |s| == 0 then [] else Filter(s[..|s| - 1], p) + (if p(s[|s| - 1]) then [s[|s| - 1]] else [])
  }

  /** The comprehension keeps exactly the elements satisfying p, in their order. */
  lemma {:induction false} FilterMembers<T>(s: seq<T>, p: T -> bool)
    ensures forall x :: x in Filter(s, p) <==> x in s && p(x)
  {
    if |s| > 0 {
      var q := s[..|s| - 1];
      FilterMembers(q, p);
      assert s == q + [s[|s| - 1]];
    }
  }

  lemma {:induction false} FilterSorted<T>(s: seq<T>, p: T -> bool, key: T -> seq<int>, reverse: bool)
    requires Sorted(s, key, reverse)
    ensures Sorted(Filter(s, p), key, reverse)
  {
    if |s| > 0 {
      var q := s[..|s| - 1];
      var last := s[|s| - 1];
      assert Sorted(q, key, reverse) by {
        forall i, j | 0 <= i < j < |q| ensures Precedes(key, reverse, q[i], q[j]) {
          assert q[i] == s[i] && q[j] == s[j];
        }
      }
      FilterSorted(q, p, key, reverse);
      var fq := Filter(q, p);
      if p(last) {
        FilterAllPrecede(q, p, key, reverse, last);
        var r := fq + [last];
        forall i, j | 0 <= i < j < |r| ensures Precedes(key, reverse, r[i], r[j]) {
          if j < |fq| {
            assert r[i] == fq[i] && r[j] == fq[j];
          }
        }
      }
    }
  }

  lemma FilterAllPrecede<T>(q: seq<T>, p: T -> bool, key: T -> seq<int>, reverse: bool, last: T)
    requires forall k :: 0 <= k < |q| ==> Precedes(key, reverse, q[k], last)
    ensures forall i :: 0 <= i < |Filter(q, p)| ==> Precedes(key, reverse, Filter(q, p)[i], last)
  {
    var fq := Filter(q, p);
    forall i | 0 <= i < |fq| ensures Precedes(key, reverse, fq[i], last) {
      var k := FilterIndex(q, p, i);
    }
  }

  /** Every element kept by the comprehension comes from some position of s. */
  lemma {:induction false} FilterIndex<T>(s: seq<T>, p: T -> bool, i: nat) returns (k: nat)
    requires i < |Filter(s, p)|
    ensures k < |s| && s[k] == Filter(s, p)[i]
  {
    var q := s[..|s| - 1];
    if i < |Filter(q, p)| {
      k := FilterIndex(q, p, i);
    } else {
      k := |s| - 1;
    }
  }

  /** A permutation of a list without repeats has no repeats. */
  lemma DistinctPermutation<T>(d: seq<T>, n: seq<T>, i: nat, j: nat)
    requires multiset(n) == multiset(d)
    requires forall a, b :: 0 <= a < b < |d| ==> d[a] != d[b]
    requires i < j < |n|
    ensures n[i] != n[j]
  {
    CountAtMostOne(d, n[i]);
    TwoOccurrences(n, i, j);
  }

  lemma {:induction false} CountAtMostOne<T>(d: seq<T>, x: T)
    requires forall a, b :: 0 <= a < b < |d| ==> d[a] != d[b]
    ensures multiset(d)[x] <= 1
  {
    if |d| > 0 {
      var p := d[..|d| - 1];
      assert d == p + [d[|d| - 1]];
      CountAtMostOne(p, x);
      if x == d[|d| - 1] {
        assert x !in p by {
          forall a | 0 <= a < |p| ensures p[a] != x {
            assert p[a] == d[a];
          }
        }
      }
    }
  }

  lemma TwoOccurrences<T>(n: seq<T>, i: nat, j: nat)
    requires i < j < |n|
    ensures n[i] == n[j] ==> multiset(n)[n[j]] >= 2
  {
    assert n == n[..j] + [n[j]] + n[j + 1..];
    assert n[..j][i] == n[i];
    assert multiset(n) == multiset(n[..j]) + multiset{n[j]} + multiset(n[j + 1..]);
  }

  /** A permutation of a list whose keys are pairwise distinct has pairwise distinct keys. */
  lemma DistinctKeysPermutation<T, K>(d: seq<T>, n: seq<T>, key: T -> K, i: nat, j: nat)
    requires multiset(n) == multiset(d)
    requires forall a, b :: 0 <= a < b < |d| ==> key(d[a]) != key(d[b])
    requires i < j < |n|
    ensures key(n[i]) != key(n[j])
  {
    DistinctPermutation(d, n, i, j);
    assert n[i] in multiset(n) && n[j] in multiset(n);
    var a :| 0 <= a < |d| && d[a] == n[i];
    var b :| 0 <= b < |d| && d[b] == n[j];
  }

  // ---------------------------------------------------------------------
  // First-occurrence de-duplication (dict.fromkeys / the `seen` set loops)
  // ---------------------------------------------------------------------

  predicate HasKey<T, K(==)>(s: seq<T>, key: T -> K, k: K)
  {
    exists i :: 0 <= i < |s| && key(s[i]) == k
  }

  lemma HasKeyAppend<T, K>(s: seq<T>, x: T, key: T -> K)
    ensures forall k :: HasKey(s + [x], key, k) <==> HasKey(s, key, k) || key(x) == k
  {
    var t := s + [x];
    forall k ensures HasKey(t, key, k) <==> HasKey(s, key, k) || key(x) == k {
      if HasKey(s, key, k) {
        var j :| 0 <= j < |s| && key(s[j]) == k;
        assert t[j] == s[j];
      }
      if HasKey(t, key, k) && key(x) != k {
        var j :| 0 <= j < |t| && key(t[j]) == k;
        assert j < |s| && t[j] == s[j];
      }
      assert t[|s|] == x;
    }
  }

  /** Index of the first element of s whose key is k. */
  function First<T, K(==)>(s: seq<T>, key: T -> K, k: K): (i: nat)
    requires HasKey(s, key, k)
    ensures i < |s| && key(s[i]) == k
    ensures forall j :: 0 <= j < i ==> key(s[j]) != k
  {
    var p := s[..|s| - 1];
    if HasKey(p, key, k) then
      var i := First(p, key, k); assert p[i] == s[i]; i
    else
      assert forall j :: 0 <= j < |p| ==> p[j] == s[j];
      |s| - 1
  }

  /** Keeps the first element for every key, in order of first occurrence. */
  function DedupBy<T, K(==)>(s: seq<T>, key: T -> K): seq<T>
  {
    if |s| == 0 then []
    else
      var p := s[..|s| - 1];
      if HasKey(p, key, key(s[|s| - 1])) then DedupBy(p, key) else DedupBy(p, key) + [s[|s| - 1]]
  }

  /**
   * DedupBy(s) has pairwise distinct keys, covers every key of s, keeps
   * exactly the first element of s with each key, and orders them by first
   * occurrence; these four facts determine it uniquely.
   */
  lemma DedupByCharacterized<T, K>(s: seq<T>, key: T -> K)
    ensures var r := DedupBy(s, key);
      && |r| <= |s|
      && (forall i, j :: 0 <= i < j < |r| ==> key(r[i]) != key(r[j]))
      && (forall k :: HasKey(s, key, k) <==> HasKey(r, key, k))
      && (forall i :: 0 <= i < |r| ==> HasKey(s, key, key(r[i])) && r[i] == s[First(s, key, key(r[i]))])
      && (forall i, j :: 0 <= i < j < |r| ==> First(s, key, key(r[i])) < First(s, key, key(r[j])))
  {
    DedupByCovers(s, key);
    DedupByDistinct(s, key);
    DedupByFirsts(s, key);
    DedupByOrder(s, key);
  }

  /** The last element of s adds its key to those of the prefix. */
  lemma LastKey<T, K>(s: seq<T>, key: T -> K)
    requires |s| > 0
    ensures forall k :: HasKey(s, key, k) <==> HasKey(s[..|s| - 1], key, k) || key(s[|s| - 1]) == k
  {
    assert s == s[..|s| - 1] + [s[|s| - 1]];
    HasKeyAppend(s[..|s| - 1], s[|s| - 1], key);
  }

  lemma {:induction false} DedupByCovers<T, K>(s: seq<T>, key: T -> K)
    ensures forall k :: HasKey(s, key, k) <==> HasKey(DedupBy(s, key), key, k)
  {
    if |s| > 0 {
      var p := s[..|s| - 1];
      var x := s[|s| - 1];
      DedupByCovers(p, key);
      LastKey(s, key);
      if !HasKey(p, key, key(x)) {
        HasKeyAppend(DedupBy(p, key), x, key);
      }
    }
  }

  lemma {:induction false} DedupByDistinct<T, K>(s: seq<T>, key: T -> K)
    ensures |DedupBy(s, key)| <= |s|
    ensures forall i, j :: 0 <= i < j < |DedupBy(s, key)| ==> key(DedupBy(s, key)[i]) != key(DedupBy(s, key)[j])
  {
    if |s| > 0 {
      var p := s[..|s| - 1];
      var x := s[|s| - 1];
      var rp := DedupBy(p, key);
      DedupByDistinct(p, key);
      if !HasKey(p, key, key(x)) {
        DedupByCovers(p, key);
        var r := rp + [x];
        forall i, j | 0 <= i < j < |r| ensures key(r[i]) != key(r[j]) {
          assert r[i] == rp[i];
          if j == |rp| {
            assert HasKey(rp, key, key(rp[i]));
          } else {
            assert r[j] == rp[j];
          }
        }
      }
    }
  }

  lemma {:induction false} DedupByFirsts<T, K>(s: seq<T>, key: T -> K)
    ensures forall i :: 0 <= i < |DedupBy(s, key)| ==>
      HasKey(s, key, key(DedupBy(s, key)[i])) && DedupBy(s, key)[i] == s[First(s, key, key(DedupBy(s, key)[i]))]
  {
    if |s| > 0 {
      var p := s[..|s| - 1];
      var x := s[|s| - 1];
      var rp := DedupBy(p, key);
      DedupByFirsts(p, key);
      LastKey(s, key);
      var r := DedupBy(s, key);
      forall i | 0 <= i < |r| ensures HasKey(s, key, key(r[i])) && r[i] == s[First(s, key, key(r[i]))] {
        if i < |rp| {
          assert r[i] == rp[i];
          var f := First(p, key, key(rp[i]));
          assert First(s, key, key(rp[i])) == f && p[f] == s[f];
        } else {
          assert r[i] == x && First(s, key, key(x)) == |p|;
        }
      }
    }
  }

  lemma {:induction false} DedupByOrder<T, K>(s: seq<T>, key: T -> K)
    ensures forall i, j :: 0 <= i < j < |DedupBy(s, key)| ==>
      && HasKey(s, key, key(DedupBy(s, key)[i])) && HasKey(s, key, key(DedupBy(s, key)[j]))
      && First(s, key, key(DedupBy(s, key)[i])) < First(s, key, key(DedupBy(s, key)[j]))
  {
    DedupByFirsts(s, key);
    if |s| > 0 {
      var p := s[..|s| - 1];
      var x := s[|s| - 1];
      var rp := DedupBy(p, key);
      DedupByOrder(p, key);
      DedupByFirsts(p, key);
      var r := DedupBy(s, key);
      forall i, j | 0 <= i < j < |r| ensures First(s, key, key(r[i])) < First(s, key, key(r[j])) {
        assert r[i] == rp[i];
        assert First(s, key, key(rp[i])) == First(p, key, key(rp[i])) < |p|;
        if j < |rp| {
          assert r[j] == rp[j];
          assert First(s, key, key(rp[j])) == First(p, key, key(rp[j]));
        } else {
          assert r[j] == x && First(s, key, key(x)) == |p|;
        }
      }
    }
  }

  /** Python's `list(dict.fromkeys(s))`. */
  function Id<T>(x: T): T { x }

  function Dedup<T(==)>(s: seq<T>): seq<T>
  {
    DedupBy(s, Id)
  }

  /** Elements of Dedup(s) are distinct, are exactly those of s, and keep first-occurrence order. */
  lemma DedupCharacterized<T>(s: seq<T>)
    ensures var r := Dedup(s);
      && |r| <= |s|
      && (forall i, j :: 0 <= i < j < |r| ==> r[i] != r[j])
      && (forall x :: x in r <==> x in s)
      && (forall i :: 0 <= i < |r| ==> HasKey(s, Id, r[i]))
      && (forall i, j :: 0 <= i < j < |r| ==> First(s, Id, r[i]) < First(s, Id, r[j]))
  {
    var id: T -> T := Id;
    DedupByCharacterized(s, id);
    var r := Dedup(s);
    forall x ensures x in r <==> x in s {
      if x in s { var j :| 0 <= j < |s| && s[j] == x; assert id(s[j]) == x; assert HasKey(r, id, x); }
      if x in r { var j :| 0 <= j < |r| && r[j] == x; assert id(r[j]) == x; assert HasKey(s, id, x); }
    }
  }

  /** A de-duplicated sorted list stays sorted. */
  lemma DedupBySorted<T, K>(s: seq<T>, key: T -> K, sk: T -> seq<int>, reverse: bool)
    requires Sorted(s, sk, reverse)
    ensures Sorted(DedupBy(s, key), sk, reverse)
  {
    DedupByCharacterized(s, key);
    var r := DedupBy(s, key);
    forall i, j | 0 <= i < j < |r| ensures Precedes(sk, reverse, r[i], r[j]) {
      assert r[i] == s[First(s, key, key(r[i]))] && r[j] == s[First(s, key, key(r[j]))];
    }
  }

  lemma DedupByMembers<T, K>(s: seq<T>, key: T -> K)
    ensures forall x :: x in DedupBy(s, key) ==> x in s
  {
    DedupByCharacterized(s, key);
    var r := DedupBy(s, key);
    forall x | x in r ensures x in s {
      var i :| 0 <= i < |r| && r[i] == x;
      assert r[i] == s[First(s, key, key(r[i]))];
    }
  }
}
