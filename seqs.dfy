/**
 * The Kotlin collection operations the app composes: `filter`, `distinct`
 * (also the key order of `groupBy`), and the stable sorts `sortedBy` and
 * `sortedByDescending`.
 */
module Seqs {

  // ---------------------------------------------------------------------------
  // filter

  /** `s.filter(p)`: the elements satisfying `p`, in their order. */
  function Filter<T(==)>(s: seq<T>, p: T -> bool): (r: seq<T>)
    ensures |r| <= |s|
    ensures forall i :: 0 <= i < |r| ==> p(r[i])
  {
    if s == [] then [] else Filter(s[..|s| - 1], p) + (if p(s[|s| - 1]) then [s[|s| - 1]] else [])
  }

  /** The filter keeps exactly the elements satisfying `p`. */
  lemma {:induction false} FilterIn<T>(s: seq<T>, p: T -> bool, x: T)
    ensures x in Filter(s, p) <==> x in s && p(x)
  {
    if s != [] {
      var pre := s[..|s| - 1];
      FilterIn(pre, p, x);
      assert s == pre + [s[|s| - 1]];
    }
  }

  lemma {:induction false} FilterAppend<T>(a: seq<T>, b: seq<T>, p: T -> bool)
    ensures Filter(a + b, p) == Filter(a, p) + Filter(b, p)
  {
    if b != [] {
      assert (a + b)[..|a + b| - 1] == a + b[..|b| - 1];
      FilterAppend(a, b[..|b| - 1], p);
    } else {
      assert a + b == a;
    }
  }

  /** `s.count(p)`. */
  function Count<T(==)>(s: seq<T>, p: T -> bool): nat {
    |Filter(s, p)|
  }

  lemma AppendAssoc<T>(a: seq<T>, b: seq<T>, c: seq<T>)
    ensures a + b + c == a + (b + c)
  {
  }

  // ---------------------------------------------------------------------------
  // flatMap

  /** `s.flatMap(f)`: the lists `f` gives for the elements, one after another. */
  function FlatMap<T, U>(s: seq<T>, f: T -> seq<U>): seq<U> {
    if s == [] then [] else FlatMap(s[..|s| - 1], f) + f(s[|s| - 1])
  }

  lemma FlatMapSnoc<T, U>(s: seq<T>, x: T, f: T -> seq<U>)
    ensures FlatMap(s + [x], f) == FlatMap(s, f) + f(x)
  {
    assert (s + [x])[..|s|] == s;
  }

  /** Extending the prefix by one element appends that element's list. */
  lemma FlatMapPrefix<T, U>(s: seq<T>, k: nat, f: T -> seq<U>)
    requires k < |s|
    ensures FlatMap(s[..k + 1], f) == FlatMap(s[..k], f) + f(s[k])
  {
    assert s[..k + 1] == s[..k] + [s[k]];
    FlatMapSnoc(s[..k], s[k], f);
  }

  /** When every list has `c` elements satisfying `p`, the whole has `c` per element. */
  lemma {:induction false} FlatMapCount<T, U>(s: seq<T>, f: T -> seq<U>, p: U -> bool, c: nat)
    requires forall i :: 0 <= i < |s| ==> Count(f(s[i]), p) == c
    ensures Count(FlatMap(s, f), p) == |s| * c
  {
    if s != [] {
      var pre, last := s[..|s| - 1], s[|s| - 1];
      assert forall i :: 0 <= i < |pre| ==> pre[i] == s[i];
      FlatMapCount(pre, f, p, c);
      var a, b := FlatMap(pre, f), f(last);
      FilterAppend(a, b, p);
      assert FlatMap(s, f) == a + b;
      assert Count(b, p) == c;
      assert (|pre| + 1) * c == |pre| * c + c;
    }
  }

  /** Some element of `s` satisfies `q` (`s.any(q)`). */
  predicate Any<T>(s: seq<T>, q: T -> bool) {
    exists i :: 0 <= i < |s| && q(s[i])
  }

  lemma AnyAppend<T>(a: seq<T>, b: seq<T>, q: T -> bool)
    ensures Any(a + b, q) <==> Any(a, q) || Any(b, q)
  {
    var r := a + b;
    if Any(r, q) {
      var i :| 0 <= i < |r| && q(r[i]);
      if i < |a| {
        assert q(a[i]);
      } else {
        assert q(b[i - |a|]);
      }
    }
    if Any(a, q) {
      var i :| 0 <= i < |a| && q(a[i]);
      assert q(r[i]);
    }
    if Any(b, q) {
      var i :| 0 <= i < |b| && q(b[i]);
      assert q(r[|a| + i]);
    }
  }

  lemma AnySingle<T>(x: T, q: T -> bool)
    ensures Any([x], q) <==> q(x)
  {
    if q(x) {
      assert [x][0] == x;
    }
  }

  /** Something satisfying `q` is in the whole exactly when it is in the list of some element. */
  lemma {:induction false} FlatMapAny<T, U>(s: seq<T>, f: T -> seq<U>, q: U -> bool)
    ensures Any(FlatMap(s, f), q) <==> exists n :: 0 <= n < |s| && Any(f(s[n]), q)
  {
    if s != [] {
      var pre := s[..|s| - 1];
      var last := f(s[|s| - 1]);
      var g := FlatMap(pre, f);
      var r := FlatMap(s, f);
      FlatMapAny(pre, f, q);
      assert r == g + last;
      if Any(r, q) {
        var i :| 0 <= i < |r| && q(r[i]);
        if i < |g| {
          assert Any(g, q);
          var n :| 0 <= n < |pre| && Any(f(pre[n]), q);
          assert pre[n] == s[n];
        } else {
          assert q(last[i - |g|]);
          assert Any(f(s[|s| - 1]), q);
        }
      }
      if exists n :: 0 <= n < |s| && Any(f(s[n]), q) {
        var n :| 0 <= n < |s| && Any(f(s[n]), q);
        var i :| 0 <= i < |f(s[n])| && q(f(s[n])[i]);
        if n < |pre| {
          assert pre[n] == s[n];
          var j :| 0 <= j < |g| && q(g[j]);
          assert q(r[j]);
        } else {
          assert q(r[|g| + i]);
        }
      }
    }
  }

  // ---------------------------------------------------------------------------
  // distinct

  predicate Distinct<T(==)>(s: seq<T>) {
    forall i, j :: 0 <= i < j < |s| ==> s[i] != s[j]
  }

  /** `s.distinct()`: the first occurrence of every element, in the order of first occurrence. */
  function Dedup<T(==)>(s: seq<T>): (r: seq<T>)
    ensures |r| <= |s|
    ensures Distinct(r)
  {
    if s == [] then []
    else
      var d := Dedup(s[..|s| - 1]);
      if s[|s| - 1] in d then d else d + [s[|s| - 1]]
  }

  /** Every element survives `distinct`, and nothing else appears. */
  lemma {:induction false} DedupIn<T>(s: seq<T>, x: T)
    ensures x in Dedup(s) <==> x in s
  {
    if s != [] {
      var pre := s[..|s| - 1];
      DedupIn(pre, x);
      assert s == pre + [s[|s| - 1]];
    }
  }

  /** Dedup keeps first occurrences: an element seen earlier comes earlier. */
  lemma {:induction false} DedupOrder<T>(s: seq<T>, i: nat, j: nat)
    requires i < j < |s| && s[i] != s[j]
    requires forall k :: 0 <= k < i ==> s[k] != s[i]
    requires forall k :: 0 <= k < j ==> s[k] != s[j]
    ensures exists p, q :: 0 <= p < q < |Dedup(s)| && Dedup(s)[p] == s[i] && Dedup(s)[q] == s[j]
  {
    var pre := s[..|s| - 1];
    var d := Dedup(pre);
    if j < |s| - 1 {
      DedupOrder(pre, i, j);
      var p, q :| 0 <= p < q < |d| && d[p] == s[i] && d[q] == s[j];
      assert Dedup(s)[p] == s[i] && Dedup(s)[q] == s[j];
    } else {
      assert s[j] !in pre;
      assert s[i] in pre;
      DedupIn(pre, s[i]);
      DedupIn(pre, s[j]);
      var p :| 0 <= p < |d| && d[p] == s[i];
      assert Dedup(s) == d + [s[j]];
      assert Dedup(s)[p] == s[i] && Dedup(s)[|d|] == s[j];
    }
  }

  // ---------------------------------------------------------------------------
  // Stable sorting (Kotlin sorts with a stable merge sort)

  predicate SortedBy<T>(s: seq<T>, key: T -> int) {
    forall i, j :: 0 <= i < j < |s| ==> key(s[i]) <= key(s[j])
  }

  /** The number of leading elements whose key is at most `k`. */
  function UpperBound<T>(s: seq<T>, key: T -> int, k: int): (i: nat)
    ensures i <= |s|
    ensures forall j :: 0 <= j < i ==> key(s[j]) <= k
    ensures i < |s| ==> key(s[i]) > k
  {
    if s == [] || key(s[0]) > k then 0 else 1 + UpperBound(s[1..], key, k)
  }

  /** Puts `x` after every element whose key does not exceed its own. */
  function Insert<T>(s: seq<T>, key: T -> int, x: T): (r: seq<T>)
    requires SortedBy(s, key)
    ensures |r| == |s| + 1
    ensures SortedBy(r, key)
    ensures multiset(r) == multiset(s) + multiset{x}
  {
    var i := UpperBound(s, key, key(x));
    InsertAt(s, key, x, i);
    s[..i] + [x] + s[i..]
  }

  lemma InsertAt<T>(s: seq<T>, key: T -> int, x: T, i: nat)
    requires SortedBy(s, key) && i == UpperBound(s, key, key(x))
    ensures SortedBy(s[..i] + [x] + s[i..], key)
    ensures multiset(s[..i] + [x] + s[i..]) == multiset(s) + multiset{x}
  {
    InsertSorted(s, key, x, i);
    InsertMultiset(s, x, i);
  }

  lemma InsertSorted<T>(s: seq<T>, key: T -> int, x: T, i: nat)
    requires SortedBy(s, key) && i == UpperBound(s, key, key(x))
    ensures SortedBy(s[..i] + [x] + s[i..], key)
  {
    var r := s[..i] + [x] + s[i..];
    forall a, b | 0 <= a < b < |r| ensures key(r[a]) <= key(r[b]) {
      InsertPair(s, key, x, i, a, b);
    }
  }

  lemma InsertMultiset<T>(s: seq<T>, x: T, i: nat)
    requires i <= |s|
    ensures multiset(s[..i] + [x] + s[i..]) == multiset(s) + multiset{x}
  {
    assert s == s[..i] + s[i..];
  }

  lemma InsertIndex<T>(s: seq<T>, x: T, i: nat, a: nat)
    requires i <= |s| && a <= |s|
    ensures (s[..i] + [x] + s[i..])[a] == if a < i then s[a] else if a == i then x else s[a - 1]
  {
  }

  lemma InsertPair<T>(s: seq<T>, key: T -> int, x: T, i: nat, a: nat, b: nat)
    requires SortedBy(s, key) && i == UpperBound(s, key, key(x))
    requires a < b < |s| + 1
    ensures key((s[..i] + [x] + s[i..])[a]) <= key((s[..i] + [x] + s[i..])[b])
  {
    InsertIndex(s, x, i, a);
    InsertIndex(s, x, i, b);
    if a == i && b > i {
      assert key(s[i]) <= key(s[b - 1]);
    }
  }

  /** `s.sortedBy(key)`: ascending by key, elements with equal keys in their original order. */
  function SortBy<T>(s: seq<T>, key: T -> int): (r: seq<T>)
    ensures |r| == |s|
    ensures SortedBy(r, key)
    ensures multiset(r) == multiset(s)
  {
    if s == [] then []
    else
      assert s == s[..|s| - 1] + [s[|s| - 1]];
      Insert(SortBy(s[..|s| - 1], key), key, s[|s| - 1])
  }

  /** Sorting neither adds nor drops an element. */
  lemma SortByIn<T>(s: seq<T>, key: T -> int, x: T)
    ensures x in SortBy(s, key) <==> x in s
  {
    var r := SortBy(s, key);
    assert x in r <==> x in multiset(r);
    assert x in s <==> x in multiset(s);
  }

  /** The last element of a sorted copy is an element with the largest key. */
  lemma SortByLast<T>(s: seq<T>, key: T -> int, i: nat)
    requires i < |s|
    ensures SortBy(s, key)[|s| - 1] in s
    ensures key(s[i]) <= key(SortBy(s, key)[|s| - 1])
  {
    var r := SortBy(s, key);
    var last := r[|s| - 1];
    SortByIn(s, key, last);
    SortByIn(s, key, s[i]);
    var p :| 0 <= p < |r| && r[p] == s[i];
    if p < |s| - 1 {
      assert key(r[p]) <= key(last);
    }
  }

  /** Sorting a longer list inserts its last element into the sorted rest. */
  lemma SortBySnoc<T>(s: seq<T>, x: T, key: T -> int)
    ensures SortBy(s + [x], key) == Insert(SortBy(s, key), key, x)
  {
    assert (s + [x])[..|s|] == s;
  }

  /** The filter of an insertion: the filter of the rest, plus `x` when the filter keeps it. */
  lemma FilterSplice<T>(lo: seq<T>, x: T, hi: seq<T>, p: T -> bool)
    ensures Filter(lo + [x] + hi, p) == Filter(lo, p) + (if p(x) then [x] else []) + Filter(hi, p)
    ensures Filter(lo + hi, p) == Filter(lo, p) + Filter(hi, p)
  {
    assert [x][..0] == [];
    FilterAppend(lo + [x], hi, p);
    FilterAppend(lo, [x], p);
    FilterAppend(lo, hi, p);
  }

  lemma FilterInsert<T>(s: seq<T>, key: T -> int, x: T, p: T -> bool)
    requires SortedBy(s, key)
    ensures |Filter(Insert(s, key, x), p)| == |Filter(s, p)| + (if p(x) then 1 else 0)
    ensures !p(x) ==> Filter(Insert(s, key, x), p) == Filter(s, p)
  {
    var i := UpperBound(s, key, key(x));
    assert s[..i] + s[i..] == s;
    FilterSplice(s[..i], x, s[i..], p);
    if !p(x) {
      var fl, fh := Filter(s[..i], p), Filter(s[i..], p);
      assert fl + [] + fh == fl + fh;
    }
  }

  /** A filter keeps the order of a sorted list. */
  lemma {:induction false} FilterSorted<T>(s: seq<T>, key: T -> int, p: T -> bool)
    requires SortedBy(s, key)
    ensures SortedBy(Filter(s, p), key)
  {
    if s != [] {
      var pre, x := s[..|s| - 1], s[|s| - 1];
      assert SortedBy(pre, key) by {
        forall i, j | 0 <= i < j < |pre| ensures key(pre[i]) <= key(pre[j]) {
          assert pre[i] == s[i] && pre[j] == s[j];
        }
      }
      FilterSorted(pre, key, p);
      var f := Filter(pre, p);
      if p(x) {
        forall i | 0 <= i < |f| ensures key(f[i]) <= key(x) {
          FilterIn(pre, p, f[i]);
          var j :| 0 <= j < |pre| && pre[j] == f[i];
          assert s[j] == f[i];
        }
        var r := f + [x];
        forall i, j | 0 <= i < j < |r| ensures key(r[i]) <= key(r[j]) {
          if j < |f| {
            assert r[i] == f[i] && r[j] == f[j];
          }
        }
      }
    }
  }

  /** Sorting does not change how many elements a filter keeps. */
  lemma {:induction false} FilterSortByCount<T>(s: seq<T>, key: T -> int, p: T -> bool)
    ensures Count(SortBy(s, key), p) == Count(s, p)
  {
    if s != [] {
      var pre := s[..|s| - 1];
      FilterSortByCount(pre, key, p);
      FilterInsert(SortBy(pre, key), key, s[|s| - 1], p);
    }
  }

  /** The elements whose key is `k`, in their order. */
  function KeepKey<T>(s: seq<T>, key: T -> int, k: int): seq<T> {
    if s == [] then []
    else KeepKey(s[..|s| - 1], key, k) + (if key(s[|s| - 1]) == k then [s[|s| - 1]] else [])
  }

  lemma {:induction false} KeepKeyAppend<T>(a: seq<T>, b: seq<T>, key: T -> int, k: int)
    ensures KeepKey(a + b, key, k) == KeepKey(a, key, k) + KeepKey(b, key, k)
  {
    if b != [] {
      assert (a + b)[..|a + b| - 1] == a + b[..|b| - 1];
      KeepKeyAppend(a, b[..|b| - 1], key, k);
    } else {
      assert a + b == a;
    }
  }

  lemma {:induction false} KeepKeyAbove<T>(s: seq<T>, key: T -> int, k: int)
    requires forall i :: 0 <= i < |s| ==> key(s[i]) > k
    ensures KeepKey(s, key, k) == []
  {
    if s != [] {
      KeepKeyAbove(s[..|s| - 1], key, k);
    }
  }

  lemma KeepKeySingle<T>(x: T, key: T -> int, k: int)
    ensures KeepKey([x], key, k) == if key(x) == k then [x] else []
  {
    assert [x][..0] == [];
  }

  /** What `Insert` puts after `x` has a larger key. */
  lemma InsertedBelow<T>(s: seq<T>, key: T -> int, x: T, i: nat)
    requires SortedBy(s, key) && i == UpperBound(s, key, key(x))
    ensures forall a :: 0 <= a < |s[i..]| ==> key(s[i..][a]) > key(x)
  {
    forall a | 0 <= a < |s[i..]| ensures key(s[i..][a]) > key(x) {
      assert s[i..][a] == s[i + a];
      assert key(s[i]) <= key(s[i + a]);
    }
  }

  /** Putting `x` in front of larger keys adds it to the end of its own key's list. */
  lemma KeepKeySplice<T>(lo: seq<T>, x: T, hi: seq<T>, key: T -> int, k: int)
    requires forall a :: 0 <= a < |hi| ==> key(hi[a]) > key(x)
    ensures KeepKey(lo + [x] + hi, key, k) == KeepKey(lo + hi, key, k) + (if key(x) == k then [x] else [])
  {
    KeepKeyAppend(lo + [x], hi, key, k);
    KeepKeyAppend(lo, [x], key, k);
    KeepKeyAppend(lo, hi, key, k);
    KeepKeySingle(x, key, k);
    var front, back := KeepKey(lo, key, k), KeepKey(hi, key, k);
    if key(x) == k {
      KeepKeyAbove(hi, key, k);
      assert KeepKey(lo + [x], key, k) == front + [x];
      assert KeepKey(lo + [x] + hi, key, k) == front + [x] + [];
      assert KeepKey(lo + hi, key, k) == front + [];
    } else {
      assert KeepKey(lo + [x], key, k) == front + [];
      assert KeepKey(lo + [x] + hi, key, k) == front + back;
    }
  }

  lemma InsertStable<T>(s: seq<T>, key: T -> int, x: T, k: int)
    requires SortedBy(s, key)
    ensures KeepKey(Insert(s, key, x), key, k)
         == KeepKey(s, key, k) + (if key(x) == k then [x] else [])
  {
    var i := UpperBound(s, key, key(x));
    InsertedBelow(s, key, x, i);
    KeepKeySplice(s[..i], x, s[i..], key, k);
    assert s[..i] + s[i..] == s;
  }

  /** Stability: sorting keeps the relative order of the elements that share a key. */
  lemma {:induction false} SortByStable<T>(s: seq<T>, key: T -> int, k: int)
    ensures KeepKey(SortBy(s, key), key, k) == KeepKey(s, key, k)
  {
    if s != [] {
      SortByStable(s[..|s| - 1], key, k);
      InsertStable(SortBy(s[..|s| - 1], key), key, s[|s| - 1], k);
    }
  }
}
