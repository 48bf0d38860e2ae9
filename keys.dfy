/**
 * Tables with a primary key, as the database keeps them: rows in insertion
 * order, at most one row per key, and `INSERT OR REPLACE`, which deletes the
 * row holding the new row's key before adding the new row.
 */
module Keyed {
  import opened Seqs

  /** No two rows share a key. */
  predicate UniqueKeys<T, K(==)>(s: seq<T>, key: T -> K) {
    forall i, j :: 0 <= i < j < |s| ==> key(s[i]) != key(s[j])
  }

  function KeyIs<T, K(==)>(key: T -> K, k: K): T -> bool {
    (x: T) => key(x) == k
  }

  function KeyIsNot<T, K(==)>(key: T -> K, k: K): T -> bool {
    (x: T) => key(x) != k
  }

  // ---------------------------------------------------------------------------
  // The table read as a map from key to row

  /** Each key to its row; when keys repeat, the later row wins. */
  function KeyMap<T, K(==)>(s: seq<T>, key: T -> K): map<K, T> {
    if s == [] then map[] else KeyMap(s[..|s| - 1], key)[key(s[|s| - 1]) := s[|s| - 1]]
  }

  lemma KeyMapSnoc<T, K>(s: seq<T>, key: T -> K, x: T)
    ensures KeyMap(s + [x], key) == KeyMap(s, key)[key(x) := x]
  {
    assert (s + [x])[..|s|] == s;
  }

  /** The map has exactly the keys of the rows, and maps each to a row with that key. */
  lemma {:induction false} KeyMapRows<T, K>(s: seq<T>, key: T -> K, k: K)
    ensures k in KeyMap(s, key) <==> exists i :: 0 <= i < |s| && key(s[i]) == k
    ensures k in KeyMap(s, key) ==> KeyMap(s, key)[k] in s && key(KeyMap(s, key)[k]) == k
  {
    if s != [] {
      var pre := s[..|s| - 1];
      KeyMapRows(pre, key, k);
      assert s == pre + [s[|s| - 1]];
      if k in KeyMap(pre, key) {
        var i :| 0 <= i < |pre| && key(pre[i]) == k;
        assert key(s[i]) == k;
      }
    }
  }

  /** With unique keys, every row is the map's row for its key. */
  lemma {:induction false} KeyMapUnique<T, K>(s: seq<T>, key: T -> K, i: nat)
    requires UniqueKeys(s, key) && i < |s|
    ensures key(s[i]) in KeyMap(s, key) && KeyMap(s, key)[key(s[i])] == s[i]
  {
    var pre := s[..|s| - 1];
    if i < |s| - 1 {
      assert UniqueKeys(pre, key) by {
        forall a, b | 0 <= a < b < |pre| ensures key(pre[a]) != key(pre[b]) {
          assert pre[a] == s[a] && pre[b] == s[b];
        }
      }
      KeyMapUnique(pre, key, i);
      assert pre[i] == s[i];
    }
  }

  /** With unique keys, a row is in the table iff the map holds it under its key. */
  lemma KeyMapHolds<T, K>(s: seq<T>, key: T -> K, x: T)
    requires UniqueKeys(s, key)
    ensures x in s <==> key(x) in KeyMap(s, key) && KeyMap(s, key)[key(x)] == x
  {
    KeyMapRows(s, key, key(x));
    if x in s {
      var i :| 0 <= i < |s| && s[i] == x;
      KeyMapUnique(s, key, i);
    }
  }

  /** Dropping the rows with key `d` drops `d` from the map and nothing else. */
  lemma {:induction false} KeyMapDrop<T, K>(s: seq<T>, key: T -> K, d: K)
    ensures KeyMap(Filter(s, KeyIsNot(key, d)), key) == KeyMap(s, key) - {d}
  {
    if s != [] {
      var pre, x := s[..|s| - 1], s[|s| - 1];
      var f := Filter(pre, KeyIsNot(key, d));
      KeyMapDrop(pre, key, d);
      if key(x) != d {
        assert Filter(s, KeyIsNot(key, d)) == f + [x];
        KeyMapSnoc(f, key, x);
        UpdateRemove(KeyMap(pre, key), key(x), x, d);
      } else {
        assert Filter(s, KeyIsNot(key, d)) == f;
        UpdateRemove(KeyMap(pre, key), key(x), x, d);
      }
    }
  }

  lemma UpdateRemove<K, V>(m: map<K, V>, a: K, v: V, d: K)
    ensures a != d ==> (m - {d})[a := v] == m[a := v] - {d}
    ensures a == d ==> m[a := v] - {d} == m - {d}
  {
  }

  lemma {:induction false} FilterUnique<T, K>(s: seq<T>, key: T -> K, p: T -> bool)
    requires UniqueKeys(s, key)
    ensures UniqueKeys(Filter(s, p), key)
  {
    if s != [] {
      var pre, x := s[..|s| - 1], s[|s| - 1];
      assert UniqueKeys(pre, key) by {
        forall a, b | 0 <= a < b < |pre| ensures key(pre[a]) != key(pre[b]) {
          assert pre[a] == s[a] && pre[b] == s[b];
        }
      }
      FilterUnique(pre, key, p);
      if p(x) {
        var f := Filter(pre, p);
        forall a | 0 <= a < |f| ensures key(f[a]) != key(x) {
          FilterIn(pre, p, f[a]);
          var b :| 0 <= b < |pre| && pre[b] == f[a];
          assert pre[b] == s[b];
        }
      }
    }
  }

  // ---------------------------------------------------------------------------
  // INSERT OR REPLACE

  /** One `INSERT OR REPLACE`: the row holding `x`'s key goes, `x` is appended. */
  function Upsert<T(==), K(==)>(s: seq<T>, key: T -> K, x: T): seq<T> {
    Filter(s, KeyIsNot(key, key(x))) + [x]
  }

  /** An `INSERT OR REPLACE` of every row of `batch`, in order. */
  function UpsertAll<T(==), K(==)>(s: seq<T>, key: T -> K, batch: seq<T>): seq<T> {
    if batch == [] then s else Upsert(UpsertAll(s, key, batch[..|batch| - 1]), key, batch[|batch| - 1])
  }

  /** The map gains the new row under its key and is otherwise unchanged. */
  lemma KeyMapUpsert<T, K>(s: seq<T>, key: T -> K, x: T)
    ensures KeyMap(Upsert(s, key, x), key) == KeyMap(s, key)[key(x) := x]
  {
    KeyMapDrop(s, key, key(x));
    KeyMapSnoc(Filter(s, KeyIsNot(key, key(x))), key, x);
  }

  lemma UpsertUnique<T, K>(s: seq<T>, key: T -> K, x: T)
    requires UniqueKeys(s, key)
    ensures UniqueKeys(Upsert(s, key, x), key)
  {
    var f := Filter(s, KeyIsNot(key, key(x)));
    FilterUnique(s, key, KeyIsNot(key, key(x)));
    assert forall a :: 0 <= a < |f| ==> KeyIsNot(key, key(x))(f[a]);
  }

  /** After the batch, the map holds the batch's rows over the old ones. */
  lemma {:induction false} KeyMapUpsertAll<T, K>(s: seq<T>, key: T -> K, batch: seq<T>)
    ensures KeyMap(UpsertAll(s, key, batch), key) == KeyMap(s, key) + KeyMap(batch, key)
  {
    if batch != [] {
      var pre, x := batch[..|batch| - 1], batch[|batch| - 1];
      KeyMapUpsertAll(s, key, pre);
      KeyMapUpsert(UpsertAll(s, key, pre), key, x);
    }
  }

  lemma {:induction false} UpsertAllUnique<T, K>(s: seq<T>, key: T -> K, batch: seq<T>)
    requires UniqueKeys(s, key)
    ensures UniqueKeys(UpsertAll(s, key, batch), key)
  {
    if batch != [] {
      UpsertAllUnique(s, key, batch[..|batch| - 1]);
      UpsertUnique(UpsertAll(s, key, batch[..|batch| - 1]), key, batch[|batch| - 1]);
    }
  }

  /**
   * A row is in the table after the batch iff it is the batch's row for its
   * key or, when the batch has no row with that key, it was there before.
   */
  lemma {:induction false} UpsertAllIn<T, K>(s: seq<T>, key: T -> K, batch: seq<T>, x: T)
    ensures x in UpsertAll(s, key, batch)
        <==> if key(x) in KeyMap(batch, key) then x == KeyMap(batch, key)[key(x)] else x in s
  {
    if batch != [] {
      var pre, y := batch[..|batch| - 1], batch[|batch| - 1];
      UpsertAllIn(s, key, pre, x);
      FilterIn(UpsertAll(s, key, pre), KeyIsNot(key, key(y)), x);
      assert batch == pre + [y];
      KeyMapSnoc(pre, key, y);
    }
  }
}
