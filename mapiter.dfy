/** Walking an eBPF hash map with its iterator and
    appending a row for every entry that passes a test: the entries are seen
    in an order the kernel chooses, each key once. The rows such a loop
    builds are `Rows` of the entries seen so far; the lemmas here say what
    those rows are once every key has been seen, whatever the order. */
module MapIter {
  import opened Ranking

  /** The keys of a sequence of entries. */
  function KeysOf<K, V>(entries: seq<(K, V)>): (keys: set<K>)
    ensures forall i :: 0 <= i < |entries| ==> entries[i].0 in keys
    ensures forall k :: k in keys ==> exists i :: 0 <= i < |entries| && entries[i].0 == k
    decreases |entries|
  {
    if entries == [] then {}
    else
      var n := |entries| - 1;
      var prev := KeysOf(entries[..n]);
      assert forall i :: 0 <= i < n ==> entries[..n][i] == entries[i];
      prev + {entries[n].0}
  }

  /** `entries` were read from `m`, each key once. */
  predicate Visits<K, V(==)>(entries: seq<(K, V)>, m: map<K, V>)
  {
    && (forall i :: 0 <= i < |entries| ==> entries[i].0 in m && m[entries[i].0] == entries[i].1)
    && (forall i, j :: 0 <= i < j < |entries| ==> entries[i].0 != entries[j].0)
  }

  /** The rows appended for `entries`, in the order they were seen: one
      `row(k, v)` for each entry with `keep(k, v)`. */
  function Rows<K, V, R>(entries: seq<(K, V)>, keep: (K, V) -> bool, row: (K, V) -> R): seq<R>
    decreases |entries|
  {
    if entries == [] then []
    else
      var n := |entries| - 1;
      Rows(entries[..n], keep, row) + (if keep(entries[n].0, entries[n].1) then [row(entries[n].0, entries[n].1)] else [])
  }

  /** The keys among `keys` whose entry in `m` passes `keep`. */
  function Kept<K, V>(m: map<K, V>, keys: set<K>, keep: (K, V) -> bool): set<K>
  {
    set k | k in keys && k in m && keep(k, m[k])
  }

  /** Appending the next entry to the ones seen. */
  lemma RowsSnoc<K, V, R>(entries: seq<(K, V)>, e: (K, V), keep: (K, V) -> bool, row: (K, V) -> R)
    ensures Rows(entries + [e], keep, row) == Rows(entries, keep, row) + (if keep(e.0, e.1) then [row(e.0, e.1)] else [])
  {
    assert (entries + [e])[..|entries|] == entries;
  }

  /** Seeing one more key of `m`, not seen before, keeps `Visits`. */
  lemma VisitsSnoc<K, V>(entries: seq<(K, V)>, m: map<K, V>, k: K)
    requires Visits(entries, m) && k in m && k !in KeysOf(entries)
    ensures Visits(entries + [(k, m[k])], m)
    ensures KeysOf(entries + [(k, m[k])]) == KeysOf(entries) + {k}
  {
    assert (entries + [(k, m[k])])[..|entries|] == entries;
  }

  /** In a visit, the last key was not among the keys seen before it. */
  lemma LastKeyNew<K, V>(entries: seq<(K, V)>, m: map<K, V>)
    requires Visits(entries, m) && entries != []
    ensures entries[|entries| - 1].0 !in KeysOf(entries[..|entries| - 1])
  {
    var n := |entries| - 1;
    assert forall i :: 0 <= i < n ==> entries[..n][i].0 != entries[n].0;
  }

  /** Every row is the row of a seen entry of `m` that passes the test. */
  lemma {:induction false} RowsSound<K, V, R>(entries: seq<(K, V)>, m: map<K, V>, keep: (K, V) -> bool, row: (K, V) -> R, keyOf: R -> K)
    requires Visits(entries, m)
    requires forall k, v :: keyOf(row(k, v)) == k
    ensures forall x :: x in Rows(entries, keep, row) ==>
              keyOf(x) in Kept(m, KeysOf(entries), keep) && x == row(keyOf(x), m[keyOf(x)])
    decreases |entries|
  {
    if entries != [] {
      var n := |entries| - 1;
      assert Visits(entries[..n], m);
      RowsSound(entries[..n], m, keep, row, keyOf);
    }
  }

  /** Every seen entry that passes the test has its row. */
  lemma {:induction false} RowsComplete<K, V, R>(entries: seq<(K, V)>, m: map<K, V>, keep: (K, V) -> bool, row: (K, V) -> R)
    requires Visits(entries, m)
    ensures forall k :: k in Kept(m, KeysOf(entries), keep) ==> row(k, m[k]) in Rows(entries, keep, row)
    decreases |entries|
  {
    if entries != [] {
      var n := |entries| - 1;
      assert Visits(entries[..n], m);
      RowsComplete(entries[..n], m, keep, row);
    }
  }

  /** Rows of different keys differ, so the rows of a visit are distinct. */
  lemma {:induction false} RowsDistinct<K, V, R>(entries: seq<(K, V)>, m: map<K, V>, keep: (K, V) -> bool, row: (K, V) -> R, keyOf: R -> K)
    requires Visits(entries, m)
    requires forall k, v :: keyOf(row(k, v)) == k
    ensures Distinct(Rows(entries, keep, row))
    decreases |entries|
  {
    if entries != [] {
      var n := |entries| - 1;
      var prev := entries[..n];
      assert Visits(prev, m);
      RowsDistinct(prev, m, keep, row, keyOf);
      RowsSound(prev, m, keep, row, keyOf);
      LastKeyNew(entries, m);
    }
  }

  /** Adding a key not seen before adds it to the kept keys exactly when its entry passes. */
  lemma KeptAdd<K, V>(m: map<K, V>, keys: set<K>, k: K, keep: (K, V) -> bool)
    requires k !in keys && k in m
    ensures Kept(m, keys + {k}, keep) == if keep(k, m[k]) then Kept(m, keys, keep) + {k} else Kept(m, keys, keep)
    ensures k !in Kept(m, keys, keep)
  {
  }

  /** There are as many rows as seen keys that pass the test. */
  lemma {:induction false} RowsCount<K, V, R>(entries: seq<(K, V)>, m: map<K, V>, keep: (K, V) -> bool, row: (K, V) -> R)
    requires Visits(entries, m)
    ensures |Rows(entries, keep, row)| == |Kept(m, KeysOf(entries), keep)|
    decreases |entries|
  {
    if entries != [] {
      var n := |entries| - 1;
      VisitsPrefix(entries, m);
      RowsCount(entries[..n], m, keep, row);
      KeptSnoc(entries, m, keep);
    }
  }

  lemma VisitsPrefix<K, V>(entries: seq<(K, V)>, m: map<K, V>)
    requires Visits(entries, m) && entries != []
    ensures Visits(entries[..|entries| - 1], m)
    ensures entries[|entries| - 1].0 in m && entries[|entries| - 1].1 == m[entries[|entries| - 1].0]
  {
    assert forall i :: 0 <= i < |entries| - 1 ==> entries[..|entries| - 1][i] == entries[i];
  }

  /** One more visited entry adds one kept key exactly when it passes. */
  lemma KeptSnoc<K, V>(entries: seq<(K, V)>, m: map<K, V>, keep: (K, V) -> bool)
    requires Visits(entries, m) && entries != []
    ensures var n := |entries| - 1;
            |Kept(m, KeysOf(entries), keep)|
            == |Kept(m, KeysOf(entries[..n]), keep)| + if keep(entries[n].0, entries[n].1) then 1 else 0
  {
    var n := |entries| - 1;
    var k := entries[n].0;
    var prev := entries[..n];
    assert entries[n].1 == m[k];
    LastKeyNew(entries, m);
    var kept := Kept(m, KeysOf(prev), keep);
    KeptAdd(m, KeysOf(prev), k, keep);
    assert KeysOf(entries) == KeysOf(prev) + {k};
    if keep(k, m[k]) {
      assert |kept + {k}| == |kept| + 1;
    }
  }

  /** `rows` lists the entries of `m` that pass `keep`, as `row` shows them, each
      once and in some order. */
  predicate Lists<K, V, R(==)>(rows: seq<R>, m: map<K, V>, keep: (K, V) -> bool, row: (K, V) -> R, keyOf: R -> K)
  {
    && (forall x :: x in rows ==> keyOf(x) in Kept(m, m.Keys, keep) && x == row(keyOf(x), m[keyOf(x)]))
    && (forall k :: k in Kept(m, m.Keys, keep) ==> row(k, m[k]) in rows)
    && Distinct(rows)
    && |rows| == |Kept(m, m.Keys, keep)|
  }

  /** Once every key of `m` has been seen, in whatever order, the rows list
      the entries that pass the test. */
  lemma RowsOfFullVisit<K, V, R>(entries: seq<(K, V)>, m: map<K, V>, keep: (K, V) -> bool, row: (K, V) -> R, keyOf: R -> K)
    requires Visits(entries, m) && KeysOf(entries) == m.Keys
    requires forall k, v :: keyOf(row(k, v)) == k
    ensures Lists(Rows(entries, keep, row), m, keep, row, keyOf)
  {
    RowsSound(entries, m, keep, row, keyOf);
    RowsComplete(entries, m, keep, row);
    RowsDistinct(entries, m, keep, row, keyOf);
    RowsCount(entries, m, keep, row);
  }

  /** `top` is a top-`limit` selection of the entries of `m` that pass `keep`:
      their rows, one per key, ordered by `key`, as many as the limit allows, and
      no such entry left out whose row would come before a row shown. */
  predicate TopOf<K, V, R(==)>(top: seq<R>, m: map<K, V>, keep: (K, V) -> bool, row: (K, V) -> R, keyOf: R -> K, key: R -> Rank, limit: int)
  {
    && (forall x :: x in top ==> keyOf(x) in Kept(m, m.Keys, keep) && x == row(keyOf(x), m[keyOf(x)]))
    && (forall i, j :: 0 <= i < j < |top| ==> keyOf(top[i]) != keyOf(top[j]))
    && SortedBy(top, key)
    && |top| == Capped(|Kept(m, m.Keys, keep)|, limit)
    && (forall k :: k in Kept(m, m.Keys, keep) && row(k, m[k]) !in top ==>
          forall y :: y in top ==> !Before(key(row(k, m[k])), key(y)))
  }

  /** Sorting and truncating a listing gives a top-`limit` selection. */
  lemma TopOfLists<K, V, R(!new)>(rows: seq<R>, m: map<K, V>, keep: (K, V) -> bool, row: (K, V) -> R, keyOf: R -> K, key: R -> Rank, limit: int)
    requires Lists(rows, m, keep, row, keyOf)
    ensures TopOf(TopBy(rows, key, limit), m, keep, row, keyOf, key, limit)
  {
    var top := TopBy(rows, key, limit);
    InMultisetSubset(top, rows);
    forall i, j | 0 <= i < j < |top|
      ensures keyOf(top[i]) != keyOf(top[j])
    {
      assert top[i] in rows && top[j] in rows;
    }
  }

  /** What a sub-multiset holds, the larger one holds. */
  lemma InMultisetSubset<T>(a: seq<T>, b: seq<T>)
    requires multiset(a) <= multiset(b)
    ensures forall x :: x in a ==> x in b
  {
    forall x | x in a
      ensures x in b
    {
      assert x in multiset(a);
    }
  }
}
