/** Secondary indexes: `DashMap<K, HashSet<V>>` beside a primary map, as the position, order
    and balance stores keep them. */
module Index {

  /** `entry(k).or_insert_with(HashSet::new).insert(v)`. */
  function Add<K, V>(ix: map<K, set<V>>, k: K, v: V): map<K, set<V>> {
    ix[k := (if k in ix then ix[k] else {}) + {v}]
  }

  /** Take `v` out of its set; a set that becomes empty is removed. */
  function Drop<K, V>(ix: map<K, set<V>>, k: K, v: V): map<K, set<V>> {
    if k !in ix then ix
    else if ix[k] - {v} == {} then ix - {k}
    else ix[k := ix[k] - {v}]
  }

  /** The set found under `k`, empty when there is none. */
  function Lookup<K, V>(ix: map<K, set<V>>, k: K): set<V> {
    if k in ix then ix[k] else {}
  }

  /** The index equals a full scan of the rows, and keeps no empty set. */
  ghost predicate Matches<K(!new), V(!new), R>(ix: map<K, set<V>>, rows: map<V, R>, key: R -> K) {
    && (forall k, v :: v in Lookup(ix, k) <==> v in rows && key(rows[v]) == k)
    && (forall k :: k in ix ==> ix[k] != {})
  }

  /** Insert-or-replace keeps the index equal to a scan exactly when it does not move an existing
      row to another key: the old key's set is never cleaned. */
  lemma AddMatchesIff<K(!new), V(!new), R>(ix: map<K, set<V>>, rows: map<V, R>, key: R -> K, v: V, r: R)
    requires Matches(ix, rows, key)
    ensures Matches(Add(ix, key(r), v), rows[v := r], key) <==> (v in rows ==> key(rows[v]) == key(r))
  {
    var ix', rows' := Add(ix, key(r), v), rows[v := r];
    if v in rows && key(rows[v]) != key(r) {
      var k := key(rows[v]);
      assert v in Lookup(ix, k);
      assert !(v in Lookup(ix', k) <==> v in rows' && key(rows'[v]) == k);
    } else {
      forall k, w
        ensures w in Lookup(ix', k) <==> w in rows' && key(rows'[w]) == k
      {
        assert w in Lookup(ix, k) <==> w in rows && key(rows[w]) == k;
      }
      assert forall k :: k in ix' ==> ix'[k] != {};
    }
  }

  lemma DropMatches<K(!new), V(!new), R>(ix: map<K, set<V>>, rows: map<V, R>, key: R -> K, v: V)
    requires Matches(ix, rows, key)
    requires v in rows
    ensures Matches(Drop(ix, key(rows[v]), v), rows - {v}, key)
  {
    var ix', rows' := Drop(ix, key(rows[v]), v), rows - {v};
    assert v in Lookup(ix, key(rows[v]));
    forall k, w
      ensures w in Lookup(ix', k) <==> w in rows' && key(rows'[w]) == k
    {
      assert w in Lookup(ix, k) <==> w in rows && key(rows[w]) == k;
      assert w in Lookup(ix', k) <==> w in Lookup(ix, k) && !(w == v && k == key(rows[v]));
    }
  }

  /** Rewriting a row in place, without changing its key, keeps the index. */
  lemma UpdateMatches<K(!new), V(!new), R>(ix: map<K, set<V>>, rows: map<V, R>, key: R -> K, v: V, r: R)
    requires Matches(ix, rows, key)
    requires v in rows && key(r) == key(rows[v])
    ensures Matches(ix, rows[v := r], key)
  {
    forall k, w
      ensures w in Lookup(ix, k) <==> w in rows[v := r] && key(rows[v := r][w]) == k
    {
      assert w in Lookup(ix, k) <==> w in rows && key(rows[w]) == k;
    }
  }

  /** There is only one index that equals a scan. */
  lemma MatchesUnique<K(!new), V(!new), R>(a: map<K, set<V>>, b: map<K, set<V>>, rows: map<V, R>, key: R -> K)
    requires Matches(a, rows, key) && Matches(b, rows, key)
    ensures a == b
  {
    forall k
      ensures Lookup(a, k) == Lookup(b, k)
    {
      forall v ensures v in Lookup(a, k) <==> v in Lookup(b, k) {
        assert v in Lookup(a, k) <==> v in rows && key(rows[v]) == k;
        assert v in Lookup(b, k) <==> v in rows && key(rows[v]) == k;
      }
    }
    assert forall k :: k in a <==> Lookup(a, k) != {};
    assert forall k :: k in b <==> Lookup(b, k) != {};
    forall k | k in a
      ensures k in b && a[k] == b[k]
    {
      assert Lookup(a, k) == Lookup(b, k);
    }
    forall k | k in b
      ensures k in a
    {
      assert Lookup(a, k) == Lookup(b, k);
    }
    assert a.Keys == b.Keys;
  }
}
