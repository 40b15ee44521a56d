/** Sums over finite maps, sorted key lists and map enumerations: the vocabulary in which
    the stores' aggregates are compared with plain scans. */
module Collections {

  datatype Option<+T> = None | Some(value: T)

  function Max(a: int, b: int): int {
    if a < b then b else a
  }

  /** If a property survives step `k` exactly when the guard holds there, then it holds throughout
      exactly when every guard holds. */
  lemma {:induction false} ThroughoutIff(holds: nat -> bool, guard: nat -> bool, n: nat)
    requires holds(0)
    requires forall k: nat :: k < n && holds(k) ==> (holds(k + 1) <==> guard(k))
    ensures (forall k: nat :: k <= n ==> holds(k)) <==> (forall k: nat :: k < n ==> guard(k))
  {
    if n > 0 {
      ThroughoutIff(holds, guard, n - 1);
      if forall k: nat :: k <= n - 1 ==> holds(k) {
        assert holds(n - 1 + 1) <==> guard(n - 1);
      }
    }
  }

  /* ---------- sums over finite maps ---------- */

  /** The sum of all values of a finite map. */
  ghost function MapSum<K(!new)>(m: map<K, int>): int {
    if m == map[] then 0 else var k :| k in m; m[k] + MapSum(m - {k})
  }

  /** The sum does not depend on which key is taken out first. */
  lemma {:induction false} MapSumRemove<K(!new)>(m: map<K, int>, k: K)
    requires k in m
    ensures MapSum(m) == m[k] + MapSum(m - {k})
    decreases |m|
  {
    var j :| j in m && MapSum(m) == m[j] + MapSum(m - {j});
    if j != k {
      MapSumRemove(m - {j}, k);
      MapSumRemove(m - {k}, j);
      assert m - {j} - {k} == m - {k} - {j};
    }
  }

  /** Writing one key moves the sum by the difference of the values. */
  lemma MapSumUpdate<K(!new)>(m: map<K, int>, k: K, v: int)
    ensures MapSum(m[k := v]) == MapSum(m) + v - (if k in m then m[k] else 0)
  {
    MapSumRemove(m[k := v], k);
    assert m[k := v] - {k} == m - {k};
    if k in m {
      MapSumRemove(m, k);
    } else {
      assert m - {k} == m;
    }
  }

  /** The part of `m` whose keys fall in class `c`. */
  ghost function Class<K(!new), C(!new)>(m: map<K, int>, cls: K -> C, c: C): map<K, int> {
    map k | k in m && cls(k) == c :: m[k]
  }

  /** The class sums, indexed by class. */
  ghost function ClassSums<K(!new), C(!new)>(m: map<K, int>, cls: K -> C, cs: set<C>): map<C, int> {
    map c | c in cs :: MapSum(Class(m, cls, c))
  }

  /** Taking one entry out lowers its own class sum and no other. */
  lemma ClassSumsRemove<K(!new), C(!new)>(m: map<K, int>, cls: K -> C, cs: set<C>, k: K)
    requires k in m && cls(k) in cs
    ensures MapSum(ClassSums(m, cls, cs)) == MapSum(ClassSums(m - {k}, cls, cs)) + m[k]
  {
    var c, rest := cls(k), m - {k};
    var before, after := ClassSums(rest, cls, cs), ClassSums(m, cls, cs);
    assert Class(m, cls, c) - {k} == Class(rest, cls, c);
    MapSumRemove(Class(m, cls, c), k);
    forall d | d in cs && d != c
      ensures after[d] == before[d]
    {
      assert Class(m, cls, d) == Class(rest, cls, d);
    }
    assert after == before[c := after[c]];
    MapSumUpdate(before, c, after[c]);
  }

  /** Summing class by class is summing once: no entry is counted twice or missed. */
  lemma {:induction false} SumByClass<K(!new), C(!new)>(m: map<K, int>, cls: K -> C, cs: set<C>)
    requires forall k :: k in m ==> cls(k) in cs
    ensures MapSum(ClassSums(m, cls, cs)) == MapSum(m)
    decreases |m|
  {
    if m == map[] {
      forall c | c in cs
        ensures ClassSums(m, cls, cs)[c] == 0
      {
        assert Class(m, cls, c) == map[];
      }
      AllZero(ClassSums(m, cls, cs));
    } else {
      var k :| k in m;
      SumByClass(m - {k}, cls, cs);
      MapSumRemove(m, k);
      ClassSumsRemove(m, cls, cs, k);
    }
  }

  lemma {:induction false} AllZero<K(!new)>(m: map<K, int>)
    requires forall k :: k in m ==> m[k] == 0
    ensures MapSum(m) == 0
    decreases |m|
  {
    if m != map[] {
      var k :| k in m;
      AllZero(m - {k});
      MapSumRemove(m, k);
    }
  }

  function Elems<T>(q: seq<T>): set<T> {
    set x | x in q
  }

  lemma {:induction false} ElemsCount<T>(q: seq<T>)
    requires forall i, j :: 0 <= i < j < |q| ==> q[i] != q[j]
    ensures |Elems(q)| == |q|
  {
    if q != [] {
      ElemsCount(q[1..]);
      assert q[0] !in q[1..];
      assert Elems(q) == Elems(q[1..]) + {q[0]};
    }
  }

  ghost function Sizes<K, T>(m: map<K, set<T>>): map<K, int> {
    map k | k in m :: |m[k]|
  }

  /** The sizes of pairwise disjoint sets add up to the size of their union. */
  lemma {:induction false} DisjointSizes<K(!new), T(!new)>(m: map<K, set<T>>, union: set<T>)
    requires forall j, k :: j in m && k in m && j != k ==> m[j] !! m[k]
    requires forall k :: k in m ==> m[k] <= union
    requires forall x :: x in union ==> exists k :: k in m && x in m[k]
    ensures MapSum(Sizes(m)) == |union|
    decreases |m|
  {
    if m == map[] {
      assert Sizes(m) == map[] && union == {};
    } else {
      var k :| k in m;
      forall x | x in union - m[k]
        ensures exists j :: j in m - {k} && x in (m - {k})[j]
      {
        var j :| j in m && x in m[j];
        assert j in m - {k};
      }
      DisjointSizes(m - {k}, union - m[k]);
      assert Sizes(m) - {k} == Sizes(m - {k});
      MapSumRemove(Sizes(m), k);
    }
  }

  /** Two sets that differ at most in `x`. */
  lemma SizeChange<T>(a: set<T>, b: set<T>, x: T)
    requires a - {x} == b - {x}
    ensures |b| == |a| + (if x in b then 1 else 0) - (if x in a then 1 else 0)
  {
    assert a == (a - {x}) + (if x in a then {x} else {});
    assert b == (b - {x}) + (if x in b then {x} else {});
  }

  /** A list cut at `n` and split twice: once behind `pre`, once behind the shorter `a`. */
  lemma SplitTwice<T>(all: seq<T>, pre: seq<T>, n: nat, a: seq<T>, b: seq<T>)
    requires pre <= all && |a| <= |pre| <= n <= |all| && all[..n] == a + b
    ensures all[..n] == pre + all[|pre|..n] && b == pre[|a|..] + all[|pre|..n]
  {
    assert all[..n] == pre + all[|pre|..n];
    assert b == (a + b)[|a|..] == (pre + all[|pre|..n])[|a|..];
  }

  lemma Associative<T>(a: seq<T>, b: seq<T>, c: seq<T>)
    ensures a + (b + c) == (a + b) + c
  {
  }

  lemma MovedOver<T>(a: seq<T>, x: T, b: seq<T>)
    ensures a + ([x] + b) == (a + [x]) + b
  {
  }

  /** Putting the first element back in front. */
  lemma Prepended<T>(x: seq<T>, y: seq<T>, es: seq<T>, more: seq<T>)
    requires es != [] && x == [es[0]] + y && y == es[1..] + more
    ensures x == es + more
  {
  }

  /* ---------- sorted key lists ---------- */

  ghost function Pick<T>(s: set<T>): (x: T)
    requires s != {}
    ensures x in s
  {
    var x :| x in s; x
  }

  /** A nonempty finite set of integers has a greatest element. */
  lemma {:induction false} HasGreatest(s: set<int>)
    requires s != {}
    ensures exists x :: x in s && forall y :: y in s ==> y <= x
  {
    var x := Pick(s);
    var rest := s - {x};
    if rest == {} {
      assert forall y :: y in s ==> y == x || y in rest;
    } else {
      HasGreatest(rest);
      var g :| g in rest && forall y :: y in rest ==> y <= g;
      var best := if g < x then x else g;
      assert forall y :: y in s ==> y == x || y in rest;
      assert best in s;
    }
  }

  function Greatest(s: set<int>): (g: int)
    requires s != {}
    ensures g in s && forall y :: y in s ==> y <= g
  {
    HasGreatest(s);
    var x :| x in s && forall y :: y in s ==> y <= x;
    x
  }

  predicate StrictlyAscending(q: seq<int>) {
    forall i, j :: 0 <= i < j < |q| ==> q[i] < q[j]
  }

  /** The elements of a set in ascending order: what iterating a BTreeMap's keys yields. */
  function Ascending(s: set<int>): (q: seq<int>)
    ensures StrictlyAscending(q)
    ensures forall x :: x in q <==> x in s
    ensures |q| == |s|
  {
    if s == {} then [] else Ascending(s - {Greatest(s)}) + [Greatest(s)]
  }

  function Reverse<T>(q: seq<T>): (r: seq<T>)
    ensures |r| == |q|
    ensures forall i :: 0 <= i < |q| ==> r[i] == q[|q| - 1 - i]
  {
    seq(|q|, i requires 0 <= i < |q| => q[|q| - 1 - i])
  }

  /* ---------- concatenation in key order ---------- */

  /** The sequences of `m` one after the other, in ascending order of their keys. */
  function InKeyOrder<T>(m: map<int, seq<T>>): seq<T>
    decreases |m|
  {
    if m.Keys == {} then []
    else InKeyOrder(m - {Greatest(m.Keys)}) + m[Greatest(m.Keys)]
  }

  lemma LastInKeyOrder<T>(m: map<int, seq<T>>, g: int)
    requires g in m && forall k :: k in m ==> k <= g
    ensures InKeyOrder(m) == InKeyOrder(m - {g}) + m[g]
  {
    assert g in m.Keys;
    assert Greatest(m.Keys) == g;
  }

  function Below<T>(m: map<int, T>, cut: int): map<int, T> {
    map k | k in m && k < cut :: m[k]
  }

  function From<T>(m: map<int, T>, cut: int): map<int, T> {
    map k | k in m && k >= cut :: m[k]
  }

  /** Cutting the keys in two cuts the concatenation in two. */
  lemma {:induction false} KeyOrderSplits<T>(m: map<int, seq<T>>, cut: int)
    ensures InKeyOrder(m) == InKeyOrder(Below(m, cut)) + InKeyOrder(From(m, cut))
    decreases |m|
  {
    if m.Keys == {} {
      assert Below(m, cut) == m && From(m, cut) == m;
    } else {
      var g := Greatest(m.Keys);
      var rest := m - {g};
      if g >= cut {
        KeyOrderSplits(rest, cut);
        LastInKeyOrder(m, g);
        LastInKeyOrder(From(m, cut), g);
        assert From(m, cut) - {g} == From(rest, cut) && Below(m, cut) == Below(rest, cut);
      } else {
        assert From(m, cut) == map[];
        assert Below(m, cut) == m;
      }
    }
  }

  /** Concatenation along a list of keys. */
  function Along<T>(m: map<int, seq<T>>, keys: seq<int>): seq<T>
    requires forall i :: 0 <= i < |keys| ==> keys[i] in m
  {
    if keys == [] then [] else Along(m, keys[..|keys| - 1]) + m[keys[|keys| - 1]]
  }

  lemma AlongStep<T>(m: map<int, seq<T>>, keys: seq<int>, i: nat)
    requires i < |keys| && forall j :: 0 <= j < |keys| ==> keys[j] in m
    ensures Along(m, keys[..i + 1]) == Along(m, keys[..i]) + m[keys[i]]
  {
    assert keys[..i + 1][..i] == keys[..i];
  }

  lemma {:induction false} AlongSame<T>(a: map<int, seq<T>>, b: map<int, seq<T>>, keys: seq<int>)
    requires forall i :: 0 <= i < |keys| ==> keys[i] in a && keys[i] in b && a[keys[i]] == b[keys[i]]
    ensures Along(a, keys) == Along(b, keys)
  {
    if keys != [] {
      AlongSame(a, b, keys[..|keys| - 1]);
    }
  }

  /** `keys` lists exactly the elements of `s`, in ascending order. */
  ghost predicate Sorts(keys: seq<int>, s: set<int>) {
    && StrictlyAscending(keys)
    && (forall i :: 0 <= i < |keys| ==> keys[i] in s)
    && (forall k :: k in s ==> k in keys)
  }

  lemma SortsFront(keys: seq<int>, s: set<int>)
    requires keys != [] && Sorts(keys, s)
    ensures Sorts(keys[..|keys| - 1], s - {keys[|keys| - 1]})
    ensures keys[|keys| - 1] in s && forall k :: k in s ==> k <= keys[|keys| - 1]
  {
    var g, front := keys[|keys| - 1], keys[..|keys| - 1];
    forall k | k in s && k != g
      ensures k in front && k <= g
    {
      var i :| 0 <= i < |keys| && keys[i] == k;
      assert front[i] == k;
    }
  }

  lemma SortsAscending(s: set<int>)
    ensures Sorts(Ascending(s), s)
  {
    hide Ascending;
    var keys := Ascending(s);
    forall i | 0 <= i < |keys|
      ensures keys[i] in s
    {
      assert keys[i] in keys;
    }
  }

  /** Following a sorted list of the keys is concatenating in key order. */
  lemma {:induction false} AlongSorted<T>(m: map<int, seq<T>>, keys: seq<int>)
    requires Sorts(keys, m.Keys)
    ensures Along(m, keys) == InKeyOrder(m)
    decreases |keys|
  {
    if keys == [] {
      assert m.Keys != {} ==> Greatest(m.Keys) in keys;
    } else {
      hide InKeyOrder;
      var g, front := keys[|keys| - 1], keys[..|keys| - 1];
      var rest := m - {g};
      SortsFront(keys, m.Keys);
      assert rest.Keys == m.Keys - {g};
      AlongSorted(rest, front);
      AlongSame(m, rest, front);
      LastInKeyOrder(m, g);
    }
  }

  lemma AlongAscending<T>(m: map<int, seq<T>>)
    ensures var keys := Ascending(m.Keys);
            (forall i :: 0 <= i < |keys| ==> keys[i] in m) && Along(m, keys) == InKeyOrder(m)
  {
    hide Ascending, InKeyOrder, Along;
    SortsAscending(m.Keys);
    AlongSorted(m, Ascending(m.Keys));
  }

  /* ---------- enumerating a hash map ---------- */

  /** Every row is stored under its own key. */
  ghost predicate Keyed<K, V>(m: map<K, V>, key: V -> K) {
    forall k :: k in m ==> key(m[k]) == k
  }

  /** `rows` lists each value of `m` exactly once, in some order. */
  ghost predicate Enumerates<K, V>(rows: seq<V>, m: map<K, V>, key: V -> K) {
    && (forall i :: 0 <= i < |rows| ==> key(rows[i]) in m && m[key(rows[i])] == rows[i])
    && DistinctKeys(rows, key)
    && (forall k :: k in m ==> m[k] in rows)
  }

  ghost predicate DistinctKeys<K, V>(rows: seq<V>, key: V -> K) {
    forall i, j :: 0 <= i < j < |rows| ==> key(rows[i]) != key(rows[j])
  }

  /** Filling an empty map with rows, each under its own key. */
  function Collect<K, V>(rows: seq<V>, key: V -> K): map<K, V> {
    if rows == [] then map[]
    else Collect(rows[..|rows| - 1], key)[key(rows[|rows| - 1]) := rows[|rows| - 1]]
  }

  lemma {:induction false} CollectRows<K, V>(rows: seq<V>, key: V -> K)
    requires DistinctKeys(rows, key)
    ensures forall i :: 0 <= i < |rows| ==>
              key(rows[i]) in Collect(rows, key) && Collect(rows, key)[key(rows[i])] == rows[i]
    ensures forall k :: k in Collect(rows, key) ==> exists i :: 0 <= i < |rows| && key(rows[i]) == k
  {
    if rows != [] {
      var init := rows[..|rows| - 1];
      CollectRows(init, key);
      assert forall i :: 0 <= i < |init| ==> rows[i] == init[i];
      forall k | k in Collect(rows, key)
        ensures exists i :: 0 <= i < |rows| && key(rows[i]) == k
      {
        if k in Collect(init, key) {
          var i :| 0 <= i < |init| && key(init[i]) == k;
          assert key(rows[i]) == k;
        } else {
          assert key(rows[|rows| - 1]) == k;
        }
      }
    }
  }

  /** Listing a map in any order and collecting the rows again gives the map back. */
  lemma CollectEnumerated<K, V>(rows: seq<V>, m: map<K, V>, key: V -> K)
    requires Keyed(m, key) && Enumerates(rows, m, key)
    ensures DistinctKeys(rows, key)
    ensures Collect(rows, key) == m
  {
    CollectRows(rows, key);
    var c := Collect(rows, key);
    forall k | k in m
      ensures k in c && c[k] == m[k]
    {
      var i :| 0 <= i < |rows| && rows[i] == m[k];
      assert key(rows[i]) in c;
    }
    forall k | k in c
      ensures k in m
    {
      var i :| 0 <= i < |rows| && key(rows[i]) == k;
      assert key(rows[i]) in m;
    }
    assert c.Keys == m.Keys;
  }

  /** Collecting a hash map's values (`iter().map(clone).collect()`): any iteration order. */
  method Values<K, V(==)>(m: map<K, V>, ghost key: V -> K) returns (rows: seq<V>)
    requires Keyed(m, key)
    ensures Enumerates(rows, m, key)
  {
    rows := [];
    var todo := m.Keys;
    while todo != {}
      invariant todo <= m.Keys
      invariant forall i :: 0 <= i < |rows| ==> key(rows[i]) in m.Keys - todo && m[key(rows[i])] == rows[i]
      invariant DistinctKeys(rows, key)
      invariant forall k :: k in m.Keys - todo ==> m[k] in rows
      decreases |todo|
    {
      var k :| k in todo;
      rows := rows + [m[k]];
      todo := todo - {k};
    }
  }
}
