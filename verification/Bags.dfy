/** The values of a finite map, with multiplicity. */
module Bags {

  function Drop<K, V>(m: map<K, V>, k: K): (r: map<K, V>)
    ensures k in m ==> |r.Keys| < |m.Keys|
  {
    var r := map j | j in m && j != k :: m[j];
    assert k in m ==> m.Keys == r.Keys + {k};
    r
  }

  ghost function Bag<K, V>(m: map<K, V>): multiset<V>
    decreases |m.Keys|
  {
    if |m.Keys| == 0 then multiset{}
    else
      var k :| k in m;
      Bag(Drop(m, k)) + multiset{m[k]}
  }

  lemma DropTwice<K, V>(m: map<K, V>, j: K, k: K)
    ensures Drop(Drop(m, j), k) == Drop(Drop(m, k), j)
  {
  }

  lemma {:induction false} BagRemove<K, V>(m: map<K, V>, k: K)
    requires k in m
    ensures Bag(m) == Bag(Drop(m, k)) + multiset{m[k]}
    decreases |m.Keys|
  {
    var j :| j in m && Bag(m) == Bag(Drop(m, j)) + multiset{m[j]};
    if j != k {
      BagRemove(Drop(m, j), k);
      BagRemove(Drop(m, k), j);
      DropTwice(m, j, k);
    }
  }

  lemma BagAdd<K, V>(m: map<K, V>, k: K, v: V)
    requires k !in m
    ensures Bag(m[k := v]) == Bag(m) + multiset{v}
  {
    BagRemove(m[k := v], k);
    assert Drop(m[k := v], k) == m;
  }

  function Restrict<K, V>(m: map<K, V>, keys: set<K>): map<K, V> {
    map k | k in m && k in keys :: m[k]
  }

  function Without<K, V>(m: map<K, V>, keys: set<K>): map<K, V> {
    map k | k in m && k !in keys :: m[k]
  }

  lemma MoveKey<K, V>(m: map<K, V>, keys: set<K>, k: K)
    requires k !in keys
    ensures Without(m, keys + {k}) == Drop(Without(m, keys), k)
    ensures Restrict(m, keys + {k}) == if k in m then Restrict(m, keys)[k := m[k]] else Restrict(m, keys)
    ensures k !in m ==> Drop(Without(m, keys), k) == Without(m, keys)
  {
  }

  lemma BagMove<K, V>(m: map<K, V>, keys: set<K>, k: K)
    requires k !in keys
    ensures Bag(Without(m, keys)) + Bag(Restrict(m, keys))
         == Bag(Without(m, keys + {k})) + Bag(Restrict(m, keys + {k}))
  {
    MoveKey(m, keys, k);
    if k in m {
      BagRemove(Without(m, keys), k);
      BagAdd(Restrict(m, keys), k, m[k]);
    }
  }

  /** The values split along any set of keys. */
  lemma {:induction false} BagSplit<K, V>(m: map<K, V>, keys: set<K>)
    ensures Bag(m) == Bag(Without(m, keys)) + Bag(Restrict(m, keys))
    decreases |keys|
  {
    if keys == {} {
      assert Without(m, keys) == m;
      assert |Restrict(m, keys).Keys| == 0;
    } else {
      var k :| k in keys;
      BagSplit(m, keys - {k});
      BagMove(m, keys - {k}, k);
      assert keys - {k} + {k} == keys;
    }
  }

  lemma BagSubset<K, V>(a: map<K, V>, b: map<K, V>)
    requires forall k :: k in a ==> k in b && b[k] == a[k]
    ensures Bag(a) <= Bag(b)
  {
    BagSplit(b, a.Keys);
    assert Restrict(b, a.Keys) == a;
  }

  ghost function Holders<K, V>(m: map<K, V>, v: V): set<K> {
    set k | k in m && m[k] == v
  }

  lemma HoldersDrop<K, V>(m: map<K, V>, k: K, v: V)
    requires k in m
    ensures |Holders(m, v)| == |Holders(Drop(m, k), v)| + (if m[k] == v then 1 else 0)
  {
    var rest := Holders(Drop(m, k), v);
    if m[k] == v {
      assert Holders(m, v) == rest + {k};
    } else {
      assert Holders(m, v) == rest;
    }
  }

  /** A value occurs once for each key that holds it. */
  lemma {:induction false} BagCounts<K, V>(m: map<K, V>, v: V)
    ensures Bag(m)[v] == |Holders(m, v)|
    decreases |m.Keys|
  {
    if |m.Keys| == 0 {
      assert Holders(m, v) == {};
    } else {
      var k :| k in m;
      BagRemove(m, k);
      BagCounts(Drop(m, k), v);
      HoldersDrop(m, k, v);
    }
  }
}
