/** Python dictionaries keep insertion order, and the modelled code depends
    on it (plugins load in configuration order, eviction ties break by
    insertion order, `list_all` lists in registration order). A dictionary
    is modelled as a sequence of key/value pairs with distinct keys. */
module ODict {
  import opened Wrappers

  type Dict<K, V> = seq<(K, V)>

  function Keys<K, V>(d: Dict<K, V>): (ks: set<K>)
    ensures forall i :: 0 <= i < |d| ==> d[i].0 in ks
    ensures forall k :: k in ks ==> exists i :: 0 <= i < |d| && d[i].0 == k
  {
    if |d| == 0 then {} else {d[0].0} + Keys(d[1..])
  }

  /** The keys in insertion order. */
  function KeySeq<K, V>(d: Dict<K, V>): (ks: seq<K>)
    ensures |ks| == |d|
    ensures forall i :: 0 <= i < |d| ==> ks[i] == d[i].0
  {
    if |d| == 0 then [] else [d[0].0] + KeySeq(d[1..])
  }

  /** The values in insertion order. */
  function Values<K, V>(d: Dict<K, V>): (vs: seq<V>)
    ensures |vs| == |d|
    ensures forall i :: 0 <= i < |d| ==> vs[i] == d[i].1
  {
    if |d| == 0 then [] else [d[0].1] + Values(d[1..])
  }

  predicate UniqueKeys<K(==), V>(d: Dict<K, V>) {
    forall i, j :: 0 <= i < j < |d| ==> d[i].0 != d[j].0
  }

  /** `d.get(k)` */
  function Get<K(==), V>(d: Dict<K, V>, k: K): (r: Option<V>)
    ensures r.Some? <==> k in Keys(d)
    ensures r.Some? ==> (k, r.value) in d
  {
    if |d| == 0 then None
    else if d[0].0 == k then Some(d[0].1)
    else Get(d[1..], k)
  }

  /** In a dictionary with distinct keys, `get` finds exactly the stored
      pairs. */
  lemma {:induction false} GetStored<K, V>(d: Dict<K, V>, k: K, v: V)
    requires UniqueKeys(d)
    ensures Get(d, k) == Some(v) <==> (k, v) in d
  {
    if |d| > 0 {
      assert UniqueKeys(d[1..]);
      GetStored(d[1..], k, v);
      if d[0].0 != k {
        assert (k, v) in d ==> (k, v) in d[1..] by {
          if (k, v) in d {
            var i :| 0 <= i < |d| && d[i] == (k, v);
            assert i > 0 && d[1..][i - 1] == (k, v);
          }
        }
      } else if (k, v) in d {
        var i :| 0 <= i < |d| && d[i] == (k, v);
        assert i == 0;
      }
    }
  }

  /** `get` finds the first pair with the key. */
  lemma {:induction false} GetAt<K, V>(d: Dict<K, V>, i: nat)
    requires i < |d|
    requires forall j :: 0 <= j < i ==> d[j].0 != d[i].0
    ensures Get(d, d[i].0) == Some(d[i].1)
  {
    if i > 0 {
      GetAt(d[1..], i - 1);
    }
  }

  /** `d[k] = v`: an existing key keeps its position, a new key goes last. */
  function Put<K(==), V>(d: Dict<K, V>, k: K, v: V): (r: Dict<K, V>)
    ensures |r| == if k in Keys(d) then |d| else |d| + 1
    ensures k !in Keys(d) ==> r == d + [(k, v)]
  {
    if |d| == 0 then [(k, v)]
    else if d[0].0 == k then [(k, v)] + d[1..]
    else [d[0]] + Put(d[1..], k, v)
  }

  /** After `d[k] = v`, `k` maps to `v`, every other key keeps its value and
      the key order is unchanged except for a new key at the end. */
  lemma {:induction false} PutGet<K, V>(d: Dict<K, V>, k: K, v: V, k': K)
    ensures Get(Put(d, k, v), k) == Some(v)
    ensures k' != k ==> Get(Put(d, k, v), k') == Get(d, k')
    ensures Keys(Put(d, k, v)) == Keys(d) + {k}
    ensures k in Keys(d) ==> KeySeq(Put(d, k, v)) == KeySeq(d)
  {
    PutGetSame(d, k, v);
    PutGetOther(d, k, v, k');
    PutKeys(d, k, v);
    PutKeyOrder(d, k, v);
  }

  lemma {:induction false} PutGetSame<K, V>(d: Dict<K, V>, k: K, v: V)
    ensures Get(Put(d, k, v), k) == Some(v)
  {
    if |d| > 0 && d[0].0 != k {
      PutGetSame(d[1..], k, v);
    }
  }

  lemma {:induction false} PutGetOther<K, V>(d: Dict<K, V>, k: K, v: V, k': K)
    ensures k' != k ==> Get(Put(d, k, v), k') == Get(d, k')
  {
    if |d| > 0 && d[0].0 != k {
      PutGetOther(d[1..], k, v, k');
    }
  }

  lemma {:induction false} PutKeys<K, V>(d: Dict<K, V>, k: K, v: V)
    ensures Keys(Put(d, k, v)) == Keys(d) + {k}
  {
    if |d| > 0 && d[0].0 != k {
      PutKeys(d[1..], k, v);
    }
  }

  lemma {:induction false} PutKeyOrder<K, V>(d: Dict<K, V>, k: K, v: V)
    ensures k in Keys(d) ==> KeySeq(Put(d, k, v)) == KeySeq(d)
  {
    if |d| > 0 && d[0].0 != k {
      PutKeyOrder(d[1..], k, v);
    }
  }

  /** `d.update(e)`: each pair of `e` put in turn. */
  function PutAll<K(==), V>(d: Dict<K, V>, e: Dict<K, V>): Dict<K, V>
    decreases |e|
  {
    if |e| == 0 then d else PutAll(Put(d, e[0].0, e[0].1), e[1..])
  }

  /** After `d.update(e)`, a key of `e` maps to its value there and every
      other key keeps its value in `d`. */
  lemma {:induction false} PutAllGet<K, V>(d: Dict<K, V>, e: Dict<K, V>, k: K)
    requires UniqueKeys(e)
    ensures Get(PutAll(d, e), k) == if k in Keys(e) then Get(e, k) else Get(d, k)
    decreases |e|
  {
    if |e| > 0 {
      var d' := Put(d, e[0].0, e[0].1);
      assert UniqueKeys(e[1..]);
      PutAllGet(d', e[1..], k);
      PutGet(d, e[0].0, e[0].1, k);
      if k in Keys(e[1..]) {
        var i :| 0 <= i < |e[1..]| && e[1..][i].0 == k;
        assert e[i + 1].0 == k && e[0].0 != k;
      }
    }
  }

  /** Every pair after `d[k] = v` is the new one or was already there. */
  lemma {:induction false} PutElems<K, V>(d: Dict<K, V>, k: K, v: V)
    ensures forall p :: p in Put(d, k, v) ==> p == (k, v) || p in d
  {
    if |d| > 0 && d[0].0 != k {
      PutElems(d[1..], k, v);
    }
  }

  lemma PutUnique<K, V>(d: Dict<K, V>, k: K, v: V)
    requires UniqueKeys(d)
    ensures UniqueKeys(Put(d, k, v))
  {
    var r := Put(d, k, v);
    if k in Keys(d) {
      PutGet(d, k, v, k);
      forall i, j | 0 <= i < j < |r| ensures r[i].0 != r[j].0 {
        assert KeySeq(r)[i] == KeySeq(d)[i] && KeySeq(r)[j] == KeySeq(d)[j];
      }
    } else {
      forall i, j | 0 <= i < j < |r| ensures r[i].0 != r[j].0 {
        if j == |d| {
          assert d[i].0 in Keys(d);
        }
      }
    }
  }

  /** `del d[k]` (every pair with key `k` goes). */
  function Remove<K(==), V>(d: Dict<K, V>, k: K): (r: Dict<K, V>)
    ensures |r| <= |d|
    ensures k !in Keys(d) ==> r == d
  {
    if |d| == 0 then []
    else if d[0].0 == k then Remove(d[1..], k)
    else [d[0]] + Remove(d[1..], k)
  }

  /** After `del d[k]`, `k` is absent and every other key keeps its value. */
  lemma {:induction false} RemoveGet<K, V>(d: Dict<K, V>, k: K, k': K)
    ensures Get(Remove(d, k), k) == None
    ensures k' != k ==> Get(Remove(d, k), k') == Get(d, k')
    ensures Keys(Remove(d, k)) == Keys(d) - {k}
    ensures forall p :: p in Remove(d, k) ==> p in d
  {
    if |d| > 0 {
      RemoveGet(d[1..], k, k');
    }
  }

  lemma RemoveUnique<K, V>(d: Dict<K, V>, k: K)
    requires UniqueKeys(d)
    ensures UniqueKeys(Remove(d, k))
    ensures k in Keys(d) ==> |Remove(d, k)| == |d| - 1
  {
    RemoveStaysUnique(d, k);
    RemoveCount(d, k);
  }

  lemma {:induction false} RemoveStaysUnique<K, V>(d: Dict<K, V>, k: K)
    requires UniqueKeys(d)
    ensures UniqueKeys(Remove(d, k))
  {
    if |d| > 0 {
      var tail := d[1..];
      assert UniqueKeys(tail);
      RemoveStaysUnique(tail, k);
      if d[0].0 != k {
        var rt := Remove(tail, k);
        RemoveGet(tail, k, k);
        HeadKeyFresh(d);
        forall j | 0 <= j < |rt| ensures rt[j].0 != d[0].0 {
          assert rt[j] in tail;
        }
        ConsUnique(d[0], rt);
      }
    }
  }

  /** In a dictionary with distinct keys, the first key is not among the
      rest. */
  lemma HeadKeyFresh<K, V>(d: Dict<K, V>)
    requires |d| > 0 && UniqueKeys(d)
    ensures d[0].0 !in Keys(d[1..])
  {
    forall j | 0 <= j < |d[1..]| ensures d[1..][j].0 != d[0].0 {
      assert d[1..][j] == d[j + 1];
    }
  }

  /** The keys of two dictionaries written one after the other. */
  lemma KeysConcat<K, V>(a: Dict<K, V>, b: Dict<K, V>)
    ensures Keys(a + b) == Keys(a) + Keys(b)
  {
    var r := a + b;
    forall k | k in Keys(r) ensures k in Keys(a) + Keys(b) {
      var i :| 0 <= i < |r| && r[i].0 == k;
      if i < |a| {
        assert r[i] == a[i];
      } else {
        assert r[i] == b[i - |a|];
      }
    }
    forall k | k in Keys(a) + Keys(b) ensures k in Keys(r) {
      if k in Keys(a) {
        var i :| 0 <= i < |a| && a[i].0 == k;
        assert r[i] == a[i];
      } else {
        var i :| 0 <= i < |b| && b[i].0 == k;
        assert r[|a| + i] == b[i];
      }
    }
  }

  /** The keys of a five-pair dictionary. */
  lemma FiveKeys<K, V>(d: Dict<K, V>)
    requires |d| == 5
    ensures Keys(d) == {d[0].0, d[1].0, d[2].0, d[3].0, d[4].0}
  {
  }

  /** Looking a key up in a two-pair dictionary. */
  lemma GetTwo<K, V>(a: K, x: V, b: K, y: V, k: K)
    ensures Get([(a, x), (b, y)], k) == if a == k then Some(x) else if b == k then Some(y) else None
  {
    var d := [(a, x), (b, y)];
    assert d[1..] == [(b, y)] && d[1..][1..] == [];
  }

  /** A pair whose key is new, put in front of a dictionary, keeps the keys
      distinct. */
  lemma ConsUnique<K, V>(x: (K, V), t: Dict<K, V>)
    requires UniqueKeys(t)
    requires forall j :: 0 <= j < |t| ==> t[j].0 != x.0
    ensures UniqueKeys([x] + t)
  {
    var r := [x] + t;
    forall i, j | 0 <= i < j < |r| ensures r[i].0 != r[j].0 {
      assert r[j] == t[j - 1];
      if i > 0 {
        assert r[i] == t[i - 1];
      }
    }
  }

  lemma {:induction false} RemoveCount<K, V>(d: Dict<K, V>, k: K)
    requires UniqueKeys(d)
    ensures k in Keys(d) ==> |Remove(d, k)| == |d| - 1
  {
    if |d| > 0 {
      var tail := d[1..];
      assert UniqueKeys(tail);
      RemoveCount(tail, k);
      if d[0].0 == k {
        HeadKeyFresh(d);
      } else if k in Keys(d) {
        assert k in Keys(tail);
      }
    }
  }

  /** Two dictionaries with the same key order still have the same key
      order after the same key is deleted from both. */
  lemma {:induction false} RemoveKeySeq<K, V, W>(a: Dict<K, V>, b: Dict<K, W>, k: K)
    requires KeySeq(a) == KeySeq(b)
    ensures KeySeq(Remove(a, k)) == KeySeq(Remove(b, k))
  {
    if |a| > 0 {
      assert a[0].0 == KeySeq(a)[0] == KeySeq(b)[0] == b[0].0;
      assert KeySeq(a[1..]) == KeySeq(a)[1..] == KeySeq(b)[1..] == KeySeq(b[1..]);
      RemoveKeySeq(a[1..], b[1..], k);
    }
  }

  /** ... and after the same key is set in both. */
  lemma {:induction false} PutKeySeq<K, V, W>(a: Dict<K, V>, b: Dict<K, W>, k: K, v: V, w: W)
    requires KeySeq(a) == KeySeq(b)
    ensures KeySeq(Put(a, k, v)) == KeySeq(Put(b, k, w))
  {
    if |a| > 0 {
      assert a[0].0 == KeySeq(a)[0] == KeySeq(b)[0] == b[0].0;
      assert KeySeq(a[1..]) == KeySeq(a)[1..] == KeySeq(b)[1..] == KeySeq(b[1..]);
      PutKeySeq(a[1..], b[1..], k, v, w);
    }
  }

  /** A dictionary with distinct keys has as many keys as pairs. */
  lemma {:induction false} KeyCount<K, V>(d: Dict<K, V>)
    requires UniqueKeys(d)
    ensures |Keys(d)| == |d|
  {
    if |d| > 0 {
      assert UniqueKeys(d[1..]);
      KeyCount(d[1..]);
      assert d[0].0 !in Keys(d[1..]);
    }
  }

  /** `for k in ks: del d[k]` */
  function RemoveAll<K(==), V>(d: Dict<K, V>, ks: seq<K>): (r: Dict<K, V>)
    decreases |ks|
  {
    if |ks| == 0 then d else RemoveAll(Remove(d, ks[0]), ks[1..])
  }

  /** Deleting a list of keys deletes exactly those keys and keeps every
      other pair as it was. */
  lemma RemoveAllSpec<K, V>(d: Dict<K, V>, ks: seq<K>)
    requires UniqueKeys(d)
    ensures UniqueKeys(RemoveAll(d, ks))
    ensures Keys(RemoveAll(d, ks)) == Keys(d) - (set k | k in ks)
    ensures forall k :: k !in ks ==> Get(RemoveAll(d, ks), k) == Get(d, k)
    ensures forall p :: p in RemoveAll(d, ks) ==> p in d
  {
    RemoveAllUnique(d, ks);
    RemoveAllKeys(d, ks);
    forall k | k !in ks ensures Get(RemoveAll(d, ks), k) == Get(d, k) {
      RemoveAllGet(d, ks, k);
    }
    RemoveAllElems(d, ks);
  }

  lemma {:induction false} RemoveAllUnique<K, V>(d: Dict<K, V>, ks: seq<K>)
    requires UniqueKeys(d)
    ensures UniqueKeys(RemoveAll(d, ks))
    decreases |ks|
  {
    if |ks| > 0 {
      RemoveUnique(d, ks[0]);
      RemoveAllUnique(Remove(d, ks[0]), ks[1..]);
    }
  }

  lemma {:induction false} RemoveAllKeys<K, V>(d: Dict<K, V>, ks: seq<K>)
    ensures Keys(RemoveAll(d, ks)) == Keys(d) - (set k | k in ks)
    decreases |ks|
  {
    if |ks| > 0 {
      RemoveGet(d, ks[0], ks[0]);
      RemoveAllKeys(Remove(d, ks[0]), ks[1..]);
      assert (set k | k in ks) == {ks[0]} + (set k | k in ks[1..]);
    }
  }

  lemma {:induction false} RemoveAllGet<K, V>(d: Dict<K, V>, ks: seq<K>, k: K)
    requires k !in ks
    ensures Get(RemoveAll(d, ks), k) == Get(d, k)
    decreases |ks|
  {
    if |ks| > 0 {
      RemoveGet(d, ks[0], k);
      assert k !in ks[1..];
      RemoveAllGet(Remove(d, ks[0]), ks[1..], k);
    }
  }

  lemma {:induction false} RemoveAllElems<K, V>(d: Dict<K, V>, ks: seq<K>)
    ensures forall p :: p in RemoveAll(d, ks) ==> p in d
    decreases |ks|
  {
    if |ks| > 0 {
      RemoveGet(d, ks[0], ks[0]);
      RemoveAllElems(Remove(d, ks[0]), ks[1..]);
    }
  }

  /** Deleting distinct keys that are all present shrinks the dictionary by
      their number. */
  lemma {:induction false} RemoveAllSize<K, V>(d: Dict<K, V>, ks: seq<K>)
    requires UniqueKeys(d)
    requires forall i :: 0 <= i < |ks| ==> ks[i] in Keys(d)
    requires forall i, j :: 0 <= i < j < |ks| ==> ks[i] != ks[j]
    ensures |RemoveAll(d, ks)| == |d| - |ks|
    decreases |ks|
  {
    if |ks| > 0 {
      var d' := Remove(d, ks[0]);
      RemoveUnique(d, ks[0]);
      RemoveGet(d, ks[0], ks[0]);
      forall i | 0 <= i < |ks[1..]| ensures ks[1..][i] in Keys(d') {
        assert ks[1..][i] == ks[i + 1] != ks[0];
      }
      forall i, j | 0 <= i < j < |ks[1..]| ensures ks[1..][i] != ks[1..][j] {
        assert ks[1..][i] == ks[i + 1] && ks[1..][j] == ks[j + 1];
      }
      RemoveAllSize(d', ks[1..]);
    }
  }

  /** Two dictionaries with the same key order keep it through the same
      deletions. */
  lemma {:induction false} RemoveAllKeySeq<K, V, W>(a: Dict<K, V>, b: Dict<K, W>, ks: seq<K>)
    requires KeySeq(a) == KeySeq(b)
    ensures KeySeq(RemoveAll(a, ks)) == KeySeq(RemoveAll(b, ks))
    decreases |ks|
  {
    if |ks| > 0 {
      RemoveKeySeq(a, b, ks[0]);
      RemoveAllKeySeq(Remove(a, ks[0]), Remove(b, ks[0]), ks[1..]);
    }
  }

  /** The values satisfying `p`, in order. */
  function FilterValues<K, V>(d: Dict<K, V>, p: V -> bool): (r: seq<V>)
    ensures forall j :: 0 <= j < |r| ==> p(r[j]) && r[j] in Values(d)
    ensures forall i :: 0 <= i < |d| && p(d[i].1) ==> d[i].1 in r
  {
    if |d| == 0 then []
    else
      var rest := FilterValues(d[1..], p);
      assert forall i :: 1 <= i < |d| ==> d[i] == d[1..][i - 1];
      if p(d[0].1) then [d[0].1] + rest else rest
  }

  /** Filtering by `p` and by its negation `q` splits the values between
      the two results. */
  lemma {:induction false} FilterPartition<K, V>(d: Dict<K, V>, p: V -> bool, q: V -> bool)
    requires forall v :: q(v) <==> !p(v)
    ensures multiset(FilterValues(d, p)) + multiset(FilterValues(d, q)) == multiset(Values(d))
  {
    if |d| > 0 {
      FilterPartition(d[1..], p, q);
      assert Values(d) == [d[0].1] + Values(d[1..]);
    }
  }
}
