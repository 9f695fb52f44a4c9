/**
 * A JavaScript `Map`: its entries together with the order in which their
 * keys were first inserted, which is the order `values()` and `entries()`
 * iterate in.
 */
module JsMap {
  import opened Options
  import opened Seqs

  /** Every table of the source is keyed by string ids. */
  type Key = string

  datatype Table<V> = Table(keys: seq<Key>, entries: map<Key, V>)

  /** The key order lists each present key exactly once. */
  ghost predicate Wf<V>(t: Table<V>) {
    && NoDup(t.keys)
    && (forall k :: k in t.entries <==> k in t.keys)
  }

  function Empty<V>(): (t: Table<V>)
    ensures Wf(t) && t.entries == map[]
  {
    Table([], map[])
  }

  /** `map.get(k)`. */
  function Get<V>(t: Table<V>, k: Key): (r: Option<V>)
    ensures r.Some? <==> k in t.entries
    ensures r.Some? ==> r.value == t.entries[k]
  {
    if k in t.entries then Some(t.entries[k]) else None
  }

  /** `Array.from(map.values())`: one value per key, in insertion order. */
  function Values<V>(t: Table<V>): (vs: seq<V>)
    requires Wf(t)
    ensures |vs| == |t.keys|
    ensures forall i :: 0 <= i < |t.keys| ==> vs[i] == t.entries[t.keys[i]]
    ensures forall i :: 0 <= i < |vs| ==> t.keys[i] in t.entries
    ensures forall k :: k in t.entries ==> t.entries[k] in vs
  {
    var vs := seq(|t.keys|, i requires 0 <= i < |t.keys| => t.entries[t.keys[i]]);
    assert forall k :: k in t.entries ==> t.entries[k] in vs by {
      forall k | k in t.entries ensures t.entries[k] in vs {
        var i :| 0 <= i < |t.keys| && t.keys[i] == k;
        assert vs[i] == t.entries[k];
      }
    }
    vs
  }

  /** `map.set(k, v)`: a new key goes to the end of the order, a present key keeps its place. */
  function Set<V>(t: Table<V>, k: Key, v: V): (r: Table<V>)
    requires Wf(t)
    ensures Wf(r)
  {
    if k in t.entries then Table(t.keys, t.entries[k := v])
    else
      assert NoDup(t.keys + [k]) by {
        assert forall i :: 0 <= i < |t.keys| ==> (t.keys + [k])[i] == t.keys[i] && t.keys[i] in t.entries;
      }
      Table(t.keys + [k], t.entries[k := v])
  }

  /** The table without the keys `ks`; the remaining keys keep their order and their values. */
  function RemoveKeys<V>(t: Table<V>, ks: set<Key>): (r: Table<V>)
    requires Wf(t)
    ensures Wf(r)
    ensures forall k :: k in r.entries <==> k in t.entries && k !in ks
    ensures forall k :: k in r.entries ==> r.entries[k] == t.entries[k]
    ensures IsSubsequence(r.keys, t.keys)
  {
    Table(Without(t.keys, ks), t.entries - ks)
  }

  /** `map.delete(k)`. */
  function Delete<V>(t: Table<V>, k: Key): (r: Table<V>)
    requires Wf(t)
    ensures Wf(r)
  {
    RemoveKeys(t, {k})
  }

  /** Removing key sets one after the other is removing their union. */
  lemma RemoveKeysTwice<V>(t: Table<V>, a: set<Key>, b: set<Key>)
    requires Wf(t)
    ensures RemoveKeys(RemoveKeys(t, a), b) == RemoveKeys(t, a + b)
  {
    WithoutTwice(t.keys, a, b);
    assert (t.entries - a) - b == t.entries - (a + b);
  }

  /** Removing no keys changes nothing. */
  lemma RemoveNoKeys<V>(t: Table<V>)
    requires Wf(t)
    ensures RemoveKeys(t, {}) == t
  {
    WithoutAbsent(t.keys, {});
    assert t.entries - {} == t.entries;
  }

  /** `get` after `set` or `delete`: only the touched key reads differently. */
  lemma GetAfterUpdate<V>(t: Table<V>, k: Key, v: V)
    requires Wf(t)
    ensures Get(Set(t, k, v), k) == Some(v)
    ensures Get(Delete(t, k), k) == None
    ensures forall j :: j != k ==> Get(Set(t, k, v), j) == Get(t, j) && Get(Delete(t, k), j) == Get(t, j)
  {
  }

  /** Setting a fresh key adds exactly one entry, last in the order, and changes no other entry. */
  lemma SetFresh<V>(t: Table<V>, k: Key, v: V)
    requires Wf(t) && k !in t.entries
    ensures Set(t, k, v).keys == t.keys + [k]
    ensures Set(t, k, v).entries.Keys == t.entries.Keys + {k}
    ensures Set(t, k, v).entries[k] == v
    ensures forall j :: j in t.entries ==> Set(t, k, v).entries[j] == t.entries[j]
    ensures Values(Set(t, k, v)) == Values(t) + [v]
  {
    assert forall i :: 0 <= i < |t.keys| ==> t.keys[i] != k;
  }

  /**
   * Setting a present key replaces its value in place: the key order is the
   * same, and every other entry and every other position of `values()` is
   * unchanged.
   */
  lemma SetPresent<V>(t: Table<V>, k: Key, v: V)
    requires Wf(t) && k in t.entries
    ensures Set(t, k, v).keys == t.keys
    ensures Set(t, k, v).entries.Keys == t.entries.Keys
    ensures Set(t, k, v).entries[k] == v
    ensures forall j :: j in t.entries && j != k ==> Set(t, k, v).entries[j] == t.entries[j]
    ensures forall i :: 0 <= i < |t.keys| ==>
      Values(Set(t, k, v))[i] == if t.keys[i] == k then v else Values(t)[i]
  {
  }

  /** Deleting removes exactly the given key; deleting an absent key is a no-op. */
  lemma DeleteEffect<V>(t: Table<V>, k: Key)
    requires Wf(t)
    ensures Delete(t, k).entries.Keys == t.entries.Keys - {k}
    ensures forall j :: j in t.entries && j != k ==> Delete(t, k).entries[j] == t.entries[j]
    ensures IsSubsequence(Delete(t, k).keys, t.keys)
    ensures k !in t.entries ==> Delete(t, k) == t
  {
    if k !in t.entries {
      WithoutAbsent(t.keys, {k});
      assert t.entries - {k} == t.entries;
    }
  }
}
