/** An insertion-ordered map with the semantics of a JavaScript `Map`:
    `set` on a present key replaces the value in place, `set` on a new key
    appends it, `delete` drops the key, and `values()` iterates in key order. */
module OrderedMaps {

  /** `keys` lists every key once, in the order it was first set;
      `entries` holds the current value of each key. */
  datatype OMap<K, V> = OMap(keys: seq<K>, entries: map<K, V>)

  predicate Distinct<K(==,!new)>(s: seq<K>) {
    forall i, j | 0 <= i < j < |s| :: s[i] != s[j]
  }

  predicate Valid<K(==,!new), V>(m: OMap<K, V>) {
    && Distinct(m.keys)
    && (forall k | k in m.entries :: k in m.keys)
    && (forall k | k in m.keys :: k in m.entries)
  }

  function Empty<K(==,!new), V>(): (m: OMap<K, V>)
    ensures Valid(m)
    ensures Size(m) == 0
    ensures forall k :: k !in m.entries
  {
    OMap([], map[])
  }

  /** The `size` of the map. */
  function Size<K, V>(m: OMap<K, V>): nat {
    |m.keys|
  }

  /** `map.set(k, v)`. */
  function Set<K(==,!new), V>(m: OMap<K, V>, k: K, v: V): (r: OMap<K, V>)
    requires Valid(m)
    ensures Valid(r)
    ensures r.entries == m.entries[k := v]
    ensures k in m.entries ==> r.keys == m.keys && Size(r) == Size(m)
    ensures k !in m.entries ==> r.keys == m.keys + [k] && Size(r) == Size(m) + 1
  {
    if k in m.entries then
      OMap(m.keys, m.entries[k := v])
    else
      OMap(m.keys + [k], m.entries[k := v])
  }

  /** The position of `k` in `s`. */
  function IndexOf<K(==)>(s: seq<K>, k: K): (p: nat)
    requires k in s
    ensures p < |s| && s[p] == k
  {
    if s[0] == k then 0 else 1 + IndexOf(s[1..], k)
  }

  /** Dropping one position of a list without repetitions leaves a list
      without repetitions that holds every other element. */
  lemma DistinctRemoveAt<K(!new)>(s: seq<K>, p: nat)
    requires Distinct(s) && p < |s|
    ensures Distinct(s[..p] + s[p + 1..])
    ensures forall x :: x in s[..p] + s[p + 1..] <==> x in s && x != s[p]
  {
    var r := s[..p] + s[p + 1..];
    forall i | 0 <= i < |r| ensures r[i] == s[if i < p then i else i + 1] {}
    forall i, j | 0 <= i < j < |r| ensures r[i] != r[j] {
      var i' := if i < p then i else i + 1;
      var j' := if j < p then j else j + 1;
      assert r[i] == s[i'] && r[j] == s[j'];
    }
    forall x | x in s && x != s[p] ensures x in r {
      var i :| 0 <= i < |s| && s[i] == x;
      assert r[if i < p then i else i - 1] == x;
    }
  }

  /** Dropping the key at position `p` from the order and from the entries
      keeps the map well-formed; no other position holds that key. */
  lemma RemoveKeyAt<K(!new), V>(m: OMap<K, V>, p: nat)
    requires Valid(m) && p < |m.keys|
    ensures Valid(OMap(m.keys[..p] + m.keys[p + 1..], m.entries - {m.keys[p]}))
    ensures forall q :: 0 <= q < |m.keys| && m.keys[q] == m.keys[p] ==> q == p
  {
    DistinctRemoveAt(m.keys, p);
  }

  /** `map.delete(k)`: the key leaves its one position in the order; a
      missing key is a no-op. */
  function Delete<K(==,!new), V>(m: OMap<K, V>, k: K): (r: OMap<K, V>)
    requires Valid(m)
    ensures Valid(r)
    ensures r.entries == m.entries - {k}
    ensures k !in m.entries ==> r == m
    ensures k in m.entries ==> Size(r) == Size(m) - 1
    ensures forall p :: 0 <= p < |m.keys| && m.keys[p] == k ==> r.keys == m.keys[..p] + m.keys[p + 1..]
  {
    if k in m.entries then
      var p := IndexOf(m.keys, k);
      RemoveKeyAt(m, p);
      OMap(m.keys[..p] + m.keys[p + 1..], m.entries - {k})
    else m
  }

  /** Inserting a new key and deleting it again gives back the map, key
      order included. */
  lemma DeleteUndoesSet<K(!new), V>(m: OMap<K, V>, k: K, v: V)
    requires Valid(m) && k !in m.entries
    ensures Delete(Set(m, k, v), k) == m
  {
    var m' := Set(m, k, v);
    var p := |m.keys|;
    assert m'.keys[p] == k;
    assert m'.keys[..p] == m.keys;
    assert m'.keys[p + 1..] == [];
    assert m.entries[k := v] - {k} == m.entries;
  }

  /** `Array.from(map.values())`. */
  function Values<K(==,!new), V>(m: OMap<K, V>): (r: seq<V>)
    requires Valid(m)
    ensures |r| == Size(m)
    ensures forall i :: 0 <= i < |r| ==> m.keys[i] in m.entries && r[i] == m.entries[m.keys[i]]
  {
    seq(|m.keys|, i requires 0 <= i < |m.keys| => m.entries[m.keys[i]])
  }

  /** `Array.from(map.entries())`. */
  function Entries<K(==,!new), V>(m: OMap<K, V>): (r: seq<(K, V)>)
    requires Valid(m)
    ensures |r| == Size(m)
    ensures forall i :: 0 <= i < |r| ==> r[i].0 == m.keys[i] && m.keys[i] in m.entries && r[i].1 == m.entries[m.keys[i]]
  {
    seq(|m.keys|, i requires 0 <= i < |m.keys| => (m.keys[i], m.entries[m.keys[i]]))
  }
}
