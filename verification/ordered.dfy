/** A JavaScript object used as a dictionary: a finite map that also
    remembers the order in which its keys were first written, because
    `Object.values` and `Object.entries` return entries in that order. */
module Ordered {

  datatype OMap<K, V> = OMap(keys: seq<K>, entries: map<K, V>)

  /** The keys are distinct and are exactly the keys of the map. */
  ghost predicate Valid<K(!new), V>(o: OMap<K, V>)
  {
    && (forall i, j :: 0 <= i < j < |o.keys| ==> o.keys[i] != o.keys[j])
    && (forall k :: k in o.entries <==> k in o.keys)
  }

  function Empty<K(!new), V>(): (o: OMap<K, V>)
    ensures Valid(o) && o.keys == [] && o.entries == map[]
  {
    OMap([], map[])
  }

  /** `o[k] || init`. */
  function Lookup<K(!new), V>(o: OMap<K, V>, k: K, init: V): V
  {
    if k in o.entries then o.entries[k] else init
  }

  /** `o[k] = v`: an existing key keeps its place, a new key goes last. */
  function Put<K(!new), V>(o: OMap<K, V>, k: K, v: V): (r: OMap<K, V>)
    requires Valid(o)
    ensures Valid(r)
    ensures r.entries == o.entries[k := v]
    ensures k in o.entries ==> r.keys == o.keys
    ensures k !in o.entries ==> r.keys == o.keys + [k]
  {
    if k in o.entries then OMap(o.keys, o.entries[k := v])
    else
      var r := OMap(o.keys + [k], o.entries[k := v]);
      assert forall i :: 0 <= i < |o.keys| ==> r.keys[i] == o.keys[i];
      r
  }

  /** `Object.values(o)`. */
  function Values<K(!new), V>(o: OMap<K, V>): (r: seq<V>)
    requires Valid(o)
    ensures |r| == |o.keys|
    ensures forall i :: 0 <= i < |o.keys| ==> r[i] == o.entries[o.keys[i]]
  {
    seq(|o.keys|, i requires 0 <= i < |o.keys| && o.keys[i] in o.entries => o.entries[o.keys[i]])
  }

  /** `Object.entries(o)`: key and value pairs in key order. */
  function Items<K(!new), V>(o: OMap<K, V>): (r: seq<(K, V)>)
    requires Valid(o)
    ensures |r| == |o.keys|
    ensures forall i :: 0 <= i < |o.keys| ==> r[i] == (o.keys[i], o.entries[o.keys[i]])
  {
    seq(|o.keys|, i requires 0 <= i < |o.keys| && o.keys[i] in o.entries => (o.keys[i], o.entries[o.keys[i]]))
  }

  /** Every entry rewritten in place (`Object.values(o).forEach(e => mutate(e))`). */
  function MapValues<K(!new), V, W>(o: OMap<K, V>, f: V -> W): (r: OMap<K, W>)
    requires Valid(o)
    ensures Valid(r) && r.keys == o.keys
    ensures forall k :: k in o.entries ==> k in r.entries && r.entries[k] == f(o.entries[k])
  {
    OMap(o.keys, map k | k in o.entries :: f(o.entries[k]))
  }
}
