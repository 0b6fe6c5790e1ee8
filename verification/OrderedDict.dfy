/** Dictionaries that remember the order in which their keys were first put. */
module OrderedDict {
  import opened Wrappers
  import opened Sequences

  datatype Dict<!K(==), V> = Dict(keys: seq<K>, items: map<K, V>)

  function Put<K, V>(d: Dict<K, V>, k: K, v: V): Dict<K, V> {
    Dict(if k in d.items then d.keys else d.keys + [k], d.items[k := v])
  }

  function Lookup<K, V>(m: map<K, V>, k: K): Option<V> {
    if k in m then Some(m[k]) else None
  }

  predicate Valid<K, V>(d: Dict<K, V>) {
    d.items.Keys == Elems(d.keys)
  }

  lemma PutValid<K, V>(d: Dict<K, V>, k: K, v: V)
    requires Valid(d)
    ensures Valid(Put(d, k, v))
  {
    if k !in d.items {
      ElemsLast(d.keys + [k]);
      assert (d.keys + [k])[..|d.keys|] == d.keys;
    }
  }

  /** No key is listed twice. */
  lemma PutOnce<K, V>(d: Dict<K, V>, k: K, v: V)
    requires Valid(d) && NoneTwice(d.keys)
    ensures NoneTwice(Put(d, k, v).keys)
  {
    if k !in d.items {
      ElemsLast(d.keys + [k]);
      assert (d.keys + [k])[..|d.keys|] == d.keys;
      assert k !in Elems(d.keys);
    }
  }
}
