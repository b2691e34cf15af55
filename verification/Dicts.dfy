/** Python's None and Python's dictionaries. */
module Dicts {

  datatype Option<+T> = None | Some(value: T)

  /** A dictionary: a map that remembers the order in which its keys came in. */
  datatype Dict<K(==), V> = Dict(keys: seq<K>, m: map<K, V>) {
    function Put(k: K, v: V): Dict<K, V> {
      if k in m then Dict(keys, m[k := v]) else Dict(keys + [k], m[k := v])
    }

    /** Removes a key, if it is there. */
    function Pop(k: K): Dict<K, V> {
      Dict(Without(keys, k), m - {k})
    }

    ghost predicate Valid() {
      && (forall i, j :: 0 <= i < j < |keys| ==> keys[i] != keys[j])
      && m.Keys == set k | k in keys
    }
  }

  function Without<K(==)>(keys: seq<K>, k: K): seq<K> {
    if keys == [] then []
    else if keys[0] == k then Without(keys[1..], k)
    else [keys[0]] + Without(keys[1..], k)
  }
}
