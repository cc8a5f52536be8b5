/** Insertion-ordered dictionaries, as Python's `dict` and Java's
    `LinkedHashMap` behave: a value map plus the order in which keys were
    first inserted. */
module PyDicts {

  datatype Dict<K(==, !new), V> = Dict(keys: seq<K>, m: map<K, V>) {

    /** Keys are listed once each, and exactly the keys of the map are listed. */
    ghost predicate Valid() {
      && (forall i, j :: 0 <= i < j < |keys| ==> keys[i] != keys[j])
      && (forall k :: k in m <==> k in keys)
    }
  }

  function Empty<K(==, !new), V>(): (d: Dict<K, V>)
    ensures d.Valid() && d.keys == [] && d.m == map[]
  {
    Dict([], map[])
  }

  /** `d[k] = v`: a new key is appended to the order, an existing key keeps its
      place and only its value changes. */
  function Put<K(==, !new), V>(d: Dict<K, V>, k: K, v: V): (r: Dict<K, V>)
    requires d.Valid()
    ensures r.Valid()
    ensures r.m == d.m[k := v]
    ensures r.keys == if k in d.m then d.keys else d.keys + [k]
  {
    Dict(if k in d.m then d.keys else d.keys + [k], d.m[k := v])
  }
}
