/** A Python `dict` as the dedup loops use it: assigning to a new key appends the
    key at the end, assigning to an existing key keeps its position and replaces
    its value, and `list(d.values())` lists the values in key order. */
module OrderedDict {

  datatype Dict<K(==,!new), V> = Dict(keys: seq<K>, entries: map<K, V>) {

    /** Keys are listed once each, and exactly the keys that have an entry. */
    ghost predicate Valid() {
      && (forall i, j :: 0 <= i < j < |keys| ==> keys[i] != keys[j])
      && (forall k :: k in entries <==> k in keys)
    }

    /** `d[k] = v`. */
    function Put(k: K, v: V): (r: Dict<K, V>)
      requires Valid()
      ensures r.Valid()
      ensures r.entries == entries[k := v]
      ensures r.keys == if k in entries then keys else keys + [k]
    {
      if k in entries then Dict(keys, entries[k := v]) else Dict(keys + [k], entries[k := v])
    }

    /** `list(d.values())`. */
    function Values(): (r: seq<V>)
      requires Valid()
      ensures |r| == |keys|
      ensures forall i :: 0 <= i < |keys| ==> r[i] == entries[keys[i]]
    {
      seq(|keys|, i requires 0 <= i < |keys| => entries[keys[i]])
    }
  }

  function Empty<K(==,!new), V>(): (d: Dict<K, V>)
    ensures d.Valid() && d.keys == []
  {
    Dict([], map[])
  }
}
