/** A Python `dict`: a finite map that remembers the order in which its keys
    were first inserted. Assigning to an existing key keeps its position;
    assigning to a new key appends it. */
module OrderedDicts {
  import opened Seqs

  datatype OrderedDict<K(!new), V> = OrderedDict(keys: seq<K>, vals: map<K, V>) {

    /** The keys are listed once each, and exactly the keys of the map. */
    ghost predicate Valid() {
      Distinct(keys) && forall k :: k in vals <==> k in keys
    }
  }

  function Empty<K(!new), V>(): (d: OrderedDict<K, V>)
    ensures d.Valid() && d.keys == [] && d.vals == map[]
  {
    OrderedDict([], map[])
  }

  /** `d[k] = v` */
  function Put<K(!new), V>(d: OrderedDict<K, V>, k: K, v: V): OrderedDict<K, V> {
    if k in d.vals then OrderedDict(d.keys, d.vals[k := v])
    else OrderedDict(d.keys + [k], d.vals[k := v])
  }

  /** Assignment keeps the dict well-formed, sets exactly the value under
      `k`, and leaves the key order alone except for appending a new key. */
  lemma PutValid<K(!new), V>(d: OrderedDict<K, V>, k: K, v: V)
    requires d.Valid()
    ensures Put(d, k, v).Valid()
    ensures Put(d, k, v).vals == d.vals[k := v]
    ensures k in d.vals ==> Put(d, k, v).keys == d.keys
    ensures k !in d.vals ==> Put(d, k, v).keys == d.keys + [k]
  {
    if k !in d.vals {
      DistinctAppend(d.keys, k);
    }
  }

  /** `d.get(k, default)` */
  function Get<K(!new), V>(d: OrderedDict<K, V>, k: K, default: V): V {
    if k in d.vals then d.vals[k] else default
  }
}
