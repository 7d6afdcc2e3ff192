/** Python's insertion-ordered `dict` (and `collections.OrderedDict`):
    a map together with the order in which its keys were first inserted. */
module OrderedMaps {

  datatype OrderedMap<K(==,!new), V> = OrderedMap(keys: seq<K>, vals: map<K, V>)

  /** The keys are listed once each, and exactly the mapped keys are listed. */
  ghost predicate Valid<K(!new), V>(m: OrderedMap<K, V>) {
    && (forall i, j :: 0 <= i < j < |m.keys| ==> m.keys[i] != m.keys[j])
    && (forall k :: k in m.vals <==> k in m.keys)
  }

  /** `{}` */
  function Empty<K(==,!new), V>(): (m: OrderedMap<K, V>)
    ensures Valid(m) && m.keys == [] && m.vals == map[]
  {
    OrderedMap([], map[])
  }

  /** `d[k] = v`: a new key is placed last, a key already present keeps its
      place and only its value is replaced. */
  function Put<K(==,!new), V>(m: OrderedMap<K, V>, k: K, v: V): (r: OrderedMap<K, V>)
    requires Valid(m)
    ensures Valid(r)
    ensures r.vals == m.vals[k := v]
    ensures k in m.vals ==> r.keys == m.keys
    ensures k !in m.vals ==> r.keys == m.keys + [k]
  {
    if k in m.vals then OrderedMap(m.keys, m.vals[k := v])
    else OrderedMap(m.keys + [k], m.vals[k := v])
  }

  /** `list(d.values())`: the values in key-insertion order. */
  function Values<K(==,!new), V>(m: OrderedMap<K, V>): (r: seq<V>)
    requires Valid(m)
    ensures |r| == |m.keys|
    ensures forall i :: 0 <= i < |r| ==> r[i] == m.vals[m.keys[i]]
  {
    seq(|m.keys|, i requires 0 <= i < |m.keys| => m.vals[m.keys[i]])
  }

  /** `d[k] = v` as seen by `d.values()`: a new key's value goes last, and
      a known key's value is replaced where it stands. */
  lemma ValuesOfPut<K(!new), V>(m: OrderedMap<K, V>, k: K, v: V)
    requires Valid(m)
    ensures k !in m.vals ==> Values(Put(m, k, v)) == Values(m) + [v]
    ensures k in m.vals ==> |Values(Put(m, k, v))| == |Values(m)|
    ensures k in m.vals ==> forall i :: 0 <= i < |m.keys| ==>
              Values(Put(m, k, v))[i] == if m.keys[i] == k then v else Values(m)[i]
  {
    var r := Values(Put(m, k, v));
    if k !in m.vals {
      assert forall i :: 0 <= i < |r| ==> r[i] == (Values(m) + [v])[i];
    }
  }

  /** Every key is listed exactly once, so a Valid map has as many keys
      listed as it maps. */
  lemma {:induction false} KeyCount<K(!new), V>(m: OrderedMap<K, V>)
    requires Valid(m)
    ensures |m.vals| == |m.keys|
    decreases |m.keys|
  {
    if m.keys != [] {
      var last := m.keys[|m.keys| - 1];
      var rest := OrderedMap(m.keys[..|m.keys| - 1], m.vals - {last});
      DropLastValid(m);
      KeyCount(rest);
      DropOneKey(m.vals, last);
    }
  }

  /** Dropping the last listed key from both parts keeps a map Valid. */
  lemma DropLastValid<K(!new), V>(m: OrderedMap<K, V>)
    requires Valid(m) && m.keys != []
    ensures var last := m.keys[|m.keys| - 1];
      Valid(OrderedMap(m.keys[..|m.keys| - 1], m.vals - {last}))
  {
    var last := m.keys[|m.keys| - 1];
    var rest := OrderedMap(m.keys[..|m.keys| - 1], m.vals - {last});
    forall k ensures k in rest.vals <==> k in rest.keys {
      if k in m.keys && k != last {
        var i :| 0 <= i < |m.keys| && m.keys[i] == k;
        assert i < |m.keys| - 1 && rest.keys[i] == k;
      }
    }
  }

  /** Removing a mapped key shrinks a map by one. */
  lemma DropOneKey<K(!new), V>(vals: map<K, V>, k: K)
    requires k in vals
    ensures |vals - {k}| == |vals| - 1
  {
    assert vals.Keys == (vals - {k}).Keys + {k};
  }
}
