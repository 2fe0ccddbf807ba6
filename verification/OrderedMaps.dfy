/** A map that keeps its keys in the order they were first set, as the maps of the program do.
    Two such maps are equal when they hold the same values under the same keys in the same order. */
module OrderedMaps {
  import opened Sequences

  datatype OrderedMap<V> = OrderedMap(keys: seq<string>, at: map<string, V>)
  {
    ghost predicate Good() {
      Distinct(keys) && forall k :: k in keys <==> k in at
    }

    /** Setting a known key keeps its place. */
    function Set(k: string, v: V): (m: OrderedMap<V>)
      ensures Good() ==> m.Good()
    {
      OrderedMap(if k in at then keys else keys + [k], at[k := v])
    }

    function Values(): (values: seq<V>)
      requires Good()
      ensures |values| == |keys| && forall i | 0 <= i < |keys| :: values[i] == at[keys[i]]
    {
      seq(|keys|, i requires 0 <= i < |keys| => assert keys[i] in keys; at[keys[i]])
    }
  }

  function Empty<V>(): (m: OrderedMap<V>)
    ensures m.Good()
  {
    OrderedMap([], map[])
  }

  /** The map before its last key was set. */
  lemma WithoutLast<V>(m: OrderedMap<V>) returns (before: OrderedMap<V>, k: string)
    requires m.Good() && m.keys != []
    ensures before.Good() && |before.keys| < |m.keys|
    ensures k !in before.at && k in m.at && forall j | j in before.at :: j in m.at && before.at[j] == m.at[j]
    ensures m == before.Set(k, m.at[k])
    ensures m.Values() == before.Values() + [m.at[k]]
  {
    var rest := m.keys[..|m.keys| - 1];
    k := m.keys[|m.keys| - 1];
    assert k in m.keys && k !in rest;
    before := OrderedMap(rest, m.at - {k});
    assert m.keys == rest + [k];
    forall j
      ensures j in rest <==> j in before.at
    {
      assert j in m.keys <==> j in rest || j == k;
    }
    assert before.at[k := m.at[k]] == m.at;
  }
}
