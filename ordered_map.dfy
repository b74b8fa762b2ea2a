/**
 * The registry collections: string-keyed maps that remember the order in
 * which keys were first set. Setting a key that is already present replaces
 * its value and keeps its position, as a JavaScript `Map` does.
 */
module OrderedMaps {

  import opened Options

  datatype OrderedMap<V> = OrderedMap(keys: seq<string>, values: map<string, V>)

  /** The keys listed once each, and exactly the keys that have a value. */
  ghost predicate Valid<V>(m: OrderedMap<V>)
  {
    (forall i, j :: 0 <= i < j < |m.keys| ==> m.keys[i] != m.keys[j])
    && forall k :: k in m.values <==> k in m.keys
  }

  function Empty<V>(): (m: OrderedMap<V>)
    ensures Valid(m) && m.keys == [] && forall k :: Get(m, k).None?
  {
    OrderedMap([], map[])
  }

  /** `get`. */
  function Get<V>(m: OrderedMap<V>, k: string): Option<V>
  {
    if k in m.values then Some(m.values[k]) else None
  }

  /** `set`: the new value for `k`; a new key goes last, an existing one stays where it is. */
  function Set<V>(m: OrderedMap<V>, k: string, v: V): (r: OrderedMap<V>)
    requires Valid(m)
    ensures Valid(r)
    ensures Get(r, k) == Some(v)
    ensures forall k' :: k' != k ==> Get(r, k') == Get(m, k')
    ensures r.keys == if k in m.keys then m.keys else m.keys + [k]
  {
    if k in m.values then OrderedMap(m.keys, m.values[k := v])
    else OrderedMap(m.keys + [k], m.values[k := v])
  }

  /** The values in key order, as iteration yields them. */
  function Values<V>(m: OrderedMap<V>): (vs: seq<V>)
    requires Valid(m)
    ensures |vs| == |m.keys|
    ensures forall i :: 0 <= i < |m.keys| ==> Get(m, m.keys[i]) == Some(vs[i])
  {
    seq(|m.keys|, i requires 0 <= i < |m.keys| && Valid(m) => m.values[m.keys[i]])
  }

  /** The entries set one after another, in order. */
  function SetAll<V>(m: OrderedMap<V>, entries: seq<(string, V)>): (r: OrderedMap<V>)
    requires Valid(m)
    ensures Valid(r)
  {
    if entries == [] then m
    else
      var last := entries[|entries| - 1];
      Set(SetAll(m, entries[..|entries| - 1]), last.0, last.1)
  }

  /** One entry more is one `set` more. */
  lemma SetAllStep<V>(m: OrderedMap<V>, entries: seq<(string, V)>, i: nat)
    requires Valid(m) && i < |entries|
    ensures SetAll(m, entries[..i + 1]) == Set(SetAll(m, entries[..i]), entries[i].0, entries[i].1)
  {
    assert entries[..i + 1][..i] == entries[..i];
  }

  /** The value of the last entry for `k`, if any. */
  function LastWith<V>(entries: seq<(string, V)>, k: string): (v: Option<V>)
    ensures v.Some? <==> exists i :: 0 <= i < |entries| && entries[i].0 == k
    ensures v.Some? ==> exists i :: 0 <= i < |entries| && entries[i] == (k, v.value)
                                    && forall j :: i < j < |entries| ==> entries[j].0 != k
  {
    if entries == [] then None
    else
      var last := entries[|entries| - 1];
      if last.0 == k then Some(last.1)
      else
        var v := LastWith(entries[..|entries| - 1], k);
        assert forall i :: 0 <= i < |entries| - 1 ==> entries[..|entries| - 1][i] == entries[i];
        v
  }

  /** A later entry with the same key overwrites an earlier one; a key no entry mentions keeps its value. */
  lemma {:induction false} LastWins<V>(m: OrderedMap<V>, entries: seq<(string, V)>, k: string)
    requires Valid(m)
    ensures Get(SetAll(m, entries), k) == if LastWith(entries, k).Some? then LastWith(entries, k) else Get(m, k)
  {
    if entries != [] {
      LastWins(m, entries[..|entries| - 1], k);
    }
  }

  /** The keys already present keep their positions, and each entry adds at most one key. */
  lemma {:induction false} KeysGrowInPlace<V>(m: OrderedMap<V>, entries: seq<(string, V)>)
    requires Valid(m)
    ensures m.keys <= SetAll(m, entries).keys
    ensures |SetAll(m, entries).keys| <= |m.keys| + |entries|
  {
    if entries != [] {
      KeysGrowInPlace(m, entries[..|entries| - 1]);
    }
  }

  /** The keys after the entries are the keys before and the keys of the entries. */
  lemma KeysOfSetAll<V>(m: OrderedMap<V>, entries: seq<(string, V)>, k: string)
    requires Valid(m)
    ensures k in SetAll(m, entries).keys <==> k in m.keys || exists i :: 0 <= i < |entries| && entries[i].0 == k
  {
    LastWins(m, entries, k);
    assert k in SetAll(m, entries).keys <==> Get(SetAll(m, entries), k).Some?;
  }
}
