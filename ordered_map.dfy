/** A JavaScript plain object or `Map` with string keys: the keys in insertion order plus
  * the table. Assigning an existing key keeps its place; a new key goes last. */
module OrderedMaps {
  import opened Wrappers

  datatype OrderedMap<V> = OrderedMap(keys: seq<string>, table: map<string, V>) {
    /** Keys are distinct and are exactly the keys of the table. */
    predicate Valid() {
      (forall i, j :: 0 <= i < j < |keys| ==> keys[i] != keys[j])
      && (forall k :: k in table ==> k in keys)
      && (forall i :: 0 <= i < |keys| ==> keys[i] in table)
    }

    function Size(): nat { |keys| }
  }

  function Empty<V>(): (m: OrderedMap<V>)
    ensures m.Valid() && m.Size() == 0
  {
    OrderedMap([], map[])
  }

  /** `obj[key]`, with `undefined` as `None`. */
  function Get<V>(m: OrderedMap<V>, key: string): Option<V>
  {
    if key in m.table then Some(m.table[key]) else None
  }

  /** `obj[key] = value` */
  function Put<V>(m: OrderedMap<V>, key: string, value: V): (r: OrderedMap<V>)
    requires m.Valid()
    ensures r.Valid()
    ensures Get(r, key) == Some(value)
    ensures forall k :: k != key ==> Get(r, k) == Get(m, k)
    ensures key in m.table ==> r.keys == m.keys
    ensures key !in m.table ==> r.keys == m.keys + [key]
  {
    if key in m.table then OrderedMap(m.keys, m.table[key := value])
    else OrderedMap(m.keys + [key], m.table[key := value])
  }

  /** Assigning the keys of `keys`, in order, their values from `table`. */
  function PutAll<V>(acc: OrderedMap<V>, keys: seq<string>, table: map<string, V>): OrderedMap<V>
    requires acc.Valid()
    requires forall i :: 0 <= i < |keys| ==> keys[i] in table
    decreases |keys|
  {
    if keys == [] then acc else PutAll(Put(acc, keys[0], table[keys[0]]), keys[1..], table)
  }

  /** A map whose keys are the first `i` keys of `m`, with the values they have in `m`. */
  ghost predicate PrefixOf<V>(acc: OrderedMap<V>, m: OrderedMap<V>, i: nat) {
    i <= |m.keys| && acc.keys == m.keys[..i]
    && forall k :: k in acc.table ==> k in m.table && acc.table[k] == m.table[k]
  }

  /** Re-inserting the next key of `m` extends the prefix by one. */
  lemma RebuildStep<V>(m: OrderedMap<V>, i: nat, acc: OrderedMap<V>)
    requires m.Valid() && acc.Valid() && i < |m.keys| && PrefixOf(acc, m, i)
    ensures PrefixOf(Put(acc, m.keys[i], m.table[m.keys[i]]), m, i + 1)
  {
    var k := m.keys[i];
    assert k !in acc.keys;
    assert m.keys[..i] + [k] == m.keys[..i + 1];
  }

  /** The whole of `m` as a prefix is `m` itself. */
  lemma RebuildDone<V>(m: OrderedMap<V>, acc: OrderedMap<V>)
    requires m.Valid() && acc.Valid() && PrefixOf(acc, m, |m.keys|)
    ensures acc == m
  {
    assert m.keys[..|m.keys|] == m.keys;
    assert acc.table == m.table;
  }

  /** Re-inserting every entry of a map in its own order rebuilds it. */
  lemma {:induction false} PutAllRebuilds<V>(m: OrderedMap<V>, i: nat, acc: OrderedMap<V>)
    requires m.Valid() && acc.Valid() && PrefixOf(acc, m, i)
    ensures PutAll(acc, m.keys[i..], m.table) == m
    decreases |m.keys| - i
  {
    if i == |m.keys| {
      RebuildDone(m, acc);
    } else {
      var k := m.keys[i];
      var acc' := Put(acc, k, m.table[k]);
      RebuildStep(m, i, acc);
      assert m.keys[i..][1..] == m.keys[i + 1..];
      PutAllRebuilds(m, i + 1, acc');
    }
  }

  lemma RebuildFromEmpty<V>(m: OrderedMap<V>)
    requires m.Valid()
    ensures PutAll(Empty(), m.keys, m.table) == m
  {
    assert m.keys[..0] == [];
    assert m.keys[0..] == m.keys;
    PutAllRebuilds(m, 0, Empty());
  }
}
