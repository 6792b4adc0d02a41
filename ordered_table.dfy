/**
 * An id-keyed table with the semantics of a Python dict: iteration follows the
 * order in which keys were first inserted, and assigning to an existing key
 * replaces its value without moving it.
 */
module OrderedTable {

  datatype Table<V> = Table(keys: seq<string>, entries: map<string, V>)

  /** Every key appears once in the iteration order, and exactly the stored keys appear. */
  ghost predicate Valid<V>(t: Table<V>)
  {
    && (forall i, j :: 0 <= i < j < |t.keys| ==> t.keys[i] != t.keys[j])
    && (forall i :: 0 <= i < |t.keys| ==> t.keys[i] in t.entries)
    && (forall k :: k in t.entries ==> k in t.keys)
  }

  function Empty<V>(): (t: Table<V>)
    ensures Valid(t) && t.entries == map[] && t.keys == []
  {
    Table([], map[])
  }

  /** `d[k] = v` */
  function Insert<V>(t: Table<V>, k: string, v: V): (r: Table<V>)
    requires Valid(t)
    ensures Valid(r)
    ensures r.entries == t.entries[k := v]
    ensures k in t.entries ==> r.keys == t.keys
    ensures k !in t.entries ==> r.keys == t.keys + [k]
  {
    if k in t.entries then Table(t.keys, t.entries[k := v])
    else Table(t.keys + [k], t.entries[k := v])
  }

  /** `list(d.values())`: the values in iteration order. */
  function Values<V>(t: Table<V>): (vs: seq<V>)
    requires Valid(t)
    ensures |vs| == |t.keys|
    ensures forall i :: 0 <= i < |vs| ==> vs[i] == t.entries[t.keys[i]]
  {
    seq(|t.keys|, i requires 0 <= i < |t.keys| => t.entries[t.keys[i]])
  }

  /** After an insertion, the key maps to the new value and every other key is untouched. */
  lemma InsertOverwrites<V>(t: Table<V>, k: string, v: V, other: string)
    requires Valid(t) && other != k
    ensures k in Insert(t, k, v).entries && Insert(t, k, v).entries[k] == v
    ensures (other in Insert(t, k, v).entries) == (other in t.entries)
    ensures other in t.entries ==> Insert(t, k, v).entries[other] == t.entries[other]
  {
  }

  /** Inserting never removes a key and never changes the position of an existing key. */
  lemma InsertKeepsOrder<V>(t: Table<V>, k: string, v: V)
    requires Valid(t)
    ensures |Insert(t, k, v).keys| >= |t.keys|
    ensures forall i :: 0 <= i < |t.keys| ==> Insert(t, k, v).keys[i] == t.keys[i]
  {
  }
}
