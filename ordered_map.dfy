// A Python `dict[str, V]`: a map that remembers the order in which its keys
// were first inserted. Assigning to an existing key replaces the value and
// keeps the key where it was.
module OrderedMap {
  import opened Platform

  datatype Table<V> = Table(keys: seq<string>, entries: map<string, V>)

  /** The keys are distinct and are exactly the keys of the map. */
  ghost predicate Valid<V>(t: Table<V>)
  {
    && (forall i, j :: 0 <= i < j < |t.keys| ==> t.keys[i] != t.keys[j])
    && (forall k :: k in t.entries <==> k in t.keys)
  }

  /** `{}` */
  function Empty<V>(): (t: Table<V>)
    ensures Valid(t) && t.keys == []
  {
    Table([], map[])
  }

  /** `d[k] = v` */
  function Put<V>(t: Table<V>, k: string, v: V): (r: Table<V>)
    requires Valid(t)
    ensures Valid(r)
    ensures Lookup(r, k) == Some(v)
    ensures forall j :: j != k ==> Lookup(r, j) == Lookup(t, j)
    ensures |t.keys| <= |r.keys| && r.keys[..|t.keys|] == t.keys
    ensures k in t.keys ==> r.keys == t.keys
    ensures k !in t.keys ==> r.keys == t.keys + [k]
  {
    if k in t.keys then Table(t.keys, t.entries[k := v])
    else Table(t.keys + [k], t.entries[k := v])
  }

  /** `d.get(k)` */
  function Lookup<V>(t: Table<V>, k: string): Option<V>
  {
    if k in t.entries then Some(t.entries[k]) else None
  }

  /** `d.values()` in iteration order. */
  function Values<V>(t: Table<V>): (vs: seq<V>)
    requires Valid(t)
    ensures |vs| == |t.keys|
    ensures forall i :: 0 <= i < |t.keys| ==> Lookup(t, t.keys[i]) == Some(vs[i])
  {
    seq(|t.keys|, i requires 0 <= i < |t.keys| => t.entries[t.keys[i]])
  }
}
