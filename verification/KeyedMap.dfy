/** A JavaScript `Map` filled under text keys: what it holds, and in which order its values come out. */
module KeyedMap {
  import opened Lists

  ghost predicate Injective<K(!new)>(key: K -> string) {
    forall a, b :: key(a) == key(b) ==> a == b
  }

  /** The map holds exactly the value of each of `ids`, under its key; `keys` is the insertion order. */
  ghost predicate Represents<K, V>(entries: map<string, V>, keys: seq<string>, ids: seq<K>,
    key: K -> string, value: K -> V)
  {
    && |keys| == |ids| && Distinct(ids)
    && (forall text :: text in entries <==> text in keys)
    && (forall i | 0 <= i < |ids| :: keys[i] == key(ids[i]))
    && (forall i | 0 <= i < |keys| :: keys[i] in entries && entries[keys[i]] == value(ids[i]))
  }

  lemma Lookup<K(!new), V>(entries: map<string, V>, keys: seq<string>, ids: seq<K>,
    key: K -> string, value: K -> V, k: K)
    requires Injective(key) && Represents(entries, keys, ids, key, value)
    ensures key(k) in entries <==> k in ids
    ensures k in ids ==> entries[key(k)] == value(k)
  {
  }

  /** Putting a new value for one id keeps the map right, when every other id keeps its value. */
  lemma Put<K(!new), V>(entries: map<string, V>, keys: seq<string>, ids: seq<K>,
    key: K -> string, value: K -> V, value': K -> V, k: K)
    requires Injective(key) && Represents(entries, keys, ids, key, value)
    requires forall other :: other != k ==> value'(other) == value(other)
    ensures if k in ids then Represents(entries[key(k) := value'(k)], keys, ids, key, value')
            else Represents(entries[key(k) := value'(k)], keys + [key(k)], ids + [k], key, value')
  {
  }

  lemma PutTwice<K, V>(entries: map<K, V>, k: K, v: V, v': V)
    ensures entries[k := v][k := v'] == entries[k := v']
  {
  }
}
