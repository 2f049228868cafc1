/** `TwoKeyMap`: a two-level cache, a map from a first key to a map from a
    second key to a value, filled on demand by `computeIfAbsent`. */
module TwoKeyCache {
  import opened Wrappers
  import opened JavaValues

  class TwoKeyMap<K1(==), K2(==), V> {
    var cacheMap: map<K1, map<K2, V>>

    constructor()
      ensures cacheMap == map[]
    {
      cacheMap := map[];
    }

    /** The value stored under `(k1, k2)`, if any. */
    function Lookup(k1: K1, k2: K2): (r: Option<V>)
      reads this
      ensures r.Some? <==> k1 in cacheMap && k2 in cacheMap[k1]
      ensures r.Some? ==> r.value == cacheMap[k1][k2]
    {
      if k1 in cacheMap && k2 in cacheMap[k1] then Some(cacheMap[k1][k2]) else None
    }

    /** `get`: an unknown first key is dereferenced as null; an unknown
        second key gives null. */
    method Get(k1: K1, k2: K2) returns (r: Outcome<Option<V>>)
      ensures r.Err? <==> k1 !in cacheMap
      ensures r.Err? ==> r.error == NullPointer
      ensures r.Ok? ==> r.value == Lookup(k1, k2)
    {
      if k1 !in cacheMap {
        return Err(NullPointer);
      }
      var inner := cacheMap[k1];
      if k2 in inner {
        return Ok(Some(inner[k2]));
      }
      return Ok(None);
    }

    /** `getOrCreateLevelOneCache`: the inner map for `k1`, created by
        `creator` and stored when there is none yet. */
    method GetOrCreateLevelOneCache(k1: K1, creator: K1 -> map<K2, V>) returns (inner: map<K2, V>)
      modifies this
      ensures k1 in old(cacheMap) ==> inner == old(cacheMap)[k1] && cacheMap == old(cacheMap)
      ensures k1 !in old(cacheMap) ==> inner == creator(k1) && cacheMap == old(cacheMap)[k1 := inner]
    {
      if k1 !in cacheMap {
        cacheMap := cacheMap[k1 := creator(k1)];
      }
      inner := cacheMap[k1];
    }

    /** `getLevelOneCache`: the inner map for `k1`, created empty once. */
    method GetLevelOneCache(k1: K1) returns (inner: map<K2, V>)
      modifies this
      ensures k1 in old(cacheMap) ==> inner == old(cacheMap)[k1] && cacheMap == old(cacheMap)
      ensures k1 !in old(cacheMap) ==> inner == map[] && cacheMap == old(cacheMap)[k1 := map[]]
    {
      inner := GetOrCreateLevelOneCache(k1, _ => map[]);
    }

    /** `getOrCreate`: the stored value, or the created one, which is then
        stored; `creator` is called only when nothing is stored. */
    method GetOrCreate(k1: K1, k2: K2, creator: K2 -> V) returns (v: V)
      modifies this
      ensures Lookup(k1, k2) == Some(v)
      ensures old(Lookup(k1, k2)).Some? ==> v == old(Lookup(k1, k2)).value && cacheMap == old(cacheMap)
      ensures old(Lookup(k1, k2)).None? ==> v == creator(k2)
      ensures old(Lookup(k1, k2)).None? ==>
        cacheMap == old(cacheMap)[k1 := old(if k1 in cacheMap then cacheMap[k1] else map[])[k2 := v]]
    {
      var inner := GetLevelOneCache(k1);
      if k2 in inner {
        v := inner[k2];
      } else {
        v := creator(k2);
        cacheMap := cacheMap[k1 := inner[k2 := v]];
      }
    }

    /** `getOrDefault`: like `getOrCreate` with a constant value, so the
        default is stored when nothing was. */
    method GetOrDefault(k1: K1, k2: K2, defaultValue: V) returns (v: V)
      modifies this
      ensures Lookup(k1, k2) == Some(v)
      ensures old(Lookup(k1, k2)).Some? ==> v == old(Lookup(k1, k2)).value && cacheMap == old(cacheMap)
      ensures old(Lookup(k1, k2)).None? ==> v == defaultValue
      ensures old(Lookup(k1, k2)).None? ==>
        cacheMap == old(cacheMap)[k1 := old(if k1 in cacheMap then cacheMap[k1] else map[])[k2 := v]]
    {
      v := GetOrCreate(k1, k2, _ => defaultValue);
    }

    /** `put`: stores `value` under `(k1, k2)`; every other entry, in this
        inner map and in the others, stays as it was. */
    method Put(k1: K1, k2: K2, value: V)
      modifies this
      ensures Lookup(k1, k2) == Some(value)
      ensures cacheMap == old(cacheMap)[k1 := old(if k1 in cacheMap then cacheMap[k1] else map[])[k2 := value]]
    {
      var inner := GetLevelOneCache(k1);
      cacheMap := cacheMap[k1 := inner[k2 := value]];
    }
  }

  /** A value put is read back by `get`, and `getOrCreate` after a miss
      returns the same value on every later call without creating again. */
  method PutThenGet<K1(==), K2(==), V>(cache: TwoKeyMap<K1, K2, V>, k1: K1, k2: K2, value: V, creator: K2 -> V)
    returns (read: Outcome<Option<V>>, created: V, again: V)
    modifies cache
    ensures read == Ok(Some(value))
    ensures created == value && again == value
  {
    cache.Put(k1, k2, value);
    read := cache.Get(k1, k2);
    created := cache.GetOrCreate(k1, k2, creator);
    again := cache.GetOrCreate(k1, k2, creator);
  }
}
