/**
 * The key/value cache with per-entry time-to-live that `Comptroller` is
 * given: `get` answers absent for a missing or expired key, `set` replaces
 * the entry; a TTL of 0 never expires and an omitted TTL takes the cache's
 * standard TTL. Time is an explicit `now`, in seconds.
 */
module TtlCache {
  import opened Results

  /** A stored value and the instant after which it is gone (`None`: never). */
  datatype Entry<V> = Entry(value: V, expiresAt: Option<int>)

  /** The standard TTL the process configures its cache with, in seconds. */
  const STD_TTL: nat := 600

  function ExpiryAfter(ttl: nat, now: int): Option<int> {
    if ttl == 0 then None else Some(now + ttl)
  }

  predicate Live<V>(e: Entry<V>, now: int) {
    e.expiresAt.None? || now <= e.expiresAt.value
  }

  /** `get`: the value, or absent when the key is missing or expired. */
  function Lookup<K, V>(m: map<K, Entry<V>>, key: K, now: int): (r: Option<V>)
    ensures key !in m ==> r.None?
    ensures key in m && m[key].expiresAt.Some? && now > m[key].expiresAt.value ==> r.None?
    ensures key in m && (m[key].expiresAt.None? || now <= m[key].expiresAt.value) ==> r == Some(m[key].value)
  {
    if key in m && Live(m[key], now) then Some(m[key].value) else None
  }

  /**
   * `set(key, value, ttl)` at time `now`: the key now holds the value, with no
   * expiry for TTL 0 and an expiry `ttl` seconds on otherwise; every other
   * entry is kept and no other key appears.
   */
  function Store<K, V>(m: map<K, Entry<V>>, key: K, value: V, ttl: nat, now: int): (r: map<K, Entry<V>>)
    ensures r.Keys == m.Keys + {key}
    ensures r[key].value == value
    ensures r[key].expiresAt == if ttl == 0 then None else Some(now + ttl)
    ensures forall k | k in m && k != key :: r[k] == m[k]
  {
    m[key := Entry(value, ExpiryAfter(ttl, now))]
  }

  /** A stored value is found again until its TTL runs out; with TTL 0 it is found forever. */
  lemma StoreThenLookup<K, V>(m: map<K, Entry<V>>, key: K, value: V, ttl: nat, now: int, later: int)
    requires now <= later
    requires ttl == 0 || later <= now + ttl
    ensures Lookup(Store(m, key, value, ttl, now), key, later) == Some(value)
  {
  }

  /** After its TTL a value stored with a non-zero TTL is absent again. */
  lemma StoreExpires<K, V>(m: map<K, Entry<V>>, key: K, value: V, ttl: nat, now: int, later: int)
    requires ttl > 0 && later > now + ttl
    ensures Lookup(Store(m, key, value, ttl, now), key, later) == None
  {
  }

  /** Storing one key changes no other key's answer. */
  lemma StoreLeavesOtherKeys<K, V>(m: map<K, Entry<V>>, key: K, value: V, ttl: nat, now: int, other: K, t: int)
    requires other != key
    ensures Lookup(Store(m, key, value, ttl, now), other, t) == Lookup(m, other, t)
  {
  }

  /** Every value found in `m` at `now` is still found, unchanged, in `m'`. */
  ghost predicate Extends<K, V>(m: map<K, Entry<V>>, m': map<K, Entry<V>>, now: int) {
    forall k | k in m :: Lookup(m, k, now).Some? ==> Lookup(m', k, now) == Lookup(m, k, now)
  }

  /** Filling a missing key keeps every answer the cache already gave. */
  lemma StoreOnMissExtends<K, V>(m: map<K, Entry<V>>, key: K, value: V, ttl: nat, now: int)
    requires Lookup(m, key, now).None?
    ensures Extends(m, Store(m, key, value, ttl, now), now)
  {
    forall k | Lookup(m, k, now).Some?
      ensures Lookup(Store(m, key, value, ttl, now), k, now) == Lookup(m, k, now)
    {
      StoreLeavesOtherKeys(m, key, value, ttl, now, k, now);
    }
  }

  lemma ExtendsTransitive<K, V>(m1: map<K, Entry<V>>, m2: map<K, Entry<V>>, m3: map<K, Entry<V>>, now: int)
    requires Extends(m1, m2, now) && Extends(m2, m3, now)
    ensures Extends(m1, m3, now)
  {
  }

  /** The shared cache object (a node-cache instance created with the standard TTL). */
  class Cache<K(==), V> {
    var entries: map<K, Entry<V>>

    constructor ()
      ensures entries == map[]
    {
      entries := map[];
    }

    /** `get(key)` at time `now`: found only for a stored key whose entry has not expired. */
    function Get(key: K, now: int): (r: Option<V>)
      reads this
      ensures r.Some? ==> key in entries && Live(entries[key], now) && r.value == entries[key].value
      ensures key in entries && Live(entries[key], now) ==> r.Some?
    {
      Lookup(entries, key, now)
    }

    /** `set(key, value, ttl)`, where an omitted `ttl` takes `STD_TTL`. */
    method Set(key: K, value: V, ttl: Option<nat>, now: int)
      modifies this
      ensures entries == Store(old(entries), key, value, if ttl.Some? then ttl.value else STD_TTL, now)
    {
      entries := Store(entries, key, value, if ttl.Some? then ttl.value else STD_TTL, now);
    }
  }
}
