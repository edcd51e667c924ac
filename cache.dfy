/**
 * The process-wide TTL cache of `Backend/app/services/cache.py`: a dictionary
 * from key to `(timestamp, value)`. Entries older than the expiry are removed
 * when they are read. The clock (`time.time()`) is passed in as `now`.
 */
module Cache {
  import opened Wrappers

  /** The default validity of an entry: 10 minutes. */
  const DefaultExpireSeconds: int := 600

  datatype Entry<V> = Entry(timestamp: real, value: V)

  predicate IsFresh<V>(e: Entry<V>, now: real, expireSeconds: int) {
    now - e.timestamp < expireSeconds as real
  }

  /** What `get_cache(key, expire_seconds)` returns at time `now`. */
  function Lookup<V>(entries: map<string, Entry<V>>, key: string, now: real, expireSeconds: int): (r: Option<V>)
    ensures r.Some? ==> key in entries && r.value == entries[key].value
  {
    if key in entries && IsFresh(entries[key], now, expireSeconds) then Some(entries[key].value) else None
  }

  /** The dictionary after `get_cache(key, expire_seconds)` at time `now`. */
  function AfterLookup<V>(entries: map<string, Entry<V>>, key: string, now: real, expireSeconds: int): (r: map<string, Entry<V>>)
    ensures r.Keys <= entries.Keys && entries.Keys - r.Keys <= {key}
    ensures forall k :: k in r ==> r[k] == entries[k]
  {
    if key in entries && !IsFresh(entries[key], now, expireSeconds) then entries - {key} else entries
  }

  /** The dictionary after `set_cache(key, value)` at time `now`. */
  function Store<V>(entries: map<string, Entry<V>>, key: string, value: V, now: real): (r: map<string, Entry<V>>)
    ensures key in r && r[key] == Entry(now, value)
    ensures r.Keys == entries.Keys + {key}
  {
    entries[key := Entry(now, value)]
  }

  class TtlCache<V> {
    var entries: map<string, Entry<V>>

    constructor ()
      ensures entries == map[]
    {
      entries := map[];
    }

    /** `get_cache`: a fresh entry's value, or `None` after evicting an expired entry. */
    method Get(key: string, now: real, expireSeconds: int := DefaultExpireSeconds) returns (r: Option<V>)
      modifies this
      ensures r == Lookup(old(entries), key, now, expireSeconds)
      ensures entries == AfterLookup(old(entries), key, now, expireSeconds)
    {
      r := None;
      if key in entries {
        var e := entries[key];
        if now - e.timestamp < expireSeconds as real {
          r := Some(e.value);
        } else {
          entries := entries - {key};
        }
      }
    }

    /** `set_cache`: stores `value` under `key`, stamped with `now`. */
    method Set(key: string, value: V, now: real)
      modifies this
      ensures entries == Store(old(entries), key, value, now)
    {
      entries := entries[key := Entry(now, value)];
    }
  }

  // ----- Properties of the cache -----

  /** A value set at `t` is returned by a read at `now` while `now - t < expireSeconds`, and that read evicts nothing. */
  lemma SetThenGetFresh<V>(entries: map<string, Entry<V>>, key: string, value: V, t: real, now: real, expireSeconds: int)
    requires now - t < expireSeconds as real
    ensures Lookup(Store(entries, key, value, t), key, now, expireSeconds) == Some(value)
    ensures AfterLookup(Store(entries, key, value, t), key, now, expireSeconds) == Store(entries, key, value, t)
  {
  }

  /** Once `now - timestamp >= expireSeconds` the read returns `None` and removes exactly that key. */
  lemma ExpiredIsEvicted<V>(entries: map<string, Entry<V>>, key: string, now: real, expireSeconds: int)
    requires key in entries && now - entries[key].timestamp >= expireSeconds as real
    ensures Lookup(entries, key, now, expireSeconds) == None
    ensures AfterLookup(entries, key, now, expireSeconds) == entries - {key}
    ensures key !in AfterLookup(entries, key, now, expireSeconds)
  {
  }

  /** A read of an absent key returns `None` and leaves the cache as it was. */
  lemma AbsentIsMiss<V>(entries: map<string, Entry<V>>, key: string, now: real, expireSeconds: int)
    requires key !in entries
    ensures Lookup(entries, key, now, expireSeconds) == None
    ensures AfterLookup(entries, key, now, expireSeconds) == entries
  {
  }

  /** A read alters no entry other than its own key, and a hit alters nothing at all. */
  lemma LookupFrame<V>(entries: map<string, Entry<V>>, key: string, other: string, now: real, expireSeconds: int)
    requires other != key
    ensures other in AfterLookup(entries, key, now, expireSeconds) <==> other in entries
    ensures other in entries ==> AfterLookup(entries, key, now, expireSeconds)[other] == entries[other]
    ensures Lookup(entries, key, now, expireSeconds).Some? ==> AfterLookup(entries, key, now, expireSeconds) == entries
  {
  }

  /** A read returns a value exactly when the key holds an entry that is still fresh. */
  lemma LookupHitIff<V>(entries: map<string, Entry<V>>, key: string, now: real, expireSeconds: int)
    ensures Lookup(entries, key, now, expireSeconds).Some?
        <==> key in entries && now - entries[key].timestamp < expireSeconds as real
    ensures Lookup(entries, key, now, expireSeconds).Some? ==> Lookup(entries, key, now, expireSeconds).value == entries[key].value
  {
  }

  /** `set_cache` replaces any earlier entry for the key, with a new timestamp, and keeps every other key. */
  lemma SetOverwrites<V>(entries: map<string, Entry<V>>, key: string, value: V, now: real, other: string)
    requires other != key
    ensures Store(entries, key, value, now)[key] == Entry(now, value)
    ensures other in Store(entries, key, value, now) <==> other in entries
    ensures other in entries ==> Store(entries, key, value, now)[other] == entries[other]
  {
  }
}
