/** The process-wide ephemeral cache: a key -> {value, expiresAt} map whose
    entries expire lazily when they are read and are swept by `Cleanup`.
    The clock (`Date.now()`, milliseconds since the epoch) is the explicit
    parameter `now`. */
module Cache {
  import opened Js

  /** The TTL `set` uses when the caller gives none. */
  const DefaultTtlSeconds := 60

  /** What the cache stores under one key. */
  datatype Entry<V> = Entry(value: V, expiresAt: int)

  /** The expiry test: an entry is dead strictly after its expiry instant. */
  predicate Expired<V>(e: Entry<V>, now: int) {
    now > e.expiresAt
  }

  /** The expiry instant of an entry stored at `now` for `ttlSeconds`. */
  function ExpiryOf(now: int, ttlSeconds: int): int {
    now + ttlSeconds * 1000
  }

  /** What `get(key)` returns when the map is `entries` and the clock reads `now`. */
  function Lookup<V>(entries: map<string, Entry<V>>, key: string, now: int): Option<V> {
    if key in entries && !Expired(entries[key], now) then Some(entries[key].value) else None
  }

  /** The map after `get(key)` or `has(key)`: an expired entry for `key` is deleted. */
  function AfterRead<V>(entries: map<string, Entry<V>>, key: string, now: int): map<string, Entry<V>> {
    if key in entries && Expired(entries[key], now) then entries - {key} else entries
  }

  /** The map after `cleanup()`: every expired entry is deleted. */
  function Swept<V>(entries: map<string, Entry<V>>, now: int): map<string, Entry<V>> {
    map k | k in entries && !Expired(entries[k], now) :: entries[k]
  }

  class SimpleCache<V> {
    var entries: map<string, Entry<V>>

    constructor ()
      ensures entries == map[]
    {
      entries := map[];
    }

    /** `set(key, value, ttlSeconds)`: overwrites the entry for `key` only. */
    method Set(key: string, value: V, now: int, ttlSeconds: int := DefaultTtlSeconds)
      modifies this
      ensures entries == old(entries)[key := Entry(value, ExpiryOf(now, ttlSeconds))]
      ensures forall t | t <= ExpiryOf(now, ttlSeconds) :: Lookup(entries, key, t) == Some(value)
      ensures forall k | k != key :: k in entries <==> k in old(entries)
      ensures forall k | k != key && k in entries :: entries[k] == old(entries)[k]
    {
      entries := entries[key := Entry(value, ExpiryOf(now, ttlSeconds))];
    }

    /** `get(key)`: the live value, or `None` (deleting the entry if it has expired). */
    method Get(key: string, now: int) returns (r: Option<V>)
      modifies this
      ensures r == Lookup(old(entries), key, now)
      ensures entries == AfterRead(old(entries), key, now)
      ensures key !in old(entries) ==> r.None? && entries == old(entries)
      ensures key in old(entries) && Expired(old(entries)[key], now) ==> r.None? && key !in entries
      ensures r.Some? ==> entries == old(entries)
    {
      if key !in entries {
        return None;
      }
      var item := entries[key];
      if now > item.expiresAt {
        entries := entries - {key};
        return None;
      }
      return Some(item.value);
    }

    /** `has(key)`: true exactly when `get(key)` would return a value; the same eviction. */
    method Has(key: string, now: int) returns (b: bool)
      modifies this
      ensures b == Lookup(old(entries), key, now).Some?
      ensures entries == AfterRead(old(entries), key, now)
    {
      if key !in entries {
        return false;
      }
      var item := entries[key];
      if now > item.expiresAt {
        entries := entries - {key};
        return false;
      }
      return true;
    }

    /** `clear()`: the map is emptied. */
    method Clear()
      modifies this
      ensures entries == map[]
      ensures forall k, t :: Lookup(entries, k, t).None?
    {
      entries := map[];
    }

    /** `cleanup()`: deletes exactly the expired entries, one key at a time. */
    method Cleanup(now: int)
      modifies this
      ensures entries == Swept(old(entries), now)
      ensures forall k :: k in entries <==> k in old(entries) && !Expired(old(entries)[k], now)
      ensures forall k | k in entries :: entries[k] == old(entries)[k]
    {
      ghost var original := entries;
      var pending := entries.Keys;
      while pending != {}
        invariant pending <= original.Keys
        invariant entries == map k | k in original && (k in pending || !Expired(original[k], now)) :: original[k]
        decreases pending
      {
        var key :| key in pending;
        var item := entries[key];
        if now > item.expiresAt {
          entries := entries - {key};
        }
        pending := pending - {key};
      }
    }
  }

  /** A value stored at `now` for `ttlSeconds` is returned up to and including
      its expiry instant, and is gone (and evicted by the read) strictly after it. */
  lemma LiveUntilExpiry<V>(entries: map<string, Entry<V>>, key: string, value: V, now: int, ttlSeconds: int, later: int)
    ensures var stored := entries[key := Entry(value, ExpiryOf(now, ttlSeconds))];
            && (later <= now + ttlSeconds * 1000 ==> Lookup(stored, key, later) == Some(value) && AfterRead(stored, key, later) == stored)
            && (later > now + ttlSeconds * 1000 ==> Lookup(stored, key, later) == None && key !in AfterRead(stored, key, later))
  {
  }

  /** Storing under one key changes what no other key reads, at any time. */
  lemma SetIsolatesKey<V>(entries: map<string, Entry<V>>, key: string, value: V, now: int, ttlSeconds: int, other: string, t: int)
    requires other != key
    ensures Lookup(entries[key := Entry(value, ExpiryOf(now, ttlSeconds))], other, t) == Lookup(entries, other, t)
  {
  }

  /** The eviction done by a read is unobservable: at the same or a later instant
      every key reads as it did before the eviction. */
  lemma ReadEvictionUnobservable<V>(entries: map<string, Entry<V>>, key: string, now: int, k: string, later: int)
    requires now <= later
    ensures Lookup(AfterRead(entries, key, now), k, later) == Lookup(entries, k, later)
  {
  }

  /** The sweep is unobservable too: at the sweep instant or any later one every
      key reads as it did before, and sweeping again changes nothing. */
  lemma SweepUnobservable<V>(entries: map<string, Entry<V>>, now: int, k: string, later: int)
    requires now <= later
    ensures Lookup(Swept(entries, now), k, later) == Lookup(entries, k, later)
    ensures Swept(Swept(entries, now), now) == Swept(entries, now)
  {
  }

  /** A later sweep subsumes an earlier one. */
  lemma SweepsCompose<V>(entries: map<string, Entry<V>>, first: int, second: int)
    requires first <= second
    ensures Swept(Swept(entries, first), second) == Swept(entries, second)
  {
  }
}
