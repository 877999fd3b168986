/**
 * The list cache: a map from a list page's key to the data it saved, the scroll position
 * and the time of saving. An entry is good for five minutes; reading an expired entry
 * deletes it. The clock (`Date.now()`) and `window.scrollY` are parameters.
 */
module ListCache {
  import opened Wrappers

  /** Five minutes, in milliseconds. */
  const Ttl := 5 * 60 * 1000

  datatype Entry<D> = Entry(data: D, scrollY: int, timestamp: int)

  datatype Restored<D> = Restored(data: D, scrollY: int)

  /** An entry saved at `timestamp` is expired at `now` when more than the TTL has passed. */
  predicate Expired<D>(e: Entry<D>, now: int) { now - e.timestamp > Ttl }

  /** What `restore` returns: nothing for a missing or expired entry, else the saved data
      and scroll position. */
  function Lookup<D>(m: map<string, Entry<D>>, key: string, now: int): (r: Option<Restored<D>>)
    ensures r.Some? <==> key in m && now - m[key].timestamp <= 300000
    ensures r.Some? ==> r.value == Restored(m[key].data, m[key].scrollY)
  {
    if key !in m then None
    else if Expired(m[key], now) then None
    else Some(Restored(m[key].data, m[key].scrollY))
  }

  /** The map after `restore`: the expired entry read is deleted; nothing else changes. */
  function AfterLookup<D>(m: map<string, Entry<D>>, key: string, now: int): (m': map<string, Entry<D>>)
    ensures key in m && Expired(m[key], now) ==> m'.Keys == m.Keys - {key}
    ensures !(key in m && Expired(m[key], now)) ==> m' == m
    ensures forall k :: k in m' ==> k in m && m'[k] == m[k]
  {
    if key in m && Expired(m[key], now) then m - {key} else m
  }

  /** A save followed by a restore of the same key within the TTL (the bound included)
      gives back what was saved. */
  lemma SaveThenRestore<D>(m: map<string, Entry<D>>, key: string, data: D, scrollY: int, saved: int, now: int)
    requires saved <= now <= saved + Ttl
    ensures Lookup(m[key := Entry(data, scrollY, saved)], key, now) == Some(Restored(data, scrollY))
    ensures AfterLookup(m[key := Entry(data, scrollY, saved)], key, now) == m[key := Entry(data, scrollY, saved)]
  {
  }

  /** Once an entry has expired and been read, every later read of its key finds nothing,
      until it is saved again. */
  lemma ExpiredStaysGone<D>(m: map<string, Entry<D>>, key: string, now: int, later: int)
    requires key in m && Expired(m[key], now)
    ensures Lookup(AfterLookup(m, key, now), key, later).None?
  {
  }

  /** The cache provider. */
  class Provider<D> {
    var entries: map<string, Entry<D>>

    constructor ()
      ensures entries == map[]
    {
      entries := map[];
    }

    /** `save`: the entry for `key` becomes the data with the current scroll position and
        time; every other key keeps its entry. */
    method Save(key: string, data: D, scrollY: int, now: int)
      modifies this
      ensures entries == old(entries)[key := Entry(data, scrollY, now)]
      ensures forall k :: k != key && k in old(entries) ==> k in entries && entries[k] == old(entries)[k]
    {
      entries := entries[key := Entry(data, scrollY, now)];
    }

    /** `restore` */
    method Restore(key: string, now: int) returns (r: Option<Restored<D>>)
      modifies this
      ensures r == Lookup(old(entries), key, now)
      ensures entries == AfterLookup(old(entries), key, now)
    {
      if key !in entries {
        return None;
      }
      var e := entries[key];
      if now - e.timestamp > Ttl {
        entries := entries - {key};
        return None;
      }
      r := Some(Restored(e.data, e.scrollY));
    }
  }

  /** `useListCache(key)`: the provider's operations with the key fixed. */
  class Binding<D> {
    const provider: Provider<D>
    const key: string

    constructor (provider: Provider<D>, key: string)
      ensures this.provider == provider && this.key == key
    {
      this.provider := provider;
      this.key := key;
    }

    method Save(data: D, scrollY: int, now: int)
      modifies provider
      ensures provider.entries == old(provider.entries)[key := Entry(data, scrollY, now)]
    {
      provider.Save(key, data, scrollY, now);
    }

    method Restore(now: int) returns (r: Option<Restored<D>>)
      modifies provider
      ensures r == Lookup(old(provider.entries), key, now)
      ensures provider.entries == AfterLookup(old(provider.entries), key, now)
    {
      r := provider.Restore(key, now);
    }
  }
}
