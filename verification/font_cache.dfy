/**
 * The proxy's response cache: a store from the upstream URL to the body and
 * content type that were served for it, each entry with the lifetime it was
 * stored with.
 */
module FontCache {
  import opened Wrappers

  /** The lifetime the cache is created with, five minutes in seconds. */
  const DEFAULT_TIMEOUT: nat := 5 * 60
  /** The lifetime given to every fetched response, a day in seconds. */
  const FETCHED_TIMEOUT: nat := 24 * 60 * 60

  /** What is stored for a URL: the body served and the upstream's Content-Type, if any. */
  datatype Entry = Entry(content: string, contentType: Option<string>)

  class Cache {
    var entries: map<string, Entry>
    var timeouts: map<string, nat>
    const defaultTimeout: nat

    /** Every stored entry has a lifetime. */
    ghost predicate Valid()
      reads this
    {
      entries.Keys == timeouts.Keys
    }

    constructor (defaultTimeout: nat)
      ensures Valid()
      ensures entries == map[] && timeouts == map[]
      ensures this.defaultTimeout == defaultTimeout
    {
      entries := map[];
      timeouts := map[];
      this.defaultTimeout := defaultTimeout;
    }

    /** `cache.get(key)`: the stored entry, or nothing for a key never stored. */
    method Get(key: string) returns (r: Option<Entry>)
      ensures r.Some? <==> key in entries
      ensures r.Some? ==> r.value == entries[key]
    {
      if key in entries {
        r := Some(entries[key]);
      } else {
        r := None;
      }
    }

    /** `cache.set(key, value, timeout)`: stores or replaces the entry for `key`; every other entry stays. */
    method Set(key: string, value: Entry, timeout: nat)
      requires Valid()
      modifies this
      ensures Valid()
      ensures entries == old(entries)[key := value]
      ensures timeouts == old(timeouts)[key := timeout]
    {
      entries := entries[key := value];
      timeouts := timeouts[key := timeout];
    }
  }

  /** What `Valid` buys: a URL is stored exactly when it has a lifetime. */
  lemma StoredHasLifetime(c: Cache, url: string)
    requires c.Valid()
    ensures url in c.entries <==> url in c.timeouts
  {
  }

  /** The proxy's cache as the application creates it: empty, with a five-minute default lifetime. */
  method NewCache() returns (c: Cache)
    ensures fresh(c) && c.Valid()
    ensures c.entries == map[] && c.timeouts == map[]
    ensures c.defaultTimeout == DEFAULT_TIMEOUT
  {
    c := new Cache(DEFAULT_TIMEOUT);
  }
}
