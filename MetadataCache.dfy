/**
 * The process-wide TTL cache of metadata listings (`_CACHE` and
 * `_fetch_metadata`, identical in both generations of the metadata module).
 * The clock is the parameter `now` and the GET the parameter `response`.
 */
module MetadataCache {
  import opened Py
  import Collections

  /** Ten minutes. */
  const DefaultTtlSeconds := 600

  /** A cached listing and the time it was fetched. */
  datatype CacheEntry = CacheEntry(ts: int, data: seq<map<string, Json>>)

  /** `f"{client.base_url}:{endpoint}"`. */
  function CacheKey(baseUrl: string, endpoint: string): (k: string)
    ensures |k| == |baseUrl| + 1 + |endpoint| && k[|baseUrl|] == ':'
  {
    baseUrl + ":" + endpoint
  }

  /** Whether `key` holds an entry younger than `ttl` at `now`. */
  predicate Hit(entries: map<string, CacheEntry>, key: string, now: int, ttl: int)
  {
    key in entries && now - entries[key].ts < ttl
  }

  /** The listing a GET answered with `response` yields: its dict elements, or the error it raised. */
  function Listing(response: Result<map<string, Json>>): Result<seq<map<string, Json>>>
  {
    var payload :- response;
    Collections.EmbeddedElements(payload)
  }

  /** Keys that share a base URL but name different endpoints never collide. */
  lemma CacheKeyInjective(baseUrl: string, e1: string, e2: string)
    requires CacheKey(baseUrl, e1) == CacheKey(baseUrl, e2)
    ensures e1 == e2
  {
    var k1 := CacheKey(baseUrl, e1);
    var k2 := CacheKey(baseUrl, e2);
    assert e1 == k1[|baseUrl| + 1..];
    assert e2 == k2[|baseUrl| + 1..];
  }

  /** A listing stored at `now` is served at any time before `now + ttl`, and not from then on. */
  lemma StoredEntryHits(entries: map<string, CacheEntry>, key: string, items: seq<map<string, Json>>,
                        now: int, later: int, ttl: int)
    requires now <= later
    ensures Hit(entries[key := CacheEntry(now, items)], key, later, ttl) <==> later < now + ttl
  {
  }

  class Cache {
    /** `_CACHE`: cache key to entry. */
    var entries: map<string, CacheEntry>

    constructor ()
      ensures entries == map[]
    {
      entries := map[];
    }

    /**
     * `_fetch_metadata`: a fresh entry is served without a request;
     * otherwise exactly one GET is made and, when it yields a listing, the
     * entry under this key alone is replaced, stamped `now`. A failed GET
     * or a malformed listing propagates and leaves the cache as it was.
     */
    method FetchMetadata(baseUrl: string, endpoint: string, now: int, ttl: int, response: Result<map<string, Json>>)
      returns (r: Result<seq<map<string, Json>>>, requested: bool)
      modifies this
      ensures var key := CacheKey(baseUrl, endpoint);
        Hit(old(entries), key, now, ttl) ==> !requested && r == Ok(old(entries)[key].data) && entries == old(entries)
      ensures var key := CacheKey(baseUrl, endpoint);
        !Hit(old(entries), key, now, ttl) ==> requested && r == Listing(response)
      ensures var key := CacheKey(baseUrl, endpoint);
        !Hit(old(entries), key, now, ttl) && r.Ok? ==> entries == old(entries)[key := CacheEntry(now, r.value)]
      ensures r.Err? ==> entries == old(entries)
    {
      var key := CacheKey(baseUrl, endpoint);
      if key in entries && now - entries[key].ts < ttl {
        return Ok(entries[key].data), false;
      }
      requested := true;
      r := Listing(response);
      if r.Ok? {
        entries := entries[key := CacheEntry(now, r.value)];
      }
    }
  }

  /**
   * Two lookups of the same listing within the TTL make one request: the
   * second is served from the cache with the same items.
   */
  method TwoCallsOneFetch(baseUrl: string, endpoint: string, now: int, elapsed: nat, response: Result<map<string, Json>>)
    returns (first: Result<seq<map<string, Json>>>, second: Result<seq<map<string, Json>>>, requests: nat)
    requires elapsed < DefaultTtlSeconds
    ensures first == Listing(response)
    ensures first.Ok? ==> requests == 1 && second == first
    ensures first.Err? ==> requests == 2 && second == first
  {
    var cache := new Cache();
    var requested: bool;
    first, requested := cache.FetchMetadata(baseUrl, endpoint, now, DefaultTtlSeconds, response);
    assert requested;
    second, requested := cache.FetchMetadata(baseUrl, endpoint, now + elapsed, DefaultTtlSeconds, response);
    requests := if requested then 2 else 1;
  }
}
