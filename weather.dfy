/** The weather proxy endpoint and its in-memory cache: entries keyed by
    `type_lat_lon`, served while younger than five minutes, written after each successful
    upstream fetch and pruned periodically. */
module Weather {
  import opened Strings

  /** A cached upstream reply and the time it was stored, in milliseconds. */
  datatype Entry = Entry(data: string, timestamp: int)

  datatype WeatherReply =
    | MissingCoordinates         // 400 "Latitude and longitude are required"
    | FromCache(data: string)    // 200, cached data
    | InvalidType                // 400 "Invalid type parameter"
    | Fetched(data: string)      // 200, fresh data
    | FetchFailed                // 500 "Failed to fetch weather data"

  const CACHE_DURATION: int := 5 * 60 * 1000
  const DEFAULT_TYPE: string := "forecast"

  /** The request types the endpoint knows how to fetch. */
  predicate KnownType(t: string) {
    t == "points" || t == "forecast" || t == "alerts"
  }

  /** `searchParams.get('type') || 'forecast'`. */
  function RequestType(kind: Option<string>): (t: string)
    ensures t != ""
    ensures kind.Some? && kind.value != "" ==> t == kind.value
  {
    if kind.Some? && kind.value != "" then kind.value else DEFAULT_TYPE
  }

  function CacheKey(t: string, lat: string, lon: string): string {
    t + "_" + lat + "_" + lon
  }

  /** A lookup serves an entry only while it is strictly younger than the cache duration. */
  predicate Servable(e: Entry, now: int) {
    now - e.timestamp < CACHE_DURATION
  }

  /** Cleanup deletes an entry only once it is strictly older than the cache duration. */
  predicate Stale(e: Entry, now: int) {
    now - e.timestamp > CACHE_DURATION
  }

  /** The cache after a cleanup at `now`: exactly the entries that are not stale. */
  function Pruned(m: map<string, Entry>, now: int): (p: map<string, Entry>)
    ensures forall k :: k in p <==> k in m && !Stale(m[k], now)
    ensures forall k | k in p :: p[k] == m[k]
  {
    map k | k in m && !Stale(m[k], now) :: m[k]
  }

  /** An entry that a lookup would still serve survives a cleanup at the same time; an entry
      exactly one cache duration old is no longer served but is not yet deleted. */
  lemma BoundaryAsymmetry(e: Entry, now: int)
    ensures Servable(e, now) ==> !Stale(e, now)
    ensures now - e.timestamp == CACHE_DURATION ==> !Servable(e, now) && !Stale(e, now)
  {
  }

  /** Keys built from distinct known types never collide, since no known type holds `_`. */
  lemma KnownKeysStartWithType(t: string, lat: string, lon: string)
    requires KnownType(t)
    ensures FirstField(CacheKey(t, lat, lon), '_') == t
  {
    assert CacheKey(t, lat, lon) == t + ['_'] + (lat + "_" + lon);
    FirstFieldOfJoin(t, '_', lat + "_" + lon);
  }

  /** In a cache holding only keys of known types, the key of an unknown type without `_`
      is never present, so such a request gets the 400 reply and leaves the cache alone. */
  lemma UnknownTypeMisses(m: map<string, Entry>, t: string, lat: string, lon: string)
    requires forall k | k in m :: KnownType(FirstField(k, '_'))
    requires !KnownType(t) && '_' !in t
    ensures CacheKey(t, lat, lon) !in m
  {
    assert CacheKey(t, lat, lon) == t + ['_'] + (lat + "_" + lon);
    FirstFieldOfJoin(t, '_', lat + "_" + lon);
  }

  /** An unknown type can still be answered from the cache when, joined with the
      coordinates, it spells a key written for a known type: type `points_1` with latitude
      `2` and longitude `3` reads the entry stored for type `points`, latitude `1_2`. */
  lemma UnknownTypeKeyCollides()
    ensures !KnownType("points_1")
    ensures CacheKey("points_1", "2", "3") == CacheKey("points", "1_2", "3")
  {
  }

  /** The process-wide cache. */
  class WeatherCache {
    var entries: map<string, Entry>

    /** Every entry was written for a known type, so its key starts with one. */
    ghost predicate Valid()
      reads this
    {
      forall k | k in entries :: KnownType(FirstField(k, '_'))
    }

    constructor()
      ensures entries == map[] && Valid()
    {
      entries := map[];
    }

    /** GET with query parameters `lat`, `lon` and `type` (the empty string or `None` for a
        missing one) at time `now`; `upstream` is the outcome of the upstream fetches for this
        request: the data, or `None` when a fetch fails or throws. */
    method Get(lat: string, lon: string, kind: Option<string>, now: int, upstream: Option<string>)
      returns (reply: WeatherReply)
      requires Valid()
      modifies this`entries
      ensures Valid()
      ensures lat == "" || lon == "" ==> reply == MissingCoordinates && entries == old(entries)
      ensures lat != "" && lon != "" ==>
                var t := RequestType(kind);
                var key := CacheKey(t, lat, lon);
                if key in old(entries) && Servable(old(entries)[key], now) then
                  reply == FromCache(old(entries)[key].data) && entries == old(entries)
                else if !KnownType(t) then
                  reply == InvalidType && entries == old(entries)
                else if upstream.None? then
                  reply == FetchFailed && entries == old(entries)
                else
                  reply == Fetched(upstream.value) && entries == old(entries)[key := Entry(upstream.value, now)]
    {
      if lat == "" || lon == "" {
        return MissingCoordinates;
      }
      var t := RequestType(kind);
      var key := CacheKey(t, lat, lon);
      if key in entries && now - entries[key].timestamp < CACHE_DURATION {
        return FromCache(entries[key].data);
      }
      if !KnownType(t) {
        return InvalidType;
      }
      if upstream.None? {
        return FetchFailed;
      }
      KnownKeysStartWithType(t, lat, lon);
      entries := entries[key := Entry(upstream.value, now)];
      reply := Fetched(upstream.value);
    }

    /** The periodic sweep: visit every key and delete the entries that are stale at `now`. */
    method Cleanup(now: int)
      requires Valid()
      modifies this`entries
      ensures Valid()
      ensures entries == Pruned(old(entries), now)
    {
      var pending := entries.Keys;
      SameEntries(entries, Sweeping(old(entries), pending, now));
      while pending != {}
        invariant pending <= old(entries).Keys
        invariant entries == Sweeping(old(entries), pending, now)
        decreases |pending|
      {
        var k :| k in pending;
        SweepStep(old(entries), pending, k, now);
        if now - entries[k].timestamp > CACHE_DURATION {
          entries := entries - {k};
        }
        pending := pending - {k};
      }
      SameEntries(Sweeping(old(entries), {}, now), Pruned(old(entries), now));
      assert entries.Keys <= old(entries).Keys;
    }
  }

  /** The cache part-way through a sweep that still has `pending` keys to visit: the visited
      stale entries are gone, everything else is as it was. */
  function Sweeping(m: map<string, Entry>, pending: set<string>, now: int): map<string, Entry> {
    map k | k in m && (k in pending || !Stale(m[k], now)) :: m[k]
  }

  /** Visiting one pending key removes it exactly when its entry is stale. */
  lemma SweepStep(m: map<string, Entry>, pending: set<string>, k: string, now: int)
    requires k in pending && pending <= m.Keys
    ensures k in Sweeping(m, pending, now) && Sweeping(m, pending, now)[k] == m[k]
    ensures Stale(m[k], now) ==> Sweeping(m, pending - {k}, now) == Sweeping(m, pending, now) - {k}
    ensures !Stale(m[k], now) ==> Sweeping(m, pending - {k}, now) == Sweeping(m, pending, now)
  {
    if Stale(m[k], now) {
      SameEntries(Sweeping(m, pending - {k}, now), Sweeping(m, pending, now) - {k});
    } else {
      SameEntries(Sweeping(m, pending - {k}, now), Sweeping(m, pending, now));
    }
  }

  lemma SameEntries(a: map<string, Entry>, b: map<string, Entry>)
    requires forall k :: k in a <==> k in b
    requires forall k | k in a :: a[k] == b[k]
    ensures a == b
  {
  }

  /** A write touches only its own key. */
  lemma WriteIsLocal(m: map<string, Entry>, key: string, e: Entry, other: string)
    requires other != key
    ensures other in m[key := e] <==> other in m
    ensures other in m ==> m[key := e][other] == m[other]
  {
  }

  /** Cleanup never deletes an entry that a lookup at the same time would serve, and a
      second cleanup at the same time deletes nothing more. */
  lemma PrunedKeepsServable(m: map<string, Entry>, now: int, k: string)
    requires k in m && Servable(m[k], now)
    ensures k in Pruned(m, now) && Pruned(m, now)[k] == m[k]
    ensures Pruned(Pruned(m, now), now) == Pruned(m, now)
  {
  }
}
