/**
 * Cache-aside access to the KV namespace and the `urls` table
 * (src/api/lib/cache.ts). The clock is the parameter `now` (ms) and
 * `isValidUrl`'s URL parser is the oracle `parse`.
 */
module Cache {
  import opened Wrappers
  import opened Store
  import opened Constants
  import V = Validation

  // ---------------------------------------------------------------- URL cache

  /** What `getCachedUrl` finds: nothing, an entry it returns, or a slot it deletes. */
  datatype CacheVerdict = Miss | Hit(entry: CacheEntry) | Evict

  /**
   * The decision of `getCachedUrl`: an absent key is a miss; a stored entry that
   * has expired or whose URL no longer validates is evicted; anything else is a
   * hit. A slot holding some other kind of value is evicted here; in the source
   * reading such a value would throw, but an alias key never holds one, because
   * an alias has no ':' (`Validation.AliasHasNoColon`) while every counter and
   * metadata key does (`RateLimit.RateKeysHoldColon`, "og:" keys).
   */
  function CacheVerdictOf(slots: Slots, alias: string, now: int, parse: V.UrlParser): (v: CacheVerdict)
    ensures v.Miss? <==> Lookup(slots, alias, now).None?
    ensures v.Hit? <==> exists e :: Lookup(slots, alias, now) == Some(UrlEntry(e))
                                    && e.expiresAt >= now && V.IsValidUrl(e.originalUrl, parse)
    ensures v.Hit? ==> Lookup(slots, alias, now) == Some(UrlEntry(v.entry))
  {
    match Lookup(slots, alias, now)
    case None => Miss
    case Some(UrlEntry(e)) =>
      if e.expiresAt < now then Evict
      else if !V.IsValidUrl(e.originalUrl, parse) then Evict
      else Hit(e)
    case Some(_) => Evict
  }

  /** The KV state `getCachedUrl` leaves: the key is deleted on an eviction, untouched otherwise. */
  function AfterCacheRead(slots: Slots, alias: string, now: int, parse: V.UrlParser): Slots {
    if CacheVerdictOf(slots, alias, now, parse).Evict? then slots - {alias} else slots
  }

  /** An entry `getCachedUrl` returns is the stored one, unexpired and with a valid URL. */
  lemma CacheHitIsLive(slots: Slots, alias: string, now: int, parse: V.UrlParser)
    requires CacheVerdictOf(slots, alias, now, parse).Hit?
    ensures var e := CacheVerdictOf(slots, alias, now, parse).entry;
      e.expiresAt >= now && V.IsValidUrl(e.originalUrl, parse)
      && alias in slots && slots[alias].value == UrlEntry(e)
  {
  }

  /**
   * Reading twice is reading once: after a read, the key holds the same hit, or
   * nothing at all; an expired or invalid entry is never found again. Only the
   * read key may change.
   */
  lemma CacheReadSettles(slots: Slots, alias: string, now: int, parse: V.UrlParser)
    ensures var v := CacheVerdictOf(slots, alias, now, parse);
      var after := AfterCacheRead(slots, alias, now, parse);
      CacheVerdictOf(after, alias, now, parse) == (if v.Hit? then v else Miss)
    ensures forall k :: k != alias ==> Lookup(AfterCacheRead(slots, alias, now, parse), k, now) == Lookup(slots, k, now)
  {
  }

  /** The KV state after `setCachedUrl(alias, url, expiresAt)` at time `now`. */
  function SetUrlSlot(slots: Slots, alias: string, originalUrl: string, expiresAt: int, now: int): Slots {
    slots[alias := PutSlot(UrlEntry(CacheEntry(originalUrl, expiresAt)), CACHE_TTL_SECONDS, now)]
  }

  /**
   * `getCachedUrl` after `setCachedUrl` returns what was set, for the KV TTL of
   * one hour and while the entry itself is unexpired and its URL valid.
   */
  lemma SetThenGetUrl(slots: Slots, alias: string, url: string, expiresAt: int, now: int, later: int, parse: V.UrlParser)
    requires now <= later < now + CACHE_TTL_SECONDS * 1000
    requires later <= expiresAt && V.IsValidUrl(url, parse)
    ensures CacheVerdictOf(SetUrlSlot(slots, alias, url, expiresAt, now), alias, later, parse) == Hit(CacheEntry(url, expiresAt))
  {
  }

  /** `getCachedUrl`: read the entry, deleting it when it is expired or its URL fails validation. */
  method GetCachedUrl(cache: KvNamespace, alias: string, now: int, parse: V.UrlParser) returns (r: Option<CacheEntry>)
    modifies cache
    ensures r == (match CacheVerdictOf(old(cache.slots), alias, now, parse)
                  case Hit(e) => Some(e)
                  case _ => None)
    ensures cache.slots == AfterCacheRead(old(cache.slots), alias, now, parse)
  {
    var cached := Lookup(cache.slots, alias, now);
    if cached.None? {
      return None;
    }
    if !cached.value.UrlEntry? {
      cache.Delete(alias);
      return None;
    }
    var entry := cached.value.entry;
    if entry.expiresAt < now {
      cache.Delete(alias);
      return None;
    }
    if !V.IsValidUrl(entry.originalUrl, parse) {
      cache.Delete(alias);
      return None;
    }
    return Some(entry);
  }

  method SetCachedUrl(cache: KvNamespace, alias: string, originalUrl: string, expiresAt: int, now: int)
    modifies cache
    ensures cache.slots == SetUrlSlot(old(cache.slots), alias, originalUrl, expiresAt, now)
  {
    cache.Put(alias, UrlEntry(CacheEntry(originalUrl, expiresAt)), CACHE_TTL_SECONDS, now);
  }

  method DeleteCachedUrl(cache: KvNamespace, alias: string)
    modifies cache
    ensures cache.slots == old(cache.slots) - {alias}
    ensures forall now, parse :: CacheVerdictOf(cache.slots, alias, now, parse).Miss?
  {
    cache.Delete(alias);
  }

  // ---------------------------------------------------------------- OG cache

  /** OG metadata lives under its own key space. */
  function OgKey(alias: string): string {
    "og:" + alias
  }

  /** What `getCachedOgMetadata` answers. */
  datatype OgRead =
    | NotCached
    | CachedNull
    | CachedMeta(meta: OgMetadata)
    | Unexpected(value: KvValue)   // the key holds a value the worker never writes there

  function OgCacheRead(slots: Slots, alias: string, now: int): OgRead {
    match Lookup(slots, OgKey(alias), now)
    case None => NotCached
    case Some(OgNull) => CachedNull
    case Some(OgMeta(m)) => CachedMeta(m)
    case Some(v) => Unexpected(v)
  }

  /** The KV state after `setCachedOgMetadata`: metadata for a day, a failed fetch ("null") for an hour. */
  function SetOgSlot(slots: Slots, alias: string, metadata: Option<OgMetadata>, now: int): Slots {
    match metadata
    case Some(m) => slots[OgKey(alias) := PutSlot(OgMeta(m), OG_CACHE_TTL_SECONDS, now)]
    case None => slots[OgKey(alias) := PutSlot(OgNull, 3600, now)]
  }

  method SetCachedOgMetadata(cache: KvNamespace, alias: string, metadata: Option<OgMetadata>, now: int)
    modifies cache
    ensures cache.slots == SetOgSlot(old(cache.slots), alias, metadata, now)
  {
    if metadata.Some? {
      cache.Put(OgKey(alias), OgMeta(metadata.value), OG_CACHE_TTL_SECONDS, now);
    } else {
      cache.Put(OgKey(alias), OgNull, 3600, now);
    }
  }

  /**
   * The OG cache round trip: what was stored is read back until its TTL runs
   * out (86400 s for metadata, 3600 s for a failed fetch), and "not cached" after.
   */
  lemma OgRoundTrip(slots: Slots, alias: string, metadata: Option<OgMetadata>, now: int, later: int)
    requires now <= later
    ensures var r := OgCacheRead(SetOgSlot(slots, alias, metadata, now), alias, later);
      match metadata
      case Some(m) => r == (if later < now + OG_CACHE_TTL_SECONDS * 1000 then CachedMeta(m) else NotCached)
      case None => r == (if later < now + 3600 * 1000 then CachedNull else NotCached)
  {
  }

  /** An absent OG key reads as "not cached". */
  lemma OgAbsentNotCached(slots: Slots, alias: string, now: int)
    requires OgKey(alias) !in slots
    ensures OgCacheRead(slots, alias, now) == NotCached
  {
  }

  // ---------------------------------------------------------------- urls table

  /**
   * `getUrlFromDb`: the row's URL and expiry, when the row exists, is not yet
   * expired and its URL still validates. Reads only.
   */
  function UrlFromDb(rows: Rows, alias: string, now: int, parse: V.UrlParser): (r: Option<CacheEntry>)
    ensures r.Some? <==> alias in rows && rows[alias].expiresAt >= now && V.IsValidUrl(rows[alias].originalUrl, parse)
    ensures r.Some? ==> r.value == CacheEntry(rows[alias].originalUrl, rows[alias].expiresAt)
  {
    if alias !in rows then None
    else if rows[alias].expiresAt < now then None
    else if !V.IsValidUrl(rows[alias].originalUrl, parse) then None
    else Some(CacheEntry(rows[alias].originalUrl, rows[alias].expiresAt))
  }

  method DeleteExpiredUrl(db: UrlTable, alias: string)
    modifies db
    ensures db.rows == old(db.rows) - {alias}
  {
    db.DeleteRow(alias);
  }

  method IncrementClickCount(db: UrlTable, alias: string)
    modifies db
    ensures db.rows == Clicked(old(db.rows), alias)
  {
    db.IncrementClicks(alias);
  }

  // ---------------------------------------------------------------- cache/table agreement

  /**
   * The cache is a shadow of the table: every URL entry the KV store still
   * serves at `now` copies the URL and expiry of an existing row.
   */
  predicate MirrorsAt(rows: Rows, slots: Slots, now: int) {
    forall a :: a in slots && now < slots[a].deadline && slots[a].value.UrlEntry? ==>
      a in rows && rows[a].originalUrl == slots[a].value.entry.originalUrl
                && rows[a].expiresAt == slots[a].value.entry.expiresAt
  }

  /** Time only retires cache slots, so the shadow property survives the clock moving on. */
  lemma MirrorsLater(rows: Rows, slots: Slots, now: int, later: int)
    requires MirrorsAt(rows, slots, now) && now <= later
    ensures MirrorsAt(rows, slots, later)
  {
  }

  /** Under the shadow property a cache hit gives the same answer as the table. */
  lemma CacheHitAgreesWithDb(rows: Rows, slots: Slots, alias: string, now: int, parse: V.UrlParser)
    requires MirrorsAt(rows, slots, now)
    requires CacheVerdictOf(slots, alias, now, parse).Hit?
    ensures UrlFromDb(rows, alias, now, parse) == Some(CacheVerdictOf(slots, alias, now, parse).entry)
  {
    var e := CacheVerdictOf(slots, alias, now, parse).entry;
    assert slots[alias].value == UrlEntry(e);
  }

  /** A read keeps the shadow property, and after a non-hit the key serves no URL. */
  lemma CacheReadKeepsMirror(rows: Rows, slots: Slots, alias: string, now: int, parse: V.UrlParser)
    requires MirrorsAt(rows, slots, now)
    ensures MirrorsAt(rows, AfterCacheRead(slots, alias, now, parse), now)
    ensures !CacheVerdictOf(slots, alias, now, parse).Hit? ==>
      MirrorsAt(rows - {alias}, AfterCacheRead(slots, alias, now, parse), now)
  {
  }

  /** Caching a row's own URL and expiry keeps the shadow property. */
  lemma SetFromRowKeepsMirror(rows: Rows, slots: Slots, alias: string, now: int)
    requires MirrorsAt(rows, slots, now) && alias in rows
    ensures MirrorsAt(rows, SetUrlSlot(slots, alias, rows[alias].originalUrl, rows[alias].expiresAt, now), now)
  {
  }

  /** Counting clicks leaves URL and expiry, hence the shadow property, alone. */
  lemma ClickKeepsMirror(rows: Rows, slots: Slots, alias: string, now: int)
    requires MirrorsAt(rows, slots, now)
    ensures MirrorsAt(Clicked(rows, alias), slots, now)
  {
  }

  /** Writing a counter or OG value never creates a URL entry, so the shadow property holds. */
  lemma NonUrlPutKeepsMirror(rows: Rows, slots: Slots, key: string, value: KvValue, ttlSeconds: nat, now: int)
    requires MirrorsAt(rows, slots, now) && !value.UrlEntry?
    ensures MirrorsAt(rows, slots[key := PutSlot(value, ttlSeconds, now)], now)
  {
  }
}
