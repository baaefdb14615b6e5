/**
 * The two stores the worker talks to, as mutable objects.
 *
 * The KV namespace (`CACHE`) maps keys to a stored value and an expiry
 * deadline in milliseconds: `put(key, v, { expirationTtl })` stores the value
 * with deadline `now + ttl * 1000`, and `get` sees a slot only before its
 * deadline. Values are typed by what the worker writes under each key space:
 * URL cache entries, OG metadata or the literal "null", and decimal counters.
 *
 * The D1 `urls` table maps an alias to its row.
 */
module Store {
  import opened Wrappers

  /** `CacheEntry` of src/api/types.ts; also the shape of `UrlRecord`. */
  datatype CacheEntry = CacheEntry(originalUrl: string, expiresAt: int)

  /** `OgMetadata` of src/api/lib/ogFetcher.ts. */
  datatype OgMetadata = OgMetadata(
    title: Option<string>,
    description: Option<string>,
    image: Option<string>,
    siteName: Option<string>)

  /** What a KV value decodes to. */
  datatype KvValue =
    | UrlEntry(entry: CacheEntry)   // JSON of a CacheEntry, under an alias
    | OgMeta(meta: OgMetadata)      // JSON of OgMetadata, under "og:<alias>"
    | OgNull                        // the string "null", under "og:<alias>"
    | Count(n: nat)                 // a decimal counter, under "rate:..."

  datatype KvSlot = KvSlot(value: KvValue, deadline: int)

  type Slots = map<string, KvSlot>

  /** `get(key)` at time `now`: the stored value while its deadline lies ahead. */
  function Lookup(slots: Slots, key: string, now: int): (r: Option<KvValue>)
    ensures r.Some? <==> key in slots && now < slots[key].deadline
    ensures r.Some? ==> r.value == slots[key].value
  {
    if key in slots && now < slots[key].deadline then Some(slots[key].value) else None
  }

  /** The slot `put(key, value, { expirationTtl: ttl })` writes at time `now`. */
  function PutSlot(value: KvValue, ttlSeconds: nat, now: int): KvSlot {
    KvSlot(value, now + ttlSeconds * 1000)
  }

  /** A value put at `now` with a TTL is read back until the TTL has run out, and not after. */
  lemma PutThenLookup(slots: Slots, key: string, value: KvValue, ttlSeconds: nat, now: int, later: int)
    requires now <= later
    ensures Lookup(slots[key := PutSlot(value, ttlSeconds, now)], key, later)
      == if later < now + ttlSeconds * 1000 then Some(value) else None
  {
  }

  /** A put or a delete leaves every other key as it was. */
  lemma OtherKeysUntouched(slots: Slots, key: string, other: string, slot: KvSlot, now: int)
    requires other != key
    ensures Lookup(slots[key := slot], other, now) == Lookup(slots, other, now)
    ensures Lookup(slots - {key}, other, now) == Lookup(slots, other, now)
  {
  }

  class KvNamespace {
    var slots: Slots

    constructor()
      ensures slots == map[]
    {
      slots := map[];
    }

    method Put(key: string, value: KvValue, ttlSeconds: nat, now: int)
      modifies this
      ensures slots == old(slots)[key := PutSlot(value, ttlSeconds, now)]
    {
      slots := slots[key := PutSlot(value, ttlSeconds, now)];
    }

    method Delete(key: string)
      modifies this
      ensures slots == old(slots) - {key}
    {
      slots := slots - {key};
    }
  }

  /** A row of the `urls` table. */
  datatype UrlRow = UrlRow(originalUrl: string, createdAt: int, expiresAt: int, clickCount: nat)

  type Rows = map<string, UrlRow>

  /** The rows left by `UPDATE urls SET click_count = click_count + 1 WHERE alias = ?`. */
  function Clicked(rows: Rows, alias: string): (r: Rows)
    ensures r.Keys == rows.Keys
    ensures forall a :: a in rows && a != alias ==> r[a] == rows[a]
    ensures alias in rows ==> r[alias] == rows[alias].(clickCount := rows[alias].clickCount + 1)
  {
    if alias in rows then rows[alias := rows[alias].(clickCount := rows[alias].clickCount + 1)] else rows
  }

  /** The rows left by `DELETE FROM urls WHERE expires_at < now`. */
  function Unexpired(rows: Rows, now: int): (r: Rows)
    ensures forall a :: a in r <==> a in rows && rows[a].expiresAt >= now
    ensures forall a :: a in r ==> r[a] == rows[a]
  {
    map a | a in rows && rows[a].expiresAt >= now :: rows[a]
  }

  /** `SELECT alias FROM urls WHERE expires_at < now`. */
  function ExpiredAliases(rows: Rows, now: int): (r: set<string>)
    ensures forall a :: a in r <==> a in rows && rows[a].expiresAt < now
  {
    set a | a in rows && rows[a].expiresAt < now
  }

  /** The sweep splits the table exactly: a row is either expired or kept, never both. */
  lemma SweepPartition(rows: Rows, now: int)
    ensures ExpiredAliases(rows, now) !! Unexpired(rows, now).Keys
    ensures ExpiredAliases(rows, now) + Unexpired(rows, now).Keys == rows.Keys
  {
  }

  class UrlTable {
    var rows: Rows

    constructor()
      ensures rows == map[]
    {
      rows := map[];
    }

    /** `SELECT id FROM urls WHERE alias = ?` is non-empty. */
    predicate Exists(alias: string)
      reads this
    {
      alias in rows
    }

    /**
     * `INSERT INTO urls (alias, original_url, created_at, expires_at)`; `click_count`
     * takes its default 0. The alias column is unique, so callers insert fresh aliases only.
     */
    method Insert(alias: string, originalUrl: string, createdAt: int, expiresAt: int)
      requires alias !in rows
      modifies this
      ensures rows == old(rows)[alias := UrlRow(originalUrl, createdAt, expiresAt, 0)]
    {
      rows := rows[alias := UrlRow(originalUrl, createdAt, expiresAt, 0)];
    }

    /** `DELETE FROM urls WHERE alias = ?`. */
    method DeleteRow(alias: string)
      modifies this
      ensures rows == old(rows) - {alias}
    {
      rows := rows - {alias};
    }

    method IncrementClicks(alias: string)
      modifies this
      ensures rows == Clicked(old(rows), alias)
    {
      if alias in rows {
        rows := rows[alias := rows[alias].(clickCount := rows[alias].clickCount + 1)];
      }
    }

    method DeleteExpired(now: int)
      modifies this
      ensures rows == Unexpired(old(rows), now)
    {
      rows := map a | a in rows && rows[a].expiresAt >= now :: rows[a];
    }
  }
}
