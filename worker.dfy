/**
 * The worker's API handlers over the KV namespace and the `urls` table
 * (src/api/worker.ts): alias generation, the create, check and redirect
 * endpoints, the static-asset test and the scheduled expiry sweep.
 *
 * Each handler is a method over the two stores; what it answers and the
 * state it leaves are given by a specification function over the old state
 * (`CreateSpec`, `RedirectSpec`), and the guarantees of the service are
 * lemmas about those functions.
 */
module Worker {
  import opened Wrappers
  import opened Text
  import opened Constants
  import opened Store
  import opened Cache
  import opened RateLimit
  import V = Validation

  /** The parsed environment: `URL_EXPIRY_DAYS`, `RATE_LIMIT_PER_MINUTE`, `RATE_LIMIT_PER_DAY`. */
  datatype Env = Env(urlExpiryDays: int, ratePerMinute: int, ratePerDay: int)

  /** The JSON bodies and error statuses the endpoints answer with. */
  datatype Response =
    | Created(alias: string, shortUrl: string, originalUrl: string, expiresAt: int, createdAt: int)
    | Availability(available: bool, alias: string, reason: Option<string>)
    | Redirected(originalUrl: string, alias: string)
    | Failure(status: nat, retryAfter: Option<nat>)

  /** A handler's answer together with the table and KV state it leaves. */
  datatype Outcome = Outcome(resp: Response, rows: Rows, slots: Slots)

  predicate IsBase62(s: string) {
    forall k :: 0 <= k < |s| ==> s[k] in BASE62_CHARS
  }

  // ---------------------------------------------------------------- alias generation

  /**
   * `generateUniqueAlias`: up to five candidates are checked against the table;
   * the first has the requested length and every later one length + 1. The
   * ghost `checked` lists the candidates in the order they were checked.
   */
  method GenerateUniqueAlias(db: UrlTable, length: nat) returns (r: Option<string>, ghost checked: seq<string>)
    ensures 1 <= |checked| <= 5
    ensures |checked[0]| == length
    ensures forall i :: 1 <= i < |checked| ==> |checked[i]| == length + 1
    ensures forall i :: 0 <= i < |checked| ==> IsBase62(checked[i])
    ensures forall i :: 0 <= i < |checked| - 1 ==> checked[i] in db.rows
    ensures r.Some? ==> r.value == checked[|checked| - 1] && r.value !in db.rows
    ensures r.None? ==> |checked| == 5 && checked[4] in db.rows
  {
    var alias := GenerateBase62(length);
    var attempts := 0;
    checked := [];
    while attempts < 5
      invariant 0 <= attempts <= 5 && |checked| == attempts
      invariant |alias| == if attempts == 0 then length else length + 1
      invariant IsBase62(alias)
      invariant checked != [] ==> |checked[0]| == length
      invariant forall i :: 1 <= i < |checked| ==> |checked[i]| == length + 1
      invariant forall i :: 0 <= i < |checked| ==> IsBase62(checked[i]) && checked[i] in db.rows
    {
      checked := checked + [alias];
      if !db.Exists(alias) {
        return Some(alias), checked;
      }
      alias := GenerateBase62(length + 1);
      attempts := attempts + 1;
    }
    return None, checked;
  }

  /** A base-62 candidate of 1 to 16 characters is a valid alias, so it holds no ':'. */
  lemma GeneratedIsAlias(s: string)
    requires IsBase62(s) && 1 <= |s| <= ALIAS_MAX_LENGTH
    ensures V.IsValidAlias(s) && ':' !in s
  {
    V.Base62StringIsAlias(s);
    V.AliasHasNoColon(s);
  }

  // ---------------------------------------------------------------- create

  /** How the create handler picks the alias once the URL has passed. */
  datatype AliasPlan = UseGiven(alias: string) | Generate(length: nat) | BadAlias

  /**
   * A supplied alias (a non-empty string is truthy) must be valid; if it is
   * taken a 7-character alias is generated in its place. Without one, a
   * 6-character alias is generated.
   */
  function PlanAlias(rows: Rows, requested: Option<string>): AliasPlan {
    if requested.None? || requested.value == "" then Generate(6)
    else if !V.IsValidAlias(requested.value) then BadAlias
    else if requested.value in rows then Generate(7)
    else UseGiven(requested.value)
  }

  /** What `generateUniqueAlias` can deliver for a plan: a free base-62 alias of the length or one more. */
  predicate GeneratedFor(rows: Rows, plan: AliasPlan, generated: Option<string>) {
    plan.Generate? && generated.Some? ==>
      var g := generated.value;
      g !in rows && IsBase62(g) && (|g| == plan.length || |g| == plan.length + 1)
  }

  function ExpiresAt(env: Env, now: nat): int {
    now + env.urlExpiryDays * 24 * 60 * 60 * 1000
  }

  /** The effect of storing a new short URL under `alias`: row, cache entry, counters. */
  function StoreNew(rows: Rows, slots: Slots, alias: string, ip: string, originalUrl: string, env: Env, now: nat, origin: string): Outcome {
    var expiresAt := ExpiresAt(env, now);
    Outcome(
      Created(alias, origin + "/" + alias, originalUrl, expiresAt, now),
      rows[alias := UrlRow(originalUrl, now, expiresAt, 0)],
      IncrementedCounters(SetUrlSlot(slots, alias, originalUrl, expiresAt, now), ip, Create, now))
  }

  /**
   * `POST /api/urls`, in its order: client IP, rate limit, URL, alias. The
   * generator's result, when the plan calls for one, is `generated`.
   */
  function CreateSpec(rows: Rows, slots: Slots, ip: Option<string>, requested: Option<string>, originalUrl: string,
                      env: Env, now: nat, origin: string, parse: V.UrlParser, generated: Option<string>): Outcome
  {
    if ip.None? then Outcome(Failure(400, None), rows, slots)
    else match CheckRateLimit(slots, ip.value, Create, env.ratePerMinute, env.ratePerDay, now)
      case Denied(wait) => Outcome(Failure(429, Some(wait)), rows, slots)
      case Allowed =>
        if !V.IsValidUrl(originalUrl, parse) then Outcome(Failure(400, None), rows, slots)
        else match PlanAlias(rows, requested)
          case BadAlias => Outcome(Failure(400, None), rows, slots)
          case UseGiven(a) => StoreNew(rows, slots, a, ip.value, originalUrl, env, now, origin)
          case Generate(_) =>
            if generated.None? then Outcome(Failure(503, None), rows, slots)
            else StoreNew(rows, slots, generated.value, ip.value, originalUrl, env, now, origin)
  }

  /** What the alias step of the create handler settles on. */
  datatype AliasChoice = Chosen(alias: string) | InvalidAlias | Exhausted

  /** The alias step: validate a supplied alias, and generate one when none is supplied or it is taken. */
  method ResolveAlias(db: UrlTable, requested: Option<string>) returns (choice: AliasChoice, ghost generated: Option<string>)
    ensures GeneratedFor(db.rows, PlanAlias(db.rows, requested), generated)
    ensures choice == match PlanAlias(db.rows, requested)
                      case BadAlias => InvalidAlias
                      case UseGiven(a) => Chosen(a)
                      case Generate(_) => if generated.None? then Exhausted else Chosen(generated.value)
  {
    generated := None;
    ghost var checked: seq<string>;
    var newAlias: Option<string>;
    if requested.Some? && requested.value != "" {
      if !V.IsValidAlias(requested.value) {
        return InvalidAlias, generated;
      }
      if !db.Exists(requested.value) {
        return Chosen(requested.value), generated;
      }
      newAlias, checked := GenerateUniqueAlias(db, 7);
    } else {
      newAlias, checked := GenerateUniqueAlias(db, 6);
    }
    generated := newAlias;
    if newAlias.None? {
      return Exhausted, generated;
    }
    return Chosen(newAlias.value), generated;
  }

  /** The success path: insert the row, cache it for an hour, count the request. */
  method StoreCreated(db: UrlTable, cache: KvNamespace, alias: string, ip: string, originalUrl: string, env: Env, now: nat, origin: string)
    returns (resp: Response)
    requires alias !in db.rows
    modifies db, cache
    ensures Outcome(resp, db.rows, cache.slots) == StoreNew(old(db.rows), old(cache.slots), alias, ip, originalUrl, env, now, origin)
  {
    var expiresAt := now + env.urlExpiryDays * 24 * 60 * 60 * 1000;
    db.Insert(alias, originalUrl, now, expiresAt);
    SetCachedUrl(cache, alias, originalUrl, expiresAt, now);
    IncrementRateLimit(cache, ip, Create, now);
    resp := Created(alias, origin + "/" + alias, originalUrl, expiresAt, now);
  }

  method HandleCreate(db: UrlTable, cache: KvNamespace, ip: Option<string>, requested: Option<string>, originalUrl: string,
                      env: Env, now: nat, origin: string, parse: V.UrlParser) returns (resp: Response, ghost generated: Option<string>)
    modifies db, cache
    ensures GeneratedFor(old(db.rows), PlanAlias(old(db.rows), requested), generated)
    ensures Outcome(resp, db.rows, cache.slots)
      == CreateSpec(old(db.rows), old(cache.slots), ip, requested, originalUrl, env, now, origin, parse, generated)
  {
    generated := None;
    if ip.None? {
      return Failure(400, None), generated;
    }
    var rateCheck := CheckRateLimit(cache.slots, ip.value, Create, env.ratePerMinute, env.ratePerDay, now);
    if rateCheck.Denied? {
      return Failure(429, Some(rateCheck.retryAfter)), generated;
    }
    if !V.IsValidUrl(originalUrl, parse) {
      return Failure(400, None), generated;
    }
    var choice;
    choice, generated := ResolveAlias(db, requested);
    match choice
    case InvalidAlias =>
      resp := Failure(400, None);
    case Exhausted =>
      resp := Failure(503, None);
    case Chosen(alias) =>
      resp := StoreCreated(db, cache, alias, ip.value, originalUrl, env, now, origin);
  }

  /** Every refused create (400, 429, 503) leaves the table and the KV namespace as they were. */
  lemma CreateFailureWritesNothing(rows: Rows, slots: Slots, ip: Option<string>, requested: Option<string>, originalUrl: string,
                                   env: Env, now: nat, origin: string, parse: V.UrlParser, generated: Option<string>)
    ensures var o := CreateSpec(rows, slots, ip, requested, originalUrl, env, now, origin, parse, generated);
      o.resp.Failure? ==> o.rows == rows && o.slots == slots && o.resp.status in {400, 429, 503}
    ensures var o := CreateSpec(rows, slots, ip, requested, originalUrl, env, now, origin, parse, generated);
      !o.resp.Failure? ==> o.resp.Created?
  {
  }

  /** The 400 cases: a missing client IP, and past the rate limit an invalid URL or an invalid supplied alias. */
  lemma CreateBadRequest(rows: Rows, slots: Slots, ip: Option<string>, requested: Option<string>, originalUrl: string,
                         env: Env, now: nat, origin: string, parse: V.UrlParser, generated: Option<string>)
    requires ip.None? || (CheckRateLimit(slots, ip.value, Create, env.ratePerMinute, env.ratePerDay, now).Allowed?
                          && (!V.IsValidUrl(originalUrl, parse)
                              || (requested.Some? && requested.value != "" && !V.IsValidAlias(requested.value))))
    ensures CreateSpec(rows, slots, ip, requested, originalUrl, env, now, origin, parse, generated)
      == Outcome(Failure(400, None), rows, slots)
  {
  }

  /**
   * Create never overwrites a row: the alias it stores under was free, and the
   * table gains exactly that row, created now and expiring after the
   * configured number of days.
   */
  lemma CreateNeverOverwrites(rows: Rows, slots: Slots, ip: Option<string>, requested: Option<string>, originalUrl: string,
                              env: Env, now: nat, origin: string, parse: V.UrlParser, generated: Option<string>)
    requires GeneratedFor(rows, PlanAlias(rows, requested), generated)
    ensures var o := CreateSpec(rows, slots, ip, requested, originalUrl, env, now, origin, parse, generated);
      o.resp.Created? ==>
        && o.resp.alias !in rows
        && o.resp.expiresAt == now + env.urlExpiryDays * 86400000
        && o.rows == rows[o.resp.alias := UrlRow(originalUrl, now, o.resp.expiresAt, 0)]
  {
  }

  /**
   * Which alias a successful create returns: the supplied one when it is valid
   * and free; a generated 7- or 8-character one when it was taken; a generated
   * 6- or 7-character one when none was supplied. It is always a valid alias.
   */
  lemma CreatedAlias(rows: Rows, slots: Slots, ip: Option<string>, requested: Option<string>, originalUrl: string,
                     env: Env, now: nat, origin: string, parse: V.UrlParser, generated: Option<string>)
    requires GeneratedFor(rows, PlanAlias(rows, requested), generated)
    ensures var o := CreateSpec(rows, slots, ip, requested, originalUrl, env, now, origin, parse, generated);
      o.resp.Created? ==>
        && V.IsValidAlias(o.resp.alias)
        && o.resp.shortUrl == origin + "/" + o.resp.alias
        && (requested.Some? && V.IsValidAlias(requested.value) && requested.value !in rows ==> o.resp.alias == requested.value)
        && (requested.Some? && V.IsValidAlias(requested.value) && requested.value in rows ==> 7 <= |o.resp.alias| <= 8)
        && (requested.None? || requested.value == "" ==> 6 <= |o.resp.alias| <= 7)
  {
    var o := CreateSpec(rows, slots, ip, requested, originalUrl, env, now, origin, parse, generated);
    if o.resp.Created? && PlanAlias(rows, requested).Generate? {
      V.Base62StringIsAlias(generated.value);
    }
  }

  /** A valid, free supplied alias is never refused for want of a generated one. */
  lemma CreateWithFreeAlias(rows: Rows, slots: Slots, ip: string, alias: string, originalUrl: string,
                            env: Env, now: nat, origin: string, parse: V.UrlParser, generated: Option<string>)
    requires CheckRateLimit(slots, ip, Create, env.ratePerMinute, env.ratePerDay, now).Allowed?
    requires V.IsValidUrl(originalUrl, parse) && V.IsValidAlias(alias) && alias !in rows
    ensures CreateSpec(rows, slots, Some(ip), Some(alias), originalUrl, env, now, origin, parse, generated).resp
      == Created(alias, origin + "/" + alias, originalUrl, ExpiresAt(env, now), now)
  {
  }

  /** A KV key holding a ':' is none of the counters' business when it is an alias, and vice versa. */
  lemma AliasIsNoRateKey(alias: string, ip: string, requestType: RequestType, now: nat)
    requires ':' !in alias
    ensures alias != GetRateLimitKeys(ip, requestType, now).minuteKey
    ensures alias != GetRateLimitKeys(ip, requestType, now).dayKey
  {
    RateKeysHoldColon(ip, requestType, now);
  }

  /** Bumping the counters leaves every alias key as it was. */
  lemma CountersLeaveAlias(slots: Slots, alias: string, ip: string, requestType: RequestType, now: nat, parse: V.UrlParser)
    requires ':' !in alias
    ensures CacheVerdictOf(IncrementedCounters(slots, ip, requestType, now), alias, now, parse)
      == CacheVerdictOf(slots, alias, now, parse)
  {
    AliasIsNoRateKey(alias, ip, requestType, now);
    var keys := GetRateLimitKeys(ip, requestType, now);
    assert Lookup(IncrementedCounters(slots, ip, requestType, now), alias, now) == Lookup(slots, alias, now);
  }

  /** Bumping the counters keeps the cache a shadow of the table. */
  lemma CountersKeepMirror(rows: Rows, slots: Slots, ip: string, requestType: RequestType, now: nat)
    requires MirrorsAt(rows, slots, now)
    ensures MirrorsAt(rows, IncrementedCounters(slots, ip, requestType, now), now)
  {
    var keys := GetRateLimitKeys(ip, requestType, now);
    var afterMinute := slots[keys.minuteKey := PutSlot(Count(Bumped(CounterAt(slots, keys.minuteKey, now))), MINUTE_TTL_SECONDS, now)];
    NonUrlPutKeepsMirror(rows, slots, keys.minuteKey, Count(Bumped(CounterAt(slots, keys.minuteKey, now))), MINUTE_TTL_SECONDS, now);
    NonUrlPutKeepsMirror(rows, afterMinute, keys.dayKey, Count(Bumped(CounterAt(afterMinute, keys.dayKey, now))), DAY_TTL_SECONDS, now);
  }

  /**
   * A created short URL resolves at once: the table answers with it and the
   * cache holds the same entry (while the entry is unexpired).
   */
  lemma CreatedResolves(rows: Rows, slots: Slots, ip: Option<string>, requested: Option<string>, originalUrl: string,
                        env: Env, now: nat, origin: string, parse: V.UrlParser, generated: Option<string>)
    requires GeneratedFor(rows, PlanAlias(rows, requested), generated)
    ensures var o := CreateSpec(rows, slots, ip, requested, originalUrl, env, now, origin, parse, generated);
      o.resp.Created? && o.resp.expiresAt >= now ==>
        && UrlFromDb(o.rows, o.resp.alias, now, parse) == Some(CacheEntry(originalUrl, o.resp.expiresAt))
        && CacheVerdictOf(o.slots, o.resp.alias, now, parse) == Hit(CacheEntry(originalUrl, o.resp.expiresAt))
  {
    var o := CreateSpec(rows, slots, ip, requested, originalUrl, env, now, origin, parse, generated);
    if o.resp.Created? && o.resp.expiresAt >= now {
      CreatedAlias(rows, slots, ip, requested, originalUrl, env, now, origin, parse, generated);
      V.AliasHasNoColon(o.resp.alias);
      var set1 := SetUrlSlot(slots, o.resp.alias, originalUrl, o.resp.expiresAt, now);
      CountersLeaveAlias(set1, o.resp.alias, ip.value, Create, now, parse);
    }
  }

  /** Create keeps the cache a shadow of the table. */
  lemma CreateKeepsMirror(rows: Rows, slots: Slots, ip: Option<string>, requested: Option<string>, originalUrl: string,
                          env: Env, now: nat, origin: string, parse: V.UrlParser, generated: Option<string>)
    requires MirrorsAt(rows, slots, now)
    requires GeneratedFor(rows, PlanAlias(rows, requested), generated)
    ensures var o := CreateSpec(rows, slots, ip, requested, originalUrl, env, now, origin, parse, generated);
      MirrorsAt(o.rows, o.slots, now)
  {
    var o := CreateSpec(rows, slots, ip, requested, originalUrl, env, now, origin, parse, generated);
    if o.resp.Created? {
      CreateNeverOverwrites(rows, slots, ip, requested, originalUrl, env, now, origin, parse, generated);
      var a := o.resp.alias;
      var set1 := SetUrlSlot(slots, a, originalUrl, o.resp.expiresAt, now);
      assert MirrorsAt(o.rows, set1, now);
      CountersKeepMirror(o.rows, set1, ip.value, Create, now);
    }
  }

  // ---------------------------------------------------------------- check

  /** `GET /api/urls/check/:alias`. */
  function HandleCheck(rows: Rows, alias: string): (r: Response)
    ensures r.Availability? && r.alias == alias
    ensures r.available <==> V.IsValidAlias(alias) && alias !in rows
    ensures r.reason.Some? <==> !V.IsValidAlias(alias)
  {
    if !V.IsValidAlias(alias) then Availability(false, alias, Some("Invalid format"))
    else Availability(alias !in rows, alias, None)
  }

  /** An alias the check reports available is one a create with that alias stores under, unchanged. */
  lemma AvailableMeansKept(rows: Rows, slots: Slots, ip: string, alias: string, originalUrl: string,
                           env: Env, now: nat, origin: string, parse: V.UrlParser, generated: Option<string>)
    requires HandleCheck(rows, alias).available
    requires CheckRateLimit(slots, ip, Create, env.ratePerMinute, env.ratePerDay, now).Allowed?
    requires V.IsValidUrl(originalUrl, parse)
    ensures CreateSpec(rows, slots, Some(ip), Some(alias), originalUrl, env, now, origin, parse, generated).resp.alias == alias
  {
    CreateWithFreeAlias(rows, slots, ip, alias, originalUrl, env, now, origin, parse, generated);
  }

  // ---------------------------------------------------------------- redirect

  /**
   * `GET /api/redirect/:alias`, in its order: alias format (404), client IP
   * (400), rate limit (429), then the cache, then the table. A table miss
   * deletes the alias's row, even a row that exists but whose URL no longer
   * validates.
   */
  function RedirectSpec(rows: Rows, slots: Slots, alias: string, ip: Option<string>, env: Env, now: nat, parse: V.UrlParser): Outcome {
    if !V.IsValidAlias(alias) then Outcome(Failure(404, None), rows, slots)
    else if ip.None? then Outcome(Failure(400, None), rows, slots)
    else match CheckRateLimit(slots, ip.value, Redirect, env.ratePerMinute, env.ratePerDay, now)
      case Denied(wait) => Outcome(Failure(429, Some(wait)), rows, slots)
      case Allowed =>
        match CacheVerdictOf(slots, alias, now, parse)
        case Hit(e) =>
          Outcome(Redirected(e.originalUrl, alias), Clicked(rows, alias), IncrementedCounters(slots, ip.value, Redirect, now))
        case _ =>
          var afterRead := AfterCacheRead(slots, alias, now, parse);
          match UrlFromDb(rows, alias, now, parse)
          case None => Outcome(Failure(404, None), rows - {alias}, afterRead)
          case Some(rec) =>
            Outcome(Redirected(rec.originalUrl, alias), Clicked(rows, alias),
                    IncrementedCounters(SetUrlSlot(afterRead, alias, rec.originalUrl, rec.expiresAt, now), ip.value, Redirect, now))
  }

  method HandleRedirect(db: UrlTable, cache: KvNamespace, alias: string, ip: Option<string>, env: Env, now: nat, parse: V.UrlParser)
    returns (resp: Response)
    modifies db, cache
    ensures Outcome(resp, db.rows, cache.slots) == RedirectSpec(old(db.rows), old(cache.slots), alias, ip, env, now, parse)
  {
    if !V.IsValidAlias(alias) {
      return Failure(404, None);
    }
    if ip.None? {
      return Failure(400, None);
    }
    var rateCheck := CheckRateLimit(cache.slots, ip.value, Redirect, env.ratePerMinute, env.ratePerDay, now);
    if rateCheck.Denied? {
      return Failure(429, Some(rateCheck.retryAfter));
    }
    var cached := GetCachedUrl(cache, alias, now, parse);
    if cached.Some? {
      IncrementClickCount(db, alias);
      IncrementRateLimit(cache, ip.value, Redirect, now);
      return Redirected(cached.value.originalUrl, alias);
    }
    var record := UrlFromDb(db.rows, alias, now, parse);
    if record.None? {
      DeleteExpiredUrl(db, alias);
      return Failure(404, None);
    }
    SetCachedUrl(cache, alias, record.value.originalUrl, record.value.expiresAt, now);
    IncrementClickCount(db, alias);
    IncrementRateLimit(cache, ip.value, Redirect, now);
    resp := Redirected(record.value.originalUrl, alias);
  }

  /** The alias format is judged first: an invalid alias is "not found" and changes nothing, whatever the IP. */
  lemma InvalidAliasNotFound(rows: Rows, slots: Slots, alias: string, ip: Option<string>, env: Env, now: nat, parse: V.UrlParser)
    requires !V.IsValidAlias(alias)
    ensures RedirectSpec(rows, slots, alias, ip, env, now, parse) == Outcome(Failure(404, None), rows, slots)
  {
  }

  /**
   * A redirect only ever sends a client to a valid URL that is unexpired: it
   * comes from a live cache entry or from the alias's own unexpired row.
   */
  lemma RedirectServesOnlyLive(rows: Rows, slots: Slots, alias: string, ip: Option<string>, env: Env, now: nat, parse: V.UrlParser)
    requires RedirectSpec(rows, slots, alias, ip, env, now, parse).resp.Redirected?
    ensures var url := RedirectSpec(rows, slots, alias, ip, env, now, parse).resp.originalUrl;
      && V.IsValidUrl(url, parse)
      && ((alias in rows && rows[alias].originalUrl == url && rows[alias].expiresAt >= now)
          || (exists e :: Lookup(slots, alias, now) == Some(UrlEntry(e)) && e.originalUrl == url && e.expiresAt >= now))
  {
    if CacheVerdictOf(slots, alias, now, parse).Hit? {
      CacheHitIsLive(slots, alias, now, parse);
    }
  }

  /**
   * With the cache a shadow of the table, a redirect that gets past the alias,
   * IP and rate checks answers exactly what the table says: the row's URL when
   * it is unexpired and valid, "not found" otherwise.
   */
  lemma RedirectAgreesWithDb(rows: Rows, slots: Slots, alias: string, ip: string, env: Env, now: nat, parse: V.UrlParser)
    requires MirrorsAt(rows, slots, now)
    requires V.IsValidAlias(alias)
    requires CheckRateLimit(slots, ip, Redirect, env.ratePerMinute, env.ratePerDay, now).Allowed?
    ensures RedirectSpec(rows, slots, alias, Some(ip), env, now, parse).resp
      == match UrlFromDb(rows, alias, now, parse)
         case None => Failure(404, None)
         case Some(rec) => Redirected(rec.originalUrl, alias)
  {
    if CacheVerdictOf(slots, alias, now, parse).Hit? {
      CacheHitAgreesWithDb(rows, slots, alias, now, parse);
    }
  }

  /**
   * A table miss deletes the alias's row, even when the row exists and is
   * unexpired but its stored URL no longer passes validation.
   */
  lemma RedirectMissDeletesRow(rows: Rows, slots: Slots, alias: string, ip: string, env: Env, now: nat, parse: V.UrlParser)
    requires V.IsValidAlias(alias)
    requires CheckRateLimit(slots, ip, Redirect, env.ratePerMinute, env.ratePerDay, now).Allowed?
    requires !CacheVerdictOf(slots, alias, now, parse).Hit?
    requires alias in rows && rows[alias].expiresAt >= now && !V.IsValidUrl(rows[alias].originalUrl, parse)
    ensures var o := RedirectSpec(rows, slots, alias, Some(ip), env, now, parse);
      o.resp == Failure(404, None) && o.rows == rows - {alias}
  {
  }

  /**
   * A table hit re-caches the row with the row's own expiry (not a fresh one),
   * so the next read of the alias is a cache hit with the same entry.
   */
  lemma RedirectRecaches(rows: Rows, slots: Slots, alias: string, ip: string, env: Env, now: nat, parse: V.UrlParser)
    requires V.IsValidAlias(alias)
    requires CheckRateLimit(slots, ip, Redirect, env.ratePerMinute, env.ratePerDay, now).Allowed?
    requires !CacheVerdictOf(slots, alias, now, parse).Hit? && UrlFromDb(rows, alias, now, parse).Some?
    ensures var o := RedirectSpec(rows, slots, alias, Some(ip), env, now, parse);
      CacheVerdictOf(o.slots, alias, now, parse) == Hit(UrlFromDb(rows, alias, now, parse).value)
  {
    var rec := UrlFromDb(rows, alias, now, parse).value;
    var afterRead := AfterCacheRead(slots, alias, now, parse);
    V.AliasHasNoColon(alias);
    CountersLeaveAlias(SetUrlSlot(afterRead, alias, rec.originalUrl, rec.expiresAt, now), alias, ip, Redirect, now, parse);
  }

  /** A served redirect counts one click on the alias's row and changes no other row. */
  lemma RedirectCountsClick(rows: Rows, slots: Slots, alias: string, ip: Option<string>, env: Env, now: nat, parse: V.UrlParser)
    requires RedirectSpec(rows, slots, alias, ip, env, now, parse).resp.Redirected?
    ensures RedirectSpec(rows, slots, alias, ip, env, now, parse).rows == Clicked(rows, alias)
  {
  }

  /** Redirect keeps the cache a shadow of the table. */
  lemma RedirectKeepsMirror(rows: Rows, slots: Slots, alias: string, ip: Option<string>, env: Env, now: nat, parse: V.UrlParser)
    requires MirrorsAt(rows, slots, now)
    ensures var o := RedirectSpec(rows, slots, alias, ip, env, now, parse);
      MirrorsAt(o.rows, o.slots, now)
  {
    if V.IsValidAlias(alias) && ip.Some?
       && CheckRateLimit(slots, ip.value, Redirect, env.ratePerMinute, env.ratePerDay, now).Allowed?
    {
      var afterRead := AfterCacheRead(slots, alias, now, parse);
      CacheReadKeepsMirror(rows, slots, alias, now, parse);
      ClickKeepsMirror(rows, slots, alias, now);
      match CacheVerdictOf(slots, alias, now, parse)
      case Hit(e) =>
        CountersKeepMirror(Clicked(rows, alias), slots, ip.value, Redirect, now);
      case _ =>
        match UrlFromDb(rows, alias, now, parse)
        case None =>
        case Some(rec) =>
          SetFromRowKeepsMirror(rows, afterRead, alias, now);
          var set1 := SetUrlSlot(afterRead, alias, rec.originalUrl, rec.expiresAt, now);
          ClickKeepsMirror(rows, set1, alias, now);
          CountersKeepMirror(Clicked(rows, alias), set1, ip.value, Redirect, now);
    }
  }

  // ---------------------------------------------------------------- static assets

  const STATIC_EXTENSIONS: seq<string> :=
    [".js", ".css", ".ico", ".png", ".jpg", ".jpeg", ".gif", ".svg", ".woff", ".woff2", ".ttf", ".eot", ".map"]

  /** Paths served from the asset bundle: those ending in one of the static extensions. */
  predicate IsStaticAsset(pathname: string) {
    exists i :: 0 <= i < |STATIC_EXTENSIONS| && EndsWith(pathname, STATIC_EXTENSIONS[i])
  }

  /** Every static extension starts with a dot. */
  lemma ExtensionsDotted()
    ensures forall i :: 0 <= i < |STATIC_EXTENSIONS| ==> |STATIC_EXTENSIONS[i]| >= 1 && STATIC_EXTENSIONS[i][0] == '.'
  {
  }

  /** A short-link path "/<alias>" is never taken for a static asset, because an alias has no dot. */
  lemma AliasPathNotStatic(alias: string)
    requires V.IsValidAlias(alias)
    ensures !IsStaticAsset("/" + alias)
  {
    var p := "/" + alias;
    ExtensionsDotted();
    forall j | 0 <= j < |p| ensures p[j] != '.' {
      if j > 0 {
        assert p[j] == alias[j - 1];
      }
    }
  }

  lemma StaticExamples()
    ensures IsStaticAsset("/assets/index.js")
    ensures IsStaticAsset("/fonts/a.woff2")
  {
    assert EndsWith("/assets/index.js", STATIC_EXTENSIONS[0]);
    assert EndsWith("/fonts/a.woff2", STATIC_EXTENSIONS[9]);
  }

  // ---------------------------------------------------------------- scheduled sweep

  /**
   * The cron handler: delete the cache entry of every row that has expired,
   * then delete exactly those rows. Nothing else changes.
   */
  method Scheduled(db: UrlTable, cache: KvNamespace, now: int)
    modifies db, cache
    ensures db.rows == Unexpired(old(db.rows), now)
    ensures cache.slots == old(cache.slots) - ExpiredAliases(old(db.rows), now)
  {
    var expired := ExpiredAliases(db.rows, now);
    var remaining := expired;
    while remaining != {}
      invariant remaining <= expired
      invariant db.rows == old(db.rows)
      invariant cache.slots == old(cache.slots) - (expired - remaining)
      decreases |remaining|
    {
      var a :| a in remaining;
      DeleteCachedUrl(cache, a);
      remaining := remaining - {a};
    }
    db.DeleteExpired(now);
  }

  /**
   * After the sweep no row is expired, and, when the cache shadowed the table
   * before, every live URL entry left in the cache names a row the sweep kept.
   */
  lemma SweepLeavesNothingExpired(rows: Rows, slots: Slots, now: int)
    ensures ExpiredAliases(Unexpired(rows, now), now) == {}
    ensures MirrorsAt(rows, slots, now) ==>
      forall a :: a in slots - ExpiredAliases(rows, now) && now < slots[a].deadline && slots[a].value.UrlEntry? ==>
        a in Unexpired(rows, now) && Unexpired(rows, now)[a].expiresAt >= now
  {
  }

  /** The sweep keeps the cache a shadow of the table. */
  lemma SweepKeepsMirror(rows: Rows, slots: Slots, now: int)
    requires MirrorsAt(rows, slots, now)
    ensures MirrorsAt(Unexpired(rows, now), slots - ExpiredAliases(rows, now), now)
  {
  }
}
