# satset.io alias resolution and sync engine, in Dafny

This project models the logic at the core of the satset.io URL shortener:

- **Server worker.** The worker turns a short alias into its target URL. It keeps the links in a D1 `urls` table and shadows them in a KV cache with time-to-live deadlines. It limits each client per minute and per day, and a cron handler sweeps out expired links.
- **Browser client.** The client creates links offline-first. It queues each new link and later pushes the queue to the create endpoint. A failed task is retried with exponential backoff, at most five attempts in all. The outcome of each pass is reported to status listeners.

The small pure utilities around these are modelled too: validators, alias generators, client-IP selection, crawler detection, HTML escaping and Open Graph extraction.

One Dafny module corresponds to each source file.

- **Pure code.** It becomes functions and predicates, with lemmas stating what the source promises.
- **Code that updates stores or module state.** It becomes classes, modelled as follows:
  - `Store.KvNamespace` and `Store.UrlTable` for the two stores.
  - `Sync.SyncService` for the module state of the sync engine.
  - `SyncStatusView.SyncToast` and `UrlShortener.Shortener` for the React hooks.
- **Contracts on the classes' methods.** Each method states its new state through a specification function of the old state, for example `Worker.RedirectSpec` or `Sync.Survivors`. The guarantees of the service are then proved as lemmas about those functions.

Three things are parameters rather than code:

- **Clock.** The time is a `now` parameter in milliseconds.
- **WHATWG URL parser.** `new URL(s)` is an oracle, `Validation.UrlParser`, that yields `(protocol, hostname)` or nothing.
- **Randomness.** It is a nondeterministic choice.

The cache and the table are tied by one invariant, `Cache.MirrorsAt`: every live URL entry in KV copies the URL and expiry of an existing row. Every handler preserves it. Under it, a cache hit answers exactly what the table would.

## Model

| member | source | states |
|---|---|---|
| Validation.AliasExamples | src/api/lib/validation.ts:7-12 | "abc123" is an alias; "", a 17-character string and "ab-12" are not |
| Validation.Base62StringIsAlias | src/api/lib/constants.ts:1-17 | every string of 1 to 16 symbols of `BASE62_CHARS` passes `isValidAlias` |
| Validation.AliasHasNoColon | src/api/lib/validation.ts:7-12 | a valid alias holds no ':', so it never collides with an "og:" or "rate:" key |
| Validation.DottedQuadIsIp | src/api/lib/validation.ts:14-18 | any four dot-separated groups of 1-3 digits are an IP literal, with no 0-255 range check |
| Validation.IpExamples | src/api/lib/validation.ts:14-18 | "999.999.999.999", a host containing ':' and a host starting with '[' are IP literals |
| Validation.IpAddressLowerInvariant | src/api/lib/validation.ts:14-21 | lower-casing a host does not change whether it is an IP literal |
| Validation.DomainCaseInsensitive | src/api/lib/validation.ts:20-30 | `isValidDomain(h) == isValidDomain(h.toLowerCase())` |
| Validation.ValidDomainShape | src/api/lib/validation.ts:20-30 | an accepted host is no IP literal, holds a dot and ends in a label of at least two characters |
| Validation.TwoLabelDomain | src/api/lib/validation.ts:20-30 | two lower-case labels joined by a dot are accepted whenever the top label has two or more characters, is neither "local" nor "internal", and the name is not "localhost.localdomain" |
| Validation.DomainAccepted | src/api/lib/validation.ts:20-30 | "example.com", "a.io" and "foo.localdomain" are accepted; only the exact name "localhost.localdomain" is refused |
| Validation.DomainRejectedNames | src/api/lib/validation.ts:21-24 | "localhost" in any case, "printer.local" and "db.internal" are refused |
| Validation.DottedOnly | src/api/lib/validation.ts:25 | a host without a dot is refused |
| Validation.ShortTopLabel | src/api/lib/validation.ts:26-28 | a one-character top label is refused |
| Validation.DomainRejectedShapes | src/api/lib/validation.ts:25-28 | "intranet" and "example.c" are refused |
| Validation.DomainRejectedIp | src/api/lib/validation.ts:22 | "192.168.1.1" is refused as an IP literal |
| Validation.LongUrlRejected | src/api/lib/validation.ts:34 | a URL over 2048 characters is refused whatever the parser would answer |
| Validation.IpHostRefused | src/api/lib/validation.ts:32-42 | a URL whose host is an IP literal is refused |
| Validation.AcceptedUrlShape | src/api/lib/validation.ts:32-42 | an accepted URL has at most 2048 characters, parses, has protocol exactly "https:" and a dotted, non-IP host |
| Validation.IsValidAlias | src/api/lib/validation.ts:7-12 | the server alias rule: 1 to 16 characters, each an ASCII letter or digit |
| Validation.IsIpAddress | src/api/lib/validation.ts:14-18 | a host is an IP literal when it is four dot-separated groups of 1-3 digits, contains ':' or starts with '[' |
| Validation.IsValidDomain | src/api/lib/validation.ts:20-30 | the host rule on the lower-cased name: no IP literal, not "localhost" or "localhost.localdomain", no ".local" or ".internal" suffix, a dot, and a top label of two or more characters |
| Validation.IsValidUrl | src/api/lib/validation.ts:32-42 | a URL is accepted exactly when it has at most 2048 characters, parses, has the scheme "https:" and a host that passes the host rule; a parse failure is a refusal |
| Constants.Base62Value | src/api/lib/constants.ts:1-2 | each alphanumeric character has a digit value below 62 whose symbol is that character |
| Constants.Base62DigitValue | src/api/lib/constants.ts:1-2 | digit value and symbol are inverse to each other |
| Constants.Base62Layout | src/api/lib/constants.ts:1-2 | the alphabet has 62 symbols, and position d holds the symbol of value d |
| Constants.Base62Distinct | src/api/lib/constants.ts:1-2 | the alphabet is strictly increasing, so its symbols are pairwise distinct |
| Constants.Base62Alphabet | src/api/lib/constants.ts:1-2 | a character is in the alphabet exactly when it matches `[A-Za-z0-9]` |
| Constants.GenerateBase62 | src/api/lib/constants.ts:11-17 | the result has exactly `length` characters, 6 by default, each from the alphabet |
| Store.Lookup | src/api/lib/cache.ts:10 | a KV read sees a value exactly while its TTL deadline lies ahead |
| Store.PutThenLookup | src/api/lib/cache.ts:27-40 | a value put with a TTL is read back until the TTL runs out, and not after |
| Store.OtherKeysUntouched | src/api/lib/cache.ts:27-47 | a put or delete leaves every other key as it was |
| Store.KvNamespace.Put | src/api/lib/cache.ts:34-39 | the key gets the value with deadline `now + ttl*1000`; nothing else changes |
| Store.KvNamespace.Delete | src/api/lib/cache.ts:46 | only that key is removed |
| Store.Clicked | src/api/lib/cache.ts:100-104 | only the named row changes, and only its click count goes up by one |
| Store.Unexpired | src/api/worker.ts:339 | exactly the rows with `expires_at >= now` stay, unchanged |
| Store.ExpiredAliases | src/api/worker.ts:329-333 | exactly the aliases whose `expires_at < now` are selected |
| Store.SweepPartition | src/api/worker.ts:329-339 | selected and kept rows are disjoint and together make up the whole table |
| Store.UrlTable.Insert | src/api/worker.ts:98-102 | the row is added with click count 0; nothing else changes |
| Store.UrlTable.DeleteRow | src/api/lib/cache.ts:93-98 | only that row is removed |
| Store.UrlTable.IncrementClicks | src/api/lib/cache.ts:100-104 | the table becomes `Clicked(old rows, alias)` |
| Store.UrlTable.DeleteExpired | src/api/worker.ts:339 | the table becomes its unexpired rows |
| Cache.CacheVerdictOf | src/api/lib/cache.ts:6-25 | an absent key is a miss; a hit is exactly a present, unexpired entry with a valid URL; every other present value is evicted |
| Cache.CacheHitIsLive | src/api/lib/cache.ts:14-24 | an entry `getCachedUrl` returns is the stored one, unexpired, with a valid URL |
| Cache.CacheReadSettles | src/api/lib/cache.ts:6-25 | after a read the key gives the same hit again or nothing; an expired or invalid entry is never found again; no other key changes |
| Cache.SetThenGetUrl | src/api/lib/cache.ts:27-40 | within the one-hour TTL and before the entry's own expiry, a valid URL that was set is read back unchanged |
| Cache.GetCachedUrl | src/api/lib/cache.ts:6-25 | returns the verdict's entry on a hit and null otherwise; deletes the key exactly on an eviction |
| Cache.SetCachedUrl | src/api/lib/cache.ts:27-40 | stores `{originalUrl, expiresAt}` for 3600 s; nothing else changes |
| Cache.DeleteCachedUrl | src/api/lib/cache.ts:42-47 | removes only the key, after which every read of it is a miss |
| Cache.SetCachedOgMetadata | src/api/lib/cache.ts:62-75 | writes the metadata for 86400 s, or the literal "null" for 3600 s, under "og:"+alias |
| Cache.OgRoundTrip | src/api/lib/cache.ts:49-75 | stored metadata reads back for a day, a stored null for an hour, and "not cached" after that |
| Cache.OgAbsentNotCached | src/api/lib/cache.ts:55-56 | an absent OG key reads "not cached" |
| Cache.UrlFromDb | src/api/lib/cache.ts:77-91 | a record exactly when the row exists, is unexpired and its URL validates, carrying the row's URL and expiry |
| Cache.DeleteExpiredUrl | src/api/lib/cache.ts:93-98 | removes that alias's row whatever its expiry; nothing else changes |
| Cache.IncrementClickCount | src/api/lib/cache.ts:100-104 | adds one to that alias's click count only |
| Cache.MirrorsLater | src/api/lib/cache.ts:6-25 | time passing never breaks the cache-shadows-table invariant |
| Cache.CacheHitAgreesWithDb | src/api/lib/cache.ts:6-91 | under the invariant a cache hit equals what `getUrlFromDb` returns |
| Cache.CacheReadKeepsMirror | src/api/lib/cache.ts:6-25 | a read keeps the invariant, and after a non-hit the key serves no URL |
| Cache.SetFromRowKeepsMirror | src/api/lib/cache.ts:27-40 | caching a row's own URL and expiry keeps the invariant |
| Cache.ClickKeepsMirror | src/api/lib/cache.ts:100-104 | counting a click keeps the invariant |
| Cache.NonUrlPutKeepsMirror | src/api/lib/cache.ts:62-75 | writing an OG value or counter keeps the invariant |
| Cache.AfterCacheRead | src/api/lib/cache.ts:6-25 | the KV state after a URL cache read: unchanged on a hit or a miss, the key removed when the entry is expired or invalid |
| Cache.OgCacheRead | src/api/lib/cache.ts:49-60 | an og-metadata read: nothing when the key is absent or expired, else the cached null, the cached record, or an unexpected value |
| Cache.MirrorsAt | src/api/lib/cache.ts:6-91 | the cache-shadows-table invariant: a live URL entry in KV copies the URL and expiry of an existing row |
| RateLimit.MinuteKeyIsBucket | src/api/lib/rateLimit.ts:15-26 | two instants share a minute key exactly when they fall in the same UTC minute |
| RateLimit.DayKeyIsBucket | src/api/lib/rateLimit.ts:15-26 | two instants share a day key exactly when they fall on the same UTC day |
| RateLimit.MinuteKeyNotDayKey | src/api/lib/rateLimit.ts:15-26 | a minute key is never a day key |
| RateLimit.RateKeysHoldColon | src/api/lib/rateLimit.ts:21-24 | every rate key holds ':', so it is never an alias key |
| RateLimit.SecondsToMidnightBounds | src/api/lib/rateLimit.ts:45-49 | the wait until the next UTC midnight lies in [1, 86400] seconds |
| RateLimit.CheckRateLimit | src/api/lib/rateLimit.ts:28-54 | a denial's `retryAfter` lies in [1, 86400] |
| RateLimit.MinuteRule | src/api/lib/rateLimit.ts:38-41 | a present minute counter at or over its limit denies with 60, before the day rule |
| RateLimit.DayRule | src/api/lib/rateLimit.ts:43-53 | past the minute rule, the check denies exactly when a present day counter reaches its limit, with the wait until midnight; an absent counter counts as 0 |
| RateLimit.IncrementRateLimit | src/api/lib/rateLimit.ts:56-72 | the KV state becomes `IncrementedCounters` of the old state |
| RateLimit.IncrementEffect | src/api/lib/rateLimit.ts:56-72 | each counter becomes previous + 1 (1 when absent), with a TTL of 60 s for the minute counter and 86400 s for the day counter; no other key changes |
| RateLimit.MinuteCount | src/api/lib/rateLimit.ts:63-67 | k increments within one minute bucket raise the minute counter by k and keep it live for the rest of the minute |
| RateLimit.FiveThenDenied | src/api/lib/rateLimit.ts:38-41 | with a limit of 5, five increments in a minute make the next check in that minute deny with 60 |
| RateLimit.OtherMinuteUntouched | src/api/lib/rateLimit.ts:61-67 | increments in one minute never touch another minute's counter |
| RateLimit.NextMinutePasses | src/api/lib/rateLimit.ts:38-41 | the next minute passes the minute rule whenever its own counter started below the limit |
| RateLimit.GetRateLimitKeys | src/api/lib/rateLimit.ts:15-26 | the minute key and the day key of an IP and a request type, each the shared stem followed by the index of the UTC minute or day |
| RateLimit.SecondsToMidnight | src/api/lib/rateLimit.ts:45-49 | the seconds until the next UTC midnight, rounded up |
| RateLimit.IncrementedCounters | src/api/lib/rateLimit.ts:56-72 | both counters raised by one (from 0 when absent), the minute one kept for 60 s and the day one for 86400 s |
| Worker.GenerateUniqueAlias | src/api/worker.ts:183-201 | checks 1 to 5 base-62 candidates, the first of the requested length and later ones of length+1; every candidate before the last was taken; the result is free, or null after five taken candidates |
| Worker.GeneratedIsAlias | src/api/worker.ts:183-201 | every generated candidate is a valid alias |
| Worker.ResolveAlias | src/api/worker.ts:72-92 | the alias step follows `PlanAlias`: a supplied invalid alias is an error; a taken one is replaced by a generated one; with none, one is generated |
| Worker.StoreCreated | src/api/worker.ts:94-113 | inserts the row, caches it for an hour, bumps the create counters and answers with the alias, as `StoreNew` states |
| Worker.HandleCreate | src/api/worker.ts:48-116 | answer and new state are `CreateSpec` of the old state, for the candidates the generator produced |
| Worker.CreateFailureWritesNothing | src/api/worker.ts:53-96 | every 400, 429 and 503 leaves the table and the KV namespace unchanged, counters included |
| Worker.CreateBadRequest | src/api/worker.ts:57-92 | a missing IP is 400; past the rate check, an invalid URL or invalid supplied alias is 400 |
| Worker.CreateNeverOverwrites | src/api/worker.ts:72-102 | a successful create stores under a free alias and adds exactly that row, with `expires_at = now + days*86400000` |
| Worker.CreatedAlias | src/api/worker.ts:72-113 | the returned alias is the supplied one when valid and free; otherwise a generated 7 or 8 characters if the supplied one was taken, or 6 or 7 if none was supplied; always valid |
| Worker.CreateWithFreeAlias | src/api/worker.ts:72-113 | a valid, free supplied alias is stored as it is |
| Worker.AliasIsNoRateKey | src/api/worker.ts:105 | an alias without ':' is neither rate key |
| Worker.CountersLeaveAlias | src/api/worker.ts:105 | bumping counters leaves every alias lookup as it was |
| Worker.CountersKeepMirror | src/api/worker.ts:105 | bumping counters keeps the cache-shadows-table invariant |
| Worker.CreatedResolves | src/api/worker.ts:98-104 | a new short URL is answered by the table and by the cache with the same entry |
| Worker.CreateKeepsMirror | src/api/worker.ts:48-116 | create keeps the cache-shadows-table invariant |
| Worker.HandleCheck | src/api/worker.ts:117-134 | `available` holds exactly for a valid alias with no row; a reason is given exactly for an invalid alias |
| Worker.AvailableMeansKept | src/api/worker.ts:117-134 | an alias reported available is stored under that alias by a create that passes rate and URL checks |
| Worker.HandleRedirect | src/api/worker.ts:135-178 | answer and new state are `RedirectSpec` of the old state |
| Worker.InvalidAliasNotFound | src/api/worker.ts:143 | an invalid alias is 404 before the IP and rate checks and changes nothing |
| Worker.RedirectServesOnlyLive | src/api/worker.ts:153-175 | a redirect goes only to a valid, unexpired URL, from a live cache entry or the alias's own row |
| Worker.RedirectAgreesWithDb | src/api/worker.ts:153-175 | under the invariant, past the guards, the answer is the row's URL when it is unexpired and valid, and 404 otherwise |
| Worker.RedirectMissDeletesRow | src/api/worker.ts:160-164 | a table miss deletes the row, even an unexpired one whose URL fails validation |
| Worker.RedirectRecaches | src/api/worker.ts:166-171 | a table hit re-caches with the row's own expiry, so the next read is a cache hit with the same entry |
| Worker.RedirectCountsClick | src/api/worker.ts:172 | a served redirect adds one click to that row only |
| Worker.RedirectKeepsMirror | src/api/worker.ts:135-178 | redirect keeps the cache-shadows-table invariant |
| Worker.ExtensionsDotted | src/api/worker.ts:203-220 | every static extension starts with '.' |
| Worker.AliasPathNotStatic | src/api/worker.ts:203-220 | "/" + a valid alias is never a static asset |
| Worker.StaticExamples | src/api/worker.ts:203-220 | "/assets/index.js" and "/fonts/a.woff2" are static assets |
| Worker.Scheduled | src/api/worker.ts:321-341 | exactly the expired rows are deleted, with exactly their cache keys |
| Worker.SweepLeavesNothingExpired | src/api/worker.ts:321-341 | after the sweep no row is expired, and when the cache shadowed the table, every live URL entry left in the cache names a row the sweep kept |
| Worker.SweepKeepsMirror | src/api/worker.ts:321-341 | the sweep keeps the cache-shadows-table invariant |
| Worker.PlanAlias | src/api/worker.ts:72-92 | the alias step of a create: an invalid supplied alias is an error, a taken one a conflict, a free one is used, none means generate |
| Worker.CreateSpec | src/api/worker.ts:48-116 | the answer and new table and cache of a create request, branch by branch |
| Worker.RedirectSpec | src/api/worker.ts:135-178 | the answer and new table and cache of a redirect request, branch by branch |
| Worker.IsStaticAsset | src/api/worker.ts:203-220 | a path is a static asset exactly when it ends in one of the thirteen extensions |
| Text.DecimalRoundTrip | src/api/lib/rateLimit.ts:64-67 | parsing the decimal rendering of a count gives the count back |
| Text.Lower | src/api/lib/validation.ts:21 | `toLowerCase` on ASCII: same length, each letter lowered, every other character kept |
| Text.Split | src/api/lib/security.ts:17 | `split(sep)` on one character: the pieces between separators, at least one |
| Text.Trim | src/api/lib/ogFetcher.ts:34 | `trim()`: removes exactly the leading and trailing white space — the result is a slice of the input, everything cut before and after it is white space, and it neither starts nor ends with white space |
| Text.ReplaceAll | src/api/lib/ogHtml.ts:3-10 | a global `replace`: every non-overlapping occurrence, left to right |
| Text.ReplaceFirst | src/client/hooks/useUrlShortener.ts:129 | a string `replace`: the first occurrence only |
| Security.GetClientIp | src/api/lib/security.ts:11-22 | never an empty string; a non-empty `cf-connecting-ip` wins |
| Security.ForwardedAddressClean | src/api/lib/security.ts:15-21 | without a Cloudflare address there is a result exactly when the first forwarded element is non-empty; it is that element, lies in the header, and has no comma and no edge white space |
| Security.CloudflareFirst | src/api/lib/security.ts:12-13 | `cf-connecting-ip` wins over any forwarded list |
| Security.FirstForwarded | src/api/lib/security.ts:15-19 | the first comma-separated entry of `x-forwarded-for`, trimmed |
| BotDetect.BotCaseInsensitive | src/api/lib/botDetect.ts:22-26 | a user agent and its lower-case form are classified alike |
| BotDetect.ContainsBotIsBot | src/api/lib/botDetect.ts:16-25 | a user agent holding "bot" in any case is a bot |
| BotDetect.BotMonotone | src/api/lib/botDetect.ts:25 | any string containing a bot's user agent is a bot |
| BotDetect.NoAgentNoBot | src/api/lib/botDetect.ts:23 | a missing or empty user agent is no bot |
| BotDetect.IsSocialMediaBot | src/api/lib/botDetect.ts:22-26 | a missing or empty user agent is no bot; otherwise a bot exactly when its lower-cased text contains one of the lower-cased crawler names |
| OgHtml.EscapeAppend | src/api/lib/ogHtml.ts:3-10 | escaping distributes over concatenation |
| OgHtml.EscapeHtmlPerChar | src/api/lib/ogHtml.ts:3-10 | the five chained replacements equal escaping one character at a time |
| OgHtml.EscapedHasNoMarkup | src/api/lib/ogHtml.ts:3-10 | escaped text holds no '<', '>', '"' or '\'' |
| OgHtml.EscapeIdentityOnPlain | src/api/lib/ogHtml.ts:3-10 | text without the five special characters is unchanged |
| OgHtml.EscapedAmpersandsOpenEntities | src/api/lib/ogHtml.ts:5 | every '&' in escaped text starts one of the five entities |
| OgHtml.Truncate | src/api/lib/ogHtml.ts:12-15 | s itself when it fits; otherwise its first m characters followed by "...", m+3 in all |
| OgHtml.TruncateBounds | src/api/lib/ogHtml.ts:12-15 | the result has at most m+3 characters and starts with the kept prefix |
| OgHtml.BotPageDefaults | src/api/lib/ogHtml.ts:24-35 | without target metadata the page uses the URL cut to 60, "Shared via https://satset.io/<alias>", the site image and the URL's hostname |
| OgHtml.BotPageUsesTarget | src/api/lib/ogHtml.ts:32-35 | non-empty target fields win over every default |
| OgHtml.EmptyTitleFallsBack | src/api/lib/ogHtml.ts:32 | an empty target title counts as missing |
| OgHtml.EscapeHtml | src/api/lib/ogHtml.ts:3-10 | the five replace-all passes, '&' first, then '<', '>', '"' and '\'' |
| OgHtml.BotPageFor | src/api/lib/ogHtml.ts:24-35 | the values of the crawler page: each target field where present and non-empty, its default otherwise; the site name falls back to the URL's host, and without one of the two there is no page |
| OgFetcher.DecodeIdentityWithoutAmpersand | src/api/lib/ogFetcher.ts:37-46 | text without '&' decodes to itself |
| OgFetcher.DoubleDecoding | src/api/lib/ogFetcher.ts:37-46 | "&amp;lt;" decodes to "<", because `&amp;` is decoded first and the result is decoded again |
| OgFetcher.ResolveUrl | src/api/lib/ogFetcher.ts:48-64 | null or "" resolve to null |
| OgFetcher.ResolveWithoutResolver | src/api/lib/ogFetcher.ts:51-57 | http(s) URLs come back unchanged and "//x" becomes "https://x", without the resolver |
| OgFetcher.ExtractMeta | src/api/lib/ogFetcher.ts:28-35 | null when neither pattern matches; otherwise the trimmed, decoded capture of the primary pattern when it matched, else of the alternative |
| OgFetcher.EmptyPrimaryCaptureHidesAlternative | src/api/lib/ogFetcher.ts:33-34 | a primary match with an empty capture gives null without consulting the alternative |
| OgFetcher.Capped | src/api/lib/ogFetcher.ts:135-138 | null exactly for a missing or empty value; otherwise the whole value when it fits in `cap` characters and its first `cap` characters when longer |
| OgFetcher.FieldCaps | src/api/lib/ogFetcher.ts:112-139 | the title has at most 200 characters, the description 500 and the site name 100; the site name is a prefix of what was extracted |
| OgFetcher.TitlePreference | src/api/lib/ogFetcher.ts:112-115 | the Open Graph title wins; the `<title>` tag is used only when it is missing or empty |
| OgFetcher.NothingFound | src/api/lib/ogFetcher.ts:112-139 | with no pattern matching, all four fields are null |
| OgFetcher.DecodeHtmlEntities | src/api/lib/ogFetcher.ts:37-46 | the seven entity replace-all passes, `&amp;` first |
| OgFetcher.OgFromHtml | src/api/lib/ogFetcher.ts:112-139 | the metadata record built from a page head: title from og:title then the title tag, description from og:description then the meta description, the image resolved against the page URL, each text field cut to its cap |
| ClientValidation.AliasAgreesWithServer | src/client/lib/validation.ts:32-35 | the client alias rule is exactly the server's |
| ClientValidation.IpAgreesWithServer | src/client/lib/validation.ts:4-8 | the client IP-literal test is exactly the server's |
| ClientValidation.SchemaRequiresHttps | src/client/lib/validation.ts:14-16 | an accepted URL starts with "https://" |
| ClientValidation.SchemaRejectsHosts | src/client/lib/validation.ts:17-27 | a parse failure, an IP-literal host or a host without a dot is rejected |
| ClientValidation.ServerDomainPassesClient | src/client/lib/validation.ts:21-24 | every host the server accepts is a dotted non-IP host |
| ClientValidation.ServerUrlPassesHostRefinement | src/client/lib/validation.ts:17-27 | every URL the server accepts passes the client's host refinement |
| ClientValidation.LocalHostnameOnlyClient | src/client/lib/validation.ts:21-24 | "example.local" passes the client's rule and fails the server's |
| ClientValidation.IsIpAddress | src/client/lib/validation.ts:4-8 | the client's IP-literal test: four groups of 1-3 digits, a ':' or a leading '[' |
| ClientValidation.IsValidAlias | src/client/lib/validation.ts:32-35 | the client alias rule: 1 to 16 ASCII letters or digits |
| ClientValidation.HostRefinement | src/client/lib/validation.ts:17-27 | the form's host refinement: the URL parses and its host is no IP literal and contains a dot; a parse failure refuses |
| ClientValidation.UrlSchemaAccepts | src/client/lib/validation.ts:10-28 | the form accepts a URL exactly when the URL check passes, it starts with "https://" and the host refinement holds |
| Sync.Values | src/client/lib/sync.ts:88-94 | the saved array lists the map's records in insertion order |
| Sync.LoadShape | src/client/lib/sync.ts:77-86 | the loaded map holds one entry per alias, filed under the record's own alias |
| Sync.SaveLoadRoundTrip | src/client/lib/sync.ts:77-94 | saving a well-keyed map and loading it back gives the same map |
| Sync.SyncedMeansStored | src/client/lib/sync.ts:131-134 | an alias is synced exactly when some saved record carries it |
| Sync.TaskRecordsServerAlias | src/client/lib/sync.ts:161-168 | a success saves the record with the server's alias and expiry, and the server's alias is synced afterwards |
| Sync.SubstitutedAliasNotSynced | src/client/lib/sync.ts:161-168 | when the server substituted another alias, the task's own alias is still not synced afterwards |
| Sync.SurvivorOrigins | src/client/lib/sync.ts:200-219 | each remaining task is the bumped copy of a failed task; every task still under five attempts remains |
| Sync.SurvivorOriginsIncrease | src/client/lib/sync.ts:200-219 | the remaining tasks keep their queue order |
| Sync.SurvivorCounts | src/client/lib/sync.ts:213-219 | every remaining task has failed 1 to 4 times, so a task is tried at most five times; the queue never grows |
| Sync.RetryDelayBounds | src/client/lib/sync.ts:230-233 | for a remaining task the backoff is `1000 * 2^retryCount`, between 2 and 16 s, so the 30 s cap never applies |
| Sync.PassTimerBounds | src/client/lib/sync.ts:228-235 | a pass sets at most one retry timer, 2 to 16 s long, from the first remaining task |
| Sync.SuccessMasksDrops | src/client/lib/sync.ts:236-242 | with nothing left to retry, one success makes the pass report "success" even if tasks were dropped |
| Sync.PassNeverIdle | src/client/lib/sync.ts:228-245 | a pass over a non-empty queue never ends with "idle" |
| Sync.SurvivorsKeepAliases | src/client/lib/sync.ts:200-226 | one task per alias stays true after a pass, and no survivor carries a succeeded alias |
| Sync.HonouredPassRecords | src/client/lib/sync.ts:161-168 | when the server keeps every alias, each success is found under its alias with the server's expiry |
| Sync.QueueCreateKeepsAliases | src/client/lib/sync.ts:96-129 | `queueCreate` keeps one task per alias; a new task has retry count 0 and goes last; afterwards the alias is pending or synced |
| Sync.PassKeepsQueueInvariant | src/client/lib/sync.ts:177-226 | one task per alias, each with retry count below 5, holds after every pass |
| Sync.Unsubscribed | src/client/lib/sync.ts:42 | the disposer leaves exactly the other listeners |
| Sync.SubscribeThenDispose | src/client/lib/sync.ts:38-43 | subscribing a new listener and disposing of it restores the listener list |
| Sync.Fanout | src/client/lib/sync.ts:47-55 | one delivery calls every listener, in subscription order, with the same notification |
| Sync.SyncService.constructor | src/client/lib/sync.ts:33-36 | starts "idle", not syncing, with no listeners, timers or deliveries, over the saved queue and synced records |
| Sync.SyncService.IsAliasSynced | src/client/lib/sync.ts:131-134 | true exactly when a saved record carries the alias |
| Sync.SyncService.NotifyListeners | src/client/lib/sync.ts:45-56 | sets the current status at once and queues one delivery; nothing else changes |
| Sync.SyncService.OnSyncStatusChange | src/client/lib/sync.ts:38-43 | adds the listener as a set does; nothing else changes |
| Sync.SyncService.Dispose | src/client/lib/sync.ts:42 | removes exactly that listener |
| Sync.SyncService.DeliverNext | src/client/lib/sync.ts:47-55 | calls every listener with the oldest queued notification; a throwing listener does not stop the rest; returns exactly the listeners that threw |
| Sync.SyncService.ScheduleSync | src/client/lib/sync.ts:141-150 | a drain timer is pending afterwards; nothing else changes |
| Sync.SyncService.QueueCreate | src/client/lib/sync.ts:96-129 | does nothing when the alias is synced or queued; otherwise appends one task, then schedules a drain when online or reports "offline" with its message |
| Sync.SyncService.ProcessCreateTask | src/client/lib/sync.ts:152-175 | reports success exactly as the server accepts, and files the record as `StoreAfterTask` states |
| Sync.SyncService.DrainTasks | src/client/lib/sync.ts:200-224 | the remaining tasks, success and drop flags, and the synced store are the pass functions of the queue |
| Sync.SyncService.ProcessQueue | src/client/lib/sync.ts:177-246 | does nothing while a pass runs; offline it reports "offline"; an empty queue reports "idle"; otherwise the queue becomes the survivors, the store gets the successes, the status follows `PassNotification` and any retry timer follows `PassTimers` |
| Sync.SyncService.SyncTimerFires | src/client/lib/sync.ts:146-149 | clears the pending timer, then drains: each of the four cases of `processQueue` (busy, offline, empty queue, a pass) with its new queue, store, timers, outbox and status |
| Sync.SyncService.InitSyncService | src/client/lib/sync.ts:252-279 | asks for a drain in 500 ms when online with work queued; offline it reports "offline" with no message |
| Sync.MapSet | src/client/lib/sync.ts:161-168 | `Map.set`: a new key goes last, an existing key keeps its place with the new value |
| Sync.Load | src/client/lib/sync.ts:77-86 | the saved array read back into a map keyed by alias, a later record of the same alias replacing the earlier |
| Sync.Survivors | src/client/lib/sync.ts:200-219 | the tasks a pass leaves, in order: each failed task that may still retry, with its count raised |
| Sync.RetryDelay | src/client/lib/sync.ts:230-233 | the backoff `min(1000 * 2^retryCount, 30000)` milliseconds |
| Sync.PassNotification | src/client/lib/sync.ts:228-245 | the status reported after a pass, tested in order: an error while tasks remain, success when one succeeded, an error when one was dropped, else idle |
| Sync.QueueAfterCreate | src/client/lib/sync.ts:96-129 | the queue after `queueCreate`: unchanged for a synced alias or one already queued, one new task last otherwise |
| Sync.Subscribed | src/client/lib/sync.ts:41 | `Set.add`: the listener appended unless it is already there |
| SyncStatusView.ToastTransitions | src/client/hooks/useSyncStatus.ts:15-23 | "offline" with a non-empty message shows the toast; "success" and "idle" hide it; "syncing", "error" and a bare "offline" leave it |
| SyncStatusView.OfflineReports | src/client/hooks/useSyncStatus.ts:18-19 | the queue's offline report shows the toast; the bare offline report at start-up leaves it as it was |
| SyncStatusView.PassClosesToast | src/client/hooks/useSyncStatus.ts:20-21 | after a pass over a non-empty queue the toast is hidden exactly when the pass reports "success", and otherwise kept as it was |
| SyncStatusView.SyncToast.constructor | src/client/hooks/useSyncStatus.ts:9-10 | starts "idle" with the toast hidden |
| SyncStatusView.SyncToast.OnStatus | src/client/hooks/useSyncStatus.ts:15-23 | stores the status and sets visibility by `ToastAfter` |
| SyncStatusView.SyncToast.HideOfflineToast | src/client/hooks/useSyncStatus.ts:31 | hides the toast |
| SyncStatusView.SyncToast.ShowOfflineToast | src/client/hooks/useSyncStatus.ts:32 | shows the toast |
| SyncStatusView.ToastAfter | src/client/hooks/useSyncStatus.ts:15-23 | the offline toast shows on "offline" with a non-empty message, hides on "success" and "idle", and otherwise stays as it was |
| UrlShortener.LowDigits | src/client/hooks/useUrlShortener.ts:33-36 | at most `width` alphanumeric digits |
| UrlShortener.LowDigitsValue | src/client/hooks/useUrlShortener.ts:33-36 | the digits are the base-62 value `n mod 62^width` |
| UrlShortener.LowDigitsFull | src/client/hooks/useUrlShortener.ts:33-36 | a number of at least `62^(width-1)` yields all `width` digits |
| UrlShortener.ClockFillsSevenDigits | src/client/hooks/useUrlShortener.ts:28-36 | for any clock reading of 56801 ms or more the first loop yields seven digits |
| UrlShortener.EmitLowDigits | src/client/hooks/useUrlShortener.ts:32-36 | the first loop yields the seven low base-62 digits of the number |
| UrlShortener.PadToSix | src/client/hooks/useUrlShortener.ts:38-40 | pads on the left with random alphanumerics up to six characters, keeping the digits as the suffix |
| UrlShortener.GenerateBase62String | src/client/hooks/useUrlShortener.ts:27-43 | 6 or 7 characters from `BASE62_CHARS`, a valid alias, ending in the low digits of `timestamp*1000000+random` |
| UrlShortener.WithEntryShape | src/client/hooks/useUrlShortener.ts:91 | the new entry first, then the old history, at most 10 entries |
| UrlShortener.FindExistingEntry | src/client/hooks/useUrlShortener.ts:112-117 | the first entry whose original URL matches, or nothing when none does |
| UrlShortener.FindsNewestEntry | src/client/hooks/useUrlShortener.ts:91-117 | right after a link is added, looking up its URL finds that entry |
| UrlShortener.RetargetHistory | src/client/hooks/useUrlShortener.ts:124-134 | the same length; entries for the current short URL get the new URL without "https://" and the new QR image; the others stay |
| UrlShortener.StripsScheme | src/client/hooks/useUrlShortener.ts:129 | `replace("https://", "")` strips a leading scheme |
| UrlShortener.RetargetKeepsLookups | src/client/hooks/useUrlShortener.ts:112-134 | retargeting does not change which original URLs are in the history |
| UrlShortener.Shortener.constructor | src/client/hooks/useUrlShortener.ts:14-64 | empty result, the saved history, and a valid pre-generated alias of 6 or 7 characters |
| UrlShortener.Shortener.QrCodeReady | src/client/hooks/useUrlShortener.ts:49-51 | the QR image of the pre-generated alias is stored; no other field changes |
| UrlShortener.Shortener.GenerateShortUrl | src/client/hooks/useUrlShortener.ts:77-104 | returns the pre-generated alias, records the link first in the history with the current QR image, and pre-generates a fresh valid alias |
| UrlShortener.Shortener.FullShortUrl | src/client/hooks/useUrlShortener.ts:106-110 | "" without a result; otherwise the base, "/" and the custom alias when typed, else the short URL |
| UrlShortener.Shortener.UpdateQRCodeForAlias | src/client/hooks/useUrlShortener.ts:119-139 | shows the new QR image; with a non-empty shown value, every history entry whose link equals it gets the new link without its scheme and the new image, all others stay; no other field changes |
| UrlShortener.Shortener.UpdateQRCodeForAliasIntended | src/client/hooks/useUrlShortener.ts:119-139 | as above, but the entries compared are those holding the full link of the shown alias |
| UrlShortener.Shortener.SetShortUrl | src/client/hooks/useUrlShortener.ts:14 | the shown value becomes the given one; no other field changes |
| UrlShortener.Shortener.SetCustomAlias | src/client/hooks/useUrlShortener.ts:15 | the custom alias becomes the given one; no other field changes |
| UrlShortener.Shortener.CommitToBackend | src/client/hooks/useUrlShortener.ts:72-75 | the sync queue becomes `QueueAfterCreate` of the old queue and store, the engine's timer, status and outbox change as `queueCreate` says, and the alias becomes the synced one; no other field changes |
| UrlShortener.Shortener.Reset | src/client/hooks/useUrlShortener.ts:141-146 | clears the result, the custom and committed aliases and the synced alias; history, the original URL, the pre-generated alias and both QR images stay |
| UrlShortener.WithEntry | src/client/hooks/useUrlShortener.ts:91 | the history with the new entry first, cut to ten entries |
| UrlShortener.RetargetMissesHookEntries | src/client/hooks/useUrlShortener.ts:119-139 | the comparison as written rewrites no entry the hook made, whenever the shown value has no '/' |
| UrlShortener.NewestEntryNotRetargeted | src/client/hooks/useUrlShortener.ts:85-91 | the entry of the link just made keeps its old link and image when the shown alias is compared as written |
| UrlShortener.IntendedRetargetReachesNewest | src/client/hooks/useUrlShortener.ts:119-139 | compared against the full link, the newest entry gets the new link without its scheme and the new image |

## Left out

- I/O:
  - The network fetch and streaming read of `fetchOgMetadata` (src/api/lib/ogFetcher.ts:66-111), beyond the assembly of the fields.
  - `serveIndexHtml`, `serveBotHtml` and the `ASSETS` dispatch of src/api/worker.ts:222-319.
  - The HTML template text of `generateBotHtml`. `OgHtml.BotPageFor` gives the values the template interpolates.
  - The dev proxy.
  - These are network and presentation code.
- Foreign code:
  - WHATWG URL parsing and zod's `.url()` are oracles. The OG regular expressions are abstract matchers. The QR-code library's images are opaque strings.
  - Elysia routing and CORS, and the JSON response builders. Responses are a datatype of statuses and bodies.
- Storage:
  - JSON serialisation and localStorage are modelled as decoded arrays. A corrupt stored value, which the source reads as empty, is not modelled.
  - Saving the history to localStorage (src/client/hooks/useUrlShortener.ts:66-70) is a write-only effect.
- Numbers:
  - `Number.parseInt` on a non-numeric counter or environment value (NaN) is not modelled. Counters are naturals written by the worker itself.
  - `timestamp*1000000 + random` is an unbounded integer. As a JavaScript double it exceeds 2^53 and loses precision.
- Text:
  - Case mapping covers ASCII letters only.
  - Lengths and cuts count Unicode scalar values, as a Dafny `string` does; the source's `.length` and `substring` count UTF-16 code units. The two agree on text without characters beyond U+FFFF. A character beyond U+FFFF (an emoji, say) counts once here and twice in the source, and a `substring` that splits its surrogate pair has no counterpart here. The members that measure or cut text carry this gap, each listed below.
  - `getRateLimitKeys` formats its bucket labels as ISO strings. The model labels them by the UTC minute and day numbers, `now / 60000` and `now / 86400000`.
  - The `Retry-After` header (section 10.2.3 of RFC 9110) and the 429 status (section 4 of RFC 6585) are represented only by the `retryAfter` value and the status number.
- Concurrency:
  - `queueMicrotask`, `setTimeout` and `Promise.allSettled` are not modelled. A drain pass runs as one atomic step; a queued delivery is run by `DeliverNext`; timers are recorded as delays.
  - Interleavings are not modelled: a `queueCreate` landing mid-pass, the check-then-insert race in create, and KV eventual consistency.
  - The fire-and-forget click increment is treated as completed before the response.
  - Each handler reads the clock once, as `now`.
  - A late QR image for an older pre-generated alias can overwrite the current one in the source. `QrCodeReady` only delivers the image of the current alias.
- Randomness: `Math.random`, task ids and the React state timing are parameters or nondeterministic choices.
- Sync.HonouredPassRecords: proved only for a server that keeps every alias it is sent. With substitution the record is filed under the task's alias but carries the server's, which `Sync.SubstitutedAliasNotSynced` states.
- RateLimit.CheckRateLimit: its own contract states only the bounds of `retryAfter`. The decision itself is stated by `RateLimit.MinuteRule` and `RateLimit.DayRule`.
- RateLimit.MinuteRule: one direction only, that a counter at its limit denies. The converse, past the minute rule, is part of `RateLimit.DayRule`.
- OgFetcher.FieldCaps: the image URL is not capped, as in the source. The 200, 500 and 100 caps are counted in Unicode scalar values, not UTF-16 code units.
- Validation.IsValidUrl: the 2048 limit counts Unicode scalar values where the source's `url.length` counts UTF-16 code units, so a URL with characters beyond U+FFFF that the source refuses as too long can be accepted here.
- Validation.LongUrlRejected: "over 2048" is counted in Unicode scalar values, not UTF-16 code units.
- Validation.AcceptedUrlShape: the at-most-2048 bound is in Unicode scalar values, not UTF-16 code units.
- OgHtml.Truncate: measures and cuts in Unicode scalar values where the source's `.length` and `substring` use UTF-16 code units; text with characters beyond U+FFFF is cut later here, and never inside a surrogate pair.
- OgHtml.TruncateBounds: the m+3 bound is in Unicode scalar values, not UTF-16 code units.
- OgHtml.BotPageDefaults: the default title's 60-character cut is `Truncate`'s, counted in Unicode scalar values.
- OgHtml.BotPageFor: the default title's 60-character cut is `Truncate`'s, counted in Unicode scalar values.
- OgFetcher.Capped: `substring(0, cap)` is taken in Unicode scalar values, not UTF-16 code units, and never splits a surrogate pair.
- OgFetcher.OgFromHtml: its caps are `Capped`'s, counted in Unicode scalar values.
- OgFetcher.TitlePreference: the `<title>` fallback is trimmed but not entity-decoded, as in the source.

## Findings

| source | as written | input that shows it | evidently intended | confidence | as-written member | corrected member |
|---|---|---|---|---|---|---|
| src/client/hooks/useUrlShortener.ts:126 | the history entries rewritten after the custom alias is edited are those whose `shortUrl` equals the hook's `shortUrl`; the page stores a bare alias there (src/client/routes/index.tsx:104 and :109), while the hook stores `getShortUrl(alias)` in every entry (line 87), so nothing is ever rewritten | origin "https://satset.io", a link made with alias "abc123": the entry holds "https://satset.io/abc123", `shortUrl` is "abc123", and after editing the custom alias the entry still shows the old link and QR image | compare each entry with the full link of the shown alias, so the entry of the link just made takes the new link and image | high, not executed | UrlShortener.RetargetMissesHookEntries | UrlShortener.IntendedRetargetReachesNewest |
