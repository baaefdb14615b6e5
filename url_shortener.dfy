/**
 * The shortener hook's state (src/client/hooks/useUrlShortener.ts): the
 * pre-generated alias, the history of shortened links and the current result.
 *
 * `Date.now()` and the first `Math.random()` draw are parameters; the padding
 * draws are nondeterministic choices. QR images are opaque strings that arrive
 * later, through `QrCodeReady`.
 */
module UrlShortener {
  import opened Wrappers
  import opened Text
  import opened Constants
  import V = Validation
  import Sync

  // ---------------------------------------------------------------- alias generator

  function Pow62(k: nat): (p: nat)
    ensures p >= 1
  {
    if k == 0 then 1 else 62 * Pow62(k - 1)
  }

  /** The low-order base-62 digits of `n`, most significant first, at most `width` of them and none for 0. */
  function LowDigits(n: nat, width: nat): (s: string)
    ensures |s| <= width
    ensures forall k :: 0 <= k < |s| ==> IsAlnum(s[k])
    decreases width
  {
    if n == 0 || width == 0 then ""
    else LowDigits(n / 62, width - 1) + [Base62Digit(n % 62)]
  }

  /** The number a string of base-62 symbols denotes. */
  function Base62Number(s: string): nat
    requires forall k :: 0 <= k < |s| ==> IsAlnum(s[k])
    decreases |s|
  {
    if s == [] then 0 else Base62Number(s[..|s| - 1]) * 62 + Base62Value(s[|s| - 1])
  }

  /** The digits the loop emits are `n` modulo 62^width, written in base 62. */
  lemma {:induction false} LowDigitsValue(n: nat, width: nat)
    ensures Base62Number(LowDigits(n, width)) == n % Pow62(width)
    decreases width
  {
    var s := LowDigits(n, width);
    if n == 0 || width == 0 {
    } else {
      LowDigitsValue(n / 62, width - 1);
      assert s[..|s| - 1] == LowDigits(n / 62, width - 1);
      Base62DigitValue(n % 62);
      ModSplit(n, Pow62(width - 1));
    }
  }

  /** n mod 62p, from the digit n mod 62 and the rest (n div 62) mod p. */
  lemma ModSplit(n: nat, p: nat)
    requires p > 0
    ensures n % (62 * p) == ((n / 62) % p) * 62 + n % 62
  {
    var q := n / 62;
    var a := q / p;
    var b := q % p;
    assert n == (62 * p) * a + (b * 62 + n % 62) by {
      assert n == 62 * q + n % 62;
      assert q == p * a + b;
    }
    assert 0 <= b * 62 + n % 62 < 62 * p;
    ModUnique(n, 62 * p, a, b * 62 + n % 62);
  }

  lemma ModUnique(n: nat, d: nat, a: nat, r: nat)
    requires d > 0 && r < d && n == d * a + r
    ensures n % d == r
  {
    var q := n / d;
    var m := n % d;
    assert d * (a - q) == m - r by {
      assert n == d * q + m;
      assert d * (a - q) == d * a - d * q;
    }
    MulBounds(d, a - q);
  }

  lemma MulBounds(d: int, k: int)
    requires d >= 0
    ensures k >= 1 ==> d * k >= d
    ensures k <= -1 ==> d * k <= -d
  {
    if k >= 1 {
      assert d * k == d * (k - 1) + d;
    } else if k <= -1 {
      assert d * k == d * (k + 1) - d;
    }
  }

  /** Any number with at least `width` digits yields exactly `width` symbols. */
  lemma {:induction false} LowDigitsFull(n: nat, width: nat)
    requires width >= 1 && n >= Pow62(width - 1)
    ensures |LowDigits(n, width)| == width
    decreases width
  {
    if width > 1 {
      assert n / 62 >= Pow62(width - 2);
      LowDigitsFull(n / 62, width - 1);
    }
  }

  /**
   * Every clock reading after the first minute of 1970 gives a number of at
   * least eight base-62 digits, so the first loop alone fills all seven places.
   */
  lemma ClockFillsSevenDigits(timestamp: nat, random: nat)
    requires timestamp >= 56801
    ensures |LowDigits(UniqueNum(timestamp, random), 7)| == 7
  {
    assert Pow62(6) == 56800235584;
    LowDigitsFull(UniqueNum(timestamp, random), 7);
  }

  /** Peeling one digit off `n` moves it to the front of what was emitted. */
  lemma LowDigitsStep(n: nat, width: nat, emitted: string)
    requires n > 0 && width > 0
    ensures LowDigits(n, width) + emitted == LowDigits(n / 62, width - 1) + ([BASE62_CHARS[n % 62]] + emitted)
  {
    Base62Layout();
  }

  /** The first loop of `generateBase62String`: peel base-62 digits off `n` while it is positive, at most seven. */
  method EmitLowDigits(n: nat) returns (result: string)
    ensures result == LowDigits(n, 7)
  {
    var uniqueNum := n;
    result := "";
    ghost var width: nat := 7;
    while uniqueNum > 0 && |result| < 7
      invariant |result| + width == 7
      invariant LowDigits(n, 7) == LowDigits(uniqueNum, width) + result
      decreases width
    {
      LowDigitsStep(uniqueNum, width, result);
      result := [BASE62_CHARS[uniqueNum % 62]] + result;
      uniqueNum := uniqueNum / 62;
      width := width - 1;
    }
  }

  /** The second loop: prepend random symbols until six are there. */
  method PadToSix(s: string) returns (result: string)
    requires |s| <= 7 && forall k :: 0 <= k < |s| ==> IsAlnum(s[k])
    ensures |result| == if |s| < 6 then 6 else |s|
    ensures result[|result| - |s|..] == s
    ensures forall k :: 0 <= k < |result| ==> IsAlnum(result[k])
  {
    Base62Layout();
    result := s;
    while |result| < 6
      invariant |s| <= |result| && (|s| < 6 ==> |result| <= 6) && (|s| >= 6 ==> result == s)
      invariant result[|result| - |s|..] == s
      invariant forall k :: 0 <= k < |result| ==> IsAlnum(result[k])
      decreases 6 - |result|
    {
      var pick: nat :| pick < 62;
      Base62DigitValue(pick);
      result := [BASE62_CHARS[pick]] + result;
    }
  }

  /** `timestamp * 1000000 + random`, as an exact integer. */
  function UniqueNum(timestamp: nat, random: nat): nat {
    timestamp * 1000000 + random
  }

  /** A string of 6 or 7 alphanumeric symbols is drawn from the alphabet and is a valid alias. */
  lemma AlnumIsBase62(s: string)
    requires 6 <= |s| <= 7 && forall k :: 0 <= k < |s| ==> IsAlnum(s[k])
    ensures forall k :: 0 <= k < |s| ==> s[k] in BASE62_CHARS
    ensures V.IsValidAlias(s)
  {
    forall k | 0 <= k < |s| ensures s[k] in BASE62_CHARS {
      Base62Alphabet(s[k]);
    }
    V.Base62StringIsAlias(s);
  }

  /**
   * `generateBase62String`: the low base-62 digits of `timestamp·10⁶ + random`,
   * seven at most, padded in front with random symbols to six.
   */
  method GenerateBase62String(timestamp: nat, random: nat) returns (result: string)
    requires random < 1000000
    ensures 6 <= |result| <= 7
    ensures forall k :: 0 <= k < |result| ==> result[k] in BASE62_CHARS
    ensures V.IsValidAlias(result)
    ensures var low := LowDigits(UniqueNum(timestamp, random), 7);
      |low| <= |result| && result[|result| - |low|..] == low
      && (|low| >= 6 ==> result == low)
  {
    var low := EmitLowDigits(UniqueNum(timestamp, random));
    result := PadToSix(low);
    AlnumIsBase62(result);
  }

  // ---------------------------------------------------------------- history

  datatype HistoryEntry = HistoryEntry(originalUrl: string, shortUrl: string, timestamp: nat, qrCodeDataUrl: string)

  const HISTORY_LIMIT: nat := 10

  /** `getShortUrl(alias)`: the site's origin, a slash, the alias. */
  function ShortUrl(base: string, alias: string): string {
    base + "/" + alias
  }

  /** `[newEntry, ...prev].slice(0, 10)`. */
  function WithEntry(prev: seq<HistoryEntry>, entry: HistoryEntry): seq<HistoryEntry> {
    var all := [entry] + prev;
    if |all| <= HISTORY_LIMIT then all else all[..HISTORY_LIMIT]
  }

  /**
   * The newest entry comes first, the previous entries follow in their order,
   * and only the oldest falls off once ten are kept.
   */
  lemma WithEntryShape(prev: seq<HistoryEntry>, entry: HistoryEntry)
    ensures var h := WithEntry(prev, entry);
      && |h| == (if |prev| < HISTORY_LIMIT then |prev| + 1 else HISTORY_LIMIT)
      && h[0] == entry
      && forall i :: 0 <= i < |h| - 1 ==> h[i + 1] == prev[i]
  {
  }

  /** `urlHistory.find((e) => e.originalUrl === url)`. */
  function FindExistingEntry(history: seq<HistoryEntry>, url: string): (r: Option<HistoryEntry>)
    ensures r.None? <==> forall i :: 0 <= i < |history| ==> history[i].originalUrl != url
    ensures r.Some? ==> exists i ::
      0 <= i < |history| && history[i] == r.value && r.value.originalUrl == url &&
      (forall j :: 0 <= j < i ==> history[j].originalUrl != url)
    decreases |history|
  {
    if history == [] then None
    else if history[0].originalUrl == url then Some(history[0])
    else
      var r := FindExistingEntry(history[1..], url);
      if r.Some? then
        var i :| 0 <= i < |history[1..]| && history[1..][i] == r.value && r.value.originalUrl == url
          && forall j :: 0 <= j < i ==> history[1..][j].originalUrl != url;
        assert history[i + 1] == r.value;
        assert forall j :: 0 <= j < i + 1 ==> history[j].originalUrl != url by {
          forall j | 0 < j < i + 1 ensures history[j].originalUrl != url {
            assert history[j] == history[1..][j - 1];
          }
        }
        r
      else
        assert forall i :: 0 < i < |history| ==> history[i] == history[1..][i - 1];
        r
  }

  /** A URL just shortened is found again, as the newest entry. */
  lemma FindsNewestEntry(prev: seq<HistoryEntry>, entry: HistoryEntry)
    ensures FindExistingEntry(WithEntry(prev, entry), entry.originalUrl) == Some(entry)
  {
  }

  /** The entry `updateQRCodeForAlias` writes in place of one with the current short URL. */
  function Retargeted(entry: HistoryEntry, fullUrl: string, dataUrl: string): HistoryEntry {
    entry.(shortUrl := ReplaceFirst(fullUrl, "https://", ""), qrCodeDataUrl := dataUrl)
  }

  /** The history map in `updateQRCodeForAlias`. */
  function RetargetHistory(history: seq<HistoryEntry>, current: string, fullUrl: string, dataUrl: string): (r: seq<HistoryEntry>)
    ensures |r| == |history|
    ensures forall i :: 0 <= i < |history| ==>
      r[i] == if history[i].shortUrl == current then Retargeted(history[i], fullUrl, dataUrl) else history[i]
  {
    seq(|history|, i requires 0 <= i < |history| =>
      if history[i].shortUrl == current then Retargeted(history[i], fullUrl, dataUrl) else history[i])
  }

  /** `replace("https://", "")` removes the scheme from an https URL. */
  lemma {:induction false} StripsScheme(rest: string)
    ensures ReplaceFirst("https://" + rest, "https://", "") == rest
  {
    var s := "https://" + rest;
    assert s[..8] == "https://";
    assert s[8..] == rest;
  }

  /**
   * Retargeting never changes which URLs the history finds, nor any entry
   * with another short URL; the rewritten entries carry the new short URL
   * without its scheme.
   */
  lemma RetargetKeepsLookups(history: seq<HistoryEntry>, current: string, rest: string, dataUrl: string, url: string)
    ensures var r := RetargetHistory(history, current, "https://" + rest, dataUrl);
      && FindExistingEntry(r, url).Some? == FindExistingEntry(history, url).Some?
      && forall i :: 0 <= i < |r| && history[i].shortUrl == current ==>
        r[i].shortUrl == rest && r[i].originalUrl == history[i].originalUrl && r[i].timestamp == history[i].timestamp
  {
    StripsScheme(rest);
    var r := RetargetHistory(history, current, "https://" + rest, dataUrl);
    assert forall i :: 0 <= i < |r| ==> r[i].originalUrl == history[i].originalUrl;
  }

  /**
   * The comparison as written never matches an entry the hook made: those
   * hold `getShortUrl(alias)`, which has a '/', while the page's `shortUrl`
   * is a bare alias (a generated one, or the last path segment of an entry).
   */
  lemma RetargetMissesHookEntries(history: seq<HistoryEntry>, base: string, aliases: seq<string>,
                                  current: string, fullUrl: string, dataUrl: string)
    requires '/' !in current
    requires |aliases| == |history|
    requires forall i :: 0 <= i < |history| ==> history[i].shortUrl == ShortUrl(base, aliases[i])
    ensures RetargetHistory(history, current, fullUrl, dataUrl) == history
  {
    var r := RetargetHistory(history, current, fullUrl, dataUrl);
    forall i | 0 <= i < |history| ensures r[i] == history[i] {
      assert history[i].shortUrl[|base|] == '/';
    }
  }

  /** In particular, right after a link is made and shown, its own entry keeps the old link and image. */
  lemma NewestEntryNotRetargeted(prev: seq<HistoryEntry>, base: string, url: string, alias: string, now: nat,
                                 qr: string, fullUrl: string, dataUrl: string)
    requires V.IsValidAlias(alias)
    ensures var h := WithEntry(prev, HistoryEntry(url, ShortUrl(base, alias), now, qr));
      RetargetHistory(h, alias, fullUrl, dataUrl)[0] == h[0]
  {
    var h := WithEntry(prev, HistoryEntry(url, ShortUrl(base, alias), now, qr));
    assert h[0].shortUrl[|base|] == '/';
  }

  /** Compared against the full link of the shown alias, the entry of the link just made is rewritten. */
  lemma IntendedRetargetReachesNewest(prev: seq<HistoryEntry>, base: string, url: string, alias: string, now: nat,
                                      qr: string, rest: string, dataUrl: string)
    ensures var h := WithEntry(prev, HistoryEntry(url, ShortUrl(base, alias), now, qr));
      var r := RetargetHistory(h, ShortUrl(base, alias), "https://" + rest, dataUrl);
      r[0] == HistoryEntry(url, rest, now, dataUrl)
  {
    StripsScheme(rest);
  }

  // ---------------------------------------------------------------- the hook

  class Shortener {
    /** The site origin, `window.location.origin`. */
    const base: string
    var shortUrl: Option<string>
    var customAlias: string
    var committedAlias: string
    var currentOriginalUrl: string
    var urlHistory: seq<HistoryEntry>
    var preGeneratedAlias: string
    var preGeneratedQRCode: Option<string>
    var qrCodeDataUrl: Option<string>
    var previousSyncedAlias: Option<string>

    /** Mount: load the saved history and pre-generate the first alias. */
    constructor(origin: string, savedHistory: seq<HistoryEntry>, timestamp: nat, random: nat)
      requires random < 1000000
      ensures base == origin && urlHistory == savedHistory
      ensures shortUrl == None && customAlias == "" && committedAlias == "" && currentOriginalUrl == ""
      ensures V.IsValidAlias(preGeneratedAlias) && 6 <= |preGeneratedAlias| <= 7
      ensures preGeneratedQRCode == None && qrCodeDataUrl == None && previousSyncedAlias == None
    {
      var first := GenerateBase62String(timestamp, random);
      base := origin;
      shortUrl := None;
      customAlias := "";
      committedAlias := "";
      currentOriginalUrl := "";
      urlHistory := savedHistory;
      preGeneratedAlias := first;
      preGeneratedQRCode := None;
      qrCodeDataUrl := None;
      previousSyncedAlias := None;
    }

    /** The QR image for the pre-generated alias has been drawn. */
    method QrCodeReady(dataUrl: string)
      modifies this
      ensures preGeneratedQRCode == Some(dataUrl)
      ensures preGeneratedAlias == old(preGeneratedAlias) && urlHistory == old(urlHistory)
      ensures shortUrl == old(shortUrl) && qrCodeDataUrl == old(qrCodeDataUrl)
      ensures customAlias == old(customAlias) && committedAlias == old(committedAlias)
      ensures currentOriginalUrl == old(currentOriginalUrl) && previousSyncedAlias == old(previousSyncedAlias)
    {
      preGeneratedQRCode := Some(dataUrl);
    }

    /** `setShortUrl`, as the page calls it with the alias it shows (a fresh one, or one taken from the history). */
    method SetShortUrl(value: Option<string>)
      modifies this
      ensures shortUrl == value
      ensures customAlias == old(customAlias) && committedAlias == old(committedAlias)
      ensures currentOriginalUrl == old(currentOriginalUrl) && urlHistory == old(urlHistory)
      ensures preGeneratedAlias == old(preGeneratedAlias) && preGeneratedQRCode == old(preGeneratedQRCode)
      ensures qrCodeDataUrl == old(qrCodeDataUrl) && previousSyncedAlias == old(previousSyncedAlias)
    {
      shortUrl := value;
    }

    /** `setCustomAlias`, as the alias field is edited. */
    method SetCustomAlias(value: string)
      modifies this
      ensures customAlias == value
      ensures shortUrl == old(shortUrl) && committedAlias == old(committedAlias)
      ensures currentOriginalUrl == old(currentOriginalUrl) && urlHistory == old(urlHistory)
      ensures preGeneratedAlias == old(preGeneratedAlias) && preGeneratedQRCode == old(preGeneratedQRCode)
      ensures qrCodeDataUrl == old(qrCodeDataUrl) && previousSyncedAlias == old(previousSyncedAlias)
    {
      customAlias := value;
    }

    /**
     * `generateShortUrl(url)`: hand out the pre-generated alias, record the
     * link first in the history, and pre-generate the next alias.
     */
    method GenerateShortUrl(url: string, now: nat, timestamp: nat, random: nat) returns (alias: string)
      requires random < 1000000
      modifies this
      ensures alias == old(preGeneratedAlias)
      ensures V.IsValidAlias(preGeneratedAlias) && 6 <= |preGeneratedAlias| <= 7
      ensures qrCodeDataUrl == Some(old(preGeneratedQRCode).GetOr(""))
      ensures currentOriginalUrl == url && previousSyncedAlias == None
      ensures urlHistory == WithEntry(old(urlHistory), HistoryEntry(url, ShortUrl(base, alias), now, old(preGeneratedQRCode).GetOr("")))
      ensures shortUrl == old(shortUrl) && customAlias == old(customAlias) && committedAlias == old(committedAlias)
      ensures preGeneratedQRCode == old(preGeneratedQRCode)
    {
      alias := preGeneratedAlias;
      var currentQRCode := preGeneratedQRCode.GetOr("");
      qrCodeDataUrl := Some(currentQRCode);
      currentOriginalUrl := url;
      var entry := HistoryEntry(url, ShortUrl(base, alias), now, currentQRCode);
      urlHistory := WithEntry(urlHistory, entry);
      preGeneratedAlias := GenerateBase62String(timestamp, random);
      previousSyncedAlias := None;
    }

    /** `getFullShortUrl`: "" without a result, else the link for the custom alias if one is typed. */
    function FullShortUrl(): (r: string)
      reads this
      ensures shortUrl.None? || shortUrl == Some("") ==> r == ""
      ensures shortUrl.Some? && shortUrl.value != "" ==>
        && StartsWith(r, base + "/")
        && r[|base| + 1..] == (if customAlias != "" then customAlias else shortUrl.value)
    {
      if shortUrl.None? || shortUrl.value == "" then ""
      else ShortUrl(base, if customAlias != "" then customAlias else shortUrl.value)
    }

    function FindEntry(url: string): Option<HistoryEntry>
      reads this
    {
      FindExistingEntry(urlHistory, url)
    }

    /**
     * `updateQRCodeForAlias` as written: show the new QR image and rewrite the
     * history entries whose short URL equals `shortUrl`. The page keeps a bare
     * alias in `shortUrl` while the hook stores full links in the history, so
     * no entry the hook made is ever rewritten (`RetargetMissesHookEntries`).
     */
    method UpdateQRCodeForAlias(fullUrl: string, dataUrl: string)
      modifies this
      ensures qrCodeDataUrl == Some(dataUrl)
      ensures shortUrl.None? || shortUrl == Some("") ==> urlHistory == old(urlHistory)
      ensures shortUrl.Some? && shortUrl.value != "" ==> urlHistory == RetargetHistory(old(urlHistory), shortUrl.value, fullUrl, dataUrl)
      ensures shortUrl == old(shortUrl) && customAlias == old(customAlias) && preGeneratedAlias == old(preGeneratedAlias)
      ensures committedAlias == old(committedAlias) && currentOriginalUrl == old(currentOriginalUrl)
      ensures preGeneratedQRCode == old(preGeneratedQRCode) && previousSyncedAlias == old(previousSyncedAlias)
    {
      qrCodeDataUrl := Some(dataUrl);
      if shortUrl.Some? && shortUrl.value != "" {
        urlHistory := RetargetHistory(urlHistory, shortUrl.value, fullUrl, dataUrl);
      }
    }

    /**
     * `updateQRCodeForAlias` as evidently intended: the entries compared are
     * those holding the full link of the shown alias, so the entry of the
     * link just made is the one rewritten (`IntendedRetargetReachesNewest`).
     */
    method UpdateQRCodeForAliasIntended(fullUrl: string, dataUrl: string)
      modifies this
      ensures qrCodeDataUrl == Some(dataUrl)
      ensures shortUrl.None? || shortUrl == Some("") ==> urlHistory == old(urlHistory)
      ensures shortUrl.Some? && shortUrl.value != "" ==> urlHistory == RetargetHistory(old(urlHistory), ShortUrl(base, shortUrl.value), fullUrl, dataUrl)
      ensures shortUrl == old(shortUrl) && customAlias == old(customAlias) && preGeneratedAlias == old(preGeneratedAlias)
      ensures committedAlias == old(committedAlias) && currentOriginalUrl == old(currentOriginalUrl)
      ensures preGeneratedQRCode == old(preGeneratedQRCode) && previousSyncedAlias == old(previousSyncedAlias)
    {
      qrCodeDataUrl := Some(dataUrl);
      if shortUrl.Some? && shortUrl.value != "" {
        urlHistory := RetargetHistory(urlHistory, ShortUrl(base, shortUrl.value), fullUrl, dataUrl);
      }
    }

    /** `commitToBackend`: queue the link with the sync engine and remember its alias as the synced one. */
    method CommitToBackend(alias: string, originalUrl: string, service: Sync.SyncService, now: nat, id: string, online: bool)
      modifies this, service
      ensures previousSyncedAlias == Some(alias)
      ensures service.queue == Sync.QueueAfterCreate(old(service.queue), old(service.syncedStore), alias, originalUrl, now, id)
      ensures service.syncedStore == old(service.syncedStore)
      ensures shortUrl == old(shortUrl) && customAlias == old(customAlias) && urlHistory == old(urlHistory)
      ensures preGeneratedAlias == old(preGeneratedAlias) && qrCodeDataUrl == old(qrCodeDataUrl)
      ensures committedAlias == old(committedAlias) && currentOriginalUrl == old(currentOriginalUrl)
      ensures preGeneratedQRCode == old(preGeneratedQRCode)
      ensures service.listeners == old(service.listeners) && service.isSyncing == old(service.isSyncing)
      ensures service.retryTimers == old(service.retryTimers) && service.calls == old(service.calls)
      ensures service.queue == old(service.queue) ==>
        service.outbox == old(service.outbox) && service.syncTimerPending == old(service.syncTimerPending)
        && service.currentStatus == old(service.currentStatus)
      ensures service.queue != old(service.queue) && online ==>
        service.syncTimerPending && service.outbox == old(service.outbox) && service.currentStatus == old(service.currentStatus)
      ensures service.queue != old(service.queue) && !online ==>
        service.syncTimerPending == old(service.syncTimerPending) && service.currentStatus == Sync.Offline
        && service.outbox == old(service.outbox) + [Sync.Notification(Sync.Offline, Some(Sync.OFFLINE_MESSAGE))]
    {
      service.QueueCreate(alias, originalUrl, now, id, online);
      previousSyncedAlias := Some(alias);
    }

    /** `reset`: clear the result and the aliases; history and the pre-generated alias stay. */
    method Reset()
      modifies this
      ensures shortUrl == None && customAlias == "" && committedAlias == "" && previousSyncedAlias == None
      ensures urlHistory == old(urlHistory) && preGeneratedAlias == old(preGeneratedAlias)
      ensures currentOriginalUrl == old(currentOriginalUrl) && qrCodeDataUrl == old(qrCodeDataUrl)
      ensures preGeneratedQRCode == old(preGeneratedQRCode)
    {
      shortUrl := None;
      customAlias := "";
      committedAlias := "";
      previousSyncedAlias := None;
    }
  }
}
