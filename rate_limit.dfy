/**
 * Fixed-window rate limiting per client IP and request type
 * (src/api/lib/rateLimit.ts). Counters live in the KV namespace under
 * "rate:<ip>:<type>:min:<minute>" and "rate:<ip>:<type>:day:<day>"; the
 * bucket labels are the UTC minute and UTC day numbers of `now` (ms since the
 * epoch), written in decimal. The limits are the parsed environment values.
 */
module RateLimit {
  import opened Wrappers
  import opened Text
  import opened Store

  const MINUTE_MS: nat := 60000
  const DAY_MS: nat := 86400000
  const MINUTE_TTL_SECONDS: nat := 60
  const DAY_TTL_SECONDS: nat := 86400

  datatype RequestType = Create | Redirect {
    function Name(): string {
      match this
      case Create => "create"
      case Redirect => "redirect"
    }
  }

  datatype RateLimitKeys = RateLimitKeys(minuteKey: string, dayKey: string)

  /** Everything both keys share: "rate:<ip>:<type>". */
  function KeyStem(ip: string, requestType: RequestType): string {
    "rate:" + ip + ":" + requestType.Name()
  }

  function GetRateLimitKeys(ip: string, requestType: RequestType, now: nat): RateLimitKeys {
    RateLimitKeys(
      KeyStem(ip, requestType) + ":min:" + NatToString(now / MINUTE_MS),
      KeyStem(ip, requestType) + ":day:" + NatToString(now / DAY_MS))
  }

  /** Equal strings with a common prefix have equal rests. */
  lemma CancelPrefix(p: string, x: string, y: string)
    requires p + x == p + y
    ensures x == y
  {
    assert x == (p + x)[|p|..];
    assert y == (p + y)[|p|..];
  }

  /** Two instants share a minute key exactly when they fall in the same UTC minute. */
  lemma MinuteKeyIsBucket(ip: string, requestType: RequestType, t1: nat, t2: nat)
    ensures GetRateLimitKeys(ip, requestType, t1).minuteKey == GetRateLimitKeys(ip, requestType, t2).minuteKey
        <==> t1 / MINUTE_MS == t2 / MINUTE_MS
  {
    var p := KeyStem(ip, requestType) + ":min:";
    if GetRateLimitKeys(ip, requestType, t1).minuteKey == GetRateLimitKeys(ip, requestType, t2).minuteKey {
      CancelPrefix(p, NatToString(t1 / MINUTE_MS), NatToString(t2 / MINUTE_MS));
      NatToStringInjective(t1 / MINUTE_MS, t2 / MINUTE_MS);
    }
  }

  /** Two instants share a day key exactly when they fall on the same UTC day. */
  lemma DayKeyIsBucket(ip: string, requestType: RequestType, t1: nat, t2: nat)
    ensures GetRateLimitKeys(ip, requestType, t1).dayKey == GetRateLimitKeys(ip, requestType, t2).dayKey
        <==> t1 / DAY_MS == t2 / DAY_MS
  {
    var p := KeyStem(ip, requestType) + ":day:";
    if GetRateLimitKeys(ip, requestType, t1).dayKey == GetRateLimitKeys(ip, requestType, t2).dayKey {
      CancelPrefix(p, NatToString(t1 / DAY_MS), NatToString(t2 / DAY_MS));
      NatToStringInjective(t1 / DAY_MS, t2 / DAY_MS);
    }
  }

  /** A minute key is never the day key of the same IP and type. */
  lemma MinuteKeyNotDayKey(ip: string, requestType: RequestType, t1: nat, t2: nat)
    ensures GetRateLimitKeys(ip, requestType, t1).minuteKey != GetRateLimitKeys(ip, requestType, t2).dayKey
  {
    var s := KeyStem(ip, requestType);
    var m := GetRateLimitKeys(ip, requestType, t1).minuteKey;
    var d := GetRateLimitKeys(ip, requestType, t2).dayKey;
    assert m[|s| + 1] == 'm' && d[|s| + 1] == 'd';
  }

  /** A rate key begins with "rate:", so it holds a ':' and is never a valid alias. */
  lemma RateKeysHoldColon(ip: string, requestType: RequestType, now: nat)
    ensures ':' in GetRateLimitKeys(ip, requestType, now).minuteKey
    ensures ':' in GetRateLimitKeys(ip, requestType, now).dayKey
  {
    assert GetRateLimitKeys(ip, requestType, now).minuteKey[4] == ':';
    assert GetRateLimitKeys(ip, requestType, now).dayKey[4] == ':';
  }

  // ---------------------------------------------------------------- check

  datatype RateLimitResult = Allowed | Denied(retryAfter: nat)

  /** A counter that exists counts; `Number.parseInt` of what the worker wrote is the counter. */
  function CounterAt(slots: Slots, key: string, now: int): Option<nat> {
    match Lookup(slots, key, now)
    case Some(Count(n)) => Some(n)
    case _ => None
  }

  /** Whole seconds, rounded up, from `now` to the next UTC midnight. */
  function SecondsToMidnight(now: nat): nat {
    var tomorrow := (now / DAY_MS + 1) * DAY_MS;
    (tomorrow - now + 999) / 1000
  }

  lemma SecondsToMidnightBounds(now: nat)
    ensures 1 <= SecondsToMidnight(now) <= 86400
  {
    var tomorrow := (now / DAY_MS + 1) * DAY_MS;
    assert now / DAY_MS * DAY_MS <= now < tomorrow;
    assert 1 <= tomorrow - now <= DAY_MS;
  }

  /**
   * `checkRateLimit`: the minute counter is consulted first and denies with a
   * 60-second wait; then the day counter denies until the next UTC midnight.
   * A missing counter counts as zero. Reads only.
   */
  function CheckRateLimit(slots: Slots, ip: string, requestType: RequestType, minuteLimit: int, dayLimit: int, now: nat): (r: RateLimitResult)
    ensures r.Denied? ==> 1 <= r.retryAfter <= 86400
  {
    var keys := GetRateLimitKeys(ip, requestType, now);
    var minuteCount := CounterAt(slots, keys.minuteKey, now);
    if minuteCount.Some? && minuteCount.value >= minuteLimit then Denied(60)
    else
      var dayCount := CounterAt(slots, keys.dayKey, now);
      if dayCount.Some? && dayCount.value >= dayLimit then
        SecondsToMidnightBounds(now);
        Denied(SecondsToMidnight(now))
      else Allowed
  }

  /** The minute rule comes first: a minute counter at its limit denies with 60, whatever the day counter says. */
  lemma MinuteRule(slots: Slots, ip: string, requestType: RequestType, minuteLimit: int, dayLimit: int, now: nat)
    requires var c := CounterAt(slots, GetRateLimitKeys(ip, requestType, now).minuteKey, now);
      c.Some? && c.value >= minuteLimit
    ensures CheckRateLimit(slots, ip, requestType, minuteLimit, dayLimit, now) == Denied(60)
  {
  }

  /**
   * The day rule: past the minute rule, the request is denied exactly when the
   * day counter exists and has reached its limit, with the wait until midnight.
   */
  lemma DayRule(slots: Slots, ip: string, requestType: RequestType, minuteLimit: int, dayLimit: int, now: nat)
    requires var c := CounterAt(slots, GetRateLimitKeys(ip, requestType, now).minuteKey, now);
      !(c.Some? && c.value >= minuteLimit)
    ensures var d := CounterAt(slots, GetRateLimitKeys(ip, requestType, now).dayKey, now);
      CheckRateLimit(slots, ip, requestType, minuteLimit, dayLimit, now)
        == if d.Some? && d.value >= dayLimit then Denied(SecondsToMidnight(now)) else Allowed
  {
  }

  // ---------------------------------------------------------------- increment

  /** The next value of a counter: one more than what is stored, or 1. */
  function Bumped(c: Option<nat>): nat {
    match c
    case Some(n) => n + 1
    case None => 1
  }

  /** The KV state after `incrementRateLimit`: both counters bumped, each with its own TTL. */
  function IncrementedCounters(slots: Slots, ip: string, requestType: RequestType, now: nat): Slots {
    var keys := GetRateLimitKeys(ip, requestType, now);
    var afterMinute := slots[keys.minuteKey := PutSlot(Count(Bumped(CounterAt(slots, keys.minuteKey, now))), MINUTE_TTL_SECONDS, now)];
    afterMinute[keys.dayKey := PutSlot(Count(Bumped(CounterAt(afterMinute, keys.dayKey, now))), DAY_TTL_SECONDS, now)]
  }

  method IncrementRateLimit(cache: KvNamespace, ip: string, requestType: RequestType, now: nat)
    modifies cache
    ensures cache.slots == IncrementedCounters(old(cache.slots), ip, requestType, now)
  {
    var keys := GetRateLimitKeys(ip, requestType, now);
    var currentMinute := CounterAt(cache.slots, keys.minuteKey, now);
    cache.Put(keys.minuteKey, Count(Bumped(currentMinute)), MINUTE_TTL_SECONDS, now);
    var currentDay := CounterAt(cache.slots, keys.dayKey, now);
    cache.Put(keys.dayKey, Count(Bumped(currentDay)), DAY_TTL_SECONDS, now);
  }

  /**
   * What an increment does: each counter becomes its previous value plus one (1
   * when absent), the minute counter lives 60 s and the day counter 86400 s,
   * and no other key changes.
   */
  lemma IncrementEffect(slots: Slots, ip: string, requestType: RequestType, now: nat)
    ensures var keys := GetRateLimitKeys(ip, requestType, now);
      var after := IncrementedCounters(slots, ip, requestType, now);
      && after[keys.minuteKey] == KvSlot(Count(Bumped(CounterAt(slots, keys.minuteKey, now))), now + 60000)
      && after[keys.dayKey] == KvSlot(Count(Bumped(CounterAt(slots, keys.dayKey, now))), now + 86400000)
      && after.Keys == slots.Keys + {keys.minuteKey, keys.dayKey}
      && forall k :: k in slots && k != keys.minuteKey && k != keys.dayKey ==> after[k] == slots[k]
  {
    MinuteKeyNotDayKey(ip, requestType, now, now);
  }

  /** A sequence of increments by the same client, in time order. */
  function IncrementAll(slots: Slots, ip: string, requestType: RequestType, times: seq<nat>): Slots
    decreases |times|
  {
    if times == [] then slots
    else IncrementAll(IncrementedCounters(slots, ip, requestType, times[0]), ip, requestType, times[1..])
  }

  /** All instants lie in one UTC minute, in non-decreasing order, none after `t`. */
  predicate OneMinuteUpTo(times: seq<nat>, t: nat) {
    && (forall i :: 0 <= i < |times| ==> times[i] / MINUTE_MS == t / MINUTE_MS && times[i] <= t)
    && (forall i, j :: 0 <= i < j < |times| ==> times[i] <= times[j])
  }

  /** Instants in one minute bucket lie less than a minute apart. */
  lemma SameMinuteClose(a: nat, b: nat)
    requires a / MINUTE_MS == b / MINUTE_MS && a <= b
    ensures b < a + 60000
  {
  }

  /**
   * Counting within a minute: starting from a counter that holds `start` (or
   * none, as 0), k increments inside one minute bucket leave it at start + k,
   * still live at any later instant of that minute.
   */
  lemma {:induction false} MinuteCount(slots: Slots, ip: string, requestType: RequestType, times: seq<nat>, t: nat, start: nat)
    requires OneMinuteUpTo(times, t)
    requires |times| > 0 ==>
      CounterAt(slots, GetRateLimitKeys(ip, requestType, times[0]).minuteKey, times[0]).GetOr(0) == start
    ensures |times| > 0 ==>
      CounterAt(IncrementAll(slots, ip, requestType, times), GetRateLimitKeys(ip, requestType, t).minuteKey, t)
        == Some(start + |times|)
    decreases |times|
  {
    if |times| > 0 {
      var t0 := times[0];
      var key := GetRateLimitKeys(ip, requestType, t).minuteKey;
      MinuteKeyIsBucket(ip, requestType, t0, t);
      var next := IncrementedCounters(slots, ip, requestType, t0);
      IncrementEffect(slots, ip, requestType, t0);
      assert next[key] == KvSlot(Count(start + 1), t0 + 60000) by {
        match CounterAt(slots, key, t0)
        case Some(n) =>
        case None =>
      }
      if |times| == 1 {
        SameMinuteClose(t0, t);
      } else {
        var t1 := times[1];
        SameMinuteClose(t0, t1);
        MinuteKeyIsBucket(ip, requestType, t1, t);
        assert CounterAt(next, GetRateLimitKeys(ip, requestType, t1).minuteKey, t1) == Some(start + 1);
        MinuteCount(next, ip, requestType, times[1..], t, start + 1);
        assert times[1..][0] == t1;
      }
    }
  }

  /**
   * The window boundary: with a minute limit of 5 and no live counter at the
   * first request, five increments inside one minute make the next check in
   * that minute fail with 60, while the next minute starts over as far as the
   * minute rule is concerned.
   */
  lemma FiveThenDenied(slots: Slots, ip: string, requestType: RequestType, dayLimit: int, times: seq<nat>, t: nat)
    requires |times| == 5 && OneMinuteUpTo(times, t)
    requires CounterAt(slots, GetRateLimitKeys(ip, requestType, times[0]).minuteKey, times[0]).None?
    ensures CheckRateLimit(IncrementAll(slots, ip, requestType, times), ip, requestType, 5, dayLimit, t) == Denied(60)
  {
    MinuteCount(slots, ip, requestType, times, t, 0);
  }

  /** Increments in one minute never touch another minute's counter. */
  lemma {:induction false} OtherMinuteUntouched(slots: Slots, ip: string, requestType: RequestType, times: seq<nat>, t: nat, u: nat)
    requires forall i :: 0 <= i < |times| ==> times[i] / MINUTE_MS == t / MINUTE_MS
    requires u / MINUTE_MS != t / MINUTE_MS
    ensures var key := GetRateLimitKeys(ip, requestType, u).minuteKey;
      CounterAt(IncrementAll(slots, ip, requestType, times), key, u) == CounterAt(slots, key, u)
    decreases |times|
  {
    if |times| > 0 {
      var key := GetRateLimitKeys(ip, requestType, u).minuteKey;
      MinuteKeyIsBucket(ip, requestType, times[0], u);
      MinuteKeyNotDayKey(ip, requestType, u, times[0]);
      IncrementEffect(slots, ip, requestType, times[0]);
      var next := IncrementedCounters(slots, ip, requestType, times[0]);
      assert CounterAt(next, key, u) == CounterAt(slots, key, u);
      OtherMinuteUntouched(next, ip, requestType, times[1..], t, u);
    }
  }

  /**
   * After the burst, the following minute passes the minute rule when its own
   * counter starts below the limit: only the day rule can still deny.
   */
  lemma NextMinutePasses(slots: Slots, ip: string, requestType: RequestType, times: seq<nat>, t: nat, u: nat, minuteLimit: int, dayLimit: int)
    requires forall i :: 0 <= i < |times| ==> times[i] / MINUTE_MS == t / MINUTE_MS
    requires u / MINUTE_MS == t / MINUTE_MS + 1
    requires CounterAt(slots, GetRateLimitKeys(ip, requestType, u).minuteKey, u).GetOr(0) < minuteLimit
    ensures var after := IncrementAll(slots, ip, requestType, times);
      var d := CounterAt(after, GetRateLimitKeys(ip, requestType, u).dayKey, u);
      CheckRateLimit(after, ip, requestType, minuteLimit, dayLimit, u)
        == if d.Some? && d.value >= dayLimit then Denied(SecondsToMidnight(u)) else Allowed
  {
    OtherMinuteUntouched(slots, ip, requestType, times, t, u);
    DayRule(IncrementAll(slots, ip, requestType, times), ip, requestType, minuteLimit, dayLimit, u);
  }
}
