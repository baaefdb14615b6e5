/**
 * The browser's offline-first sync engine (src/client/lib/sync.ts).
 *
 * Links are created locally and queued; a drain pass sends every queued task
 * to the create endpoint, records the successes in the synced-URL store,
 * keeps failed tasks for another try (at most five attempts in all) and
 * reports a status to the subscribed listeners.
 *
 * localStorage is two fields holding the decoded arrays; the create endpoint
 * is the parameter `api`, the server's answer to each (alias, URL) request of
 * a pass; connectivity is the parameter `online`; a drain pass is atomic.
 */
module Sync {
  import opened Wrappers

  datatype SyncStatus = Idle | Syncing | Offline | Error | Success

  /** A queued "create" task (the only task type). */
  datatype SyncTask = SyncTask(id: string, alias: string, originalUrl: string, createdAt: nat, retryCount: nat)

  datatype SyncedUrl = SyncedUrl(alias: string, originalUrl: string, syncedAt: nat, expiresAt: int)

  /** The create endpoint's answer: the stored alias and expiry, or a thrown error. */
  datatype ApiAnswer = Accepted(alias: string, expiresAt: int) | Rejected

  /** `createUrl({ alias, original_url })` during one pass. */
  type CreateUrlApi = (string, string) -> ApiAnswer

  datatype Notification = Notification(status: SyncStatus, message: Option<string>)

  /** A subscribed status listener, by identity. */
  type ListenerId = nat

  const OFFLINE_MESSAGE: string := "No internet connection. Your link is not ready to use."
  const MAX_ATTEMPTS: nat := 5
  const SYNC_DELAY_MS: nat := 100
  const INIT_DELAY_MS: nat := 500
  const MAX_RETRY_DELAY_MS: nat := 30000

  // ---------------------------------------------------------------- the synced map

  /** A JavaScript `Map<string, SyncedUrl>`: entries in insertion order, keys distinct. */
  type Entries = seq<(string, SyncedUrl)>

  function Keys(m: Entries): set<string> {
    set i | 0 <= i < |m| :: m[i].0
  }

  function Get(m: Entries, k: string): Option<SyncedUrl>
    decreases |m|
  {
    if m == [] then None
    else if m[0].0 == k then Some(m[0].1)
    else Get(m[1..], k)
  }

  /** `map.set(k, v)`: an existing key keeps its place and takes the new value; a new key goes last. */
  function MapSet(m: Entries, k: string, v: SyncedUrl): Entries
    decreases |m|
  {
    if m == [] then [(k, v)]
    else if m[0].0 == k then [(k, v)] + m[1..]
    else [m[0]] + MapSet(m[1..], k, v)
  }

  /** `[...map.values()]`, the array that is saved. */
  function Values(m: Entries): (r: seq<SyncedUrl>)
    ensures |r| == |m| && forall i :: 0 <= i < |m| ==> r[i] == m[i].1
  {
    seq(|m|, i requires 0 <= i < |m| => m[i].1)
  }

  /** `getSyncedUrls`: `new Map(arr.map((u) => [u.alias, u]))`, re-keyed by each record's own alias. */
  function Load(arr: seq<SyncedUrl>): Entries
    decreases |arr|
  {
    if arr == [] then []
    else MapSet(Load(arr[..|arr| - 1]), arr[|arr| - 1].alias, arr[|arr| - 1])
  }

  function SyncedAliases(arr: seq<SyncedUrl>): set<string> {
    set u | u in arr :: u.alias
  }

  /** Every entry is filed under its own record's alias, once. */
  predicate WellKeyed(m: Entries) {
    && (forall i :: 0 <= i < |m| ==> m[i].1.alias == m[i].0)
    && (forall i, j :: 0 <= i < j < |m| ==> m[i].0 != m[j].0)
  }

  lemma {:induction false} GetSet(m: Entries, k: string, v: SyncedUrl, k2: string)
    ensures Get(MapSet(m, k, v), k2) == if k2 == k then Some(v) else Get(m, k2)
    decreases |m|
  {
    if m != [] && m[0].0 != k {
      GetSet(m[1..], k, v, k2);
      assert MapSet(m, k, v)[1..] == MapSet(m[1..], k, v);
    }
  }

  lemma {:induction false} MapSetKeys(m: Entries, k: string, v: SyncedUrl)
    ensures Keys(MapSet(m, k, v)) == Keys(m) + {k}
    decreases |m|
  {
    if m != [] && m[0].0 != k {
      MapSetKeys(m[1..], k, v);
      var r := MapSet(m, k, v);
      assert r == [m[0]] + MapSet(m[1..], k, v);
      forall x | x in Keys(r) ensures x in Keys(m) + {k} {
        var i :| 0 <= i < |r| && r[i].0 == x;
        if i > 0 {
          assert x in Keys(MapSet(m[1..], k, v)) by { assert MapSet(m[1..], k, v)[i - 1].0 == x; }
          if x != k {
            var j :| 0 <= j < |m[1..]| && m[1..][j].0 == x;
            assert m[j + 1].0 == x;
          }
        } else {
          assert m[0].0 == x;
        }
      }
      forall x | x in Keys(m) + {k} ensures x in Keys(r) {
        if x == k {
          assert x in Keys(MapSet(m[1..], k, v));
          var j :| 0 <= j < |MapSet(m[1..], k, v)| && MapSet(m[1..], k, v)[j].0 == x;
          assert r[j + 1].0 == x;
        } else {
          var i :| 0 <= i < |m| && m[i].0 == x;
          if i == 0 {
            assert r[0].0 == x;
          } else {
            assert x in Keys(m[1..]) by { assert m[1..][i - 1].0 == x; }
            var j :| 0 <= j < |MapSet(m[1..], k, v)| && MapSet(m[1..], k, v)[j].0 == x;
            assert r[j + 1].0 == x;
          }
        }
      }
    } else if m != [] {
      var r := MapSet(m, k, v);
      forall x | x in Keys(m) + {k} ensures x in Keys(r) {
        if x != k {
          var i :| 0 <= i < |m| && m[i].0 == x;
          assert r[i].0 == x;
        } else {
          assert r[0].0 == x;
        }
      }
      forall x | x in Keys(r) ensures x in Keys(m) + {k} {
        var i :| 0 <= i < |r| && r[i].0 == x;
        if i > 0 {
          assert m[i].0 == x;
        }
      }
    } else {
      assert MapSet(m, k, v)[0].0 == k;
    }
  }

  /** Setting a key absent from the map appends the entry. */
  lemma {:induction false} MapSetAbsent(m: Entries, k: string, v: SyncedUrl)
    requires k !in Keys(m)
    ensures MapSet(m, k, v) == m + [(k, v)]
    decreases |m|
  {
    if m != [] {
      assert m[0].0 in Keys(m);
      assert Keys(m[1..]) <= Keys(m) by {
        forall x | x in Keys(m[1..]) ensures x in Keys(m) {
          var i :| 0 <= i < |m[1..]| && m[1..][i].0 == x;
          assert m[i + 1].0 == x;
        }
      }
      MapSetAbsent(m[1..], k, v);
      assert m == [m[0]] + m[1..];
    }
  }

  lemma {:induction false} MapSetWellKeyed(m: Entries, v: SyncedUrl)
    requires WellKeyed(m)
    ensures WellKeyed(MapSet(m, v.alias, v))
    decreases |m|
  {
    if m != [] && m[0].0 != v.alias {
      MapSetWellKeyed(m[1..], v);
      MapSetKeys(m[1..], v.alias, v);
      var rest := MapSet(m[1..], v.alias, v);
      var r := MapSet(m, v.alias, v);
      assert r == [m[0]] + rest;
      forall j | 0 < j < |r| ensures r[0].0 != r[j].0 {
        assert r[j].0 in Keys(rest) by { assert rest[j - 1] == r[j]; }
        if r[j].0 != v.alias {
          var i :| 0 <= i < |m[1..]| && m[1..][i].0 == r[j].0;
          assert m[i + 1].0 == r[j].0;
        }
      }
    } else if m != [] {
      var r := MapSet(m, v.alias, v);
      assert forall j :: 0 < j < |r| ==> r[j] == m[j];
    }
  }

  /** The loaded map is keyed by alias: one entry per alias, holding the last record with that alias. */
  lemma {:induction false} LoadShape(arr: seq<SyncedUrl>)
    ensures WellKeyed(Load(arr))
    ensures Keys(Load(arr)) == SyncedAliases(arr)
    decreases |arr|
  {
    if arr != [] {
      var init := arr[..|arr| - 1];
      var u := arr[|arr| - 1];
      LoadShape(init);
      MapSetWellKeyed(Load(init), u);
      MapSetKeys(Load(init), u.alias, u);
      assert arr == init + [u];
      assert SyncedAliases(arr) == SyncedAliases(init) + {u.alias};
    }
  }

  /** Saving a well-keyed map and loading it back gives the same map. */
  lemma {:induction false} SaveLoadRoundTrip(m: Entries)
    requires WellKeyed(m)
    ensures Load(Values(m)) == m
    decreases |m|
  {
    if m != [] {
      var init := m[..|m| - 1];
      var e := m[|m| - 1];
      assert WellKeyed(init);
      SaveLoadRoundTrip(init);
      assert Values(m)[..|m| - 1] == Values(init);
      forall i | 0 <= i < |init| ensures init[i].0 != e.0 {
        assert init[i] == m[i];
      }
      MapSetAbsent(init, e.0, e.1);
      assert m == init + [e];
    }
  }

  /** Whether an alias counts as synced (`isAliasSynced`): some stored record carries it. */
  lemma SyncedMeansStored(arr: seq<SyncedUrl>, alias: string)
    ensures alias in Keys(Load(arr)) <==> exists u :: u in arr && u.alias == alias
  {
    LoadShape(arr);
  }

  // ---------------------------------------------------------------- one task

  predicate Succeeds(t: SyncTask, api: CreateUrlApi) {
    t.originalUrl != "" && api(t.alias, t.originalUrl).Accepted?
  }

  /** The record `processCreateTask` files: the server's alias and expiry, the task's URL. */
  function Record(t: SyncTask, api: CreateUrlApi, now: nat): SyncedUrl
    requires Succeeds(t, api)
  {
    var answer := api(t.alias, t.originalUrl);
    SyncedUrl(answer.alias, t.originalUrl, now, answer.expiresAt)
  }

  /** The store after `processCreateTask`: on success, load, set under the task's alias, save. */
  function StoreAfterTask(store: seq<SyncedUrl>, t: SyncTask, api: CreateUrlApi, now: nat): seq<SyncedUrl> {
    if Succeeds(t, api) then Values(MapSet(Load(store), t.alias, Record(t, api, now))) else store
  }

  /** A success files the server's record, so the alias the server returned is synced afterwards. */
  lemma TaskRecordsServerAlias(store: seq<SyncedUrl>, t: SyncTask, api: CreateUrlApi, now: nat)
    requires Succeeds(t, api)
    ensures Record(t, api, now) in StoreAfterTask(store, t, api, now)
    ensures api(t.alias, t.originalUrl).alias in Keys(Load(StoreAfterTask(store, t, api, now)))
  {
    var rec := Record(t, api, now);
    var m := MapSet(Load(store), t.alias, rec);
    GetSet(Load(store), t.alias, rec, t.alias);
    MapSetKeys(Load(store), t.alias, rec);
    GetEntry(m, t.alias);
    var i :| 0 <= i < |m| && m[i].0 == t.alias && m[i].1 == rec;
    assert Values(m)[i] == rec;
    LoadShape(Values(m));
  }

  /**
   * The record is filed under the task's alias but carries the server's: when
   * the server substituted another alias, the task's own alias is still not
   * synced afterwards (unless it already was), so the link is never marked synced.
   */
  lemma SubstitutedAliasNotSynced(store: seq<SyncedUrl>, t: SyncTask, api: CreateUrlApi, now: nat)
    requires Succeeds(t, api)
    requires api(t.alias, t.originalUrl).alias != t.alias
    requires t.alias !in SyncedAliases(store)
    ensures t.alias !in Keys(Load(StoreAfterTask(store, t, api, now)))
  {
    var rec := Record(t, api, now);
    var before := Load(store);
    LoadShape(store);
    MapSetAbsent(before, t.alias, rec);
    var after := Values(before + [(t.alias, rec)]);
    forall j | 0 <= j < |after| ensures after[j].alias != t.alias {
      if j < |before| {
        assert before[j].0 in Keys(before);
      }
    }
    LoadShape(after);
  }

  /** Get finds the value stored under a present key. */
  lemma {:induction false} GetEntry(m: Entries, k: string)
    requires k in Keys(m)
    ensures Get(m, k).Some?
    ensures exists i :: 0 <= i < |m| && m[i].0 == k && m[i].1 == Get(m, k).value
    decreases |m|
  {
    if m[0].0 != k {
      assert k in Keys(m[1..]) by {
        var i :| 0 <= i < |m| && m[i].0 == k;
        assert m[1..][i - 1].0 == k;
      }
      GetEntry(m[1..], k);
      var i :| 0 <= i < |m[1..]| && m[1..][i].0 == k && m[1..][i].1 == Get(m[1..], k).value;
      assert m[i + 1].0 == k;
    }
  }

  // ---------------------------------------------------------------- one pass

  function Retried(t: SyncTask): SyncTask {
    t.(retryCount := t.retryCount + 1)
  }

  /** A failed task stays for another attempt while its attempts so far stay below five. */
  predicate Retries(t: SyncTask, api: CreateUrlApi) {
    !Succeeds(t, api) && t.retryCount + 1 < MAX_ATTEMPTS
  }

  /** A failed task is dropped on its fifth failed attempt. */
  predicate Dropped(t: SyncTask, api: CreateUrlApi) {
    !Succeeds(t, api) && t.retryCount + 1 >= MAX_ATTEMPTS
  }

  /** `remainingTasks`: the retried tasks, their counts bumped, in queue order. */
  function Survivors(tasks: seq<SyncTask>, api: CreateUrlApi): seq<SyncTask>
    decreases |tasks|
  {
    if tasks == [] then []
    else
      var t := tasks[|tasks| - 1];
      Survivors(tasks[..|tasks| - 1], api) + (if Retries(t, api) then [Retried(t)] else [])
  }

  predicate AnySuccess(tasks: seq<SyncTask>, api: CreateUrlApi) {
    exists i :: 0 <= i < |tasks| && Succeeds(tasks[i], api)
  }

  predicate AnyDropped(tasks: seq<SyncTask>, api: CreateUrlApi) {
    exists i :: 0 <= i < |tasks| && Dropped(tasks[i], api)
  }

  /** The store after every task of a pass, in queue order. */
  function StoreAfterPass(store: seq<SyncedUrl>, tasks: seq<SyncTask>, api: CreateUrlApi, now: nat): seq<SyncedUrl>
    decreases |tasks|
  {
    if tasks == [] then store
    else StoreAfterTask(StoreAfterPass(store, tasks[..|tasks| - 1], api, now), tasks[|tasks| - 1], api, now)
  }

  function Pow2(n: nat): nat {
    if n == 0 then 1 else 2 * Pow2(n - 1)
  }

  /** `Math.min(1000 * 2 ** retryCount, 30000)`. */
  function RetryDelay(retryCount: nat): nat {
    var d := 1000 * Pow2(retryCount);
    if d < MAX_RETRY_DELAY_MS then d else MAX_RETRY_DELAY_MS
  }

  /** The pass's closing notification, in the order the source tests: remaining, success, drop, none. */
  function PassNotification(tasks: seq<SyncTask>, api: CreateUrlApi): Notification {
    if |Survivors(tasks, api)| > 0 then Notification(Error, Some("Some links are still syncing..."))
    else if AnySuccess(tasks, api) then Notification(Success, Some("Link synced successfully!"))
    else if AnyDropped(tasks, api) then Notification(Error, Some("Failed to sync some links"))
    else Notification(Idle, None)
  }

  /** The retry timers a pass sets: one, after the first survivor's backoff, when any task remains. */
  function PassTimers(tasks: seq<SyncTask>, api: CreateUrlApi): seq<nat> {
    var rest := Survivors(tasks, api);
    if |rest| > 0 then [RetryDelay(rest[0].retryCount)] else []
  }

  /**
   * Survivors, with where each came from: the k-th survivor is the bumped
   * copy of a failed task at position `origins[k]`, and every retried task
   * is there. That the positions increase is `SurvivorOriginsIncrease`.
   */
  function {:induction false} SurvivorOrigins(tasks: seq<SyncTask>, api: CreateUrlApi): (origins: seq<nat>)
    ensures |origins| == |Survivors(tasks, api)|
    ensures forall k :: 0 <= k < |origins| ==>
      origins[k] < |tasks| && Retries(tasks[origins[k]], api) && Survivors(tasks, api)[k] == Retried(tasks[origins[k]])
    ensures forall i :: 0 <= i < |tasks| && Retries(tasks[i], api) ==> i in origins
    decreases |tasks|
  {
    if tasks == [] then []
    else
      var n := |tasks| - 1;
      var init := tasks[..n];
      var prior := SurvivorOrigins(init, api);
      assert forall i :: 0 <= i < n ==> tasks[i] == init[i];
      assert init == tasks[..|tasks| - 1];
      if Retries(tasks[n], api) then
        var r := prior + [n];
        assert forall k :: 0 <= k < |prior| ==> r[k] == prior[k];
        r
      else prior
  }

  /** The origins of the survivors increase: a pass keeps queue order. */
  lemma {:induction false} SurvivorOriginsIncrease(tasks: seq<SyncTask>, api: CreateUrlApi)
    ensures forall k, l :: 0 <= k < l < |SurvivorOrigins(tasks, api)| ==>
      SurvivorOrigins(tasks, api)[k] < SurvivorOrigins(tasks, api)[l]
    decreases |tasks|
  {
    if tasks != [] {
      var n := |tasks| - 1;
      var init := tasks[..n];
      SurvivorOriginsIncrease(init, api);
      var prior := SurvivorOrigins(init, api);
      var origins := SurvivorOrigins(tasks, api);
      assert origins == if Retries(tasks[n], api) then prior + [n] else prior;
      forall k, l | 0 <= k < l < |origins| ensures origins[k] < origins[l] {
        if l < |prior| {
          assert origins[k] == prior[k] && origins[l] == prior[l];
        } else {
          assert origins[k] == prior[k] < n == origins[l];
        }
      }
    }
  }

  /** Every survivor has failed between one and four times: a task is attempted at most five times. */
  lemma SurvivorCounts(tasks: seq<SyncTask>, api: CreateUrlApi)
    ensures |Survivors(tasks, api)| <= |tasks|
    ensures forall k :: 0 <= k < |Survivors(tasks, api)| ==> 1 <= Survivors(tasks, api)[k].retryCount <= 4
  {
    var origins := SurvivorOrigins(tasks, api);
    SurvivorOriginsIncrease(tasks, api);
    NoRoomForOrigins(origins, |tasks|);
  }

  /** Strictly increasing positions below n number at most n. */
  lemma {:induction false} NoRoomForOrigins(origins: seq<nat>, n: nat)
    requires forall k :: 0 <= k < |origins| ==> origins[k] < n
    requires forall k, l :: 0 <= k < l < |origins| ==> origins[k] < origins[l]
    ensures |origins| <= n
    decreases n
  {
    if |origins| > 0 {
      var last := origins[|origins| - 1];
      var init := origins[..|origins| - 1];
      assert forall k :: 0 <= k < |init| ==> init[k] < last;
      NoRoomForOrigins(init, last);
    }
  }

  /** The backoff lies between 2 and 16 seconds for any survivor, so the 30-second cap never applies. */
  lemma RetryDelayBounds(retryCount: nat)
    requires 1 <= retryCount <= 4
    ensures 2000 <= RetryDelay(retryCount) <= 16000 < MAX_RETRY_DELAY_MS
    ensures RetryDelay(retryCount) == 1000 * Pow2(retryCount)
  {
    assert Pow2(1) == 2 && Pow2(2) == 4 && Pow2(3) == 8 && Pow2(4) == 16;
  }

  /** The retry timer a pass sets waits 2 to 16 seconds, set by the first survivor alone. */
  lemma PassTimerBounds(tasks: seq<SyncTask>, api: CreateUrlApi)
    ensures |PassTimers(tasks, api)| <= 1
    ensures forall k :: 0 <= k < |PassTimers(tasks, api)| ==> 2000 <= PassTimers(tasks, api)[k] <= 16000
  {
    SurvivorCounts(tasks, api);
    var s := Survivors(tasks, api);
    if |s| > 0 {
      RetryDelayBounds(s[0].retryCount);
    }
  }

  /**
   * The closing status hides drops behind a success: with nothing left to
   * retry, one synced link makes the pass report "success" even when other
   * links were dropped for good.
   */
  lemma SuccessMasksDrops(tasks: seq<SyncTask>, api: CreateUrlApi)
    requires Survivors(tasks, api) == [] && AnySuccess(tasks, api) && AnyDropped(tasks, api)
    ensures PassNotification(tasks, api).status == Success
  {
  }

  /** A pass over a non-empty queue never closes with "idle": each task succeeds, stays or is dropped. */
  lemma PassNeverIdle(tasks: seq<SyncTask>, api: CreateUrlApi)
    requires tasks != []
    ensures PassNotification(tasks, api).status != Idle
  {
    var t := tasks[|tasks| - 1];
    if !Retries(t, api) {
      if Succeeds(t, api) {
        assert AnySuccess(tasks, api);
      } else {
        assert AnyDropped(tasks, api);
      }
    } else {
      assert Survivors(tasks, api) == Survivors(tasks[..|tasks| - 1], api) + [Retried(t)];
    }
  }

  /** The queue holds at most one create task per alias. */
  predicate UniqueAliases(tasks: seq<SyncTask>) {
    forall i, j :: 0 <= i < j < |tasks| ==> tasks[i].alias != tasks[j].alias
  }

  /** Survivors of a queue with one task per alias still have one task per alias, and none of a success. */
  lemma SurvivorsKeepAliases(tasks: seq<SyncTask>, api: CreateUrlApi)
    requires UniqueAliases(tasks)
    ensures UniqueAliases(Survivors(tasks, api))
    ensures forall i, k :: 0 <= i < |tasks| && Succeeds(tasks[i], api) && 0 <= k < |Survivors(tasks, api)| ==>
      Survivors(tasks, api)[k].alias != tasks[i].alias
  {
    var origins := SurvivorOrigins(tasks, api);
    SurvivorOriginsIncrease(tasks, api);
    var s := Survivors(tasks, api);
    forall i, k | 0 <= i < |tasks| && Succeeds(tasks[i], api) && 0 <= k < |s|
      ensures s[k].alias != tasks[i].alias
    {
      assert s[k].alias == tasks[origins[k]].alias;
      assert origins[k] != i;
    }
  }

  /**
   * When the server keeps every alias it is sent, the passes' successes are
   * all found afterwards under their own aliases, with the server's expiry.
   */
  lemma {:induction false} HonouredPassRecords(store: seq<SyncedUrl>, tasks: seq<SyncTask>, api: CreateUrlApi, now: nat)
    requires UniqueAliases(tasks)
    requires forall i :: 0 <= i < |tasks| && Succeeds(tasks[i], api) ==> api(tasks[i].alias, tasks[i].originalUrl).alias == tasks[i].alias
    ensures forall i :: 0 <= i < |tasks| && Succeeds(tasks[i], api) ==>
      Get(Load(StoreAfterPass(store, tasks, api, now)), tasks[i].alias) == Some(Record(tasks[i], api, now))
    decreases |tasks|
  {
    if tasks != [] {
      var n := |tasks| - 1;
      var init := tasks[..n];
      var t := tasks[n];
      var before := StoreAfterPass(store, init, api, now);
      assert forall i :: 0 <= i < n ==> tasks[i] == init[i];
      HonouredPassRecords(store, init, api, now);
      if Succeeds(t, api) {
        var rec := Record(t, api, now);
        LoadShape(before);
        MapSetWellKeyed(Load(before), rec);
        SaveLoadRoundTrip(MapSet(Load(before), t.alias, rec));
        forall i | 0 <= i < |tasks| && Succeeds(tasks[i], api)
          ensures Get(Load(StoreAfterPass(store, tasks, api, now)), tasks[i].alias) == Some(Record(tasks[i], api, now))
        {
          GetSet(Load(before), t.alias, rec, tasks[i].alias);
        }
      }
    }
  }

  // ---------------------------------------------------------------- the queue

  predicate PendingCreate(tasks: seq<SyncTask>, alias: string) {
    exists i :: 0 <= i < |tasks| && tasks[i].alias == alias
  }

  /** The queue after `queueCreate`: unchanged when the alias is synced or already queued, else one task more. */
  function QueueAfterCreate(tasks: seq<SyncTask>, store: seq<SyncedUrl>, alias: string, originalUrl: string, now: nat, id: string): seq<SyncTask> {
    if alias in Keys(Load(store)) || PendingCreate(tasks, alias) then tasks
    else tasks + [SyncTask(id, alias, originalUrl, now, 0)]
  }

  /**
   * `queueCreate` keeps one task per alias and never disturbs the queue: a
   * new task (retry count 0) goes after the existing ones, and afterwards the
   * alias is pending or synced.
   */
  lemma QueueCreateKeepsAliases(tasks: seq<SyncTask>, store: seq<SyncedUrl>, alias: string, originalUrl: string, now: nat, id: string)
    requires UniqueAliases(tasks)
    ensures var q := QueueAfterCreate(tasks, store, alias, originalUrl, now, id);
      && UniqueAliases(q)
      && |tasks| <= |q| <= |tasks| + 1 && q[..|tasks|] == tasks
      && (|q| > |tasks| ==> q[|tasks|] == SyncTask(id, alias, originalUrl, now, 0))
      && (PendingCreate(q, alias) || alias in SyncedAliases(store))
  {
    LoadShape(store);
    var q := QueueAfterCreate(tasks, store, alias, originalUrl, now, id);
    if |q| > |tasks| {
      assert q[|tasks|].alias == alias;
    }
  }

  /** A queue with one task per alias, each attempted fewer than five times. */
  predicate QueueInvariant(tasks: seq<SyncTask>) {
    UniqueAliases(tasks) && forall i :: 0 <= i < |tasks| ==> tasks[i].retryCount < MAX_ATTEMPTS
  }

  /** A pass keeps the queue invariant. */
  lemma PassKeepsQueueInvariant(tasks: seq<SyncTask>, api: CreateUrlApi)
    requires QueueInvariant(tasks)
    ensures QueueInvariant(Survivors(tasks, api))
  {
    SurvivorsKeepAliases(tasks, api);
    SurvivorCounts(tasks, api);
  }

  // ---------------------------------------------------------------- listeners

  /** `listeners.add(l)`: a Set keeps insertion order and ignores a repeat. */
  function Subscribed(ls: seq<ListenerId>, l: ListenerId): seq<ListenerId> {
    if l in ls then ls else ls + [l]
  }

  /** `listeners.delete(l)`. */
  function Unsubscribed(ls: seq<ListenerId>, l: ListenerId): (r: seq<ListenerId>)
    ensures forall x :: x in r <==> x in ls && x != l
    decreases |ls|
  {
    if ls == [] then []
    else (if ls[0] == l then [] else [ls[0]]) + Unsubscribed(ls[1..], l)
  }

  /** The disposer `onSyncStatusChange` returns removes exactly its listener and keeps the others in order. */
  lemma {:induction false} SubscribeThenDispose(ls: seq<ListenerId>, l: ListenerId)
    requires l !in ls
    ensures Unsubscribed(Subscribed(ls, l), l) == ls
    decreases |ls|
  {
    if ls == [] {
    } else {
      var s := Subscribed(ls, l);
      assert s == ls + [l];
      assert s[1..] == ls[1..] + [l];
      SubscribeThenDispose(ls[1..], l);
      assert Subscribed(ls[1..], l) == ls[1..] + [l];
      assert ls == [ls[0]] + ls[1..];
    }
  }

  /** The calls one delivery makes: every listener, in subscription order, with the same notification. */
  function Fanout(ls: seq<ListenerId>, n: Notification): (calls: seq<(ListenerId, Notification)>)
    ensures |calls| == |ls|
    ensures forall i :: 0 <= i < |ls| ==> calls[i] == (ls[i], n)
  {
    seq(|ls|, i requires 0 <= i < |ls| => (ls[i], n))
  }

  // ---------------------------------------------------------------- the service

  class SyncService {
    /** localStorage "syncQueue". */
    var queue: seq<SyncTask>
    /** localStorage "syncedUrls", the saved array of records. */
    var syncedStore: seq<SyncedUrl>
    var listeners: seq<ListenerId>
    var currentStatus: SyncStatus
    var isSyncing: bool
    /** `syncTimeout !== null`: a drain is scheduled. */
    var syncTimerPending: bool
    /** Delays of the retry timers set so far, in ms. */
    var retryTimers: seq<nat>
    /** Notifications whose delivery microtask has not run yet. */
    var outbox: seq<Notification>
    /** Listener calls made so far. */
    var calls: seq<(ListenerId, Notification)>

    constructor(savedQueue: seq<SyncTask>, savedSynced: seq<SyncedUrl>)
      ensures queue == savedQueue && syncedStore == savedSynced
      ensures listeners == [] && currentStatus == Idle && !isSyncing && !syncTimerPending
      ensures retryTimers == [] && outbox == [] && calls == []
    {
      queue := savedQueue;
      syncedStore := savedSynced;
      listeners := [];
      currentStatus := Idle;
      isSyncing := false;
      syncTimerPending := false;
      retryTimers := [];
      outbox := [];
      calls := [];
    }

    /** `getSyncedUrls().has(alias)`. */
    function IsAliasSynced(alias: string): (r: bool)
      reads this
      ensures r <==> exists u :: u in syncedStore && u.alias == alias
    {
      SyncedMeansStored(syncedStore, alias);
      alias in Keys(Load(syncedStore))
    }

    predicate IsAliasPending(alias: string)
      reads this
    {
      PendingCreate(queue, alias)
    }

    function PendingSyncCount(): nat
      reads this
    {
      |queue|
    }

    /** `notifyListeners`: the status changes at once; delivery waits for a microtask. */
    method NotifyListeners(status: SyncStatus, message: Option<string>)
      modifies this
      ensures currentStatus == status
      ensures outbox == old(outbox) + [Notification(status, message)]
      ensures queue == old(queue) && syncedStore == old(syncedStore) && listeners == old(listeners)
      ensures isSyncing == old(isSyncing) && syncTimerPending == old(syncTimerPending)
      ensures retryTimers == old(retryTimers) && calls == old(calls)
    {
      currentStatus := status;
      outbox := outbox + [Notification(status, message)];
    }

    method OnSyncStatusChange(l: ListenerId)
      modifies this
      ensures listeners == Subscribed(old(listeners), l)
      ensures queue == old(queue) && syncedStore == old(syncedStore) && currentStatus == old(currentStatus)
      ensures isSyncing == old(isSyncing) && syncTimerPending == old(syncTimerPending)
      ensures retryTimers == old(retryTimers) && outbox == old(outbox) && calls == old(calls)
    {
      if l !in listeners {
        listeners := listeners + [l];
      }
    }

    /** The disposer returned by `onSyncStatusChange`. */
    method Dispose(l: ListenerId)
      modifies this
      ensures listeners == Unsubscribed(old(listeners), l)
      ensures queue == old(queue) && syncedStore == old(syncedStore) && currentStatus == old(currentStatus)
      ensures isSyncing == old(isSyncing) && syncTimerPending == old(syncTimerPending)
      ensures retryTimers == old(retryTimers) && outbox == old(outbox) && calls == old(calls)
    {
      listeners := Unsubscribed(listeners, l);
    }

    /**
     * The delivery microtask: every listener is called with the notification,
     * in order; a listener that throws (`throws`) is logged and the rest are
     * still called. Returns the listeners that threw.
     */
    method DeliverNext(throws: ListenerId -> bool) returns (failed: seq<ListenerId>)
      requires outbox != []
      modifies this
      ensures outbox == old(outbox)[1..]
      ensures calls == old(calls) + Fanout(listeners, old(outbox)[0])
      ensures forall x :: x in failed <==> x in listeners && throws(x)
      ensures queue == old(queue) && syncedStore == old(syncedStore) && listeners == old(listeners)
      ensures currentStatus == old(currentStatus) && isSyncing == old(isSyncing)
      ensures syncTimerPending == old(syncTimerPending) && retryTimers == old(retryTimers)
    {
      var n := outbox[0];
      outbox := outbox[1..];
      failed := [];
      for i := 0 to |listeners|
        invariant listeners == old(listeners)
        invariant calls == old(calls) + Fanout(listeners[..i], n)
        invariant forall x :: x in failed <==> x in listeners[..i] && throws(x)
        invariant outbox == old(outbox)[1..]
        invariant queue == old(queue) && syncedStore == old(syncedStore) && listeners == old(listeners)
        invariant currentStatus == old(currentStatus) && isSyncing == old(isSyncing)
        invariant syncTimerPending == old(syncTimerPending) && retryTimers == old(retryTimers)
      {
        calls := calls + [(listeners[i], n)];
        if throws(listeners[i]) {
          failed := failed + [listeners[i]];
        }
        assert listeners[..i + 1] == listeners[..i] + [listeners[i]];
      }
      assert listeners[..|listeners|] == listeners;
    }

    /** `scheduleSync`: set the 100 ms drain timer unless one is pending. */
    method ScheduleSync()
      modifies this
      ensures syncTimerPending
      ensures queue == old(queue) && syncedStore == old(syncedStore) && listeners == old(listeners)
      ensures currentStatus == old(currentStatus) && isSyncing == old(isSyncing)
      ensures retryTimers == old(retryTimers) && outbox == old(outbox) && calls == old(calls)
    {
      if !syncTimerPending {
        syncTimerPending := true;
      }
    }

    /** `queueCreate`: enqueue a create task unless the alias is synced or already queued. */
    method QueueCreate(alias: string, originalUrl: string, now: nat, id: string, online: bool)
      modifies this
      ensures queue == QueueAfterCreate(old(queue), old(syncedStore), alias, originalUrl, now, id)
      ensures syncedStore == old(syncedStore) && listeners == old(listeners) && isSyncing == old(isSyncing)
      ensures retryTimers == old(retryTimers) && calls == old(calls)
      ensures queue == old(queue) ==> outbox == old(outbox) && syncTimerPending == old(syncTimerPending) && currentStatus == old(currentStatus)
      ensures queue != old(queue) && online ==> syncTimerPending && outbox == old(outbox) && currentStatus == old(currentStatus)
      ensures queue != old(queue) && !online ==>
        syncTimerPending == old(syncTimerPending) && currentStatus == Offline
        && outbox == old(outbox) + [Notification(Offline, Some(OFFLINE_MESSAGE))]
    {
      if alias in Keys(Load(syncedStore)) {
        return;
      }
      if PendingCreate(queue, alias) {
        return;
      }
      queue := queue + [SyncTask(id, alias, originalUrl, now, 0)];
      if online {
        ScheduleSync();
      } else {
        NotifyListeners(Offline, Some(OFFLINE_MESSAGE));
      }
    }

    /** `processCreateTask`: send one task; on success file the server's record under the task's alias. */
    method ProcessCreateTask(task: SyncTask, api: CreateUrlApi, now: nat) returns (success: bool)
      modifies this
      ensures success == Succeeds(task, api)
      ensures syncedStore == StoreAfterTask(old(syncedStore), task, api, now)
      ensures queue == old(queue) && listeners == old(listeners) && currentStatus == old(currentStatus)
      ensures isSyncing == old(isSyncing) && syncTimerPending == old(syncTimerPending)
      ensures retryTimers == old(retryTimers) && outbox == old(outbox) && calls == old(calls)
    {
      if task.originalUrl == "" {
        return false;
      }
      var data := api(task.alias, task.originalUrl);
      if data.Rejected? {
        return false;
      }
      var synced := Load(syncedStore);
      synced := MapSet(synced, task.alias, SyncedUrl(data.alias, task.originalUrl, now, data.expiresAt));
      syncedStore := Values(synced);
      return true;
    }

    /** The loop of `processQueue`: every task in order, tallying survivors, successes and drops. */
    method DrainTasks(tasks: seq<SyncTask>, api: CreateUrlApi, now: nat) returns (remaining: seq<SyncTask>, hasSuccess: bool, hasError: bool)
      modifies this
      ensures remaining == Survivors(tasks, api)
      ensures hasSuccess == AnySuccess(tasks, api) && hasError == AnyDropped(tasks, api)
      ensures syncedStore == StoreAfterPass(old(syncedStore), tasks, api, now)
      ensures queue == old(queue) && listeners == old(listeners) && calls == old(calls)
      ensures currentStatus == old(currentStatus) && isSyncing == old(isSyncing)
      ensures outbox == old(outbox) && retryTimers == old(retryTimers) && syncTimerPending == old(syncTimerPending)
    {
      remaining := [];
      hasSuccess := false;
      hasError := false;
      for i := 0 to |tasks|
        invariant remaining == Survivors(tasks[..i], api)
        invariant hasSuccess == AnySuccess(tasks[..i], api)
        invariant hasError == AnyDropped(tasks[..i], api)
        invariant syncedStore == StoreAfterPass(old(syncedStore), tasks[..i], api, now)
        invariant queue == old(queue) && listeners == old(listeners) && calls == old(calls)
        invariant currentStatus == old(currentStatus) && isSyncing == old(isSyncing)
        invariant outbox == old(outbox) && retryTimers == old(retryTimers) && syncTimerPending == old(syncTimerPending)
      {
        var task := tasks[i];
        assert tasks[..i + 1][..i] == tasks[..i];
        assert tasks[..i + 1][i] == task;
        var success := ProcessCreateTask(task, api, now);
        if success {
          hasSuccess := true;
        } else {
          var bumped := Retried(task);
          if bumped.retryCount < MAX_ATTEMPTS {
            remaining := remaining + [bumped];
          } else {
            hasError := true;
          }
        }
        PrefixStep(tasks, i, api);
      }
      assert tasks[..|tasks|] == tasks;
    }

    /** One drain of the queue (`processQueue`), run as a single atomic step. */
    method ProcessQueue(online: bool, api: CreateUrlApi, now: nat)
      modifies this
      ensures old(isSyncing) ==>
        queue == old(queue) && syncedStore == old(syncedStore) && outbox == old(outbox)
        && currentStatus == old(currentStatus) && isSyncing && retryTimers == old(retryTimers)
      ensures !old(isSyncing) && !online ==>
        queue == old(queue) && syncedStore == old(syncedStore) && !isSyncing && retryTimers == old(retryTimers)
        && outbox == old(outbox) + [Notification(Offline, Some(OFFLINE_MESSAGE))] && currentStatus == Offline
      ensures !old(isSyncing) && online && old(queue) == [] ==>
        queue == [] && syncedStore == old(syncedStore) && !isSyncing && retryTimers == old(retryTimers)
        && outbox == old(outbox) + [Notification(Idle, None)] && currentStatus == Idle
      ensures !old(isSyncing) && online && old(queue) != [] ==>
        && queue == Survivors(old(queue), api)
        && syncedStore == StoreAfterPass(old(syncedStore), old(queue), api, now)
        && !isSyncing
        && retryTimers == old(retryTimers) + PassTimers(old(queue), api)
        && outbox == old(outbox) + [Notification(Syncing, None), PassNotification(old(queue), api)]
        && currentStatus == PassNotification(old(queue), api).status
      ensures listeners == old(listeners) && calls == old(calls) && syncTimerPending == old(syncTimerPending)
    {
      if isSyncing {
        return;
      }
      if !online {
        NotifyListeners(Offline, Some(OFFLINE_MESSAGE));
        return;
      }
      var tasks := queue;
      if |tasks| == 0 {
        NotifyListeners(Idle, None);
        return;
      }
      isSyncing := true;
      NotifyListeners(Syncing, None);
      var remaining, hasSuccess, hasError := DrainTasks(tasks, api, now);
      queue := remaining;
      isSyncing := false;
      if |remaining| > 0 {
        retryTimers := retryTimers + [RetryDelay(remaining[0].retryCount)];
        NotifyListeners(Error, Some("Some links are still syncing..."));
      } else if hasSuccess {
        NotifyListeners(Success, Some("Link synced successfully!"));
      } else if hasError {
        NotifyListeners(Error, Some("Failed to sync some links"));
      } else {
        // The source reports "idle" here; every task of a non-empty pass succeeds, stays or is dropped.
        assert false;
      }
    }

    /** The drain timer firing: clear it, then drain. */
    method SyncTimerFires(online: bool, api: CreateUrlApi, now: nat)
      requires syncTimerPending
      modifies this
      ensures !syncTimerPending
      ensures old(isSyncing) ==>
        queue == old(queue) && syncedStore == old(syncedStore) && outbox == old(outbox)
        && currentStatus == old(currentStatus) && isSyncing && retryTimers == old(retryTimers)
      ensures !old(isSyncing) && !online ==>
        queue == old(queue) && syncedStore == old(syncedStore) && !isSyncing && retryTimers == old(retryTimers)
        && outbox == old(outbox) + [Notification(Offline, Some(OFFLINE_MESSAGE))] && currentStatus == Offline
      ensures !old(isSyncing) && online && old(queue) == [] ==>
        queue == [] && syncedStore == old(syncedStore) && !isSyncing && retryTimers == old(retryTimers)
        && outbox == old(outbox) + [Notification(Idle, None)] && currentStatus == Idle
      ensures !old(isSyncing) && online && old(queue) != [] ==>
        && queue == Survivors(old(queue), api)
        && syncedStore == StoreAfterPass(old(syncedStore), old(queue), api, now)
        && !isSyncing
        && retryTimers == old(retryTimers) + PassTimers(old(queue), api)
        && outbox == old(outbox) + [Notification(Syncing, None), PassNotification(old(queue), api)]
        && currentStatus == PassNotification(old(queue), api).status
      ensures listeners == old(listeners) && calls == old(calls)
    {
      syncTimerPending := false;
      ProcessQueue(online, api, now);
    }

    /** `initSyncService`: drain soon when online with work queued; report offline otherwise. */
    method InitSyncService(online: bool) returns (drainDelay: Option<nat>)
      modifies this
      ensures drainDelay == (if online && |old(queue)| > 0 then Some(INIT_DELAY_MS) else None)
      ensures !online ==> outbox == old(outbox) + [Notification(Offline, None)] && currentStatus == Offline
      ensures online ==> outbox == old(outbox) && currentStatus == old(currentStatus)
      ensures queue == old(queue) && syncedStore == old(syncedStore) && listeners == old(listeners)
      ensures isSyncing == old(isSyncing) && syncTimerPending == old(syncTimerPending)
      ensures retryTimers == old(retryTimers) && calls == old(calls)
    {
      drainDelay := None;
      if online && |queue| > 0 {
        drainDelay := Some(INIT_DELAY_MS);
      } else if !online {
        NotifyListeners(Offline, None);
      }
    }
  }

  /** How each pass summary grows by one task. */
  lemma PrefixStep(tasks: seq<SyncTask>, i: nat, api: CreateUrlApi)
    requires i < |tasks|
    ensures var p := tasks[..i + 1]; var t := tasks[i];
      && Survivors(p, api) == Survivors(tasks[..i], api) + (if Retries(t, api) then [Retried(t)] else [])
      && (AnySuccess(p, api) <==> AnySuccess(tasks[..i], api) || Succeeds(t, api))
      && (AnyDropped(p, api) <==> AnyDropped(tasks[..i], api) || Dropped(t, api))
  {
    var p := tasks[..i + 1];
    assert p[..i] == tasks[..i];
    assert p[i] == tasks[i];
    if AnySuccess(p, api) && !Succeeds(tasks[i], api) {
      var j :| 0 <= j < |p| && Succeeds(p[j], api);
      assert tasks[..i][j] == p[j];
    }
    if AnyDropped(p, api) && !Dropped(tasks[i], api) {
      var j :| 0 <= j < |p| && Dropped(p[j], api);
      assert tasks[..i][j] == p[j];
    }
    if AnySuccess(tasks[..i], api) {
      var j :| 0 <= j < i && Succeeds(tasks[..i][j], api);
      assert p[j] == tasks[..i][j];
    }
    if AnyDropped(tasks[..i], api) {
      var j :| 0 <= j < i && Dropped(tasks[..i][j], api);
      assert p[j] == tasks[..i][j];
    }
  }
}
