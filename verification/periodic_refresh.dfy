/** The `periodicsync` listener and `refreshWeeklyData`. Both read endpoints
    are fetched and both bodies parsed as JSON under one `Promise.all`; only
    when all four steps succeed are the two parsed values written, as fresh
    200 responses, into the dynamic cache. The response statuses are never
    looked at. */
module PeriodicRefresh {
  import opened Base
  import opened Config
  import opened CacheStorage

  /** What fetching one read endpoint and calling `.json()` on it did: the
      fetch rejected, or it resolved with some status and the body either
      parsed to a value or failed to parse. */
  datatype JsonFetch = FetchRejected | Fetched(status: int, parsed: Option<Json>)

  predicate Parsed(f: JsonFetch) {
    f.Fetched? && f.parsed.Some?
  }

  function RefreshWeeklyData(s: Storage, weekly: JsonFetch, stats: JsonFetch): (s': Storage)
    ensures s.Valid() ==> s'.Valid()
    // Both parsed: both entries are (re)written in the dynamic cache and
    // nothing else changes.
    ensures Parsed(weekly) && Parsed(stats) ==>
      && Lookup(s', DynamicCache, WeeklyTasksApi) == Some(SerializedResponse(weekly.parsed.value))
      && Lookup(s', DynamicCache, StatsApi) == Some(SerializedResponse(stats.parsed.value))
      && forall n, k :: (n != DynamicCache || (k != WeeklyTasksApi && k != StatsApi)) ==>
           Lookup(s', n, k) == Lookup(s, n, k)
    // Only the dynamic cache may be created, appended to the name order.
    ensures forall n :: n in s'.caches <==> n in s.caches || (n == DynamicCache && Parsed(weekly) && Parsed(stats))
    ensures s.order <= s'.order && |s'.order| <= |s.order| + 1
    // Any failed fetch or parse: nothing is written at all.
    ensures !(Parsed(weekly) && Parsed(stats)) ==> s' == s
  {
    if Parsed(weekly) && Parsed(stats) then
      var written := Put(s, DynamicCache, WeeklyTasksApi, SerializedResponse(weekly.parsed.value));
      Put(written, DynamicCache, StatsApi, SerializedResponse(stats.parsed.value))
    else s
  }

  /** The `periodicsync` listener: only `weekly-refresh` triggers a refresh. */
  function OnPeriodicSync(tag: string, s: Storage, weekly: JsonFetch, stats: JsonFetch): (s': Storage)
    ensures tag != WeeklyRefreshTag ==> s' == s
    ensures tag == WeeklyRefreshTag ==> s' == RefreshWeeklyData(s, weekly, stats)
  {
    if tag == WeeklyRefreshTag then RefreshWeeklyData(s, weekly, stats) else s
  }

  /** A status is never treated as failure: a 404 or 500 whose body parses
      is written exactly as a 200 would be. */
  lemma StatusIgnored(s: Storage, w1: int, w2: int, t1: int, t2: int, wv: Json, tv: Json)
    ensures RefreshWeeklyData(s, Fetched(w1, Some(wv)), Fetched(t1, Some(tv))) ==
            RefreshWeeklyData(s, Fetched(w2, Some(wv)), Fetched(t2, Some(tv)))
  {
  }

  /** All or nothing: if either endpoint fails, the other endpoint's cached
      entry is not touched either, even when its own fetch and parse worked. */
  lemma {:induction false} NoPartialRefresh(s: Storage, weekly: JsonFetch, stats: JsonFetch)
    requires Parsed(weekly) && !Parsed(stats)
    ensures Lookup(RefreshWeeklyData(s, weekly, stats), DynamicCache, WeeklyTasksApi) ==
            Lookup(s, DynamicCache, WeeklyTasksApi)
  {
  }

  /** Refreshing again with the same data changes nothing further. */
  lemma {:induction false} RefreshIdempotent(s: Storage, weekly: JsonFetch, stats: JsonFetch)
    requires s.Valid()
    ensures var once := RefreshWeeklyData(s, weekly, stats);
      forall n, k :: Lookup(RefreshWeeklyData(once, weekly, stats), n, k) == Lookup(once, n, k)
  {
    var once := RefreshWeeklyData(s, weekly, stats);
    var twice := RefreshWeeklyData(once, weekly, stats);
    forall n, k
      ensures Lookup(twice, n, k) == Lookup(once, n, k)
    {
      if Parsed(weekly) && Parsed(stats) && n == DynamicCache && (k == WeeklyTasksApi || k == StatsApi) {
      }
    }
  }
}
