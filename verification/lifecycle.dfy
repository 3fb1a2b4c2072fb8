/** The worker's `install` and `activate` listeners. Install seeds the static
    cache with the asset list and asks to skip waiting only when seeding
    succeeded; a seeding failure is swallowed, so install itself never fails.
    Activate deletes every cache whose name is not one of the three current
    names. The host calls `skipWaiting` and `clients.claim` are recorded as
    flags or left out. */
module Lifecycle {
  import opened Base
  import opened Config
  import opened CacheStorage
  import FetchHandler

  /** A fetched asset `cache.addAll` accepts: the fetch resolved with an ok
      status other than 206 Partial Content (section 5.4 of the W3C Service
      Workers specification). */
  predicate Usable(o: FetchHandler.NetOutcome) {
    o.Resolved? && IsOkStatus(o.response.status) && o.response.status != 206
  }

  predicate AllUsable(fetched: seq<FetchHandler.NetOutcome>) {
    forall i :: 0 <= i < |fetched| ==> Usable(fetched[i])
  }

  /** Stores each key's response in turn; a later key overrides an earlier equal one. */
  function PutAll(cache: Cache, keys: seq<Key>, fetched: seq<FetchHandler.NetOutcome>): (r: Cache)
    requires |fetched| == |keys| && AllUsable(fetched)
    ensures Distinct(keys) ==>
      forall i :: 0 <= i < |keys| ==> keys[i] in r && r[keys[i]] == fetched[i].response
    ensures forall k :: k in cache && k !in keys ==> k in r && r[k] == cache[k]
    ensures r.Keys == cache.Keys + set k | k in keys
    decreases |keys|
  {
    if keys == [] then cache
    else PutAll(cache[keys[0] := fetched[0].response], keys[1..], fetched[1..])
  }

  /** `cache.addAll(keys)` given what fetching each key did: all entries are
      stored as one batch, or, if any fetch failed, returned an unusable
      status, or two requests share a key, nothing is stored. */
  function AddAll(cache: Cache, keys: seq<Key>, fetched: seq<FetchHandler.NetOutcome>): (r: Option<Cache>)
    requires |fetched| == |keys|
    ensures r.Some? <==> AllUsable(fetched) && Distinct(keys)
    ensures r.Some? ==>
      && (forall i :: 0 <= i < |keys| ==> keys[i] in r.value && r.value[keys[i]] == fetched[i].response)
      && (forall k :: k in r.value && k !in keys ==> k in cache && r.value[k] == cache[k])
      && (forall k :: k in cache && k !in keys ==> k in r.value && r.value[k] == cache[k])
      && r.value.Keys == cache.Keys + set k | k in keys
  {
    if AllUsable(fetched) && Distinct(keys) then Some(PutAll(cache, keys, fetched)) else None
  }

  datatype InstallStep = InstallStep(storage: Storage, skipWaiting: bool)

  /** Opens (and so creates) the static cache, then seeds it with `assets`.
      The cache exists afterwards even when seeding fails. */
  function Seed(s: Storage, assets: seq<Key>, fetched: seq<FetchHandler.NetOutcome>): (step: InstallStep)
    requires |fetched| == |assets| && Distinct(assets)
    ensures s.Valid() ==> step.storage.Valid()
    ensures step.skipWaiting <==> AllUsable(fetched)
    ensures step.skipWaiting ==>
      && (forall i :: 0 <= i < |assets| ==>
            Lookup(step.storage, StaticCache, assets[i]) == Some(fetched[i].response))
      && (forall n, k :: (n != StaticCache || k !in assets) ==>
            Lookup(step.storage, n, k) == Lookup(s, n, k))
    ensures !step.skipWaiting ==> forall n, k :: Lookup(step.storage, n, k) == Lookup(s, n, k)
    ensures StaticCache in step.storage.caches
    // Only the static cache may be created, appended to the name order.
    ensures forall n :: n in step.storage.caches <==> n in s.caches || n == StaticCache
    ensures s.order <= step.storage.order && |step.storage.order| <= |s.order| + 1
  {
    var o := Open(s, StaticCache);
    match AddAll(o.caches[StaticCache], assets, fetched)
    case Some(seeded) => InstallStep(Storage(o.order, o.caches[StaticCache := seeded]), true)
    case None => InstallStep(o, false)
  }

  /** The `install` listener, given what fetching each static asset did. */
  function Install(s: Storage, fetched: seq<FetchHandler.NetOutcome>): (step: InstallStep)
    requires |fetched| == |StaticAssets|
    ensures s.Valid() ==> step.storage.Valid()
    // Skip-waiting is requested exactly when every asset was usable.
    ensures step.skipWaiting <==> AllUsable(fetched)
    // On success each asset is stored with the response fetched for it and
    // nothing outside the static cache changes.
    ensures step.skipWaiting ==>
      && (forall i :: 0 <= i < |StaticAssets| ==>
            Lookup(step.storage, StaticCache, StaticAssets[i]) == Some(fetched[i].response))
      && (forall n, k :: (n != StaticCache || k !in StaticAssets) ==>
            Lookup(step.storage, n, k) == Lookup(s, n, k))
    // On failure no stored response changes: no partial seeding.
    ensures !step.skipWaiting ==> forall n, k :: Lookup(step.storage, n, k) == Lookup(s, n, k)
    ensures StaticCache in step.storage.caches
    // Only the static cache may be created, appended to the name order.
    ensures forall n :: n in step.storage.caches <==> n in s.caches || n == StaticCache
    ensures s.order <= step.storage.order && |step.storage.order| <= |s.order| + 1
  {
    AssetsDistinct();
    Seed(s, StaticAssets, fetched)
  }

  lemma AssetsDistinct()
    ensures Distinct(StaticAssets)
  {
  }

  /** After a successful install every offline navigation is answered with a
      response: the offline page is in the static cache. */
  lemma {:induction false} InstalledNavigationAnswered(
    s: Storage, fetched: seq<FetchHandler.NetOutcome>, r: FetchHandler.Request)
    requires s.Valid() && |fetched| == |StaticAssets| && AllUsable(fetched)
    requires FetchHandler.Intercepted(r) && r.mode == FetchHandler.Navigate
    ensures FetchHandler.OnFetch(r, FetchHandler.Rejected, Install(s, fetched).storage).answer.response.Some?
  {
    var s' := Install(s, fetched).storage;
    OfflinePageSeeded(s, fetched);
    NavigationAnsweredWhenOfflinePageStored(s', r);
  }

  lemma OfflinePageSeeded(s: Storage, fetched: seq<FetchHandler.NetOutcome>)
    requires s.Valid() && |fetched| == |StaticAssets| && AllUsable(fetched)
    ensures Install(s, fetched).storage.Valid()
    ensures Lookup(Install(s, fetched).storage, StaticCache, OfflinePage).Some?
  {
    var step := Install(s, fetched);
    assert Lookup(step.storage, StaticCache, StaticAssets[1]).Some?;
  }

  lemma NavigationAnsweredWhenOfflinePageStored(s: Storage, r: FetchHandler.Request)
    requires s.Valid() && Lookup(s, StaticCache, OfflinePage).Some?
    requires FetchHandler.Intercepted(r) && r.mode == FetchHandler.Navigate
    ensures FetchHandler.OnFetch(r, FetchHandler.Rejected, s).answer.response.Some?
  {
    MatchFindsAnyHolder(s, OfflinePage);
  }

  /** The caches activation deletes. */
  function Stale(s: Storage): (names: set<string>)
    ensures forall n :: n in names <==> n in s.caches && n !in CurrentCaches
  {
    set n | n in s.caches && n !in CurrentCaches
  }

  /** What activation leaves: the caches with a current name, in their
      original order and with their contents. */
  function Retained(s: Storage): (s': Storage)
    requires s.Valid()
    ensures s'.Valid()
    ensures forall n :: n in s'.caches <==> n in s.caches && n in CurrentCaches
    ensures forall n :: n in s'.caches ==> s'.caches[n] == s.caches[n]
  {
    Storage(Without(s.order, Stale(s)), map n | n in s.caches && n in CurrentCaches :: s.caches[n])
  }

  /** Activation keeps the surviving caches in their original order: two
      current names keep their relative position in `caches.keys()`, which
      `caches.match` walks. */
  lemma RetainedKeepsOrder(s: Storage, i: nat, j: nat)
    requires s.Valid() && i < j < |s.order|
    requires s.order[i] in CurrentCaches && s.order[j] in CurrentCaches
    ensures exists p, q ::
      && 0 <= p < q < |Retained(s).order|
      && Retained(s).order[p] == s.order[i] && Retained(s).order[q] == s.order[j]
  {
    var stale := Stale(s);
    assert s.order[i] !in stale && s.order[j] !in stale;
    assert Retained(s).order == Without(s.order, stale);
    WithoutKeepsOrder(s.order, stale, i, j);
  }

  /** `deleted` holds exactly the stale names among the first `i` names. */
  ghost predicate DeletedAmong(deleted: set<string>, names: seq<string>, i: nat)
    requires i <= |names|
  {
    forall n :: n in deleted <==> n in names[..i] && n !in CurrentCaches
  }

  lemma DeletedAmongNext(deleted: set<string>, names: seq<string>, i: nat)
    requires i < |names| && DeletedAmong(deleted, names, i)
    ensures DeletedAmong(if names[i] in CurrentCaches then deleted else deleted + {names[i]}, names, i + 1)
  {
    assert names[..i + 1] == names[..i] + [names[i]];
  }

  /** The `activate` listener: `caches.keys()`, then `caches.delete` for
      every name that is not current. */
  method Activate(s: Storage) returns (s': Storage)
    requires s.Valid()
    ensures s' == Retained(s)
    ensures s'.Valid()
    ensures forall n :: n in s'.caches <==> n in s.caches && n in CurrentCaches
    ensures forall n, k :: n in CurrentCaches ==> Lookup(s', n, k) == Lookup(s, n, k)
  {
    var names := s.order;
    s' := s;
    ghost var deleted: set<string> := {};
    NothingDeletedYet(s);
    for i := 0 to |names|
      invariant DeletedAmong(deleted, names, i)
      invariant s' == Storage(Without(s.order, deleted), s.caches - deleted)
    {
      DeletedAmongNext(deleted, names, i);
      if names[i] !in CurrentCaches {
        DeleteOneMore(s, deleted, names[i]);
        s' := Delete(s', names[i]);
        deleted := deleted + {names[i]};
      }
    }
    AllStaleDeleted(s, deleted);
  }

  lemma NothingDeletedYet(s: Storage)
    ensures DeletedAmong({}, s.order, 0)
    ensures s == Storage(Without(s.order, {}), s.caches - {})
  {
    WithoutNothing(s.order);
  }

  lemma DeleteOneMore(s: Storage, deleted: set<string>, name: string)
    ensures Delete(Storage(Without(s.order, deleted), s.caches - deleted), name) ==
      Storage(Without(s.order, deleted + {name}), s.caches - (deleted + {name}))
  {
    WithoutTwice(s.order, deleted, {name});
  }

  lemma AllStaleDeleted(s: Storage, deleted: set<string>)
    requires s.Valid()
    requires DeletedAmong(deleted, s.order, |s.order|)
    ensures Storage(Without(s.order, deleted), s.caches - deleted) == Retained(s)
  {
    assert s.order[..|s.order|] == s.order;
    assert deleted == Stale(s);
    assert s.caches - deleted == map n | n in s.caches && n in CurrentCaches :: s.caches[n];
  }

  /** Activating twice deletes nothing more. */
  lemma ActivationIdempotent(s: Storage)
    requires s.Valid()
    ensures Retained(Retained(s)) == Retained(s)
  {
    var s' := Retained(s);
    assert Stale(s') == {};
    WithoutNothing(s'.order);
  }

  /** Caches of an older version (say `taskpilot-static-v1.0` and
      `taskpilot-dynamic-v1.0`) created before the current static and dynamic
      caches: only the current pair survives, in its original order. */
  lemma ActivationDropsOldVersion(oldStatic: string, oldDynamic: string)
    requires oldStatic != oldDynamic && oldStatic !in CurrentCaches && oldDynamic !in CurrentCaches
    ensures
      var s := Storage([oldStatic, oldDynamic, StaticCache, DynamicCache],
        map[oldStatic := map[], oldDynamic := map[], StaticCache := map[], DynamicCache := map[]]);
      s.Valid() && Retained(s).order == [StaticCache, DynamicCache]
  {
    var s := Storage([oldStatic, oldDynamic, StaticCache, DynamicCache],
      map[oldStatic := map[], oldDynamic := map[], StaticCache := map[], DynamicCache := map[]]);
    assert s.Valid() by {
      assert forall n :: n in s.caches <==> n in s.order;
    }
    var stale := Stale(s);
    assert stale == {oldStatic, oldDynamic};
    var tail := [StaticCache, DynamicCache];
    assert s.order[1..] == [oldDynamic] + tail;
    assert Without(s.order, stale) == Without([oldDynamic] + tail, stale);
    assert ([oldDynamic] + tail)[1..] == tail;
    assert Without([oldDynamic] + tail, stale) == Without(tail, stale);
    assert tail[1..] == [DynamicCache] && tail[1..][1..] == [];
    assert Without(tail[1..], stale) == [DynamicCache];
    assert Without(tail, stale) == [StaticCache, DynamicCache];
  }
}
