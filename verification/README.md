# TaskPilot service worker — a Dafny model

This project models the decision logic of TaskPilot's service worker
(`service-worker.js`), the offline layer of a task-management web app. Each
event listener is a pure step function. It takes the worker's persistent state
and the outcome of every host call it makes, and returns its answer and the new
state:

- the **cache storage** (`CacheStorage`): an ordered list of cache names and,
  per name, a map from request URL to stored response. It follows the
  W3C Service Workers specification: CacheStorage's `open`, `delete` and
  `match` (section 5.5) and Cache's `put` (section 5.4);
- the **fetch listeners** (`FetchHandler`): the network-first strategy with
  its fallback chain (any cache's match, then `/index.html` for navigations,
  then a synthetic 408 Request Timeout), and the `/sw-health` listener
  registered after it;
- **install and activate** (`Lifecycle`): all-or-nothing seeding of the static
  cache with `cache.addAll`, and deletion of every cache whose name is not one
  of `taskpilot-v2.0`, `taskpilot-static-v2.0`, `taskpilot-dynamic-v2.0`;
- **background sync** (`BackgroundSync`): the `sync` tag dispatch and the
  replay loop that POSTs each pending record once, in order, and removes a
  record by id only when the response is `ok` (status 200–299);
- **periodic refresh** (`PeriodicRefresh`): the all-or-nothing refresh of
  `/api/weekly-tasks` and `/api/stats` in the dynamic cache;
- **push and notification click** (`Notifications`): object-spread merge of
  the payload over the default notification, `data.url || '/'`, and the choice
  between focusing a window, opening `/`, or doing nothing;
- the **message listener** (`Messages`).

Network outcomes, JSON parse outcomes, the window client list and the POST
outcomes of a sync pass are all parameters. The fire-and-forget `cache.put`
after a 200 is taken to complete in the same step.

Points where the worker's code does something easy to misread:

- Activation keeps three cache names, including `taskpilot-v2.0`, which the
  worker never writes to.
- A failed `addAll` during install is caught and swallowed, so install still
  succeeds. The only visible difference is that `skipWaiting` is not
  requested. The static cache stays created, possibly empty.
- Only status 200 exactly is stored after a network fetch; any other status,
  2xx included, is returned uncached.
- Offline, `caches.match` walks the caches in creation order. A response held
  by an earlier cache shadows a fresher one in the dynamic cache
  (`FetchHandler.StaticCopyShadowsDynamic`). The dynamic cache's copy is
  served only when no earlier cache holds the URL.
- The health probe answers only requests the first listener declines
  (non-GET, or `chrome-extension://`). A GET of `/sw-health` is handled
  network-first like any other GET (`FetchHandler.HealthProbeGetIsNetworkFirst`),
  so it is not always answered with 200.
- Periodic refresh is all-or-nothing: one failed fetch or parse writes neither
  entry; the two resources are not written independently.
- The notification click handler always opens `/`. It never uses the `url`
  that the push listener stored in the notification's data
  (`Notifications.ClickIgnoresPushUrl`).

## Model

| member | source | states |
|---|---|---|
| `CacheStorage.Open` | service-worker.js:74-75 | opening keeps an existing cache and its contents; a missing cache is created empty and appended to the name order; no stored response changes |
| `CacheStorage.Put` | service-worker.js:76 | after a put the key maps to the new response; every other (cache, key) entry is unchanged; the name order only grows, by at most the one new name; well-formedness is kept |
| `CacheStorage.PutIdempotent` | service-worker.js:76 | putting the same response under the same key twice leaves the storage exactly as one put did, with no duplicate entry |
| `CacheStorage.Delete` | service-worker.js:48 | the named cache is gone from the names and the map; every other cache keeps its name, its contents and its place in the name order; well-formedness is kept |
| `CacheStorage.DeleteKeepsOrder` | service-worker.js:48 | two caches that survive a delete keep their relative order, so a delete never changes which of them `caches.match` reaches first |
| `CacheStorage.FirstHolder` | service-worker.js:83 | the index found is the first cache in name order holding the key; no earlier cache holds it |
| `CacheStorage.Match` | service-worker.js:83-87 | the match is absent iff no cache in the name order holds the key; otherwise it is the response of the first cache in order that holds it |
| `CacheStorage.MatchFindsAnyHolder` | service-worker.js:83-85 | on a well-formed storage, a match exists iff some cache holds the key |
| `CacheStorage.MatchSoleHolder` | service-worker.js:83-86 | when exactly one cache holds the key, the match is that cache's stored response |
| `FetchHandler.OnFetch` | service-worker.js:60-102 | non-GET and `chrome-extension://` requests are declined with no write; a network response is returned unchanged whatever its status; the dynamic cache gains the URL's entry iff the status is 200 and nothing else changes; offline the order is cache match, then the offline page for navigations, then the 408 placeholder, with no write; on the 200 path the name order only grows, by at most the dynamic cache; well-formedness is kept |
| `FetchHandler.Dispatch` | service-worker.js:344-348 | intercepted requests get the first listener's answer; a declined request ending in `/sw-health` gets 200 "OK"; every other declined request stays declined; the health listener never writes |
| `FetchHandler.NonGetNeverWrites` | service-worker.js:62 | a request whose method is not GET never changes the caches |
| `FetchHandler.OfflineServesStored` | service-worker.js:81-87 | offline, a request held by one cache gets exactly the stored response, and the caches are unchanged |
| `FetchHandler.OfflineMissIsPlaceholder` | service-worker.js:94-98 | offline, an uncached non-navigation gets status 408 with the "Network error occurred" text body and `text/plain`; the failure is never passed on raw |
| `FetchHandler.OfflineNavigationGetsOfflinePage` | service-worker.js:89-92 | offline, an uncached navigation gets a response iff some cache holds `/index.html`, and otherwise `undefined` |
| `FetchHandler.OnlineThenOffline` | service-worker.js:69-87 | a 200 fetched online is the answer to the same request offline later, when no other cache holds that URL |
| `FetchHandler.StaticCopyShadowsDynamic` | service-worker.js:83-86 | with static before dynamic and both holding `/`, offline the static copy is served |
| `FetchHandler.HealthProbeGetIsNetworkFirst` | service-worker.js:344-348 | a GET of `/sw-health`, offline and uncached, gets the 408 placeholder rather than the probe's 200 |
| `Lifecycle.AddAll` | service-worker.js:26 | the batch succeeds iff every fetch resolved with an ok status other than 206 and no two keys are equal; then every key maps to its fetched response, every entry outside the batch is kept with its value, and the key set is the old keys plus the batch |
| `Lifecycle.Install` | service-worker.js:19-36 | skip-waiting is requested iff every asset was usable; on success every asset is stored with its response and nothing outside the static cache changes; on failure no stored response changes (no partial seeding); the static cache exists either way; only the static cache may be created, appended at the end of the name order, which is otherwise unchanged |
| `Lifecycle.InstalledNavigationAnswered` | service-worker.js:26-30 | after a successful install, every intercepted offline navigation is answered with a response, because `/index.html` is seeded |
| `Lifecycle.Retained` | service-worker.js:43-51 | the caches that survive activation are exactly the prior ones with a current name, with unchanged contents |
| `Lifecycle.RetainedKeepsOrder` | service-worker.js:43-51 | two surviving caches keep their relative position in the name order, so activation never changes which cache `caches.match` reaches first |
| `Lifecycle.Activate` | service-worker.js:42-51 | deleting every non-current name in turn leaves exactly `Retained`; the cache names afterwards are the prior names intersected with the three current names; retained caches keep their contents |
| `Lifecycle.ActivationIdempotent` | service-worker.js:46-49 | activating a second time deletes nothing more |
| `Lifecycle.ActivationDropsOldVersion` | service-worker.js:43-51 | two caches of an older version (say static-v1.0 and dynamic-v1.0) ahead of static-v2.0 and dynamic-v2.0 reduce to the v2.0 pair, in order |
| `BackgroundSync.SyncPass` | service-worker.js:123-141 | every record is POSTed exactly once, in queue order, whatever earlier outcomes were; the queue afterwards is the original minus exactly the records whose id was accepted, in order |
| `BackgroundSync.PassKeepsExactlyUnaccepted` | service-worker.js:134-140 | with distinct ids, the remaining queue is exactly the records whose own POST was not `ok` (non-2xx or thrown), in order |
| `BackgroundSync.ThreeRecordScenario` | service-worker.js:123-141 | queue [A, B, C] with A and C accepted and B rejected, or B throwing, leaves exactly [B] |
| `BackgroundSync.SharedIdRemovedTogether` | service-worker.js:136 | because removal is by id, a rejected record sharing an id with an accepted one is removed too |
| `BackgroundSync.OnSync` | service-worker.js:105-115 | `sync-tasks` replays the task queue to `/api/tasks` and leaves notes alone; `sync-notes` replays the note queue to `/api/notes` and leaves tasks alone; any other tag posts nothing and changes nothing |
| `PeriodicRefresh.RefreshWeeklyData` | service-worker.js:251-272 | when both fetches and both parses succeed, both entries are written to the dynamic cache as 200 responses of the parsed values and nothing else changes; otherwise nothing is written; only the dynamic cache may be created, appended at the end of the name order, which is otherwise unchanged |
| `PeriodicRefresh.OnPeriodicSync` | service-worker.js:245-249 | only the `weekly-refresh` tag refreshes; any other tag leaves the caches unchanged |
| `PeriodicRefresh.StatusIgnored` | service-worker.js:254-261 | a response's status never influences the refresh: any statuses with the same parsed bodies give the same caches |
| `PeriodicRefresh.NoPartialRefresh` | service-worker.js:254-266 | when the stats step fails, the weekly-tasks entry is untouched even though its own fetch and parse worked |
| `PeriodicRefresh.RefreshIdempotent` | service-worker.js:264-266 | repeating a refresh with the same data changes no entry further |
| `Notifications.PushData` | service-worker.js:179-192 | the notification data has the default keys plus the payload's spread keys; a payload key overrides, and other defaults stay; a missing or unparsable payload leaves the defaults |
| `Notifications.OnPush` | service-worker.js:194-214 | the target is `data.url` when truthy and otherwise `/`; the title, body, icon and badge are `data.title`, `data.body`, `data.icon` and `data.badge`, always present; the actions are open and dismiss |
| `Notifications.DefaultsWithoutUsablePayload` | service-worker.js:179-192 | no payload, a payload that fails to parse, and `{}` all give the default notification (title "TaskPilot") |
| `Notifications.ScalarPayloadIgnored` | service-worker.js:188 | a null, boolean or number payload spreads nothing and gives the default notification |
| `Notifications.ObjectPayloadOverrides` | service-worker.js:188-199 | an object payload sets title, body, icon, badge and target from its own fields when present and truthy where required, and leaves the defaults otherwise |
| `Notifications.FalsyUrlFallsBack` | service-worker.js:199 | an empty-string, false, zero or null `url` falls back to `/` |
| `Notifications.FirstOnOrigin` | service-worker.js:230-234 | the index found is the first client whose URL contains the origin; no earlier client's URL does |
| `Notifications.OnNotificationClick` | service-worker.js:218-242 | `dismiss` does nothing; otherwise it focuses the first window client whose URL contains the origin, iff one exists; with none it opens `/` iff the host can open windows |
| `Notifications.ClickIgnoresPushUrl` | service-worker.js:237-239 | with no window on the origin the click opens `/` even when the push put another `url` in the notification data |
| `Messages.OnMessage` | service-worker.js:303-329 | skip-waiting iff type is `SKIP_WAITING`; sync registration iff type is `REGISTER_SYNC` and the registration has a sync manager; `CACHE_TASKS` stores the serialised task list under `/api/tasks` in the dynamic cache and changes nothing else; any other message writes nothing; only the dynamic cache may be created, appended at the end of the name order, which is otherwise unchanged |
| `Messages.CachedTasksServedOffline` | service-worker.js:310-325 | a task list stored by a `CACHE_TASKS` message is exactly what a later offline GET of `/api/tasks` is answered with, when no other cache holds that URL |
| `Messages.AtMostOneEffect` | service-worker.js:306-316 | a message never both skips waiting and registers a sync, and neither of those writes to the caches |

## Left out

- Logging (`console.log`, `console.error`) has no effect on behaviour and is not modelled.
- The pending-record store's helpers (service-worker.js:275-300) are stubs: they always read `[]` and their removes do nothing. The model treats the store as an abstract queue with remove-by-id. It claims nothing about real persistence, and it does not model the literal stub, under which nothing is ever replayed.
- A failure to read the pending queue, caught by the outer `try` of each sync function, is not modelled. Neither is a failing remove. The stubs cannot fail.
- Host lifecycle calls have no modelled effect. `skipWaiting` and sync registration are returned as flags; `showNotification`, `focus` and `openWindow` as values. `clients.claim` and `event.notification.close()` are left out. Both happen unconditionally: the first once every delete has settled, the second on every click.
- Concurrency between events and the timing of the fire-and-forget `cache.put` (service-worker.js:74-77) are not modelled: the write completes within the fetch step.
- Rejections by the host's cache operations are not modelled. This covers a quota error in `put`, the TypeError `put` raises for non-HTTP(S) URLs or `Vary: *`, and a failing `caches.delete`, which would skip `clients.claim`. These operations always succeed in the model.
- URL resolution and the Cache query algorithm are simplified. Keys are request URLs taken as already resolved, so relative paths such as `/index.html` stand for themselves. The `ignoreSearch`/`Vary` matching and fragment stripping are not modelled.
- Response bodies are opaque: network bodies are text, and a `JSON.stringify(v)` body is kept as the value `v`. Header handling beyond the content type, and the `vibrate` array, are not modelled.
- JSON numbers are reals: only their truthiness is used. Spreading a string payload yields one key per Dafny character, where JavaScript spreads UTF-16 code units; the two differ only for characters outside the Basic Multilingual Plane.
- The sync pass's POST bodies (`JSON.stringify(record)`) and request headers are represented by the record itself.
