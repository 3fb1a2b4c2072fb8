/** The `message` listener: a message's `type` selects skipping the waiting
    phase, caching a task list under the task endpoint's URL, or registering
    the `sync-tasks` background sync. The host calls are returned as flags. */
module Messages {
  import opened Base
  import opened Config
  import opened CacheStorage
  import FetchHandler

  datatype MessageStep = MessageStep(storage: Storage, skipWaiting: bool, registerSyncTasks: bool)

  /** The response `cacheTasks` stores: `new Response(JSON.stringify(tasks))`.
      With no `tasks` property `JSON.stringify` yields `undefined`, and the
      response has a null body and no content type. */
  function TasksResponse(tasks: Option<Json>): Response {
    match tasks
    case Some(v) => SerializedResponse(v)
    case None => Response(200, map[], NoBody)
  }

  predicate HasType(data: Option<Json>, kind: string) {
    Truthy(data) && Property(data.value, "type") == Some(JStr(kind))
  }

  /** `syncSupported` is whether the registration has a `sync` manager. */
  function OnMessage(data: Option<Json>, s: Storage, syncSupported: bool): (step: MessageStep)
    ensures step.skipWaiting <==> HasType(data, "SKIP_WAITING")
    ensures step.registerSyncTasks <==> HasType(data, "REGISTER_SYNC") && syncSupported
    // A task list is stored under the task endpoint in the dynamic cache and
    // nothing else changes; any other message writes nothing.
    ensures HasType(data, "CACHE_TASKS") ==>
      && Lookup(step.storage, DynamicCache, TasksApi) == Some(TasksResponse(Property(data.value, "tasks")))
      && forall n, k :: (n != DynamicCache || k != TasksApi) ==> Lookup(step.storage, n, k) == Lookup(s, n, k)
    ensures !HasType(data, "CACHE_TASKS") ==> step.storage == s
    // Only the dynamic cache may be created, appended to the name order.
    ensures forall n :: n in step.storage.caches <==> n in s.caches || (n == DynamicCache && HasType(data, "CACHE_TASKS"))
    ensures s.order <= step.storage.order && |step.storage.order| <= |s.order| + 1
    ensures s.Valid() ==> step.storage.Valid()
  {
    var s' := if HasType(data, "CACHE_TASKS")
      then Put(s, DynamicCache, TasksApi, TasksResponse(Property(data.value, "tasks")))
      else s;
    MessageStep(s', HasType(data, "SKIP_WAITING"), HasType(data, "REGISTER_SYNC") && syncSupported)
  }

  /** Round trip with the fetch listener: once a `CACHE_TASKS` message has
      stored a task list, an offline GET of the task endpoint is answered with
      exactly that list, unless another cache also holds the URL. */
  lemma {:induction false} CachedTasksServedOffline(data: Option<Json>, s: Storage, syncSupported: bool, mode: FetchHandler.Mode)
    requires s.Valid() && HasType(data, "CACHE_TASKS")
    requires forall n :: n in s.caches && n != DynamicCache ==> TasksApi !in s.caches[n]
    ensures FetchHandler.OnFetch(FetchHandler.Request("GET", TasksApi, mode), FetchHandler.Rejected,
      OnMessage(data, s, syncSupported).storage).answer ==
      FetchHandler.Answered(Some(TasksResponse(Property(data.value, "tasks"))))
  {
    var s' := OnMessage(data, s, syncSupported).storage;
    var r := FetchHandler.Request("GET", TasksApi, mode);
    assert !StartsWith(r.url, ExtensionScheme);
    forall n | n in s'.caches && n != DynamicCache
      ensures TasksApi !in s'.caches[n]
    {
      assert Lookup(s', n, TasksApi) == Lookup(s, n, TasksApi);
    }
    assert Lookup(s', DynamicCache, TasksApi).Some?;
    FetchHandler.OfflineServesStored(r, s', DynamicCache);
  }

  /** A message does at most one of the three things. */
  lemma AtMostOneEffect(data: Option<Json>, s: Storage, syncSupported: bool)
    ensures var step := OnMessage(data, s, syncSupported);
      !(step.skipWaiting && step.registerSyncTasks) &&
      (step.skipWaiting || step.registerSyncTasks ==> step.storage == s)
  {
  }
}
