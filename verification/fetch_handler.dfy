/** The worker's two `fetch` listeners: the network-first listener with its
    cache fallback chain, and the health-probe listener registered after it.
    The outcome of the network request is a parameter; the fire-and-forget
    write into the dynamic cache is taken to happen in the same step. */
module FetchHandler {
  import opened Base
  import opened Config
  import opened CacheStorage

  /** The request modes of the Fetch Standard; only `Navigate` matters here. */
  datatype Mode = Navigate | SameOrigin | NoCors | Cors

  datatype Request = Request(verb: string, url: Key, mode: Mode)

  /** What `fetch(request)` did: resolved with a response of any status, or rejected. */
  datatype NetOutcome = Resolved(response: Response) | Rejected

  /** A listener either returns without calling `respondWith`, leaving the
      request to the browser, or responds with what its promise settles to.
      `Answered(None)` is a promise settled with `undefined`, which the browser
      turns into a network error. */
  datatype Answer = Declined | Answered(response: Option<Response>)

  datatype FetchStep = FetchStep(answer: Answer, storage: Storage)

  /** The requests the network-first listener takes: GET, and not addressed
      to a browser extension. */
  predicate Intercepted(r: Request) {
    r.verb == "GET" && !StartsWith(r.url, ExtensionScheme)
  }

  /** The placeholder for a failed non-navigation request that no cache holds:
      408 Request Timeout (section 15.5.9 of RFC 9110) with a plain-text body. */
  const NetworkErrorResponse: Response :=
    Response(408, map["content-type" := "text/plain"], Text("Network error occurred"))

  /** The health probe's fixed answer. */
  const HealthResponse: Response := TextResponse(200, "OK")

  /** The fallback chain after the network rejected: any cache's match, then
      the offline page for navigations, then the 408 placeholder. */
  function Fallback(s: Storage, r: Request): Option<Response> {
    match Match(s, r.url)
    case Some(cached) => Some(cached)
    case None =>
      if r.mode == Navigate then Match(s, OfflinePage) else Some(NetworkErrorResponse)
  }

  /** The network-first listener. */
  function OnFetch(r: Request, net: NetOutcome, s: Storage): (step: FetchStep)
    // Non-GET and extension requests are left alone and write nothing.
    ensures s.Valid() ==> step.storage.Valid()
    ensures !Intercepted(r) ==> step == FetchStep(Declined, s)
    // A network response is handed back unchanged whatever its status.
    ensures Intercepted(r) && net.Resolved? ==> step.answer == Answered(Some(net.response))
    // Only a 200 is stored, under the request's URL in the dynamic cache,
    // and no other entry of any cache changes.
    ensures Intercepted(r) && net.Resolved? && net.response.status == 200 ==>
      && Lookup(step.storage, DynamicCache, r.url) == Some(net.response)
      && (forall n, k :: (n != DynamicCache || k != r.url) ==> Lookup(step.storage, n, k) == Lookup(s, n, k))
      && (forall n :: n in step.storage.caches <==> n in s.caches || n == DynamicCache)
      && s.order <= step.storage.order && |step.storage.order| <= |s.order| + 1
    ensures net.Resolved? && net.response.status != 200 ==> step.storage == s
    // A rejected request never writes, and is answered from the caches, then
    // the offline page for a navigation, then the 408 placeholder.
    ensures net.Rejected? ==> step.storage == s
    ensures Intercepted(r) && net.Rejected? && Match(s, r.url).Some? ==>
      step.answer == Answered(Match(s, r.url))
    ensures Intercepted(r) && net.Rejected? && Match(s, r.url).None? ==>
      step.answer == Answered(if r.mode == Navigate then Match(s, OfflinePage) else Some(NetworkErrorResponse))
  {
    if !Intercepted(r) then FetchStep(Declined, s)
    else match net
      case Resolved(response) =>
        var s' := if response.status == 200 then Put(s, DynamicCache, r.url, response) else s;
        FetchStep(Answered(Some(response)), s')
      case Rejected =>
        FetchStep(Answered(Fallback(s, r)), s)
  }

  /** Both listeners in registration order. The health listener only answers
      a request the first one declined: for a GET the first listener has
      already called `respondWith`, and a second call throws InvalidStateError
      (section 4.5 of the W3C Service Workers specification) without changing
      the answer. */
  function Dispatch(r: Request, net: NetOutcome, s: Storage): (step: FetchStep)
    ensures s.Valid() ==> step.storage.Valid()
    ensures Intercepted(r) ==> step == OnFetch(r, net, s)
    ensures !Intercepted(r) ==> step.storage == s
    ensures !Intercepted(r) ==>
      (step.answer == Answered(Some(HealthResponse)) <==> EndsWith(r.url, HealthPath))
    ensures !Intercepted(r) && !EndsWith(r.url, HealthPath) ==> step.answer == Declined
  {
    var first := OnFetch(r, net, s);
    if first.answer.Declined? && EndsWith(r.url, HealthPath) then
      FetchStep(Answered(Some(HealthResponse)), s)
    else first
  }

  /** No request other than an intercepted GET can change the caches. */
  lemma NonGetNeverWrites(r: Request, net: NetOutcome, s: Storage)
    requires r.verb != "GET"
    ensures Dispatch(r, net, s).storage == s
  {
  }

  /** Offline, a request some cache holds alone gets that stored response
      back exactly, and the caches stay as they were. */
  lemma {:induction false} OfflineServesStored(r: Request, s: Storage, name: string)
    requires s.Valid() && Intercepted(r)
    requires name in s.caches && r.url in s.caches[name]
    requires forall n :: n in s.caches && n != name ==> r.url !in s.caches[n]
    ensures OnFetch(r, Rejected, s) == FetchStep(Answered(Some(s.caches[name][r.url])), s)
  {
    MatchSoleHolder(s, name, r.url);
  }

  /** Offline, a non-navigation request nothing holds gets the 408
      placeholder: the failure is never passed on raw. */
  lemma {:induction false} OfflineMissIsPlaceholder(r: Request, s: Storage)
    requires s.Valid() && Intercepted(r) && r.mode != Navigate
    requires forall n :: n in s.caches ==> r.url !in s.caches[n]
    ensures OnFetch(r, Rejected, s) == FetchStep(Answered(Some(NetworkErrorResponse)), s)
    ensures NetworkErrorResponse.status == 408 && !IsOkStatus(NetworkErrorResponse.status)
  {
    MatchFindsAnyHolder(s, r.url);
  }

  /** Offline, a navigation nothing holds gets the stored offline page when a
      cache holds it, and `undefined` when none does. */
  lemma {:induction false} OfflineNavigationGetsOfflinePage(r: Request, s: Storage)
    requires s.Valid() && Intercepted(r) && r.mode == Navigate
    requires forall n :: n in s.caches ==> r.url !in s.caches[n]
    ensures OnFetch(r, Rejected, s).answer.response.Some? <==>
      exists n :: n in s.caches && OfflinePage in s.caches[n]
  {
    MatchFindsAnyHolder(s, r.url);
    MatchFindsAnyHolder(s, OfflinePage);
  }

  /** A 200 fetched online is what the same request gets offline later, as
      long as no other cache holds that URL. */
  lemma {:induction false} OnlineThenOffline(r: Request, response: Response, s: Storage)
    requires s.Valid() && Intercepted(r) && response.status == 200
    requires forall n :: n in s.caches && n != DynamicCache ==> r.url !in s.caches[n]
    ensures OnFetch(r, Rejected, OnFetch(r, Resolved(response), s).storage).answer ==
      Answered(Some(response))
  {
    var s' := OnFetch(r, Resolved(response), s).storage;
    assert Lookup(s', DynamicCache, r.url) == Some(response);
    forall n | n in s'.caches && n != DynamicCache
      ensures r.url !in s'.caches[n]
    {
      assert Lookup(s', n, r.url) == Lookup(s, n, r.url);
    }
    OfflineServesStored(r, s', DynamicCache);
  }

  /** The cross-cache lookup is ordered: when the static cache precedes the
      dynamic cache and both hold a URL, offline the static copy is served,
      not the fresher dynamic one. */
  lemma StaticCopyShadowsDynamic()
    ensures
      var stale := TextResponse(200, "v1");
      var newer := TextResponse(200, "v2");
      var s := Storage([StaticCache, DynamicCache],
        map[StaticCache := map["/" := stale], DynamicCache := map["/" := newer]]);
      OnFetch(Request("GET", "/", Navigate), Rejected, s).answer == Answered(Some(stale))
  {
    var stale := TextResponse(200, "v1");
    var s := Storage([StaticCache, DynamicCache],
      map[StaticCache := map["/" := stale], DynamicCache := map["/" := TextResponse(200, "v2")]]);
    assert Lookup(s, s.order[0], "/").Some?;
    assert FirstHolder(s, s.order, "/") == 0;
  }

  /** A GET of the health path goes through the network-first listener like
      any other GET: offline and uncached it gets the 408 placeholder, not
      the probe's 200. */
  lemma HealthProbeGetIsNetworkFirst(s: Storage)
    requires s.Valid()
    requires forall n :: n in s.caches ==> HealthPath !in s.caches[n]
    ensures Dispatch(Request("GET", HealthPath, SameOrigin), Rejected, s).answer ==
      Answered(Some(NetworkErrorResponse))
  {
    var r := Request("GET", HealthPath, SameOrigin);
    assert !StartsWith(r.url, ExtensionScheme);
    OfflineMissIsPlaceholder(r, s);
  }
}
