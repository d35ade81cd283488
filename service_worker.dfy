/**
 * The service worker of the web client (web/sw.js): precaching at install,
 * removal of every other cache store at activate, and the per-request
 * cache-first policy with a background refresh for a few volatile files.
 * The network is not modelled: each fetch's outcome is supplied.
 */
module ServiceWorker {
  import opened Wrappers
  import opened JsText
  import opened FetchApi
  import opened CacheApi

  /** The one cache store the worker considers current. */
  const CacheName: string := "sevkorzina-v1.0.0"

  /** The precache manifest. */
  const UrlsToCache: seq<string> := [
    "/",
    "/main.dart.js",
    "/flutter.js",
    "/flutter_bootstrap.js",
    "/manifest.json",
    "/icons/Icon-192.png",
    "/icons/Icon-512.png",
    "/icons/Icon-maskable-192.png",
    "/icons/Icon-maskable-512.png"
  ]

  /** `shouldCache(url)`: substring tests, not suffix tests. */
  predicate ShouldCache(url: string)
  {
    || Includes(url, ".js")
    || Includes(url, ".css")
    || Includes(url, ".png")
    || Includes(url, ".jpg")
    || Includes(url, ".jpeg")
    || Includes(url, ".svg")
    || Includes(url, ".ico")
    || Includes(url, "manifest.json")
  }

  /** `shouldUpdateInBackground(url)`: the stale-while-revalidate allow-list. */
  predicate ShouldUpdateInBackground(url: string)
  {
    Includes(url, "main.dart.js") || Includes(url, "manifest.json")
  }

  /** Every URL mentioning `.json` anywhere is cacheable, since it mentions `.js`. */
  lemma JsonIsCacheable(url: string)
    requires Includes(url, ".json")
    ensures ShouldCache(url)
  {
    IncludesPrefix(url, ".json", ".js");
  }

  /** The background-refresh allow-list lies inside the cacheable set. */
  lemma BackgroundRefreshIsCacheable(url: string)
    requires ShouldUpdateInBackground(url)
    ensures ShouldCache(url)
  {
    if Includes(url, "main.dart.js") {
      assert OccursAt("main.dart.js", ".js", 9);
      IncludesIffOccurs("main.dart.js", ".js");
      IncludesTransitive(url, "main.dart.js", ".js");
    }
  }

  /** The manifest's main bundle path is on the background-refresh list. */
  lemma MainBundleRefreshes()
    ensures ShouldUpdateInBackground("/main.dart.js")
  {
    assert "/main.dart.js"[1..] == "main.dart.js";
  }

  /** The Flutter loader is cached but not refreshed in the background. */
  lemma FlutterBundleNotRefreshed()
    ensures ShouldCache("/flutter.js") && !ShouldUpdateInBackground("/flutter.js")
  {
    assert OccursAt("/flutter.js", ".js", 8);
    IncludesIffOccurs("/flutter.js", ".js");
  }

  /** A response `fetchAndCache` writes back: a 200 same-origin response for a cacheable URL. */
  predicate Storable(url: string, o: FetchOutcome)
  {
    o.Fetched? && o.response.status == 200 && o.response.kind == Basic && ShouldCache(url)
  }

  /** The cache storage after `fetchAndCache(request)` settled to `o`. */
  function AfterFetch(c: Caches, url: string, o: FetchOutcome): Caches
  {
    if Storable(url, o) then Stored(Opened(c, CacheName), CacheName, url, o.response) else c
  }

  /**
   * Only a status-200 `basic` response for a cacheable URL is ever written,
   * only under `url` in the current store, and every other entry and store is
   * kept as it was.
   */
  lemma CacheOnlyOnSuccess(c: Caches, url: string, o: FetchOutcome)
    ensures var r := AfterFetch(c, url, o);
      forall n, u :: n in r.stores && u in r.stores[n] ==>
        (n in c.stores && u in c.stores[n] && r.stores[n][u] == c.stores[n][u])
        || (n == CacheName && u == url && Storable(url, o) && r.stores[n][u] == o.response)
    ensures var r := AfterFetch(c, url, o);
      forall n, u :: n in c.stores && u in c.stores[n] ==>
        n in r.stores && u in r.stores[n] && (r.stores[n][u] == c.stores[n][u] || (n == CacheName && u == url))
    ensures !Storable(url, o) ==> AfterFetch(c, url, o) == c
  {
  }

  /** A storable response is what the current store holds for `url` afterwards. */
  lemma FetchStoresOnSuccess(c: Caches, url: string, o: FetchOutcome)
    requires Storable(url, o)
    ensures CacheName in AfterFetch(c, url, o).stores
    ensures Lookup(AfterFetch(c, url, o).stores[CacheName], url) == Some(o.response)
  {
  }

  /** A successful (200, basic) background refresh always overwrites the stored entry. */
  lemma BackgroundRefreshOverwrites(c: Caches, url: string, o: FetchOutcome)
    requires ShouldUpdateInBackground(url)
    requires o.Fetched? && o.response.status == 200 && o.response.kind == Basic
    ensures CacheName in AfterFetch(c, url, o).stores
    ensures Lookup(AfterFetch(c, url, o).stores[CacheName], url) == Some(o.response)
  {
    BackgroundRefreshIsCacheable(url);
  }

  /** `fetchAndCache(request)`: settles exactly as the network did; writes back as AfterFetch says. */
  method FetchAndCache(caches: CacheStorage, request: Request, net: FetchOutcome) returns (result: FetchOutcome)
    requires caches.Valid()
    modifies caches
    ensures caches.Valid()
    ensures result == net
    ensures caches.Value() == AfterFetch(old(caches.Value()), request.url, net)
  {
    match net
    case NetworkFailure =>
      result := net;
    case Fetched(response) =>
      if response.status != 200 || response.kind != Basic {
        return net;
      }
      if ShouldCache(request.url) {
        caches.Open(CacheName);
        caches.Put(CacheName, request.url, response);
      }
      result := net;
  }

  /** What the fetch handler does with the event. */
  datatype Reply =
    | PassThrough                                // no `respondWith`: the browser handles the request
    | RespondWith(response: Option<Response>)    // `None`: the promise resolved to `undefined`

  /**
   * The `fetch` event handler. `net` is the outcome of the network fetch the
   * handler may issue; `requested` says whether it issued one.
   */
  method HandleFetch(caches: CacheStorage, request: Request, net: FetchOutcome) returns (reply: Reply, requested: bool)
    requires caches.Valid()
    modifies caches
    ensures caches.Valid()
    ensures request.httpMethod != "GET" ==>
      reply == PassThrough && !requested && caches.Value() == old(caches.Value())
    ensures request.httpMethod == "GET" && old(caches.Match(request.url)).Some? ==>
      && reply == RespondWith(old(caches.Match(request.url)))
      && requested == ShouldUpdateInBackground(request.url)
      && caches.Value() == if requested then AfterFetch(old(caches.Value()), request.url, net) else old(caches.Value())
    ensures request.httpMethod == "GET" && old(caches.Match(request.url)).None? ==>
      && requested
      && caches.Value() == AfterFetch(old(caches.Value()), request.url, net)
      && reply == match net
                  case Fetched(response) => RespondWith(Some(response))
                  case NetworkFailure =>
                    RespondWith(if request.mode == Navigate then old(caches.Match("/")) else None)
  {
    if request.httpMethod != "GET" {
      return PassThrough, false;
    }
    var cached := caches.Match(request.url);
    if cached.Some? {
      requested := ShouldUpdateInBackground(request.url);
      if requested {
        var _ := FetchAndCache(caches, request, net);
      }
      return RespondWith(cached), requested;
    }
    requested := true;
    var outcome := FetchAndCache(caches, request, net);
    match outcome
    case Fetched(response) =>
      reply := RespondWith(Some(response));
    case NetworkFailure =>
      if request.mode == Navigate {
        reply := RespondWith(caches.Match("/"));
      } else {
        reply := RespondWith(None);
      }
  }

  /** Every manifest fetch is one `cache.addAll` accepts. */
  predicate ManifestReachable(net: string -> FetchOutcome)
  {
    forall u :: u in UrlsToCache ==> AddAllAccepts(net(u))
  }

  /** The cache storage after the install handler. */
  function Installed(c: Caches, net: string -> FetchOutcome): Caches
  {
    var o := Opened(c, CacheName);
    if ManifestReachable(net) then
      Caches(o.names, o.stores[CacheName := PutAll(o.stores[CacheName], UrlsToCache, net)])
    else o
  }

  /**
   * Install is all-or-nothing on the manifest: either every manifest URL is
   * stored in the current store with its fetched response, or the current
   * store keeps exactly what it had (empty if it is new). Other stores are
   * untouched either way.
   */
  lemma InstallAllOrNothing(c: Caches, net: string -> FetchOutcome)
    ensures CacheName in Installed(c, net).stores
    ensures ManifestReachable(net) ==>
      forall u :: u in UrlsToCache ==> Lookup(Installed(c, net).stores[CacheName], u) == Some(net(u).response)
    ensures !ManifestReachable(net) ==>
      Installed(c, net).stores[CacheName] == if CacheName in c.stores then c.stores[CacheName] else map[]
    ensures forall n :: n != CacheName ==>
      (n in Installed(c, net).stores <==> n in c.stores)
      && (n in c.stores ==> Installed(c, net).stores[n] == c.stores[n])
  {
  }

  /**
   * The `install` handler: opens the current store and precaches the
   * manifest. A rejected `addAll` is caught and dropped, so install always
   * completes and `skipWaiting` is always called.
   */
  method Install(caches: CacheStorage, net: string -> FetchOutcome) returns (precached: bool, skipWaiting: bool)
    requires caches.Valid()
    modifies caches
    ensures caches.Valid()
    ensures precached <==> ManifestReachable(net)
    ensures caches.Value() == Installed(old(caches.Value()), net)
    ensures skipWaiting
  {
    caches.Open(CacheName);
    precached := caches.AddAll(CacheName, UrlsToCache, net);
    skipWaiting := true;
  }

  /** A duplicate-free listing whose members all equal `x` is `[]` or `[x]`. */
  lemma ListingOf(s: seq<string>, x: string)
    requires Distinct(s) && forall n :: n in s ==> n == x
    ensures s == [] || s == [x]
  {
    ElementIn(s, 0);
    if |s| >= 2 {
      ElementIn(s, 1);
      assert false;
    }
  }

  lemma ElementIn(s: seq<string>, i: int)
    ensures 0 <= i < |s| ==> s[i] in s
  {
  }

  /** With the current store the only one left, `caches.match` reads only that store. */
  lemma OnlyCurrentGenerationServes(c: Caches, url: string)
    requires WellFormed(c) && forall n :: n in c.stores ==> n == CacheName
    ensures MatchIn(c.names, c.stores, url) == if CacheName in c.stores then Lookup(c.stores[CacheName], url) else None
  {
    ListingOf(c.names, CacheName);
  }

  /** The store names among `names` that the activate sweep deletes. */
  function Doomed(names: seq<string>): set<string>
  {
    set n | n in names && n != CacheName
  }

  /** One more name swept: the stores left lose that name, if it is doomed. */
  lemma SweepStep(stores: map<string, Store>, names: seq<string>, i: int)
    requires 0 <= i < |names|
    ensures stores - Doomed(names[..i + 1]) ==
      if names[i] != CacheName then (stores - Doomed(names[..i])) - {names[i]} else stores - Doomed(names[..i])
  {
    assert names[..i + 1] == names[..i] + [names[i]];
    assert Doomed(names[..i + 1]) == Doomed(names[..i]) + (if names[i] != CacheName then {names[i]} else {});
  }

  /**
   * Removing every doomed store leaves at most the current store, listed
   * alone and untouched, and `caches.match` then reads only that store.
   */
  lemma SweepLeavesCurrent(before: Caches, after: Caches)
    requires WellFormed(before) && WellFormed(after)
    requires after.stores == before.stores - Doomed(before.names)
    ensures after.stores.Keys == before.stores.Keys * {CacheName}
    ensures CacheName in before.stores ==> after.stores[CacheName] == before.stores[CacheName]
    ensures after.names == if CacheName in before.stores then [CacheName] else []
    ensures forall url ::
      MatchIn(after.names, after.stores, url) == (if CacheName in before.stores then Lookup(before.stores[CacheName], url) else None)
  {
    ListingOf(after.names, CacheName);
    forall url
      ensures MatchIn(after.names, after.stores, url) ==
        (if CacheName in before.stores then Lookup(before.stores[CacheName], url) else None)
    {
      OnlyCurrentGenerationServes(after, url);
    }
  }

  /**
   * The `activate` handler: deletes every store whose name is not the current
   * one and claims the clients. Afterwards `caches.match` answers from the
   * current store alone.
   */
  method Activate(caches: CacheStorage) returns (claimed: bool)
    requires caches.Valid()
    modifies caches
    ensures caches.Valid()
    ensures caches.stores.Keys == old(caches.stores).Keys * {CacheName}
    ensures CacheName in old(caches.stores) ==> caches.stores[CacheName] == old(caches.stores)[CacheName]
    ensures caches.names == if CacheName in old(caches.stores) then [CacheName] else []
    ensures forall url ::
      caches.Match(url) == (if CacheName in old(caches.stores) then Lookup(old(caches.stores)[CacheName], url) else None)
    ensures claimed
  {
    ghost var before := caches.Value();
    var cacheNames := caches.Keys();
    var i := 0;
    while i < |cacheNames|
      invariant 0 <= i <= |cacheNames|
      invariant caches.Valid()
      invariant caches.stores == before.stores - Doomed(cacheNames[..i])
    {
      SweepStep(before.stores, cacheNames, i);
      if cacheNames[i] != CacheName {
        var _ := caches.Delete(cacheNames[i]);
      }
      i := i + 1;
    }
    assert cacheNames[..i] == cacheNames;
    SweepLeavesCurrent(before, caches.Value());
    claimed := true;
  }

  /**
   * A new worker's first run on a fresh origin with a reachable manifest:
   * install, then activate. Only the current store exists, and a match finds
   * exactly the manifest's responses.
   */
  method FirstRun(net: string -> FetchOutcome) returns (caches: CacheStorage)
    requires ManifestReachable(net)
    ensures fresh(caches) && caches.Valid()
    ensures forall url :: caches.Match(url) == if url in UrlsToCache then Some(net(url).response) else None
  {
    caches := new CacheStorage();
    var _, _ := Install(caches, net);
    InstallAllOrNothing(Caches([], map[]), net);
    ghost var precached := caches.stores[CacheName];
    assert forall url :: url !in UrlsToCache ==> url !in precached;
    var _ := Activate(caches);
  }

  /**
   * First run of a new worker with a reachable manifest: after install and
   * activate, a GET of `/main.dart.js` is answered with the precached bytes
   * and fires a background refresh, while a GET of `/flutter.js` is answered
   * from the cache without any network request.
   */
  method FirstRunScenario(net: string -> FetchOutcome, refresh: FetchOutcome)
    returns (mainReply: Reply, mainRequested: bool, flutterReply: Reply, flutterRequested: bool)
    requires ManifestReachable(net)
    ensures mainReply == RespondWith(Some(net("/main.dart.js").response)) && mainRequested
    ensures flutterReply == RespondWith(Some(net("/flutter.js").response)) && !flutterRequested
  {
    var caches := FirstRun(net);
    assert "/main.dart.js" in UrlsToCache && "/flutter.js" in UrlsToCache;
    assert caches.Match("/main.dart.js") == Some(net("/main.dart.js").response);
    FlutterBundleNotRefreshed();
    flutterReply, flutterRequested := HandleFetch(caches, Request("GET", "/flutter.js", SameOrigin), refresh);
    MainBundleRefreshes();
    mainReply, mainRequested := HandleFetch(caches, Request("GET", "/main.dart.js", SameOrigin), refresh);
  }

  /** Two addresses the manifest does not list. */
  lemma OutsideManifest()
    ensures "/orders" !in UrlsToCache && "/img/logo.png" !in UrlsToCache
  {
  }

  /**
   * Offline after a first run: a page navigation that is not precached falls
   * back to the precached `/`, while a failed non-navigation request gets no
   * response; neither writes to the cache, which still holds exactly the
   * manifest's responses.
   */
  method OfflineScenario(net: string -> FetchOutcome)
    returns (pageReply: Reply, imageReply: Reply, firstRun: Caches, final: Caches)
    requires ManifestReachable(net)
    ensures pageReply == RespondWith(Some(net("/").response))
    ensures imageReply == RespondWith(None)
    ensures WellFormed(firstRun) && final == firstRun
    ensures forall url :: MatchIn(final.names, final.stores, url) == if url in UrlsToCache then Some(net(url).response) else None
  {
    var caches := FirstRun(net);
    firstRun := caches.Value();
    assert "/" in UrlsToCache;
    OutsideManifest();
    assert caches.Match("/") == Some(net("/").response);
    var pageRequested;
    pageReply, pageRequested := HandleFetch(caches, Request("GET", "/orders", Navigate), NetworkFailure);
    var imageRequested;
    imageReply, imageRequested := HandleFetch(caches, Request("GET", "/img/logo.png", NoCors), NetworkFailure);
    final := caches.Value();
  }
}
