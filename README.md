# Offline cache and version sentinel of the Severnaya Korzina web client

This project models, in Dafny, the two client-side pieces of the web build
that hold real state:

- **The service worker** (`web/sw.js`). On `install` it opens the cache store
  `sevkorzina-v1.0.0` and precaches a fixed manifest with `cache.addAll`. On
  `activate` it deletes every other cache store and claims the clients. On
  `fetch` it leaves non-GET requests alone. For a GET it looks the URL up with
  `caches.match` across all stores. A hit answers with the stored response,
  and a background refresh runs only for URLs that contain `main.dart.js` or
  `manifest.json` (substring tests, so deferred parts such as
  `main.dart.js_1.part.js` and the source map `main.dart.js.map` are
  refreshed too).
  A miss goes to the network and writes the response back only when it is a
  status-200 `basic` response for a "cacheable" URL. A failed navigation
  falls back to the cached `/`.
- **The version sentinel** (`web/app-updater.js`). `checkAppVersion` compares
  the `app_version` recorded in `localStorage` with the compiled-in version
  `6.08311645`. A truthy `force_version_check` flag in `sessionStorage` is
  consumed. The update banner is scheduled on a mismatch. `updateApp` sets the
  flag and navigates to `href.split('?')[0] + '?nocache=' + Date.now()`. The
  worker's `statechange` listener shows the banner once a new worker is
  `installed` while a controller exists.

Files:

- `wrappers.dfy`: `Option`.
- `js_text.dfy` (module `JsText`): the JavaScript string operations the scripts use.
  - `includes` is proved equal to a positional definition.
  - `split('?')[0]` is characterised by its contract.
  - The decimal rendering of a timestamp comes with its parser and a round trip.
- `fetch_api.dfy` (module `FetchApi`): requests, responses and fetch outcomes.
- `cache_api.dfy` (module `CacheApi`): Cache Storage.
  - It is a class over the store names, in creation order, and a map from store name to store.
  - Value-level functions specify each operation.
  - `addAll` is all-or-nothing, as in the W3C Service Workers specification.
- `service_worker.dfy` (module `ServiceWorker`): `web/sw.js`.
- `app_updater.dfy` (module `AppUpdater`): `web/app-updater.js`. The page is a class whose methods update its storage areas, address, banner and registration.

The network, the clock and the platform's answers are parameters. A fetch is a
supplied `FetchOutcome`: a network failure, or a response with status, type and
body. The install handler takes one outcome per URL, as a function. `Date.now()`
is a `nat` argument. `navigator.serviceWorker.register` and the presence of a
controller are arguments too. `setTimeout(showUpdateNotification, 2000)` is
counted in `promptsScheduled`. `skipWaiting()` and `clients.claim()` are
returned as effect flags.

In four places the code does something other than what its comments or its
design suggest, and the model follows the code:

- A failed precache does not fail the install. `addAll`'s rejection is caught
  (`web/sw.js:26-28`), and `skipWaiting` runs in every case.
- `caches.match` reads every store in creation order, not only the current
  one. After `activate` only the current store is left, and
  `OnlyCurrentGenerationServes` proves that it alone answers then.
- The cacheable test is substring containment, not an extension test. Every
  URL containing `.json` is cacheable (`JsonIsCacheable`).
- The `statechange` listener shows the banner. It does not only log.

## Model

| member | source | states |
|---|---|---|
| `JsText.IncludesIffOccurs` | web/sw.js:121-136 | `url.includes(sub)` holds exactly when `sub` occurs at some index of `url` |
| `JsText.IncludesPrefix` | web/sw.js:121-136 | a string containing `t` contains every prefix of `t` |
| `JsText.IncludesTransitive` | web/sw.js:121-136 | a string containing `t` contains every string that `t` contains |
| `JsText.BeforeFirst` | web/app-updater.js:52 | `split('?')[0]` is a prefix of `href` without `?` that ends at the first `?` or at the end |
| `JsText.BeforeFirstReaches` | web/app-updater.js:52 | `split('?')[0]` reaches past every position that has no `?` at or before it |
| `JsText.DecimalString` | web/app-updater.js:52 | a timestamp renders as one or more digits with no leading zero |
| `JsText.ParseDecimalString` | web/app-updater.js:52 | reading the rendered digits back gives the timestamp (round trip) |
| `JsText.DecimalStringInjective` | web/app-updater.js:52 | distinct timestamps render as distinct strings |
| `CacheApi.MatchIn` | web/sw.js:66 | `caches.match` answers iff some store holds the URL, and then with the entry of the first such store in creation order |
| `CacheApi.Remove` | web/sw.js:47 | deleting a name from the listing keeps exactly the other names and keeps them distinct |
| `CacheApi.RemoveAppend` | web/sw.js:47 | deleting a name from the listing keeps the other names in their original order |
| `CacheApi.Opened` | web/sw.js:21 | `caches.open` makes the named store exist and keeps the storage well formed |
| `CacheApi.Stored` | web/sw.js:105 | `cache.put` keeps the storage well formed |
| `CacheApi.Deleted` | web/sw.js:47 | `caches.delete` removes the store and its listing and keeps the storage well formed |
| `CacheApi.PutAll` | web/sw.js:24 | after a batch put, the store holds every listed URL with its fetched response, and every other entry as before |
| `CacheApi.FetchAll` | web/sw.js:24 | the fetching half of `addAll` succeeds iff every manifest fetch is accepted, and then yields every response in order |
| `CacheApi.CacheStorage.Keys` | web/sw.js:42 | `caches.keys()` lists every existing store once, in creation order |
| `CacheApi.CacheStorage.Open` | web/sw.js:21 | the named store exists afterwards; an existing store is kept, a new one is empty and listed last |
| `CacheApi.CacheStorage.Put` | web/sw.js:103-105 | exactly the one entry of the named store is set |
| `CacheApi.CacheStorage.Delete` | web/sw.js:47 | the store and its listing are gone; the result says whether it existed |
| `CacheApi.CacheStorage.AddAll` | web/sw.js:24 | succeeds iff every fetch is accepted; on success every URL's response is put, on failure nothing changes |
| `ServiceWorker.JsonIsCacheable` | web/sw.js:121-130 | every URL containing `.json` is cacheable, because it contains `.js` |
| `ServiceWorker.BackgroundRefreshIsCacheable` | web/sw.js:121-136 | every URL on the background-refresh list is also cacheable |
| `ServiceWorker.MainBundleRefreshes` | web/sw.js:133-136 | `/main.dart.js` is refreshed in the background |
| `ServiceWorker.FlutterBundleNotRefreshed` | web/sw.js:121-136 | `/flutter.js` is cacheable but not refreshed in the background |
| `ServiceWorker.CacheOnlyOnSuccess` | web/sw.js:94-110 | `fetchAndCache` writes only a 200 `basic` response for a cacheable URL, only under that URL in the current store; every other entry is kept |
| `ServiceWorker.FetchStoresOnSuccess` | web/sw.js:102-106 | a storable response is what the current store holds for the URL afterwards |
| `ServiceWorker.BackgroundRefreshOverwrites` | web/sw.js:71-73 | a successful (200, `basic`) background refresh always overwrites the stored entry |
| `ServiceWorker.FetchAndCache` | web/sw.js:90-118 | settles exactly as the network did (response unchanged, failure rethrown); the storage changes only as `CacheOnlyOnSuccess` allows |
| `ServiceWorker.HandleFetch` | web/sw.js:59-87 | non-GET is passed through with no cache access. A hit answers with the stored response, and the network is used iff the URL is on the refresh list. A miss answers with the network response. On failure, a navigation gets `caches.match('/')`, anything else `undefined`, and nothing is written |
| `ServiceWorker.InstallAllOrNothing` | web/sw.js:20-29 | either every manifest URL is stored with its response, or the current store keeps what it had; other stores are untouched |
| `ServiceWorker.Install` | web/sw.js:17-33 | opens the current store and precaches iff every manifest fetch is accepted; `skipWaiting` is called in every case |
| `ServiceWorker.OnlyCurrentGenerationServes` | web/sw.js:42-50 | once the current store is the only one, `caches.match` reads only that store |
| `ServiceWorker.SweepLeavesCurrent` | web/sw.js:42-50 | deleting every store not named `sevkorzina-v1.0.0` leaves at most that store, listed alone, with its entries unchanged, and a match then reads only it |
| `ServiceWorker.Activate` | web/sw.js:36-56 | the remaining store names are the old ones intersected with the current name. The current store's entries are unchanged. Afterwards a match reads only the current store. Clients are claimed |
| `ServiceWorker.FirstRun` | web/sw.js:17-56 | install then activate on a fresh origin with a reachable manifest: a match finds exactly the manifest's responses |
| `ServiceWorker.FirstRunScenario` | web/sw.js:17-87 | after install and activate, `/main.dart.js` is served from the precache with a background refresh; `/flutter.js` is served with no network request |
| `ServiceWorker.OfflineScenario` | web/sw.js:59-87 | offline after a first run, a navigation to an uncached page gets the precached `/`, a failed image request gets no response, and the cache is left exactly as the first run made it |
| `AppUpdater.ForceFlagAcknowledges` | web/app-updater.js:61-65 | a truthy force flag records the current version, removes the flag and schedules no banner, whatever was recorded |
| `AppUpdater.MismatchSchedulesPrompt` | web/app-updater.js:67-69 | no flag and a different non-empty recorded version: one banner is scheduled and both storage areas are unchanged |
| `AppUpdater.FirstVisitRecordsVersion` | web/app-updater.js:70-71 | no flag and an absent or empty recorded version: the current version is recorded and no banner is scheduled |
| `AppUpdater.SameVersionIsQuiet` | web/app-updater.js:67-72 | no flag and the current version recorded: nothing changes and no banner is scheduled |
| `AppUpdater.PromptExactlyOnMismatch` | web/app-updater.js:61-72 | the banner is scheduled iff there is no truthy flag and a different non-empty version is recorded |
| `AppUpdater.CheckIsIdempotentOnStorage` | web/app-updater.js:61-72 | checking twice leaves both storage areas as checking once |
| `AppUpdater.UpdateThenCheckAcknowledges` | web/app-updater.js:51-65 | after `updateApp`, the next check records the current version, clears the flag and schedules no banner |
| `AppUpdater.NoCacheUrlShape` | web/app-updater.js:52 | the reload target keeps the part before the first `?`, fragment included, and appends `?nocache=` and the timestamp to a query-less address |
| `AppUpdater.NoCacheUrlOneQuery` | web/app-updater.js:52 | the reload target contains exactly one `?` |
| `AppUpdater.NoCacheUrlInsideFragment` | web/app-updater.js:52 | for every address with a `#` before any `?`, the reload target keeps the address through that `#` and its first `?` comes after it, so the `nocache` parameter lands inside the fragment |
| `AppUpdater.NoCacheUrlIsFresh` | web/app-updater.js:52 | different timestamps give different reload targets |
| `AppUpdater.Window.constructor` | web/app-updater.js:1 | a page load starts with no registration, no scheduled banner and the banner hidden |
| `AppUpdater.Window.CheckAppVersion` | web/app-updater.js:55-73 | the storages become what `CheckedVersion` decides, and one banner is scheduled iff it prompts |
| `AppUpdater.Window.UpdateApp` | web/app-updater.js:44-53 | sets the session flag to the current version and navigates to the `nocache` address; nothing else in storage changes |
| `AppUpdater.Window.ShowUpdateNotification` | web/app-updater.js:30-35 | the banner becomes visible if the page has one |
| `AppUpdater.Window.OnWorkerStateChange` | web/app-updater.js:17-21 | the banner is shown only when the new worker is `installed` and a controller exists |
| `AppUpdater.Window.RegisterServiceWorker` | web/app-updater.js:5-28 | a supported, resolved registration stores the handle for `/sw-6.08311645.js` with `updateViaCache: 'none'`; otherwise the handle is unchanged |
| `AppUpdater.ReloadAfterUpdate` | web/app-updater.js:44-73 | confirm, then, taking the new address to reload the same tab, check: the current version is recorded, the flag is gone, no banner is scheduled, and the address has exactly one `?` |

## Left out

- AppUpdater.ReloadAfterUpdate: the address is an opaque string and the model assumes that assigning the new address reloads the page. When the address has a `#` before any `?`, the new address differs only in its fragment, so the browser does not reload; the version check does not run again and the force flag stays set. An address with a `?` before its `#` loses its fragment.
- The `push` handler (`web/sw.js:139-189`) only formats a notification. It depends on platform JSON parsing, `Date.now()` and `showNotification`.
- The `notificationclick` handler (`web/sw.js:192-218`) consists of platform window calls. Its rule: focus the first client whose URL contains the target, else open a window.
- The `sync` and `error` handlers and every `console.log` are stubs or logging.
- DOM work is left out: the update button's text and disabled state, `hideUpdateNotification`, the dismiss button, the `load` listener's wiring and 500 ms delay, and the body's `loaded` class. The banner is reduced to "present" and "visible".
- The `updatefound` listener's wiring is left out. `OnWorkerStateChange` models only the `statechange` listener it installs.
- Scheduled banner timers are counted and never fired.
- Asynchrony is left out. The fire-and-forget `cache.put` and the background refresh run as sequential steps right after the handler decides. Their race with `activate` is not modelled.
- Web Storage failures are not modelled. Accessing `localStorage` or `sessionStorage` may throw `SecurityError`, and `setItem` may throw `QuotaExceededError`. Nothing at `web/app-updater.js:44-73` catches them, so `checkAppVersion` can stop partway and skip `registerServiceWorker()` (`web/app-updater.js:77-78`), and `updateApp` then does not navigate. The model treats both areas as maps that never fail.
- `caches.open` and `cache.put` failures are not modelled. A `caches.open` failure during a write-back is caught and logged (`web/sw.js:107-109`); a `cache.put` rejection is not handled, because `web/sw.js:105` does not return its promise; either way nothing is stored and the response is still returned.
- Cache keys are URL strings compared as given. Relative-URL resolution, `Vary` and the other Cache matching options are not modelled.
- `addAll`'s checks for duplicate requests, `Vary: *` and non-HTTP schemes are left out. The manifest has no duplicates and lists only same-origin paths. Response headers are not modelled, so a `Vary: *` response, which makes `addAll` (and `cache.put`) reject, is accepted by `AddAllAccepts`.
- The browser's worker lifecycle (`installing` → `installed` → `activating` → `activated`) is not modelled. `skipWaiting()` and `clients.claim()` are returned as flags.
- `Date.now()` is a `nat` parameter, rendered as an integer. Non-integral numbers do not arise.
