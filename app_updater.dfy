/**
 * The version sentinel of the web client (web/app-updater.js): on each page
 * load it compares the version recorded in `localStorage` with the version
 * compiled into the page, consumes the one-shot force flag left in
 * `sessionStorage` by a user-confirmed reload, and schedules the "update
 * available" banner; on confirmation it sets that flag and navigates to a
 * cache-defeating URL. Timers are counted, not run; the DOM is reduced to
 * whether the banner element exists and whether it is shown.
 */
module AppUpdater {
  import opened Wrappers
  import opened JsText

  /** The version compiled into this build of the page. */
  const AppVersion: string := "6.08311645"

  /** `localStorage` key of the last version the user has acknowledged. */
  const AppVersionKey: string := "app_version"

  /** `sessionStorage` key of the flag set just before a forced reload. */
  const ForceCheckKey: string := "force_version_check"

  /** The worker script registered by the page. */
  const WorkerScript: string := "/sw-6.08311645.js"

  /** `storage.getItem(key)`: `None` stands for `null`. */
  function GetItem(storage: map<string, string>, key: string): Option<string>
  {
    if key in storage then Some(storage[key]) else None
  }

  /** JavaScript truthiness of a `getItem` result: `null` and `''` are falsy. */
  predicate Truthy(v: Option<string>)
  {
    v.Some? && v.value != ""
  }

  /** The two Web Storage areas: durable `localStorage` and per-tab `sessionStorage`. */
  datatype Storages = Storages(local: map<string, string>, session: map<string, string>)

  /** What `checkAppVersion` leaves behind: both storage areas, and whether it scheduled the banner. */
  datatype VersionCheck = VersionCheck(storages: Storages, prompt: bool)

  /** The four-way decision of `checkAppVersion`. */
  function CheckedVersion(s: Storages): VersionCheck
  {
    var saved := GetItem(s.local, AppVersionKey);
    var force := GetItem(s.session, ForceCheckKey);
    if Truthy(force) then
      VersionCheck(Storages(s.local[AppVersionKey := AppVersion], s.session - {ForceCheckKey}), false)
    else if Truthy(saved) && saved.value != AppVersion then
      VersionCheck(s, true)
    else if !Truthy(saved) then
      VersionCheck(Storages(s.local[AppVersionKey := AppVersion], s.session), false)
    else
      VersionCheck(s, false)
  }

  /** A truthy force flag acknowledges the current version, is consumed, and suppresses the banner. */
  lemma ForceFlagAcknowledges(s: Storages)
    requires Truthy(GetItem(s.session, ForceCheckKey))
    ensures var r := CheckedVersion(s);
      && GetItem(r.storages.local, AppVersionKey) == Some(AppVersion)
      && r.storages.local == s.local[AppVersionKey := AppVersion]
      && GetItem(r.storages.session, ForceCheckKey) == None
      && r.storages.session == s.session - {ForceCheckKey}
      && !r.prompt
  {
  }

  /** No flag and a different recorded version: the banner is scheduled and nothing is written. */
  lemma MismatchSchedulesPrompt(s: Storages)
    requires !Truthy(GetItem(s.session, ForceCheckKey))
    requires Truthy(GetItem(s.local, AppVersionKey)) && s.local[AppVersionKey] != AppVersion
    ensures CheckedVersion(s) == VersionCheck(s, true)
  {
  }

  /** No flag and no (or an empty) recorded version: the current version is recorded, silently. */
  lemma FirstVisitRecordsVersion(s: Storages)
    requires !Truthy(GetItem(s.session, ForceCheckKey))
    requires !Truthy(GetItem(s.local, AppVersionKey))
    ensures CheckedVersion(s) == VersionCheck(Storages(s.local[AppVersionKey := AppVersion], s.session), false)
  {
  }

  /** No flag and the current version recorded: nothing changes and no banner is scheduled. */
  lemma SameVersionIsQuiet(s: Storages)
    requires !Truthy(GetItem(s.session, ForceCheckKey))
    requires GetItem(s.local, AppVersionKey) == Some(AppVersion)
    ensures CheckedVersion(s) == VersionCheck(s, false)
  {
  }

  /** The banner is scheduled exactly when there is no flag and a different non-empty version is recorded. */
  lemma PromptExactlyOnMismatch(s: Storages)
    ensures CheckedVersion(s).prompt <==>
      && !Truthy(GetItem(s.session, ForceCheckKey))
      && Truthy(GetItem(s.local, AppVersionKey))
      && s.local[AppVersionKey] != AppVersion
  {
  }

  /** A second check leaves both storage areas as the first one left them. */
  lemma CheckIsIdempotentOnStorage(s: Storages)
    ensures CheckedVersion(CheckedVersion(s).storages).storages == CheckedVersion(s).storages
  {
  }

  /** The storages after `updateApp`: only the force flag is set. */
  function Updated(s: Storages): Storages
  {
    Storages(s.local, s.session[ForceCheckKey := AppVersion])
  }

  /**
   * A reload confirmed through `updateApp` is acknowledged on the next load:
   * the current version is recorded, the flag is gone, and no banner is
   * scheduled, whatever version was recorded before.
   */
  lemma UpdateThenCheckAcknowledges(s: Storages)
    ensures CheckedVersion(Updated(s)) ==
      VersionCheck(Storages(s.local[AppVersionKey := AppVersion], s.session - {ForceCheckKey}), false)
  {
    assert Updated(s).session - {ForceCheckKey} == s.session - {ForceCheckKey};
  }

  /**
   * `href.split('?')[0] + '?nocache=' + now`: the reload target of `updateApp`.
   * The address is a plain string: everything before its first `?`, a
   * fragment included, is kept and the `nocache` parameter is appended.
   */
  function NoCacheUrl(href: string, now: nat): string
  {
    BeforeFirst(href, '?') + "?nocache=" + DecimalString(now)
  }

  /**
   * The reload target keeps everything before the first `?` of the address,
   * fragment included, and appends the `nocache` parameter after it.
   */
  lemma NoCacheUrlShape(href: string, now: nat)
    ensures BeforeFirst(NoCacheUrl(href, now), '?') == BeforeFirst(href, '?')
    ensures '?' !in href ==> NoCacheUrl(href, now) == href + "?nocache=" + DecimalString(now)
  {
    var path := BeforeFirst(href, '?');
    assert NoCacheUrl(href, now) == path + ['?'] + ("nocache=" + DecimalString(now));
    BeforeFirstOfJoin(path, '?', "nocache=" + DecimalString(now));
  }

  /** The reload target has exactly one `?`, the one that starts the `nocache` parameter. */
  lemma NoCacheUrlOneQuery(href: string, now: nat)
    ensures Count(NoCacheUrl(href, now), '?') == 1
  {
    var path := BeforeFirst(href, '?');
    var rest := "nocache=" + DecimalString(now);
    assert NoCacheUrl(href, now) == path + (['?'] + rest);
    DecimalStringHasNo(now, '?');
    assert '?' !in "nocache=";
    CountAbsent(path, '?');
    CountAbsent(rest, '?');
    CountAppend(path, ['?'] + rest, '?');
    assert (['?'] + rest)[1..] == rest;
  }

  /**
   * With a `#` at position `i` and no `?` before it, the reload target keeps
   * the address up to and including that `#`, and its first `?` comes after
   * it: the `nocache` parameter lands inside the fragment.
   */
  lemma NoCacheUrlInsideFragment(href: string, now: nat, i: nat)
    requires i < |href| && href[i] == '#' && '?' !in href[..i]
    ensures href[..i + 1] <= NoCacheUrl(href, now)
    ensures i < |BeforeFirst(NoCacheUrl(href, now), '?')|
    ensures BeforeFirst(NoCacheUrl(href, now), '?')[i] == '#'
  {
    NoCacheUrlShape(href, now);
    var path := BeforeFirst(href, '?');
    assert href[..i + 1] == href[..i] + [href[i]];
    BeforeFirstReaches(href, '?', i);
    assert NoCacheUrl(href, now)[..i + 1] == path[..i + 1] == href[..i + 1];
  }

  /** Two different timestamps give two different reload targets, so no earlier target is reused. */
  lemma NoCacheUrlIsFresh(href: string, a: nat, b: nat)
    requires a != b
    ensures NoCacheUrl(href, a) != NoCacheUrl(href, b)
  {
    var prefix := BeforeFirst(href, '?') + "?nocache=";
    if NoCacheUrl(href, a) == NoCacheUrl(href, b) {
      assert NoCacheUrl(href, a)[|prefix|..] == DecimalString(a);
      assert NoCacheUrl(href, b)[|prefix|..] == DecimalString(b);
      DecimalStringInjective(a, b);
    }
  }

  /** `ServiceWorker.state`. */
  datatype WorkerState = Parsed | Installing | Installed | Activating | Activated | Redundant

  /** What `navigator.serviceWorker.register` settled to; the platform decides. */
  datatype RegisterOutcome = RegisterRejected | RegisterResolved

  /** The registration handle kept in `swRegistration`, with the options it was made with. */
  datatype Registration = Registration(scriptUrl: string, updateViaCache: string)

  /** The page: its storage areas, address, pending banner timers, banner and worker registration. */
  class Window {
    var localStorage: map<string, string>
    var sessionStorage: map<string, string>
    var href: string
    /** Calls `setTimeout(showUpdateNotification, 2000)` made so far. */
    var promptsScheduled: nat
    var bannerVisible: bool
    var swRegistration: Option<Registration>
    /** Whether the page has the `update-notification` element. */
    const hasBanner: bool
    /** Whether `'serviceWorker' in navigator`. */
    const serviceWorkerSupported: bool

    function Storage(): Storages
      reads this
    {
      Storages(localStorage, sessionStorage)
    }

    /** A page load: storage areas as the browser kept them, nothing scheduled, nothing registered. */
    constructor (local: map<string, string>, session: map<string, string>, url: string,
                 hasBanner: bool, serviceWorkerSupported: bool)
      ensures localStorage == local && sessionStorage == session && href == url
      ensures promptsScheduled == 0 && !bannerVisible && swRegistration == None
      ensures this.hasBanner == hasBanner && this.serviceWorkerSupported == serviceWorkerSupported
    {
      localStorage, sessionStorage, href := local, session, url;
      promptsScheduled, bannerVisible, swRegistration := 0, false, None;
      this.hasBanner, this.serviceWorkerSupported := hasBanner, serviceWorkerSupported;
    }

    /** `checkAppVersion()`. */
    method CheckAppVersion()
      modifies this`localStorage, this`sessionStorage, this`promptsScheduled
      ensures Storage() == CheckedVersion(old(Storage())).storages
      ensures promptsScheduled == old(promptsScheduled) + if CheckedVersion(old(Storage())).prompt then 1 else 0
    {
      var savedVersion := GetItem(localStorage, AppVersionKey);
      var forceCheck := GetItem(sessionStorage, ForceCheckKey);
      if Truthy(forceCheck) {
        localStorage := localStorage[AppVersionKey := AppVersion];
        sessionStorage := sessionStorage - {ForceCheckKey};
        return;
      }
      if Truthy(savedVersion) && savedVersion.value != AppVersion {
        promptsScheduled := promptsScheduled + 1;
      } else if !Truthy(savedVersion) {
        localStorage := localStorage[AppVersionKey := AppVersion];
      }
    }

    /** `updateApp()` at time `now` (milliseconds): set the force flag, then navigate. */
    method UpdateApp(now: nat)
      modifies this`sessionStorage, this`href
      ensures Updated(old(Storage())) == Storage()
      ensures href == NoCacheUrl(old(href), now)
    {
      sessionStorage := sessionStorage[ForceCheckKey := AppVersion];
      href := NoCacheUrl(href, now);
    }

    /** `showUpdateNotification()`: shows the banner if the page has one. */
    method ShowUpdateNotification()
      modifies this`bannerVisible
      ensures bannerVisible == (old(bannerVisible) || hasBanner)
    {
      if hasBanner {
        bannerVisible := true;
      }
    }

    /**
     * The `statechange` listener on the installing worker: the banner is
     * shown only when the worker reached `installed` while a controller
     * exists (an older worker controls the page).
     */
    method OnWorkerStateChange(state: WorkerState, controllerPresent: bool)
      modifies this`bannerVisible
      ensures bannerVisible == (old(bannerVisible) || (hasBanner && state == Installed && controllerPresent))
    {
      if state == Installed && controllerPresent {
        ShowUpdateNotification();
      }
    }

    /**
     * `registerServiceWorker()`: registers the worker script, bypassing the
     * HTTP cache for it; a rejected registration is caught and leaves the
     * previous handle in place.
     */
    method RegisterServiceWorker(outcome: RegisterOutcome)
      modifies this`swRegistration
      ensures serviceWorkerSupported && outcome.RegisterResolved? ==>
        swRegistration == Some(Registration(WorkerScript, "none"))
      ensures !(serviceWorkerSupported && outcome.RegisterResolved?) ==> swRegistration == old(swRegistration)
    {
      if serviceWorkerSupported {
        match outcome
        case RegisterResolved =>
          swRegistration := Some(Registration(WorkerScript, "none"));
        case RegisterRejected =>
      }
    }
  }

  /**
   * The reload round trip: the user confirms the update at time `now`, and,
   * taking the assignment of the new address to reload the page in the same
   * tab (both storage areas survive), that load's version check records the
   * current version, consumes the flag and schedules no banner. The address
   * is an opaque string here; when the new address differs from the old one
   * only in its fragment the browser does not reload, which this method does
   * not capture.
   */
  method ReloadAfterUpdate(local: map<string, string>, session: map<string, string>, url: string,
                           now: nat, hasBanner: bool)
    returns (finalLocal: map<string, string>, finalSession: map<string, string>, finalHref: string, prompts: nat)
    ensures finalLocal == local[AppVersionKey := AppVersion]
    ensures GetItem(finalSession, ForceCheckKey) == None && finalSession == session - {ForceCheckKey}
    ensures prompts == 0
    ensures finalHref == NoCacheUrl(url, now) && Count(finalHref, '?') == 1
  {
    var page := new Window(local, session, url, hasBanner, true);
    page.UpdateApp(now);
    var next := new Window(page.localStorage, page.sessionStorage, page.href, hasBanner, true);
    UpdateThenCheckAcknowledges(Storages(local, session));
    next.CheckAppVersion();
    NoCacheUrlOneQuery(url, now);
    return next.localStorage, next.sessionStorage, next.href, next.promptsScheduled;
  }
}
