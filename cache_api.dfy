/**
 * The Cache Storage API as the service worker uses it: an ordered collection
 * of named cache stores, each a map from request URL to stored response.
 * The value-level functions below say what each operation does; the class
 * CacheStorage is the mutable object the handlers change step by step.
 */
module CacheApi {
  import opened Wrappers
  import opened FetchApi

  /** One cache store: request URL to the response stored for it. */
  type Store = map<string, Response>

  /** A snapshot of CacheStorage: store names in creation order, and the stores they name. */
  datatype Caches = Caches(names: seq<string>, stores: map<string, Store>)

  ghost predicate Distinct(s: seq<string>)
  {
    forall i, j :: 0 <= i < j < |s| ==> s[i] != s[j]
  }

  /** Every name is listed once, and the listed names are exactly the stores that exist. */
  ghost predicate WellFormed(c: Caches)
  {
    Distinct(c.names) && forall n :: n in c.stores <==> n in c.names
  }

  /** `cache.match(url)` on one store. */
  function Lookup(store: Store, url: string): Option<Response>
  {
    if url in store then Some(store[url]) else None
  }

  /** Store `names[k]` is the first one, in creation order, holding an entry for `url`. */
  ghost predicate FirstHolder(names: seq<string>, stores: map<string, Store>, url: string, k: int)
  {
    && 0 <= k < |names|
    && names[k] in stores
    && url in stores[names[k]]
    && forall j :: 0 <= j < k ==> names[j] in stores && url !in stores[names[j]]
  }

  /**
   * `caches.match(url)`: looks through every store in creation order and
   * answers with the entry of the first store that has one.
   */
  function MatchIn(names: seq<string>, stores: map<string, Store>, url: string): (r: Option<Response>)
    requires forall n :: n in names ==> n in stores
    ensures r.Some? <==> exists k :: 0 <= k < |names| && url in stores[names[k]]
    ensures r.Some? ==> exists k :: FirstHolder(names, stores, url, k) && r.value == stores[names[k]][url]
  {
    if names == [] then None
    else if url in stores[names[0]] then
      assert FirstHolder(names, stores, url, 0);
      Some(stores[names[0]][url])
    else
      assert forall k :: FirstHolder(names[1..], stores, url, k) ==> FirstHolder(names, stores, url, k + 1);
      MatchIn(names[1..], stores, url)
  }

  /** `s` without the element `x`, the others kept in order. */
  function Remove(s: seq<string>, x: string): (r: seq<string>)
    ensures forall y :: y in r <==> y in s && y != x
    ensures Distinct(s) ==> Distinct(r)
    ensures x !in s ==> r == s
  {
    if s == [] then []
    else if s[0] == x then Remove(s[1..], x)
    else
      var rest := Remove(s[1..], x);
      assert Distinct(s) ==> s[0] !in s[1..];
      [s[0]] + rest
  }

  /** Removing from a concatenation removes from each part: the order of the kept elements is the original one. */
  lemma {:induction false} RemoveAppend(a: seq<string>, b: seq<string>, x: string)
    ensures Remove(a + b, x) == Remove(a, x) + Remove(b, x)
  {
    if a == [] {
      assert a + b == b;
    } else {
      assert (a + b)[1..] == a[1..] + b;
      RemoveAppend(a[1..], b, x);
    }
  }

  /** `caches.open(name)`: the store `name`, created empty (and listed last) if it did not exist. */
  function Opened(c: Caches, name: string): (r: Caches)
    ensures name in r.stores
    ensures WellFormed(c) ==> WellFormed(r)
  {
    if name in c.stores then c
    else
      var r := Caches(c.names + [name], c.stores[name := map[]]);
      assert WellFormed(c) ==> name !in c.names;
      r
  }

  /** `cache.put(url, response)` on the store `name`: that one entry is set, nothing else changes. */
  function Stored(c: Caches, name: string, url: string, response: Response): (r: Caches)
    requires name in c.stores
    ensures WellFormed(c) ==> WellFormed(r)
  {
    Caches(c.names, c.stores[name := c.stores[name][url := response]])
  }

  /** `caches.delete(name)`: the store and its listing are gone. */
  function Deleted(c: Caches, name: string): (r: Caches)
    ensures name !in r.stores && name !in r.names
    ensures WellFormed(c) ==> WellFormed(r)
  {
    Caches(Remove(c.names, name), c.stores - {name})
  }

  /**
   * What `cache.addAll` accepts from one fetch (Cache addAll(requests) in the
   * W3C Service Workers specification): a response that is not a network
   * error, whose status is ok and not 206 Partial Content.
   */
  predicate AddAllAccepts(o: FetchOutcome)
  {
    o.Fetched? && o.response.kind != Error && OkStatus(o.response.status) && o.response.status != 206
  }

  /** The store after putting the fetched response of every URL of `urls`, in order. */
  function PutAll(store: Store, urls: seq<string>, net: string -> FetchOutcome): (r: Store)
    requires forall u :: u in urls ==> net(u).Fetched?
    ensures forall u :: u in r <==> u in store || u in urls
    ensures forall u :: u in r ==> r[u] == if u in urls then net(u).response else store[u]
    decreases |urls|
  {
    if urls == [] then store
    else
      var last := urls[|urls| - 1];
      assert forall u :: u in urls <==> u in urls[..|urls| - 1] || u == last;
      PutAll(store, urls[..|urls| - 1], net)[last := net(last).response]
  }

  /**
   * The fetching half of `cache.addAll(urls)`: fetches every URL and
   * succeeds, with the responses in order, iff every fetch is accepted.
   */
  method FetchAll(urls: seq<string>, net: string -> FetchOutcome) returns (ok: bool, responses: seq<Response>)
    ensures ok <==> forall u :: u in urls ==> AddAllAccepts(net(u))
    ensures ok ==> |responses| == |urls| && forall k :: 0 <= k < |urls| ==> responses[k] == net(urls[k]).response
  {
    responses := [];
    var i := 0;
    while i < |urls|
      invariant 0 <= i <= |urls| && |responses| == i
      invariant forall k :: 0 <= k < i ==> AddAllAccepts(net(urls[k])) && responses[k] == net(urls[k]).response
    {
      var outcome := net(urls[i]);
      if !AddAllAccepts(outcome) {
        assert urls[i] in urls;
        return false, responses;
      }
      responses := responses + [outcome.response];
      i := i + 1;
    }
    ok := true;
  }

  /** The CacheStorage object (`caches`) the worker mutates. */
  class CacheStorage {
    var names: seq<string>
    var stores: map<string, Store>

    function Value(): Caches
      reads this
    {
      Caches(names, stores)
    }

    ghost predicate Valid()
      reads this
    {
      WellFormed(Value())
    }

    /** A fresh origin: no stores at all. */
    constructor ()
      ensures Valid() && Value() == Caches([], map[])
    {
      names, stores := [], map[];
    }

    /** `caches.keys()`: the store names, in creation order. */
    method Keys() returns (r: seq<string>)
      requires Valid()
      ensures r == names
      ensures Distinct(r) && forall n :: n in stores <==> n in r
    {
      r := names;
    }

    /** `caches.match(url)` over all stores, in creation order. */
    function Match(url: string): Option<Response>
      reads this
      requires Valid()
    {
      MatchIn(names, stores, url)
    }

    /** `caches.open(name)`. */
    method Open(name: string)
      requires Valid()
      modifies this
      ensures Valid() && Value() == Opened(old(Value()), name)
    {
      if name !in stores {
        names, stores := names + [name], stores[name := map[]];
      }
    }

    /** `cache.put(url, response)` on the opened store `name`. */
    method Put(name: string, url: string, response: Response)
      requires Valid() && name in stores
      modifies this
      ensures Valid() && Value() == Stored(old(Value()), name, url, response)
    {
      stores := stores[name := stores[name][url := response]];
    }

    /** `caches.delete(name)`; answers whether there was such a store. */
    method Delete(name: string) returns (existed: bool)
      requires Valid()
      modifies this
      ensures existed == (name in old(stores))
      ensures Valid() && Value() == Deleted(old(Value()), name)
    {
      existed := name in stores;
      names, stores := Remove(names, name), stores - {name};
    }

    /**
     * `cache.addAll(urls)` on the opened store `name`: every URL is fetched;
     * if any fetch is not accepted the operation rejects and the store is
     * untouched, otherwise every response is put, as one batch.
     */
    method AddAll(name: string, urls: seq<string>, net: string -> FetchOutcome) returns (ok: bool)
      requires Valid() && name in stores
      modifies this
      ensures Valid()
      ensures ok <==> forall u :: u in urls ==> AddAllAccepts(net(u))
      ensures ok ==> Value() == Caches(old(names), old(stores)[name := PutAll(old(stores)[name], urls, net)])
      ensures !ok ==> Value() == old(Value())
    {
      var responses;
      ok, responses := FetchAll(urls, net);
      if !ok {
        return;
      }
      var store := stores[name];
      var i := 0;
      while i < |urls|
        invariant 0 <= i <= |urls|
        invariant store == PutAll(stores[name], urls[..i], net)
      {
        assert urls[..i + 1][..i] == urls[..i];
        store := store[urls[i] := responses[i]];
        i := i + 1;
      }
      assert urls[..|urls|] == urls;
      stores := stores[name := store];
    }
  }
}
