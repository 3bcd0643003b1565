/** The offline cache of the web client (static/sw.js): install, activate and
    fetch handlers over the browser's cache storage. The storage is a list of
    named caches in creation order, because `caches.match` searches them in
    that order. The network is a parameter (None for a network error), and
    cache writes take effect at once. */
module ServiceWorker {
  import opened Wrappers
  import opened Strings

  const CacheName := "training-app-v1"

  /** The paths seeded on install. */
  const CoreAssets: seq<string> := ["/", "/static/mobile.css", "/static/manifest.webmanifest"]

  /** A request URL: its origin and the path with any query. */
  datatype Url = Url(origin: string, path: string)

  /** `verb` is the request method. */
  datatype Request = Request(verb: string, url: Url, accept: Option<string>)

  datatype Response = Response(status: int, body: string)

  /** One named cache: request URL to stored response. */
  datatype Cache = Cache(name: string, entries: map<Url, Response>)

  /** Cache names are distinct. */
  predicate Wf(cs: seq<Cache>) {
    forall i, j :: 0 <= i < j < |cs| ==> cs[i].name != cs[j].name
  }

  /** Where the cache called `name` sits, or -1. */
  function IndexOf(cs: seq<Cache>, name: string): (i: int)
    ensures -1 <= i < |cs|
    ensures i >= 0 ==> cs[i].name == name && forall j :: 0 <= j < i ==> cs[j].name != name
    ensures i == -1 ==> forall j :: 0 <= j < |cs| ==> cs[j].name != name
    decreases |cs|
  {
    if |cs| == 0 then -1
    else if cs[0].name == name then 0
    else
      var i := IndexOf(cs[1..], name);
      if i == -1 then -1 else i + 1
  }

  /** The entries of the cache called `name`, if it exists. */
  function Lookup(cs: seq<Cache>, name: string): Option<map<Url, Response>> {
    var i := IndexOf(cs, name);
    if i == -1 then None else Some(cs[i].entries)
  }

  /** `caches.open(name)`: creates an empty cache at the end when missing. */
  function Open(cs: seq<Cache>, name: string): (r: seq<Cache>)
    ensures Wf(cs) ==> Wf(r)
    ensures Lookup(r, name) == Some(Lookup(cs, name).GetOr(map[]))
    ensures forall n :: n != name ==> Lookup(r, n) == Lookup(cs, n)
    ensures |cs| <= |r| && (forall k :: 0 <= k < |cs| ==> r[k].name == cs[k].name)
    ensures forall k :: |cs| <= k < |r| ==> r[k].name == name
  {
    if IndexOf(cs, name) >= 0 then cs
    else
      var r := cs + [Cache(name, map[])];
      assert IndexOf(r, name) == |cs| by { IndexOfAppend(cs, Cache(name, map[]), name); }
      forall n | n != name
        ensures Lookup(r, n) == Lookup(cs, n)
      {
        IndexOfAppend(cs, Cache(name, map[]), n);
      }
      r
  }

  lemma {:induction false} IndexOfAppend(cs: seq<Cache>, c: Cache, n: string)
    ensures IndexOf(cs + [c], n) == (if IndexOf(cs, n) >= 0 then IndexOf(cs, n) else if c.name == n then |cs| else -1)
    decreases |cs|
  {
    if |cs| > 0 {
      assert (cs + [c])[1..] == cs[1..] + [c];
      IndexOfAppend(cs[1..], c, n);
    }
  }

  /** `cache.put(url, resp)` on the cache called `name`, opening it first. */
  function Put(cs: seq<Cache>, name: string, url: Url, resp: Response): (r: seq<Cache>)
    ensures Wf(cs) ==> Wf(r)
    ensures Lookup(r, name) == Some(Lookup(cs, name).GetOr(map[])[url := resp])
    ensures forall n :: n != name ==> Lookup(r, n) == Lookup(cs, n)
    ensures |cs| <= |r| && (forall k :: 0 <= k < |cs| ==> r[k].name == cs[k].name)
    ensures forall k :: |cs| <= k < |r| ==> r[k].name == name
  {
    var c := Open(cs, name);
    var i := IndexOf(c, name);
    Rewrite(c, name, c[i].entries[url := resp]);
    c[i := Cache(name, c[i].entries[url := resp])]
  }

  /** Replacing the entries of the cache called `name` changes only what
      that name looks up. */
  lemma Rewrite(c: seq<Cache>, name: string, m: map<Url, Response>)
    requires IndexOf(c, name) >= 0
    ensures var r := c[IndexOf(c, name) := Cache(name, m)];
      && |r| == |c| && (forall k :: 0 <= k < |c| ==> r[k].name == c[k].name)
      && Lookup(r, name) == Some(m)
      && forall n :: n != name ==> Lookup(r, n) == Lookup(c, n)
  {
    var i := IndexOf(c, name);
    var r := c[i := Cache(name, m)];
    assert forall j :: 0 <= j < |r| ==> r[j].name == c[j].name;
    IndexOfSameNames(c, r);
  }

  /** Rewriting entries without renaming keeps every cache where it was. */
  lemma {:induction false} IndexOfSameNames(a: seq<Cache>, b: seq<Cache>)
    requires |a| == |b| && forall j :: 0 <= j < |a| ==> a[j].name == b[j].name
    ensures forall n :: IndexOf(a, n) == IndexOf(b, n)
    decreases |a|
  {
    if |a| > 0 {
      IndexOfSameNames(a[1..], b[1..]);
    }
  }

  /** `caches.match(url)`: the first cache, in creation order, holding `url`. */
  function Match(cs: seq<Cache>, url: Url): (r: Option<Response>)
    ensures r.None? <==> forall i :: 0 <= i < |cs| ==> url !in cs[i].entries
    ensures r.Some? ==> exists i :: 0 <= i < |cs| && url in cs[i].entries && r.value == cs[i].entries[url]
                                   && forall j :: 0 <= j < i ==> url !in cs[j].entries
    decreases |cs|
  {
    if |cs| == 0 then None
    else if url in cs[0].entries then Some(cs[0].entries[url])
    else
      var r := Match(cs[1..], url);
      assert forall i :: 1 <= i < |cs| ==> cs[i] == cs[1..][i - 1];
      assert r.Some? ==> exists i :: 1 <= i < |cs| && url in cs[i].entries && r.value == cs[i].entries[url]
                                     && forall j :: 0 <= j < i ==> url !in cs[j].entries by {
        if r.Some? {
          var i :| 0 <= i < |cs| - 1 && url in cs[1..][i].entries && r.value == cs[1..][i].entries[url]
                   && forall j :: 0 <= j < i ==> url !in cs[1..][j].entries;
          assert url in cs[i + 1].entries;
        }
      }
      r
  }

  // ---------------------------------------------------------------------------
  // install and activate
  // ---------------------------------------------------------------------------

  /** A status `Response.ok` accepts. */
  predicate Ok(resp: Response) {
    200 <= resp.status <= 299
  }

  function AssetUrls(origin: string): (urls: seq<Url>)
    ensures |urls| == |CoreAssets|
    ensures forall i :: 0 <= i < |urls| ==> urls[i] == Url(origin, CoreAssets[i])
  {
    seq(|CoreAssets|, i requires 0 <= i < |CoreAssets| => Url(origin, CoreAssets[i]))
  }

  /** Fetches every URL; None if any fetch fails or answers with a status
      that is not ok, which makes `cache.addAll` reject. */
  function FetchAll(urls: seq<Url>, network: Url -> Option<Response>): (r: Option<seq<Response>>)
    ensures r.Some? <==> forall i :: 0 <= i < |urls| ==> network(urls[i]).Some? && Ok(network(urls[i]).value)
    ensures r.Some? ==> |r.value| == |urls| && forall i :: 0 <= i < |urls| ==> r.value[i] == network(urls[i]).value
    decreases |urls|
  {
    if |urls| == 0 then Some([])
    else
      assert forall i :: 1 <= i < |urls| ==> urls[i] == urls[1..][i - 1];
      var head := network(urls[0]);
      var rest := FetchAll(urls[1..], network);
      if head.Some? && Ok(head.value) && rest.Some? then Some([head.value] + rest.value) else None
  }

  /** The entries `m` after storing `resps[i]` under `urls[i]`, in order. */
  function StoreAll(m: map<Url, Response>, urls: seq<Url>, resps: seq<Response>): (r: map<Url, Response>)
    requires |urls| == |resps|
    ensures r.Keys == m.Keys + (set u | u in urls)
    decreases |urls|
  {
    if |urls| == 0 then m
    else
      var r := StoreAll(m[urls[0] := resps[0]], urls[1..], resps[1..]);
      assert (set u | u in urls) == {urls[0]} + (set u | u in urls[1..]);
      r
  }

  /** A URL stored last keeps the response stored with it. */
  lemma {:induction false} StoreAllLast(m: map<Url, Response>, urls: seq<Url>, resps: seq<Response>, i: int)
    requires |urls| == |resps| && 0 <= i < |urls|
    requires forall j :: i < j < |urls| ==> urls[j] != urls[i]
    ensures StoreAll(m, urls, resps)[urls[i]] == resps[i]
    decreases |urls|
  {
    if i == 0 {
      StoreAllOthers(m[urls[0] := resps[0]], urls[1..], resps[1..], urls[0]);
    } else {
      assert urls[i] == urls[1..][i - 1] && resps[i] == resps[1..][i - 1];
      forall j | i - 1 < j < |urls| - 1 ensures urls[1..][j] != urls[1..][i - 1] {
        assert urls[1..][j] == urls[j + 1];
      }
      StoreAllLast(m[urls[0] := resps[0]], urls[1..], resps[1..], i - 1);
    }
  }

  /** Entries whose URL is not stored again are left as they were. */
  lemma {:induction false} StoreAllOthers(m: map<Url, Response>, urls: seq<Url>, resps: seq<Response>, u: Url)
    requires |urls| == |resps|
    ensures u in m && u !in urls ==> StoreAll(m, urls, resps)[u] == m[u]
    decreases |urls|
  {
    if |urls| > 0 && u in m && u !in urls {
      assert u != urls[0] && u !in urls[1..];
      StoreAllOthers(m[urls[0] := resps[0]], urls[1..], resps[1..], u);
    }
  }

  /** Stores `resps[i]` under `urls[i]` in the cache called `name`. */
  function PutAll(cs: seq<Cache>, name: string, urls: seq<Url>, resps: seq<Response>): (r: seq<Cache>)
    requires |urls| == |resps|
    ensures Wf(cs) ==> Wf(r)
    ensures Lookup(r, name) == Some(StoreAll(Lookup(cs, name).GetOr(map[]), urls, resps))
    ensures forall n :: n != name ==> Lookup(r, n) == Lookup(cs, n)
    decreases |urls|
  {
    if |urls| == 0 then Open(cs, name)
    else PutAll(Put(cs, name, urls[0], resps[0]), name, urls[1..], resps[1..])
  }

  datatype InstallResult = InstallResult(storage: seq<Cache>, installed: bool)

  /** The URLs seeded on install, as a set. */
  lemma AssetUrlSet(origin: string)
    ensures (set u | u in AssetUrls(origin)) == (set p | p in CoreAssets :: Url(origin, p))
  {
    var urls := AssetUrls(origin);
    forall u | u in urls ensures u in (set p | p in CoreAssets :: Url(origin, p)) {
      var i :| 0 <= i < |urls| && urls[i] == u;
      assert CoreAssets[i] in CoreAssets;
    }
    forall p | p in CoreAssets ensures Url(origin, p) in urls {
      var i :| 0 <= i < |CoreAssets| && CoreAssets[i] == p;
      assert urls[i] == Url(origin, p);
    }
  }

  /** What storing the fetched core assets does to a cache's entries. */
  lemma StoreAssets(m: map<Url, Response>, origin: string, resps: seq<Response>)
    requires |resps| == |CoreAssets|
    ensures StoreAll(m, AssetUrls(origin), resps).Keys == m.Keys + (set p | p in CoreAssets :: Url(origin, p))
    ensures forall i :: 0 <= i < |CoreAssets| ==> StoreAll(m, AssetUrls(origin), resps)[Url(origin, CoreAssets[i])] == resps[i]
    ensures forall u :: u in m && (u.origin != origin || u.path !in CoreAssets)
              ==> StoreAll(m, AssetUrls(origin), resps)[u] == m[u]
  {
    var urls := AssetUrls(origin);
    AssetUrlSet(origin);
    forall i | 0 <= i < |urls| ensures StoreAll(m, urls, resps)[urls[i]] == resps[i] {
      StoreAllLast(m, urls, resps, i);
    }
    forall u | u in m && (u.origin != origin || u.path !in CoreAssets) ensures StoreAll(m, urls, resps)[u] == m[u] {
      StoreAllOthers(m, urls, resps, u);
    }
  }

  /** The install handler: open `CacheName`, then `addAll(CORE_ASSETS)`,
      which stores all of them or, if one fetch fails, none (the opened,
      possibly new cache stays). */
  function Install(cs: seq<Cache>, origin: string, network: Url -> Option<Response>): (r: InstallResult)
    ensures Wf(cs) ==> Wf(r.storage)
    ensures r.installed <==> forall i :: 0 <= i < |CoreAssets| ==>
      network(Url(origin, CoreAssets[i])).Some? && Ok(network(Url(origin, CoreAssets[i])).value)
    ensures Lookup(r.storage, CacheName).Some?
    ensures r.installed ==>
      && Lookup(r.storage, CacheName).value.Keys
         == Lookup(cs, CacheName).GetOr(map[]).Keys + (set p | p in CoreAssets :: Url(origin, p))
      && (forall i :: 0 <= i < |CoreAssets| ==>
           Lookup(r.storage, CacheName).value[Url(origin, CoreAssets[i])] == network(Url(origin, CoreAssets[i])).value)
      && (forall u :: u in Lookup(cs, CacheName).GetOr(map[]) && (u.origin != origin || u.path !in CoreAssets)
           ==> Lookup(r.storage, CacheName).value[u] == Lookup(cs, CacheName).GetOr(map[])[u])
    ensures !r.installed ==> Lookup(r.storage, CacheName) == Some(Lookup(cs, CacheName).GetOr(map[]))
    ensures forall n :: n != CacheName ==> Lookup(r.storage, n) == Lookup(cs, n)
  {
    var urls := AssetUrls(origin);
    match FetchAll(urls, network)
    case Some(resps) =>
      StoreAssets(Lookup(cs, CacheName).GetOr(map[]), origin, resps);
      InstallResult(PutAll(cs, CacheName, urls, resps), true)
    case None => InstallResult(Open(cs, CacheName), false)
  }

  /** The caches whose name is `name`. */
  function KeepNamed(cs: seq<Cache>, name: string): (r: seq<Cache>)
    ensures forall c :: c in r <==> c in cs && c.name == name
    decreases |cs|
  {
    if |cs| == 0 then []
    else (if cs[0].name == name then [cs[0]] else []) + KeepNamed(cs[1..], name)
  }

  /** No cache called `name`, nothing kept. */
  lemma {:induction false} KeepNamedEmpty(cs: seq<Cache>, name: string)
    ensures (forall j :: 0 <= j < |cs| ==> cs[j].name != name) ==> KeepNamed(cs, name) == []
    decreases |cs|
  {
    if |cs| > 0 {
      assert forall j :: 0 <= j < |cs| - 1 ==> cs[1..][j] == cs[j + 1];
      KeepNamedEmpty(cs[1..], name);
    }
  }

  /** Only the current cache is left. */
  predicate Activated(cs: seq<Cache>) {
    forall i :: 0 <= i < |cs| ==> cs[i].name == CacheName
  }

  /** The activate handler: every cache but `CacheName` is deleted and
      `CacheName` is kept as it was. */
  function Activate(cs: seq<Cache>): (r: seq<Cache>)
    requires Wf(cs)
    ensures Wf(r) && Activated(r)
    ensures Lookup(r, CacheName) == Lookup(cs, CacheName)
    ensures forall n :: n != CacheName ==> Lookup(r, n).None?
  {
    var r := KeepNamed(cs, CacheName);
    var i := IndexOf(cs, CacheName);
    if i == -1 then
      KeepNamedEmpty(cs, CacheName);
      r
    else
      assert r == [cs[i]] by {
        assert cs[i] in r;
        assert forall k :: 0 <= k < |r| ==> r[k] in r;
        if |r| > 1 {
          assert r[0] in cs && r[1] in cs;
          var a :| 0 <= a < |cs| && cs[a] == r[0];
          var b :| 0 <= b < |cs| && cs[b] == r[1];
          KeepNamedNoRepeat(cs, CacheName);
        }
        var a :| 0 <= a < |cs| && cs[a] == r[0];
        assert a == i;
      }
      r
  }

  /** In well-formed storage the named cache comes out at most once. */
  lemma {:induction false} KeepNamedNoRepeat(cs: seq<Cache>, name: string)
    requires Wf(cs)
    ensures |KeepNamed(cs, name)| <= 1
    decreases |cs|
  {
    if |cs| > 0 {
      KeepNamedNoRepeat(cs[1..], name);
      if cs[0].name == name {
        assert forall c :: c in cs[1..] ==> c.name != name;
        var t := KeepNamed(cs[1..], name);
        KeepNamedEmpty(cs[1..], name);
      }
    }
  }

  // ---------------------------------------------------------------------------
  // fetch
  // ---------------------------------------------------------------------------

  datatype Strategy = NotIntercepted | NetworkFirst | CacheFirst

  /** The routing decision of the fetch handler, for a worker at `origin`. */
  function Route(req: Request, origin: string): (s: Strategy)
    ensures s == NotIntercepted <==> req.verb != "GET" || req.url.origin != origin
    ensures s == NetworkFirst <==>
      req.verb == "GET" && req.url.origin == origin && req.accept.Some? && Contains(req.accept.value, "text/html")
  {
    if req.verb != "GET" then NotIntercepted
    else if req.url.origin != origin then NotIntercepted
    else if req.accept.Some? && Contains(req.accept.value, "text/html") then NetworkFirst
    else CacheFirst
  }

  /** What the page gets: the browser's own handling, or the handler's
      answer, where None is a network error. */
  datatype Reply = Default | Respond(resp: Option<Response>)

  datatype FetchResult = FetchResult(reply: Reply, storage: seq<Cache>)

  /** The fetch handler. */
  function HandleFetch(cs: seq<Cache>, req: Request, origin: string, network: Url -> Option<Response>): (r: FetchResult)
    ensures Wf(cs) ==> Wf(r.storage)
    ensures r.reply == Default <==> Route(req, origin) == NotIntercepted
    ensures r.reply == Default ==> r.storage == cs
  {
    match Route(req, origin)
    case NotIntercepted => FetchResult(Default, cs)
    case NetworkFirst =>
      (match network(req.url)
       case Some(res) => FetchResult(Respond(Some(res)), Put(cs, CacheName, req.url, res))
       case None =>
         var cached := Match(cs, req.url);
         FetchResult(Respond(if cached.Some? then cached else Match(cs, Url(origin, "/"))), cs))
    case CacheFirst =>
      (match Match(cs, req.url)
       case Some(hit) => FetchResult(Respond(Some(hit)), cs)
       case None =>
         match network(req.url)
         case Some(res) => FetchResult(Respond(Some(res)), Put(cs, CacheName, req.url, res))
         case None => FetchResult(Respond(None), cs))
  }

  /** Requests other than GET are left to the browser and touch no cache. */
  lemma NonGetIgnored(cs: seq<Cache>, req: Request, origin: string, network: Url -> Option<Response>)
    requires req.verb != "GET"
    ensures HandleFetch(cs, req, origin, network) == FetchResult(Default, cs)
  {
  }

  /** Requests to another origin are left to the browser and touch no cache. */
  lemma CrossOriginIgnored(cs: seq<Cache>, req: Request, origin: string, network: Url -> Option<Response>)
    requires req.url.origin != origin
    ensures HandleFetch(cs, req, origin, network) == FetchResult(Default, cs)
  {
  }

  /** A page fetched online is returned as it came, whatever its status, and
      stored under its URL in `CacheName`; no other cache changes. */
  lemma HtmlOnline(cs: seq<Cache>, req: Request, origin: string, network: Url -> Option<Response>)
    requires Route(req, origin) == NetworkFirst && network(req.url).Some?
    ensures var r := HandleFetch(cs, req, origin, network);
      && r.reply == Respond(Some(network(req.url).value))
      && Lookup(r.storage, CacheName) == Some(Lookup(cs, CacheName).GetOr(map[])[req.url := network(req.url).value])
      && forall n :: n != CacheName ==> Lookup(r.storage, n) == Lookup(cs, n)
  {
  }

  /** Offline, a page comes from the cache, else the cached "/" is served,
      and nothing is stored. */
  lemma HtmlOffline(cs: seq<Cache>, req: Request, origin: string, network: Url -> Option<Response>)
    requires Route(req, origin) == NetworkFirst && network(req.url).None?
    ensures var r := HandleFetch(cs, req, origin, network);
      && r.storage == cs
      && (Match(cs, req.url).Some? ==> r.reply == Respond(Match(cs, req.url)))
      && (Match(cs, req.url).None? ==> r.reply == Respond(Match(cs, Url(origin, "/"))))
  {
  }

  /** A cache hit for a static asset is answered without the network: any
      two networks give the same result, and the storage is untouched. */
  lemma StaticHitSkipsNetwork(cs: seq<Cache>, req: Request, origin: string,
                              net1: Url -> Option<Response>, net2: Url -> Option<Response>)
    requires Route(req, origin) == CacheFirst && Match(cs, req.url).Some?
    ensures HandleFetch(cs, req, origin, net1) == HandleFetch(cs, req, origin, net2)
    ensures HandleFetch(cs, req, origin, net1) == FetchResult(Respond(Match(cs, req.url)), cs)
  {
  }

  /** A static asset missing from every cache is fetched, stored in
      `CacheName` and returned; a network error reaches the page as one. */
  lemma StaticMiss(cs: seq<Cache>, req: Request, origin: string, network: Url -> Option<Response>)
    requires Route(req, origin) == CacheFirst && Match(cs, req.url).None?
    ensures var r := HandleFetch(cs, req, origin, network);
      && r.reply == Respond(network(req.url))
      && (network(req.url).Some? ==>
            Lookup(r.storage, CacheName) == Some(Lookup(cs, CacheName).GetOr(map[])[req.url := network(req.url).value]))
      && (network(req.url).None? ==> r.storage == cs)
  {
  }

  /** Once only `CacheName` is left, what is stored there is what a match finds. */
  lemma {:induction false} MatchActivated(cs: seq<Cache>, url: Url)
    requires Wf(cs) && Activated(cs)
    ensures Match(cs, url) == (if Lookup(cs, CacheName).Some? && url in Lookup(cs, CacheName).value
                               then Some(Lookup(cs, CacheName).value[url]) else None)
  {
    ActivatedSingle(cs);
    if |cs| > 0 {
      assert IndexOf(cs, CacheName) == 0;
    }
  }

  /** Distinct names leave room for one cache once all are `CacheName`. */
  lemma ActivatedSingle(cs: seq<Cache>)
    ensures Wf(cs) && Activated(cs) ==> |cs| <= 1
  {
    if |cs| > 1 && Activated(cs) {
      assert cs[0].name == cs[1].name;
    }
  }

  /** After activation, a page fetched online is served from the cache when
      the network is later down. */
  lemma OfflineReplay(cs: seq<Cache>, req: Request, origin: string,
                      online: Url -> Option<Response>, offline: Url -> Option<Response>)
    requires Wf(cs) && Activated(cs)
    requires Route(req, origin) == NetworkFirst
    requires online(req.url).Some? && offline(req.url).None?
    ensures var first := HandleFetch(cs, req, origin, online);
      HandleFetch(first.storage, req, origin, offline).reply == first.reply
  {
    var first := HandleFetch(cs, req, origin, online);
    var s := first.storage;
    assert Activated(s);
    MatchActivated(s, req.url);
  }
}
