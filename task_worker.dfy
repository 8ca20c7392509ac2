/**
 * The stateful half of the tasks service worker (_site/sw.js): the
 * module-level `db` that `init` assigns, the static cache `cacheStatic`
 * fills, the cache-first answer for assets, and the fetch listener, which
 * answers or writes to the store depending on the path. The network, the
 * random UUID and the request's parsed query and form are parameters.
 */
module TaskWorker {
  import opened Basics
  import opened Strings
  import opened HtmlEscape
  import opened KeyValueStore
  import opened CacheStorage
  import opened TaskViews

  /** What the listener reads of a request: its method, path, query and (for `/create`) form body. */
  datatype Request = Request(httpMethod: string, path: string, query: seq<(string, string)>, form: seq<(string, string)>)

  /** What becomes of one fetch event. */
  datatype Answer =
    | Respond(response: Response)  // `respondWith` a promise that resolves
    | NetworkError                 // `respondWith` a promise that rejects
    | PassThrough                  // no `respondWith`: the browser fetches as if there were no worker

  /** `URLSearchParams.get(name)`: the first value under the name, `null` when there is none. */
  function SearchParam(query: seq<(string, string)>, name: string): (r: Option<string>)
    ensures r.None? <==> forall i :: 0 <= i < |query| ==> query[i].0 != name
    ensures r.Some? ==> exists i :: 0 <= i < |query| && query[i] == (name, r.value)
  {
    if query == [] then None
    else if query[0].0 == name then Some(query[0].1)
    else
      var r := SearchParam(query[1..], name);
      assert forall i :: 1 <= i < |query| ==> query[i] == query[1..][i - 1];
      r
  }

  /** `allEntries.map(([, todoItem]) => todoItem)`. */
  function Values(pairs: seq<(string, Todo)>): (values: seq<Todo>)
    ensures |values| == |pairs|
    ensures forall i :: 0 <= i < |pairs| ==> values[i] == pairs[i].1
  {
    if pairs == [] then [] else [pairs[0].1] + Values(pairs[1..])
  }

  /** The worker's state: the store's records once `db` is assigned, and Cache Storage. */
  datatype WorkerState = WorkerState(records: Option<map<string, Todo>>, caches: Caches)

  /**
   * A status `new Response(body, {status})` accepts with a body: one outside
   * 200-599 throws a RangeError, and a null-body status (204, 205, 304) a
   * TypeError.
   */
  predicate CarriesBody(status: int)
  {
    200 <= status <= 599 && status != 204 && status != 205 && status != 304
  }

  /**
   * `respondWithSpliced`: the cached `/` page with the stored records spliced
   * in, keeping its status, status text and headers. A page missing from the
   * cache (`res.clone()` of `undefined`), an unassigned `db`, or a cached
   * status the `Response` constructor refuses with a body rejects.
   */
  function SplicedPage(s: WorkerState): (answer: Answer)
    ensures answer != PassThrough
    ensures answer.Respond? <==>
      Match(s.caches, "/").Some? && s.records.Some? && CarriesBody(Match(s.caches, "/").value.status)
    ensures answer.Respond? ==>
      var res := Match(s.caches, "/").value;
      && answer.response.status == res.status
      && answer.response.statusText == res.statusText
      && answer.response.headers == res.headers
      && Contains(answer.response.body, GenerateTodos(Values(EntriesOf(s.records.value))))
  {
    match Match(s.caches, "/")
    case None => NetworkError
    case Some(res) =>
      match s.records
      case None => NetworkError
      case Some(records) =>
        if !CarriesBody(res.status) then NetworkError
        else
          Respond(Response(res.status, res.statusText, res.headers,
            Splice(res.body, Some(Values(EntriesOf(records))))))
  }

  /**
   * `respondWithCache`: a cached answer without touching the network;
   * otherwise one fetch, whose response is put into the static cache
   * (opened, so created if need be). A non-GET request never matches and
   * its put is rejected, as is the put of a partial response, which is
   * still answered; a failed fetch rejects.
   */
  function CacheFirst(caches: Caches, req: Request, fetched: Option<Response>): (r: (Answer, Caches))
    ensures r.0 != PassThrough
    ensures r.0 == NetworkError ==> r.1 == caches
    ensures forall c :: c in caches && c.0 != StaticCacheName ==> c in r.1
  {
    var hit := if req.httpMethod == "GET" then Match(caches, req.path) else None;
    match hit
    case Some(r) => (Respond(r), caches)
    case None =>
      match fetched
      case None => (NetworkError, caches)
      case Some(f) =>
        var withCache := Open(caches, StaticCacheName);
        (Respond(f), if req.httpMethod == "GET" then Put(withCache, StaticCacheName, req.path, f) else withCache)
  }

  /** The updater `/complete` hands to `db.update`. */
  function CompleteUpdate(current: Option<Todo>): Result<Todo, string>
  {
    Success(CompleteTodo(current))
  }

  /** The redirect every write route answers with. */
  function BackHome(): Answer
  {
    Respond(SeeOther("/"))
  }

  /**
   * The fetch listener: the answer and the state it leaves. An unassigned
   * `db` makes `/delete` and `/complete` throw before `respondWith`, and
   * makes the write of `/create` reject after its redirect.
   */
  function Handle(s: WorkerState, req: Request, uuid: string, fetched: Option<Response>): (r: (Answer, WorkerState))
    ensures r.1.records.Some? <==> s.records.Some?
    ensures r.0 == PassThrough ==> r.1 == s
    ensures RouteOf(req.path) != CachedAsset ==> r.1.caches == s.caches
  {
    match RouteOf(req.path)
    case Page => (SplicedPage(s), s)
    case PostMessage(_) => (BackHome(), s)
    case Create =>
      var title := TitleFromForm(req.form);
      if title.Some? && s.records.Some? then
        var entry := CreateTodo(uuid, title.value);
        (BackHome(), s.(records := Some(s.records.value[entry.0 := entry.1])))
      else (BackHome(), s)
    case Delete =>
      if s.records.None? then (PassThrough, s)
      else
        var id := SearchParam(req.query, "id");
        (BackHome(), if id.Some? then s.(records := Some(s.records.value - {id.value})) else s)
    case Complete =>
      if s.records.None? then (PassThrough, s)
      else
        var id := SearchParam(req.query, "id");
        if id.None? then (BackHome(), s)
        else
          var records := s.records.value;
          var current := if id.value in records then Some(records[id.value]) else None;
          (BackHome(), s.(records := Some(records[id.value := CompleteTodo(current)])))
    case CachedAsset =>
      var (answer, caches) := CacheFirst(s.caches, req, fetched);
      (answer, s.(caches := caches))
    case Ignored => (PassThrough, s)
  }

  /** `cache.addAll(urls)` after every fetch succeeded: each response stored under its URL. */
  function PutAll(caches: Caches, name: string, urls: seq<string>, network: map<string, Response>): (r: Caches)
    requires forall u :: u in urls ==> u in network
    ensures Keys(r) == Keys(caches)
    decreases |urls|
  {
    if urls == [] then caches else PutAll(Store(caches, name, urls[0], network[urls[0]]), name, urls[1..], network)
  }

  /** `addAll` leaves each fetched response under its URL in the named cache, and its other entries alone. */
  lemma {:induction false} PutAllStores(caches: Caches, name: string, urls: seq<string>, network: map<string, Response>, i: int)
    requires forall u :: u in urls ==> u in network
    requires 0 <= i < |caches| && caches[i].0 == name
    ensures var r := PutAll(caches, name, urls, network);
      forall u :: u in urls ==> (u in r[i].1 && r[i].1[u] == network[u])
    ensures var r := PutAll(caches, name, urls, network);
      forall v :: v !in urls && v in caches[i].1 ==> (v in r[i].1 && r[i].1[v] == caches[i].1[v])
    decreases |urls|
  {
    if urls != [] {
      var next := Store(caches, name, urls[0], network[urls[0]]);
      assert next[i].0 == name by {
        assert Keys(next)[i] == Keys(caches)[i];
      }
      PutAllStores(next, name, urls[1..], network, i);
      assert forall u :: u in urls ==> u == urls[0] || u in urls[1..];
    }
  }

  /** Every asset fetched with an ok status other than 206: otherwise `addAll` rejects and stores nothing. */
  predicate AllAssetsFetched(network: map<string, Response>)
  {
    forall u :: u in Assets ==> u in network && IsOk(network[u].status)
  }

  /** `cacheStatic`: open the static cache, then `addAll` the assets; reports whether it resolved. */
  function CacheStatic(caches: Caches, network: map<string, Response>): (r: (Caches, bool))
    ensures r.1 <==> AllAssetsFetched(network)
    ensures Keys(r.0) == Keys(Open(caches, StaticCacheName)) && StaticCacheName in Keys(r.0)
    ensures !r.1 ==> r.0 == Open(caches, StaticCacheName)
  {
    var withCache := Open(caches, StaticCacheName);
    if AllAssetsFetched(network) then (PutAll(withCache, StaticCacheName, Assets, network), true)
    else (withCache, false)
  }

  /** `cleanCache`: every cache but the current static one deleted. */
  function CleanCache(caches: Caches): (r: Caches)
    ensures forall c :: c in r <==> c in caches && c.0 == StaticCacheName
  {
    DeleteAll(caches, StaleCacheNames(Keys(caches)))
  }

  class Worker {
    /** The module-level `db`: `null` until `init` has run in this worker's lifetime. */
    var db: DBDriver?<Todo>
    var caches: Caches

    ghost predicate Valid()
      reads this, db
    {
      db != null ==> db.Valid()
    }

    function State(): WorkerState
      reads this, db
    {
      WorkerState(if db == null then None else Some(db.data), caches)
    }

    /** A freshly started worker: `db` is not assigned, Cache Storage is whatever the origin holds. */
    constructor(caches: Caches)
      ensures Valid() && db == null && this.caches == caches
    {
      db := null;
      this.caches := caches;
    }

    /**
     * `init`, run by the install listener: `cacheStatic`, then the store,
     * which already holds `persisted`. When `addAll` rejects, `init` stops
     * before assigning `db`.
     */
    method Init(network: map<string, Response>, persisted: map<string, Todo>) returns (installed: bool)
      requires Valid()
      modifies this
      ensures Valid()
      ensures (caches, installed) == CacheStatic(old(caches), network)
      ensures installed ==> fresh(db) && db.data == persisted
                            && db.databaseName == DatabaseName && db.storeName == StoreName
      ensures !installed ==> db == old(db)
    {
      installed := CacheStaticAssets(network);
      if installed {
        OpenStore(persisted);
      }
    }

    /** `db = new DBDriver(DATABASE_NAME, STORE_NAME)`, over the records the store already holds. */
    method OpenStore(persisted: map<string, Todo>)
      modifies this
      ensures Valid() && caches == old(caches)
      ensures fresh(db) && db.data == persisted && db.databaseName == DatabaseName && db.storeName == StoreName
    {
      db := new DBDriver(DatabaseName, StoreName, persisted);
    }

    /** `cacheStatic`: opens the static cache and `addAll`s the assets; false when `addAll` rejects. */
    method CacheStaticAssets(network: map<string, Response>) returns (stored: bool)
      modifies this
      ensures (caches, stored) == CacheStatic(old(caches), network)
      ensures db == old(db)
    {
      caches := Open(caches, StaticCacheName);
      if !AllAssetsFetched(network) {
        return false;
      }
      caches := PutAll(caches, StaticCacheName, Assets, network);
      stored := true;
    }

    /**
     * The activate listener as written: it hands `waitUntil` an async
     * function rather than a promise, so `cleanCache` is never called.
     */
    method ActivateAsWritten()
      modifies this
      ensures caches == old(caches) && db == old(db)
    {
    }

    /** The activate listener as intended: `await cleanCache()`. */
    method Activate()
      modifies this
      ensures caches == CleanCache(old(caches)) && db == old(db)
    {
      caches := CleanCache(caches);
    }

    /** `respondWithCache(request)`. */
    method RespondWithCache(req: Request, fetched: Option<Response>) returns (answer: Answer)
      modifies this
      ensures (answer, caches) == CacheFirst(old(caches), req, fetched)
      ensures db == old(db)
    {
      var hit: Option<Response> := None;
      if req.httpMethod == "GET" {
        hit := Match(caches, req.path);
      }
      if hit.Some? {
        return Respond(hit.value);
      }
      if fetched.None? {
        return NetworkError;
      }
      caches := Open(caches, StaticCacheName);
      if req.httpMethod == "GET" {
        caches := Put(caches, StaticCacheName, req.path, fetched.value);
      }
      answer := Respond(fetched.value);
    }

    /** `respondWithSpliced()`. */
    method RespondWithSpliced() returns (answer: Answer)
      ensures answer == SplicedPage(State())
    {
      var res := Match(caches, "/");
      if res.None? {
        return NetworkError;
      }
      if db == null {
        return NetworkError;
      }
      var data := Values(db.Entries());
      var body := Splice(res.value.body, Some(data));
      if !CarriesBody(res.value.status) {
        return NetworkError;
      }
      answer := Respond(Response(res.value.status, res.value.statusText, res.value.headers, body));
    }

    /** The fetch listener. */
    method HandleFetch(req: Request, uuid: string, fetched: Option<Response>) returns (answer: Answer)
      requires Valid()
      modifies this, db
      ensures Valid() && db == old(db)
      ensures (answer, State()) == Handle(old(State()), req, uuid, fetched)
    {
      var path := req.path;
      if path == "/" || path == "/index.html" {
        answer := RespondWithSpliced();
      } else if path == "/postMessage1" || path == "/postMessage2" {
        answer := BackHome();
      } else if path == "/create" {
        var title := TitleFromForm(req.form);
        if title.Some? && db != null {
          var entry := CreateTodo(uuid, title.value);
          var _ := db.Set(Some(entry.0), entry.1);
        }
        answer := BackHome();
      } else if path == "/delete" {
        if db == null {
          return PassThrough;
        }
        var id := SearchParam(req.query, "id");
        var _ := db.Del(id);
        answer := BackHome();
      } else if path == "/complete" {
        if db == null {
          return PassThrough;
        }
        var id := SearchParam(req.query, "id");
        var _ := db.Update(id, CompleteUpdate);
        answer := BackHome();
      } else if path in Assets {
        answer := RespondWithCache(req, fetched);
      } else {
        answer := PassThrough;
      }
    }
  }

  /** `/` and `/index.html` take the spliced branch, never the cache-first one, and change nothing. */
  lemma PageRoutesOnlyRead(s: WorkerState, req: Request, uuid: string, fetched: Option<Response>)
    requires req.path == "/" || req.path == "/index.html"
    ensures Handle(s, req, uuid, fetched) == (SplicedPage(s), s)
  {
  }

  /**
   * With one lazy boundary in the cached page, the answer is the page's text
   * before and after it around the list of every stored record, in key order,
   * with the cached status, status text and headers; a cached status that
   * cannot carry a body rejects instead.
   */
  lemma SplicedPageContents(s: WorkerState, res: Response, a: string, b: string)
    requires s.records.Some? && Match(s.caches, "/") == Some(res)
    requires res.body == a + LazyBoundary + b
    requires !Contains(a, LazyBoundary) && !Contains(b, LazyBoundary)
    ensures SplicedPage(s) == if CarriesBody(res.status) then
              Respond(Response(res.status, res.statusText, res.headers,
                Frame(a, GenerateTodos(Values(EntriesOf(s.records.value))), b)))
              else NetworkError
  {
    SpliceOneBoundary(a, b, Values(EntriesOf(s.records.value)));
  }

  /** Every stored record is rendered. */
  lemma PageListsEveryRecord(records: map<string, Todo>, k: string)
    requires k in records
    ensures records[k] in Values(EntriesOf(records))
  {
    var pairs := EntriesOf(records);
    assert (k, records[k]) in pairs;
    var i :| 0 <= i < |pairs| && pairs[i] == (k, records[k]);
    assert Values(pairs)[i] == records[k];
  }

  /** Nothing but the stored records is rendered, one item per record. */
  lemma PageListsOnlyRecords(records: map<string, Todo>, t: Todo)
    requires t in Values(EntriesOf(records))
    ensures t in records.Values
    ensures |Values(EntriesOf(records))| == |records|
  {
    var pairs := EntriesOf(records);
    assert Lists(pairs, records);
    ListedValue(pairs, records, t);
  }

  /** A value taken from a list of the records is a stored value. */
  lemma ListedValue(pairs: seq<(string, Todo)>, records: map<string, Todo>, t: Todo)
    requires Lists(pairs, records) && t in Values(pairs)
    ensures t in records.Values
  {
    var values := Values(pairs);
    var i :| 0 <= i < |values| && values[i] == t;
    assert pairs[i].0 in records && records[pairs[i].0] == t;
  }

  /**
   * `/create` stores, under the new UUID, an open record whose title is the
   * escaped value of the first form field, whatever that field is called,
   * and answers with a redirect home.
   */
  lemma CreateStoresEscapedTitle(s: WorkerState, req: Request, uuid: string, fetched: Option<Response>)
    requires req.path == "/create" && s.records.Some? && req.form != []
    ensures Handle(s, req, uuid, fetched).0 == Respond(SeeOther("/"))
    ensures Handle(s, req, uuid, fetched).1 ==
              s.(records := Some(s.records.value[uuid := Todo(uuid, EscapeHtml(req.form[0].1), false)]))
    ensures TagFree(EscapeHtml(req.form[0].1))
  {
  }

  /** An empty `/create` form writes nothing: destructuring its missing first entry throws. */
  lemma CreateWithEmptyFormWritesNothing(s: WorkerState, req: Request, uuid: string, fetched: Option<Response>)
    requires req.path == "/create" && req.form == []
    ensures Handle(s, req, uuid, fetched) == (Respond(SeeOther("/")), s)
  {
  }

  /** `/delete?id=k` removes record `k` and only it. */
  lemma DeleteRemovesRecord(s: WorkerState, req: Request, uuid: string, fetched: Option<Response>, k: string)
    requires req.path == "/delete" && s.records.Some? && SearchParam(req.query, "id") == Some(k)
    ensures Handle(s, req, uuid, fetched) == (Respond(SeeOther("/")), s.(records := Some(s.records.value - {k})))
  {
  }

  /** `/complete?id=k` on a stored record marks it completed and keeps its id and title and every other record. */
  lemma CompleteMarksRecord(s: WorkerState, req: Request, uuid: string, fetched: Option<Response>, k: string)
    requires req.path == "/complete" && s.records.Some? && SearchParam(req.query, "id") == Some(k)
    requires k in s.records.value && s.records.value[k].Todo?
    ensures Handle(s, req, uuid, fetched).0 == Respond(SeeOther("/"))
    ensures Handle(s, req, uuid, fetched).1.records ==
              Some(s.records.value[k := s.records.value[k].(completed := true)])
  {
  }

  /**
   * `/complete?id=k` for a key with no record stores `{completed: true}`
   * under `k`: a record without id or title, rendered with the text
   * `undefined` in their place, including in its Delete link.
   */
  lemma CompleteMissingStoresBareRecord(s: WorkerState, req: Request, uuid: string, fetched: Option<Response>, k: string)
    requires req.path == "/complete" && s.records.Some? && SearchParam(req.query, "id") == Some(k)
    requires k !in s.records.value
    ensures Handle(s, req, uuid, fetched).1.records == Some(s.records.value[k := Completion(true)])
    ensures Contains(List(IdText(Completion(true)), TitleText(Completion(true)), true), DeleteLink("undefined"))
  {
    ListLinks("undefined", "undefined", true);
  }

  /** A request without an `id` (a `null` key) is rejected by the store and writes nothing. */
  lemma MissingIdWritesNothing(s: WorkerState, req: Request, uuid: string, fetched: Option<Response>)
    requires (req.path == "/delete" || req.path == "/complete") && s.records.Some?
    requires forall i :: 0 <= i < |req.query| ==> req.query[i].0 != "id"
    ensures Handle(s, req, uuid, fetched) == (Respond(SeeOther("/")), s)
  {
  }

  /** Before `init` has run, `/delete` and `/complete` throw in the listener and the browser goes to the network. */
  lemma WritesWithoutStorePassThrough(s: WorkerState, req: Request, uuid: string, fetched: Option<Response>)
    requires (req.path == "/delete" || req.path == "/complete") && s.records.None?
    ensures Handle(s, req, uuid, fetched) == (PassThrough, s)
  {
  }

  /** Only `/create`, `/delete` and `/complete` change the records, and nothing but an asset fetch changes the caches. */
  lemma OnlyWriteRoutesWrite(s: WorkerState, req: Request, uuid: string, fetched: Option<Response>)
    ensures Handle(s, req, uuid, fetched).1.records != s.records ==>
              req.path == "/create" || req.path == "/delete" || req.path == "/complete"
    ensures Handle(s, req, uuid, fetched).1.caches != s.caches ==>
              req.path in Assets && req.path != "/" && req.path != "/index.html"
  {
  }

  /** Paths the listener does not know are left to the browser. */
  lemma UnknownPathsPassThrough(s: WorkerState, req: Request, uuid: string, fetched: Option<Response>)
    requires RouteOf(req.path) == Ignored
    ensures Handle(s, req, uuid, fetched) == (PassThrough, s)
  {
  }

  /** A cache hit answers from the cache, uses no network and changes nothing. */
  lemma CacheHitSkipsNetwork(caches: Caches, req: Request, r: Response, fetched: Option<Response>, other: Option<Response>)
    requires req.httpMethod == "GET" && Match(caches, req.path) == Some(r)
    ensures CacheFirst(caches, req, fetched) == (Respond(r), caches)
    ensures CacheFirst(caches, req, fetched) == CacheFirst(caches, req, other)
  {
  }

  /**
   * A GET miss answers with the fetched response, which the next match then
   * finds; a partial response is answered but `cache.put` stores nothing.
   */
  lemma CacheMissFetchesAndStores(caches: Caches, req: Request, f: Response)
    requires req.httpMethod == "GET" && Match(caches, req.path).None?
    ensures CacheFirst(caches, req, Some(f)).0 == Respond(f)
    ensures Match(CacheFirst(caches, req, Some(f)).1, req.path)
              == if f.status == PartialContent then None else Some(f)
  {
    PutAfterMissMatches(caches, StaticCacheName, req.path, f);
  }

  /** A miss whose fetch fails rejects and stores nothing. */
  lemma CacheMissOffline(caches: Caches, req: Request)
    requires req.httpMethod != "GET" || Match(caches, req.path).None?
    ensures CacheFirst(caches, req, None) == (NetworkError, caches)
  {
  }

  /** After a clean-up only the current static cache is left, with its contents. */
  lemma CleanCacheKeepsOnlyStatic(caches: Caches)
    ensures forall i :: 0 <= i < |CleanCache(caches)| ==> CleanCache(caches)[i].0 == StaticCacheName
    ensures forall i :: 0 <= i < |caches| && caches[i].0 == StaticCacheName ==> caches[i] in CleanCache(caches)
  {
    var r := CleanCache(caches);
    forall i | 0 <= i < |r| ensures r[i].0 == StaticCacheName {
      assert r[i] in r;
    }
  }

  /** `addAll` changes no cache but the named one. */
  lemma {:induction false} PutAllKeepsOthers(caches: Caches, name: string, urls: seq<string>, network: map<string, Response>, i: int)
    requires forall u :: u in urls ==> u in network
    requires 0 <= i < |caches| && caches[i].0 != name
    ensures PutAll(caches, name, urls, network)[i] == caches[i]
    decreases |urls|
  {
    if urls != [] {
      var next := Store(caches, name, urls[0], network[urls[0]]);
      assert next[i] == caches[i];
      PutAllKeepsOthers(next, name, urls[1..], network, i);
    }
  }

  /** The cache an earlier version of the worker left behind. */
  const PreviousCacheName := "static-cache_0.0.0"

  /**
   * As written, activation deletes nothing, so after an update the previous
   * version's cache, created first, keeps answering `caches.match("/")` with
   * the old page although the new one was fetched and stored.
   */
  lemma StalePageServedAsWritten(network: map<string, Response>, previous: Response)
    requires AllAssetsFetched(network) && network["/"] != previous
    ensures var caches := CacheStatic([(PreviousCacheName, map["/" := previous])], network).0;
            Match(caches, "/") == Some(previous) && Match(caches, "/") != Some(network["/"])
  {
    var start: Caches := [(PreviousCacheName, map["/" := previous])];
    var caches := CacheStatic(start, network).0;
    var withCache := start + [(StaticCacheName, map[])];
    OpenBesidePrevious(map["/" := previous]);
    assert caches == PutAll(withCache, StaticCacheName, Assets, network);
    PutAllKeepsOthers(withCache, StaticCacheName, Assets, network, 0);
    MatchFirst(caches, "/", 0);
  }

  /** The previous version's cache has another name, so opening the static cache creates it after that one. */
  lemma OpenBesidePrevious(entries: map<string, Response>)
    ensures Open([(PreviousCacheName, entries)], StaticCacheName)
         == [(PreviousCacheName, entries), (StaticCacheName, map[])]
  {
    assert StaticCacheName[17] == '1' && PreviousCacheName[17] == '0';
    assert Keys([(PreviousCacheName, entries)]) == [PreviousCacheName];
  }

  /**
   * With the clean-up actually run, every asset is answered with what this
   * version's install fetched, whatever caches were there before.
   */
  lemma ActivatedWorkerServesFreshAssets(caches: Caches, network: map<string, Response>, u: string)
    requires AllAssetsFetched(network) && u in Assets
    ensures Match(CleanCache(CacheStatic(caches, network).0), u) == Some(network[u])
  {
    var withCache := Open(caches, StaticCacheName);
    assert CacheStatic(caches, network).0 == PutAll(withCache, StaticCacheName, Assets, network);
    CleanInstallServes(withCache, Assets, network, u);
  }

  /** After `addAll` into the static cache and a clean-up, each added URL is answered with its response. */
  lemma CleanInstallServes(withCache: Caches, urls: seq<string>, network: map<string, Response>, u: string)
    requires StaticCacheName in Keys(withCache)
    requires forall v :: v in urls ==> v in network
    requires u in urls
    ensures Match(CleanCache(PutAll(withCache, StaticCacheName, urls, network)), u) == Some(network[u])
  {
    var installed := PutAll(withCache, StaticCacheName, urls, network);
    var clean := CleanCache(installed);
    var k := NamedAt(withCache, StaticCacheName);
    PutAllKeepsName(withCache, StaticCacheName, urls, network, k);
    var i := StaticCacheSurvives(installed, installed[k]);
    PutAllKeepsName(withCache, StaticCacheName, urls, network, i);
    PutAllStores(withCache, StaticCacheName, urls, network, i);
    MatchFirst(clean, u, 0);
  }

  /** A position of the cache called `name`. */
  lemma NamedAt(caches: Caches, name: string) returns (k: int)
    requires name in Keys(caches)
    ensures 0 <= k < |caches| && caches[k].0 == name
  {
    k :| 0 <= k < |caches| && Keys(caches)[k] == name;
  }

  /** `addAll` keeps every cache at its position under its name. */
  lemma PutAllKeepsName(caches: Caches, name: string, urls: seq<string>, network: map<string, Response>, i: int)
    requires forall u :: u in urls ==> u in network
    requires 0 <= i < |caches|
    ensures |PutAll(caches, name, urls, network)| == |caches|
    ensures PutAll(caches, name, urls, network)[i].0 == caches[i].0
  {
    var r := PutAll(caches, name, urls, network);
    assert |Keys(r)| == |Keys(caches)|;
    assert Keys(r)[i] == Keys(caches)[i];
  }

  /** The clean-up keeps a static cache that is there, and what it puts first is a static cache from before. */
  lemma StaticCacheSurvives(installed: Caches, kept: (string, map<string, Response>)) returns (i: int)
    requires kept in installed && kept.0 == StaticCacheName
    ensures |CleanCache(installed)| > 0
    ensures 0 <= i < |installed| && installed[i] == CleanCache(installed)[0] && installed[i].0 == StaticCacheName
  {
    var clean := CleanCache(installed);
    assert kept in clean;
    assert clean[0] in clean;
    i :| 0 <= i < |installed| && installed[i] == clean[0];
  }
}
