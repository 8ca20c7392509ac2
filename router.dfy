/**
 * The `Router` class of _site/router.js: four per-method path tables, a
 * cached-asset list with its handler, and the decision taken by the fetch
 * listener that `listen()` installs. Handlers are opaque tokens of type `H`;
 * invoking them is not part of the router.
 */
module Routing {
  import opened Basics

  /** The methods the router keeps a table for. */
  datatype Verb = GET | POST | PUT | DELETE

  /** The `switch (method)` of the listener: which table, if any, a request method selects. */
  function VerbOf(httpMethod: string): (v: Option<Verb>)
    ensures v == Some(GET) <==> httpMethod == "GET"
    ensures v == Some(POST) <==> httpMethod == "POST"
    ensures v == Some(PUT) <==> httpMethod == "PUT"
    ensures v == Some(DELETE) <==> httpMethod == "DELETE"
  {
    if httpMethod == "GET" then Some(GET)
    else if httpMethod == "POST" then Some(POST)
    else if httpMethod == "PUT" then Some(PUT)
    else if httpMethod == "DELETE" then Some(DELETE)
    else None
  }

  /** The request method that selects a table. */
  function MethodName(v: Verb): string
  {
    match v
    case GET => "GET"
    case POST => "POST"
    case PUT => "PUT"
    case DELETE => "DELETE"
  }

  /** A snapshot of the router's private fields. */
  datatype Tables<H> = Tables(
    getHandlers: map<string, H>,
    postHandlers: map<string, H>,
    putHandlers: map<string, H>,
    deleteHandlers: map<string, H>,
    assets: Option<seq<string>>,
    assetCacheHandler: Option<H>)
  {
    /** The handler table of one method. */
    function Table(v: Verb): map<string, H>
    {
      match v
      case GET => getHandlers
      case POST => postHandlers
      case PUT => putHandlers
      case DELETE => deleteHandlers
    }
  }

  /** A router as the constructor leaves it. */
  function Empty<H>(): Tables<H>
  {
    Tables(map[], map[], map[], map[], None, None)
  }

  /** `get`/`post`/`put`/`delete(path, handler)`: `Map.set` on that method's table. */
  function Register<H>(t: Tables<H>, v: Verb, path: string, handler: H): (r: Tables<H>)
    ensures r.Table(v) == t.Table(v)[path := handler]
    ensures forall w :: w != v ==> r.Table(w) == t.Table(w)
    ensures r.assets == t.assets && r.assetCacheHandler == t.assetCacheHandler
  {
    match v
    case GET => t.(getHandlers := t.getHandlers[path := handler])
    case POST => t.(postHandlers := t.postHandlers[path := handler])
    case PUT => t.(putHandlers := t.putHandlers[path := handler])
    case DELETE => t.(deleteHandlers := t.deleteHandlers[path := handler])
  }

  /** `registerCachedAssetsAndHandler`: both fields are overwritten. */
  function RegisterAssets<H>(t: Tables<H>, assets: seq<string>, handler: H): (r: Tables<H>)
    ensures forall v :: r.Table(v) == t.Table(v)
    ensures r.assets == Some(assets) && r.assetCacheHandler == Some(handler)
  {
    t.(assets := Some(assets), assetCacheHandler := Some(handler))
  }

  const NotFoundStatus := 404
  const NotFoundContentType := "text/html; charset=utf-8"

  /** What the listener answers with. */
  datatype Route<H> =
    | Handled(handler: H)          // `e.respondWith(handler(e.request, e))`
    | CachedAsset(handler: H)      // `e.respondWith(this.#assetCacheHandler(e.request))`
    | NotFound(status: int, body: string, contentType: string)
    | Crash(reason: string)        // a TypeError thrown inside the listener

  /** The only rewrite the listener applies to the path. */
  function Normalize(path: string): (p: string)
    ensures p != "/index.html"
    ensures path != "/index.html" ==> p == path
    ensures path == "/index.html" ==> p == "/"
  {
    if path == "/index.html" then "/" else path
  }

  /** The diagnostic body of the 404 answer. */
  function NotFoundBody(httpMethod: string, path: string): string
  {
    "<pre>CANNOT " + httpMethod + " " + path + "</pre>"
  }

  /** The handler the listener's `switch` finds for an already normalised path. */
  function HandlerFor<H>(t: Tables<H>, httpMethod: string, path: string): (r: Option<H>)
    ensures r.Some? <==> VerbOf(httpMethod).Some? && path in t.Table(VerbOf(httpMethod).value)
    ensures r.Some? ==> r.value == t.Table(VerbOf(httpMethod).value)[path]
  {
    match VerbOf(httpMethod)
    case None => None
    case Some(v) => if path in t.Table(v) then Some(t.Table(v)[path]) else None
  }

  /**
   * The listener's decision for a request: normalise, try the method's table,
   * then the asset list, then answer 404.
   */
  function Decide<H>(t: Tables<H>, httpMethod: string, rawPath: string): (r: Route<H>)
    ensures r.Handled? <==> VerbOf(httpMethod).Some? && Normalize(rawPath) in t.Table(VerbOf(httpMethod).value)
    ensures r.Handled? ==> r.handler == t.Table(VerbOf(httpMethod).value)[Normalize(rawPath)]
  {
    var path := Normalize(rawPath);
    match HandlerFor(t, httpMethod, path)
    case Some(h) => Handled(h)
    case None => Fallback(t, httpMethod, path)
  }

  /**
   * What the listener does for a path no handler claims. Reading `includes`
   * of an asset list that was never registered, or calling a missing asset
   * handler, throws.
   */
  function Fallback<H>(t: Tables<H>, httpMethod: string, path: string): (r: Route<H>)
    ensures !r.Handled?
    ensures r.Crash? <==> t.assets.None? || (path in t.assets.value && t.assetCacheHandler.None?)
    ensures r.CachedAsset? <==> t.assets.Some? && path in t.assets.value && t.assetCacheHandler.Some?
    ensures r.CachedAsset? ==> r.handler == t.assetCacheHandler.value
    ensures r.NotFound? ==> r == NotFound(NotFoundStatus, NotFoundBody(httpMethod, path), NotFoundContentType)
  {
    match t.assets
    case None => Crash("TypeError: cannot read 'includes' of undefined")
    case Some(assets) =>
      if path in assets then
        match t.assetCacheHandler
        case Some(a) => CachedAsset(a)
        case None => Crash("TypeError: asset cache handler is not a function")
      else NotFound(NotFoundStatus, NotFoundBody(httpMethod, path), NotFoundContentType)
  }

  class Router<H> {
    var getHandlers: map<string, H>
    var postHandlers: map<string, H>
    var putHandlers: map<string, H>
    var deleteHandlers: map<string, H>
    var assets: Option<seq<string>>
    var assetCacheHandler: Option<H>

    /** The asset list and its handler are only ever set together. */
    ghost predicate Valid()
      reads this
    {
      assets.Some? <==> assetCacheHandler.Some?
    }

    function State(): Tables<H>
      reads this
    {
      Tables(getHandlers, postHandlers, putHandlers, deleteHandlers, assets, assetCacheHandler)
    }

    constructor()
      ensures Valid() && State() == Empty()
    {
      getHandlers, postHandlers, putHandlers, deleteHandlers := map[], map[], map[], map[];
      assets, assetCacheHandler := None, None;
    }

    method Get(path: string, handler: H)
      requires Valid()
      modifies this
      ensures Valid() && State() == Register(old(State()), GET, path, handler)
    {
      getHandlers := getHandlers[path := handler];
    }

    method Post(path: string, handler: H)
      requires Valid()
      modifies this
      ensures Valid() && State() == Register(old(State()), POST, path, handler)
    {
      postHandlers := postHandlers[path := handler];
    }

    method Put(path: string, handler: H)
      requires Valid()
      modifies this
      ensures Valid() && State() == Register(old(State()), PUT, path, handler)
    {
      putHandlers := putHandlers[path := handler];
    }

    method Delete(path: string, handler: H)
      requires Valid()
      modifies this
      ensures Valid() && State() == Register(old(State()), DELETE, path, handler)
    {
      deleteHandlers := deleteHandlers[path := handler];
    }

    method RegisterCachedAssetsAndHandler(assetList: seq<string>, handler: H)
      requires Valid()
      modifies this
      ensures Valid() && State() == RegisterAssets(old(State()), assetList, handler)
    {
      assets := Some(assetList);
      assetCacheHandler := Some(handler);
    }

    /** The body of the fetch listener installed by `listen()`. */
    method Dispatch(httpMethod: string, rawPath: string) returns (r: Route<H>)
      requires Valid()
      ensures r == Decide(State(), httpMethod, rawPath)
      ensures r.Crash? <==> assets.None? && HandlerFor(State(), httpMethod, Normalize(rawPath)).None?
    {
      var path := rawPath;
      if path == "/index.html" {
        path := "/";
      }
      var handler: Option<H> := None;
      match VerbOf(httpMethod) {
        case Some(GET) =>
          if path in getHandlers { handler := Some(getHandlers[path]); }
        case Some(POST) =>
          if path in postHandlers { handler := Some(postHandlers[path]); }
        case Some(PUT) =>
          if path in putHandlers { handler := Some(putHandlers[path]); }
        case Some(DELETE) =>
          if path in deleteHandlers { handler := Some(deleteHandlers[path]); }
        case None =>
      }
      ghost var t := State();
      assert handler == HandlerFor(t, httpMethod, path);
      if handler.Some? {
        return Handled(handler.value);
      }
      assert Decide(t, httpMethod, rawPath) == Fallback(t, httpMethod, path);
      if assets.None? {
        return Crash("TypeError: cannot read 'includes' of undefined");
      }
      if path in assets.value {
        return CachedAsset(assetCacheHandler.value);
      }
      return NotFound(NotFoundStatus, NotFoundBody(httpMethod, path), NotFoundContentType);
    }
  }

  /** Registering the same method and path twice keeps only the last handler. */
  lemma LastRegistrationWins<H>(t: Tables<H>, v: Verb, path: string, first: H, second: H)
    requires path != "/index.html"
    ensures Register(Register(t, v, path, first), v, path, second) == Register(t, v, path, second)
    ensures Decide(Register(Register(t, v, path, first), v, path, second), MethodName(v), path)
         == Handled(second)
  {
  }

  /** Tables are per httpMethod: a registration changes nothing for any other method. */
  lemma TablesArePerMethod<H>(t: Tables<H>, v: Verb, path: string, handler: H, httpMethod: string, rawPath: string)
    requires VerbOf(httpMethod) != Some(v)
    ensures Decide(Register(t, v, path, handler), httpMethod, rawPath) == Decide(t, httpMethod, rawPath)
  {
    var r := Register(t, v, path, handler);
    var p := Normalize(rawPath);
    assert HandlerFor(r, httpMethod, p) == HandlerFor(t, httpMethod, p);
    assert Fallback(r, httpMethod, p) == Fallback(t, httpMethod, p);
  }

  /** A handler registered under `/index.html` is never reached: the path is rewritten first. */
  lemma IndexHandlerUnreachable<H>(t: Tables<H>, v: Verb, handler: H, httpMethod: string, rawPath: string)
    ensures Decide(Register(t, v, "/index.html", handler), httpMethod, rawPath) == Decide(t, httpMethod, rawPath)
  {
    var r := Register(t, v, "/index.html", handler);
    IndexEntryUnused(t, v, handler, httpMethod, Normalize(rawPath));
    SameHandlersSameRoute(r, t, httpMethod, rawPath);
  }

  /** Outside `/index.html`, a registration under that path changes no lookup. */
  lemma IndexEntryUnused<H>(t: Tables<H>, v: Verb, handler: H, httpMethod: string, path: string)
    requires path != "/index.html"
    ensures HandlerFor(Register(t, v, "/index.html", handler), httpMethod, path) == HandlerFor(t, httpMethod, path)
  {
    var r := Register(t, v, "/index.html", handler);
    match VerbOf(httpMethod) {
      case None =>
      case Some(w) =>
        if w == v {
          assert r.Table(v) == t.Table(v)["/index.html" := handler];
        } else {
          assert r.Table(w) == t.Table(w);
        }
    }
  }

  /** Two routers that find the same handler and share their asset fields decide alike. */
  lemma SameHandlersSameRoute<H>(r: Tables<H>, t: Tables<H>, httpMethod: string, rawPath: string)
    requires HandlerFor(r, httpMethod, Normalize(rawPath)) == HandlerFor(t, httpMethod, Normalize(rawPath))
    requires r.assets == t.assets && r.assetCacheHandler == t.assetCacheHandler
    ensures Decide(r, httpMethod, rawPath) == Decide(t, httpMethod, rawPath)
  {
  }

  /** `/index.html` is rewritten to `/` before any lookup, including the 404 body. */
  lemma IndexIsRoot<H>(t: Tables<H>, httpMethod: string)
    ensures Decide(t, httpMethod, "/index.html") == Decide(t, httpMethod, "/")
    ensures Decide(t, httpMethod, "/index.html").NotFound? ==>
              Decide(t, httpMethod, "/index.html").body == "<pre>CANNOT " + httpMethod + " /</pre>"
  {
  }

  /** A method other than GET, POST, PUT and DELETE never finds a handler. */
  lemma UnsupportedMethodNeverHandled<H>(t: Tables<H>, httpMethod: string, rawPath: string)
    requires httpMethod != "GET" && httpMethod != "POST" && httpMethod != "PUT" && httpMethod != "DELETE"
    ensures !Decide(t, httpMethod, rawPath).Handled?
  {
  }

  /** A matching handler wins over the asset fallback, even for a registered asset path. */
  lemma HandlerBeforeAsset<H>(t: Tables<H>, v: Verb, rawPath: string)
    requires Normalize(rawPath) in t.Table(v)
    ensures Decide(t, MethodName(v), rawPath) == Handled(t.Table(v)[Normalize(rawPath)])
  {
  }

  /** The asset handler answers exactly when the lookup missed and the path is a listed asset. */
  lemma AssetOnlyOnMiss<H>(t: Tables<H>, httpMethod: string, rawPath: string)
    requires t.assets.Some? && t.assetCacheHandler.Some?
    ensures Decide(t, httpMethod, rawPath).CachedAsset?
        <==> HandlerFor(t, httpMethod, Normalize(rawPath)).None? && Normalize(rawPath) in t.assets.value
    ensures Decide(t, httpMethod, rawPath).CachedAsset? ==>
              Decide(t, httpMethod, rawPath).handler == t.assetCacheHandler.value
  {
  }

  /** Otherwise the answer is the fixed 404 page naming the method and the rewritten path. */
  lemma NotFoundOtherwise<H>(t: Tables<H>, httpMethod: string, rawPath: string)
    requires t.assets.Some?
    requires HandlerFor(t, httpMethod, Normalize(rawPath)).None?
    requires Normalize(rawPath) !in t.assets.value
    ensures Decide(t, httpMethod, rawPath) == NotFound(404,
      "<pre>CANNOT " + httpMethod + " " + Normalize(rawPath) + "</pre>", "text/html; charset=utf-8")
  {
  }

  /** Once assets are registered the listener never throws. */
  lemma NoCrashOnceRegistered<H>(t: Tables<H>, httpMethod: string, rawPath: string)
    requires t.assets.Some? && t.assetCacheHandler.Some?
    ensures !Decide(t, httpMethod, rawPath).Crash?
  {
  }

  /** A later `registerCachedAssetsAndHandler` replaces the earlier list and handler entirely. */
  lemma AssetsOverwritten<H>(t: Tables<H>, first: seq<string>, h1: H, second: seq<string>, h2: H)
    ensures RegisterAssets(RegisterAssets(t, first, h1), second, h2) == RegisterAssets(t, second, h2)
  {
  }
}
