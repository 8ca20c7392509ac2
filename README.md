# tasks-app service worker, router, store and Datastar event builders

A Dafny model of the offline core of the tasks app: a to-do list that a
service worker serves without a server.

- `_site/utils.js`: `escapeHtml`, the global replace that turns eight
  characters into HTML entities (module `HtmlEscape`).
- `_site/router.js`: the `Router` class. It keeps four per-method path
  tables and a cached-asset list. Its fetch listener picks a handler, falls
  back to the asset handler, or answers with a 404 page (module `Routing`:
  class `Router` with a pure `Decide` that specifies its `Dispatch`).
- `_site/db.js`: `DBDriver`, the promise wrapper around one IndexedDB object
  store. The store is a map from key to value, listed in ascending key order
  (module `KeyValueStore`: class `DBDriver`).
- `_site/sw.js`: the tasks service worker (modules `TaskViews`,
  `CacheStorage` and `TaskWorker`). It covers:
  - the todo record and its two constructors;
  - the HTML templates and the splice of the list into the cached page at
    its lazy boundary;
  - the static cache and its clean-up;
  - the cache-first answer for assets;
  - the fetch listener. This is class `Worker`, whose `HandleFetch` is proved
    against the pure `Handle`.
- `_site/datastar-sdk.js`: the event builders of `ServerSentEventGenerator`
  (module `Datastar`): `send`, `#eachNewlineIsADataLine`, `#hasDefaultValue`,
  `#eachOptionIsADataLine`, the two validators, `patchElements`,
  `patchSignals`, `executeScript`, `removeElements` and `removeSignals`.
  - A thrown `Error` is a `Failure` that carries its message. The SDK's own
    `Error`s carry their exact text. A `TypeError` the engine throws carries
    a placeholder text, since engines word these messages differently.
  - The lines that `send` returns are checked against the receiving side they
    are written for (module `ServerSentEvents`). That receiving side is the
    event-stream interpretation of section 9.2.6 of the WHATWG HTML Living
    Standard.
  - The JSON text that `removeSignals` builds is read back by a small JSON
    reader and applied as an RFC 7386 merge patch (module `JsonText`).

Shared modules:

- `Basics`: `Option`, `Result` and `Keys`, the first components of a list of pairs.
- `Strings`: the JavaScript string primitives `indexOf`, `split`, `join`,
  `trim() === ''` and `String(n)`.
- `JsValues`: the JavaScript values that options carry, with truthiness,
  template-literal text and `.toString()`. It also gives the order in which
  an object's own keys are listed (section 10.1.11.1 of ECMA-262).

Numbers are the safe integers, those no larger in magnitude than
2^53 - 1 (`Number.MAX_SAFE_INTEGER`). JavaScript holds each of them
exactly and `String(n)` prints it as its decimal numeral. The only number
the source compares is a retry duration, which is an integer.

## Model

| member | source | states |
|---|---|---|
| HtmlEscape.EscapeChar | _site/utils.js:1-10 | Each of `& < > " ' / \` =` becomes its `ENTITY_MAP` entity, an `&…;` text. Every other character is kept. No output character is markup-significant. |
| HtmlEscape.EscapeAppend | _site/utils.js:17-19 | The replace is global and works per character, so escaping a concatenation is the concatenation of the escapes. |
| HtmlEscape.EscapeAt | _site/utils.js:17-19 | Character `i` of the input is replaced in place, between the escapes of the text before it and after it. |
| HtmlEscape.EscapeLength | _site/utils.js:17-19 | The output is never shorter than the input. It has the same length exactly when no special character occurs. |
| HtmlEscape.EscapeFixedPoint | _site/utils.js:17-19 | Escaping leaves a text unchanged if and only if it has no special character. |
| HtmlEscape.EscapeUnchanged | _site/utils.js:17-19 | Text without special characters comes out unchanged. |
| HtmlEscape.EscapeHtml | _site/utils.js:17-19 | `escapeHtml`: each character replaced by its `EscapeChar`, left to right. The output never contains `< > " ' / \` =`. |
| HtmlEscape.EscapeIdempotentIff | _site/utils.js:17-19 | Escaping twice equals escaping once exactly when the text has no special character, because `&` is escaped again. |
| Routing.VerbOf | _site/router.js:54-69 | The `switch` selects the GET, POST, PUT or DELETE table exactly for those four method names. |
| Routing.Register | _site/router.js:17-31 | `Map.set` on one method's table: that table maps the path to the new handler. The other tables and the assets are unchanged. |
| Routing.RegisterAssets | _site/router.js:33-36 | Both asset fields are overwritten. The tables are unchanged. |
| Routing.Normalize | _site/router.js:48-50 | `/index.html` becomes `/`. Every other path is kept, and the result is never `/index.html`. |
| Routing.HandlerFor | _site/router.js:52-69 | A handler is found exactly when the method selects a table that holds the path. It is that table's entry. |
| Routing.Decide | _site/router.js:41-72 | The listener's decision: a handler answers exactly when the request method selects a table and that table holds the normalised path, and it is that table's entry. |
| Routing.Fallback | _site/router.js:76-89 | A path no handler claims never reaches a handler. The listener throws exactly when no asset list was registered, or the path is listed but no asset handler was. It answers from the asset handler exactly when the path is listed and a handler is registered. Otherwise it answers 404 with the `CANNOT` body and the HTML content type. |
| Routing.Router.constructor | _site/router.js:10-15 | Four empty tables. No asset list or asset handler. |
| Routing.Router.Get | _site/router.js:17-19 | The new state is `Register` of the old one on the GET table. |
| Routing.Router.Post | _site/router.js:21-23 | The new state is `Register` of the old one on the POST table. |
| Routing.Router.Put | _site/router.js:25-27 | The new state is `Register` of the old one on the PUT table. |
| Routing.Router.Delete | _site/router.js:29-31 | The new state is `Register` of the old one on the DELETE table. |
| Routing.Router.RegisterCachedAssetsAndHandler | _site/router.js:33-36 | The new state is `RegisterAssets` of the old one. |
| Routing.Router.Dispatch | _site/router.js:38-91 | The listener answers `Decide` of the current tables, which is one of: the handler, the asset handler, the 404 page, or the TypeError of an unregistered asset list. Since the asset list and its handler are only set together, it throws exactly when no handler matches and no asset list was registered. |
| Routing.LastRegistrationWins | _site/router.js:17-31 | Registering the same method and path twice keeps only the second handler, which then handles the request. |
| Routing.TablesArePerMethod | _site/router.js:54-69 | A registration for one method changes no answer for any other method. |
| Routing.IndexHandlerUnreachable | _site/router.js:48-50 | A handler registered under `/index.html` never changes any answer. |
| Routing.IndexIsRoot | _site/router.js:48-50 | `/index.html` is answered exactly as `/` is. Its 404 body names `/`. |
| Routing.UnsupportedMethodNeverHandled | _site/router.js:67-68 | A method other than the four never reaches a registered handler. |
| Routing.HandlerBeforeAsset | _site/router.js:71-74 | A matching handler answers, even for a listed asset path. |
| Routing.AssetOnlyOnMiss | _site/router.js:77-80 | The asset handler answers if and only if the lookup missed and the path is a listed asset. |
| Routing.NotFoundOtherwise | _site/router.js:82-89 | Otherwise the answer is a 404 `text/html; charset=utf-8` page with the body `<pre>CANNOT <method> <path></pre>`. |
| Routing.NoCrashOnceRegistered | _site/router.js:71-89 | Once assets are registered, the listener never throws. |
| Routing.AssetsOverwritten | _site/router.js:33-36 | A later asset registration replaces the earlier list and handler entirely. |
| KeyValueStore.BelowIrreflexive | _site/db.js:62-69 | No key sorts before itself. |
| KeyValueStore.BelowAsymmetric | _site/db.js:62-69 | No two keys each sort before the other. |
| KeyValueStore.BelowTransitive | _site/db.js:62-69 | The key order is transitive. |
| KeyValueStore.BelowTotal | _site/db.js:62-69 | Of two different keys, one sorts before the other. |
| KeyValueStore.LeastExists | _site/db.js:62-69 | Every non-empty set of keys has a least key, so the records can be listed in key order. |
| KeyValueStore.LeastUnique | _site/db.js:62-69 | The least key of a set is unique. |
| KeyValueStore.SortedKeys | _site/db.js:66 | `getAllKeys` returns every key once, in strictly ascending order. |
| KeyValueStore.Zip | _site/db.js:68 | `keys.map((key, idx) => [key, values[idx]])` pairs each key with its own value, in key order. |
| KeyValueStore.EntriesOf | _site/db.js:62-70 | `entries()` resolves with one `[key, value]` pair per record, each with its stored value, in ascending key order. |
| KeyValueStore.EntriesDetermineStore | _site/db.js:62-70 | Two stores with the same entries hold the same records. |
| KeyValueStore.EntriesKeysDistinct | _site/db.js:62-70 | No key appears twice in the entries. |
| KeyValueStore.EntriesAfterPut | _site/db.js:30-35 | After `put`, the pair is listed. The list grows by one exactly when the key was new. |
| KeyValueStore.EntriesAfterDelete | _site/db.js:55-60 | After `delete`, no entry carries the key. The list shrinks by one exactly when it was present. |
| KeyValueStore.DBDriver.constructor | _site/db.js:6-10 | Both names are stored and the store handle is created. |
| KeyValueStore.DBDriver.DefaultGetStore | _site/db.js:12-17 | A missing handle is created for the driver's own names. An existing one is kept. The records are untouched. |
| KeyValueStore.DBDriver.Set | _site/db.js:30-35 | `put` overwrites or inserts the key. A `null` key rejects with `DataError` and writes nothing. |
| KeyValueStore.DBDriver.Get | _site/db.js:37-39 | Returns the stored value, or `undefined` for a missing key. A `null` key rejects. |
| KeyValueStore.DBDriver.Update | _site/db.js:41-53 | The updater receives the current value (`undefined` when absent) and its result is stored. If the updater throws, or the key is `null`, the call rejects and nothing is written. |
| KeyValueStore.DBDriver.Del | _site/db.js:55-60 | The key is removed. A missing key succeeds and changes nothing. A `null` key rejects. |
| TaskViews.CreateTodo | _site/sw.js:95-105 | An open record whose id is the UUID, which is also its key, with the given title. |
| TaskViews.CompleteTodo | _site/sw.js:111-116 | Always completed. An existing record keeps its id and title. `undefined` gives `{completed: true}` alone. |
| TaskViews.CompleteIdempotent | _site/sw.js:111-116 | Completing twice is completing once. |
| TaskViews.Items | _site/sw.js:164-170 | One `list(id, title, completed)` item per record, in order. A missing property prints as `undefined`. |
| TaskViews.List | _site/sw.js:150-158 | `list` renders one `<li>` element: the item opens with `<li>` and closes with `</li>`. |
| TaskViews.GenerateTodos | _site/sw.js:164-173 | `generateTodos` renders one `<ul slot="todo-list">` element around the items, with nothing inside it when there are no records. |
| TaskViews.ItemsInOrder | _site/sw.js:164-170 | The items of a concatenation are the items of each part, joined in order. |
| TaskViews.GenerateOne | _site/sw.js:164-173 | The list of one record is the `<ul slot="todo-list">` wrapper around that record's item alone. |
| TaskViews.ListLinks | _site/sw.js:150-158 | Each item has a Delete link for its id. An open item also has a Complete link, and a completed item has its title struck through. |
| TaskViews.BoundaryFirst | _site/sw.js:185-186 | In `a + "<!-- lazy -->" + rest`, where `a` has no boundary, the first boundary is the one right after `a`. |
| TaskViews.Splice | _site/sw.js:180-192 | Without data the cached content is returned as it is. With data the page contains the rendered list. |
| TaskViews.SpliceOneBoundary | _site/sw.js:180-192 | With exactly one boundary, the list replaces it, between the text before and the text after it. |
| TaskViews.SpliceNoBoundary | _site/sw.js:180-192 | Without a boundary, the whole page comes first and the text `undefined` comes last. |
| TaskViews.SpliceDropsAfterSecondBoundary | _site/sw.js:186 | Destructuring only two parts drops everything from a second boundary on. |
| TaskViews.TitleFromForm | _site/sw.js:219-224 | The title is the escaped value of the first form field, whatever its name. It is tag-free. An empty form gives no title. |
| TaskViews.StaleCacheNames | _site/sw.js:31-38 | Exactly the cache names other than the current static one are selected for deletion. |
| TaskViews.RouteOf | _site/sw.js:194-238 | The branch each path takes. The page is `/` and `/index.html`. The cache-first branch is the other assets. Unknown paths get no `respondWith`. |
| CacheStorage.Match | _site/sw.js:119-122 | `caches.match` misses exactly when no cache holds the URL. Otherwise it returns a stored response for it. |
| CacheStorage.MatchFirst | _site/sw.js:119-122 | `caches.match` answers from the first cache that holds the URL. |
| CacheStorage.Open | _site/sw.js:26 | `caches.open` reuses a cache with that name, or appends a new empty one. |
| CacheStorage.Store | _site/sw.js:27 | The entry write of `put` and `addAll`: the response under the URL in the named cache, every other cache unchanged. |
| CacheStorage.Put | _site/sw.js:126 | `cache.put` stores the response under the URL in the named cache only. A partial (206) response is rejected and nothing changes. |
| CacheStorage.Delete | _site/sw.js:36 | `caches.delete` removes the named cache and keeps all the others. |
| CacheStorage.DeleteAll | _site/sw.js:33-37 | Deleting a list of names keeps exactly the caches whose name is not in it. |
| CacheStorage.PutAfterMissMatches | _site/sw.js:118-128 | After a miss, opening the cache and putting the fetched response makes the next match answer with it. A partial response is not stored, so the next match still misses. |
| TaskWorker.SearchParam | _site/sw.js:229 | `searchParams.get(name)` is the first value under the name, or `null` when there is none. |
| TaskWorker.Values | _site/sw.js:136 | The records of the entries, in the same order. |
| TaskWorker.SplicedPage | _site/sw.js:130-144 | `respondWithSpliced` answers exactly when `/` is cached, `db` is assigned and the cached status can carry a body (200-599, not 204, 205 or 304), and otherwise rejects. The answer keeps the cached status, status text and headers, and its body contains the list of the stored records in key order. |
| TaskWorker.CacheFirst | _site/sw.js:118-128 | `respondWithCache` always answers or rejects. A rejection changes no cache, and no cache other than the static one ever changes. |
| TaskWorker.PutAll | _site/sw.js:27 | `addAll` keeps every cache name. |
| TaskWorker.PutAllStores | _site/sw.js:27 | `addAll` stores each asset's fetched response under its URL and keeps the other entries of that cache. |
| TaskWorker.PutAllKeepsOthers | _site/sw.js:27 | `addAll` changes no other cache. |
| TaskWorker.CacheStatic | _site/sw.js:25-29 | `cacheStatic` resolves exactly when every asset was fetched with an ok status other than 206. The static cache exists afterwards, and no other cache is created. When a fetch fails, `addAll` stores nothing. |
| TaskWorker.CleanCache | _site/sw.js:31-38 | `cleanCache` keeps exactly the caches named after the current static cache. |
| TaskWorker.CleanCacheKeepsOnlyStatic | _site/sw.js:31-38 | After a clean-up, only the static cache is left, with its contents. |
| TaskWorker.Worker.constructor | _site/sw.js:11 | A started worker has no `db`, and Cache Storage is as the origin holds it. |
| TaskWorker.Worker.CacheStaticAssets | _site/sw.js:25-29 | `cacheStatic` opens the static cache and, when every asset was fetched with an ok status other than 206, `addAll` stores them all. Otherwise only the opened cache is added. `db` is untouched. |
| TaskWorker.Worker.OpenStore | _site/sw.js:42 | `db` becomes a fresh driver for the tasks store, holding the records already persisted. The caches are untouched. |
| TaskWorker.Worker.Init | _site/sw.js:40-43 | `init` runs `cacheStatic`. Only when it resolves is `db` assigned, to a fresh driver for `tasks-db`/`tasks`. Otherwise `db` is unchanged. |
| TaskWorker.Worker.ActivateAsWritten | _site/sw.js:51-57 | As written, activation changes nothing: the async function is never called. |
| TaskWorker.Worker.Activate | _site/sw.js:51-57 | Activation as intended runs `cleanCache`. |
| TaskWorker.Worker.RespondWithCache | _site/sw.js:118-128 | The answer and caches of `CacheFirst`: a GET hit is answered from the cache. Otherwise one fetch answers and is put into the static cache, which stores it unless it is a partial response. A failed fetch rejects. |
| TaskWorker.Worker.RespondWithSpliced | _site/sw.js:130-144 | The cached `/` page with every record spliced in, keeping its status, status text and headers. A missing page or `db` rejects, and so does a cached status the `Response` constructor refuses with a body. |
| TaskWorker.Worker.HandleFetch | _site/sw.js:194-239 | The listener's answer and the new records and caches are those of `Handle` on the old state. |
| TaskWorker.Handle | _site/sw.js:194-239 | The fetch listener never assigns or clears `db`. Leaving a request to the browser changes nothing. Only the cache-first branch can change the caches. |
| TaskWorker.PageRoutesOnlyRead | _site/sw.js:198-199 | `/` and `/index.html` get the spliced page and change nothing. |
| TaskWorker.SplicedPageContents | _site/sw.js:130-144 | With one boundary in the cached page, the answer is the text before it, then the list of every record in key order, then the text after it, keeping the cached status and headers. A cached status that cannot carry a body rejects instead. |
| TaskWorker.PageListsEveryRecord | _site/sw.js:135-136 | Every stored record is rendered. |
| TaskWorker.PageListsOnlyRecords | _site/sw.js:135-136 | Only stored records are rendered, one item per record. |
| TaskWorker.CreateStoresEscapedTitle | _site/sw.js:218-227 | `/create` stores an open record under the new UUID, titled with the escaped first form value, and redirects home with 303. |
| TaskWorker.CreateWithEmptyFormWritesNothing | _site/sw.js:218-227 | An empty form writes nothing and still redirects. |
| TaskWorker.DeleteRemovesRecord | _site/sw.js:228-231 | `/delete?id=k` removes record `k` and only it. |
| TaskWorker.CompleteMarksRecord | _site/sw.js:232-235 | `/complete?id=k` marks record `k` completed, keeps its id and title, and keeps every other record. |
| TaskWorker.CompleteMissingStoresBareRecord | _site/sw.js:232-235 | Completing a missing key stores `{completed: true}` under it. That record renders with `undefined` for its id. |
| TaskWorker.MissingIdWritesNothing | _site/sw.js:228-235 | Without an `id` parameter, the store rejects the `null` key and nothing is written. |
| TaskWorker.WritesWithoutStorePassThrough | _site/sw.js:228-235 | Before `init` has run, `/delete` and `/complete` throw in the listener, so the browser fetches as usual. |
| TaskWorker.OnlyWriteRoutesWrite | _site/sw.js:194-239 | Only `/create`, `/delete` and `/complete` change the records. Only asset fetches change the caches. |
| TaskWorker.UnknownPathsPassThrough | _site/sw.js:236-238 | Unknown paths get no answer from the worker and change nothing. |
| TaskWorker.CacheHitSkipsNetwork | _site/sw.js:119-122 | A hit answers from the cache, ignores the network and changes nothing. |
| TaskWorker.CacheMissFetchesAndStores | _site/sw.js:123-127 | A GET miss answers with the fetched response, which the next match then finds. A partial response is answered but not stored, and the next match misses. |
| TaskWorker.CacheMissOffline | _site/sw.js:124 | A miss whose fetch fails rejects and stores nothing. |
| TaskWorker.StalePageServedAsWritten | _site/sw.js:51-57 | As written, after an update the previous version's cache keeps answering `/` with the old page. |
| TaskWorker.ActivatedWorkerServesFreshAssets | _site/sw.js:25-38 | With the clean-up run, every asset is answered with what this version fetched. |
| TaskWorker.StaticCacheSurvives | _site/sw.js:31-38 | The clean-up keeps a static cache that is present, and the cache it puts first is a static cache from before. |
| TaskWorker.CleanInstallServes | _site/sw.js:25-38 | After `addAll` into the static cache and a clean-up, each added URL is answered with the response that was stored for it. |
| Strings.IndexOf | _site/sw.js:186 | `indexOf` finds the first occurrence of the separator, or reports that there is none. |
| Strings.Split | _site/sw.js:186 | `split` with a non-empty separator always gives at least one part, also for empty text. |
| Strings.SplitJoin | _site/datastar-sdk.js:279 | Joining the parts of `split(sep)` with `sep` gives back the text. |
| Strings.SplitPartsFree | _site/sw.js:186 | No part of a split contains the separator. |
| Strings.SplitCharCount | _site/datastar-sdk.js:279 | Splitting at a character gives one more part than it has occurrences. |
| Strings.DecimalRoundTrip | _site/datastar-sdk.js:215 | Reading back the decimal numeral of a natural number gives the number. For a safe integer, that numeral is `String(n)`. |
| JsValues.ToStringCall | _site/datastar-sdk.js:307 | `.toString()` throws exactly on `undefined` and `null`. Otherwise it gives the value's template text. |
| JsValues.Get | _site/datastar-sdk.js:337 | A property read that is not `undefined` gives the value of a property with that key. |
| JsValues.GetReadsFirst | _site/datastar-sdk.js:337 | A property read gives the value of the first property with that key, and `undefined` when no property has it. |
| JsValues.Without | _site/datastar-sdk.js:337 | The rest object holds exactly the properties whose key is not excluded. |
| JsValues.WithoutKeepsOrder | _site/datastar-sdk.js:337 | The rest object is the subsequence of the properties whose key is not excluded. They keep their order, and none is skipped. |
| JsValues.OwnKeys | _site/datastar-sdk.js:540-544 | `JSON.stringify` lists an object's keys in this order. It is a permutation of the keys in creation order. Array-index keys come first, in ascending numeric order. The other keys come last, in creation order. |
| JsValues.OtherKeysAppend | _site/datastar-sdk.js:540-544 | The keys that are not array indices keep their creation order: a concatenation keeps the order of its parts. |
| JsValues.OwnKeysWithoutIndices | _site/datastar-sdk.js:540-544 | Without array-index keys, property order is creation order. |
| JsValues.PermutationUnique | _site/datastar-sdk.js:540-544 | Reordering the keys never repeats a key. |
| ServerSentEvents.Terminated | _site/datastar-sdk.js:212-224 | Each field line ends in a newline. |
| ServerSentEvents.DataLines | _site/datastar-sdk.js:221-223 | One `data: <line>\n` per data line, in order. |
| ServerSentEvents.Send | _site/datastar-sdk.js:205-232 | `send` returns at least two lines. The first is the `event:` line, and a lone newline closes the event. |
| ServerSentEvents.SendShape | _site/datastar-sdk.js:205-232 | The event line comes first. The data lines follow in order after the optional id and retry lines. A lone newline closes the event. |
| ServerSentEvents.SendsIdIff | _site/datastar-sdk.js:213 | An `id:` line is sent exactly when the event id is truthy. |
| ServerSentEvents.SendsRetryIff | _site/datastar-sdk.js:214-216 | A `retry:` line is sent exactly when the duration is truthy and not 1000. |
| ServerSentEvents.SendDecodes | _site/datastar-sdk.js:205-232 | When no value holds a line terminator, a client reading the lines sees one event carrying the type, the joined data, the id and the retry that were sent. An id holding U+0000 is sent, but the reader ignores it and keeps no last event id. |
| ServerSentEvents.RetryNumberRoundTrip | _site/datastar-sdk.js:214-216 | A positive safe-integer duration other than 1000 becomes the client's reconnection time. Any other duration leaves it alone. |
| JsonText.SetMember | _site/datastar-sdk.js:542 | `patch[key] = null` keeps the place of an existing key and appends a new one. |
| JsonText.NullPatch | _site/datastar-sdk.js:540-543 | One `key: null` member per key, in order. |
| JsonText.Stringify | _site/datastar-sdk.js:544 | `JSON.stringify` of an object is braced text, and it is `{}` exactly for an object without members. |
| JsonText.QuoteRoundTrip | _site/datastar-sdk.js:544 | A key quoted as `JSON.stringify` does reads back as that key. |
| JsonText.NullObjectRoundTrip | _site/datastar-sdk.js:544 | The stringified null patch reads back as its keys, in order. |
| JsonText.MergePatch | _site/datastar-sdk.js:538-545 | RFC 7386 merge patch, applied by the client. A name the patch does not mention keeps its value. For a name the patch does mention, its last member decides: `null` removes the name, and any other value becomes its value. |
| JsonText.NullPatchRemoves | _site/datastar-sdk.js:538-545 | Applying the null patch as a merge patch removes exactly its keys. |
| Datastar.PrefixEach | _site/datastar-sdk.js:279-281 | Each part is prefixed, in order. |
| Datastar.EachNewlineIsADataLine | _site/datastar-sdk.js:278-282 | `#eachNewlineIsADataLine` gives at least one line, also for empty data. |
| Datastar.Payloads | _site/datastar-sdk.js:278-282 | Each line is `prefix`, a space and its payload. |
| Datastar.NewlineLinesCount | _site/datastar-sdk.js:278-282 | There is one data line per newline of the data, plus one. |
| Datastar.NewlineLinesPrefixed | _site/datastar-sdk.js:278-282 | Every line starts with `prefix` and a space. |
| Datastar.NewlineLinesRoundTrip | _site/datastar-sdk.js:278-282 | The payloads joined by newlines give back the data. |
| Datastar.NewlineLinesAreLineFree | _site/datastar-sdk.js:278-282 | Without a carriage return in the key or the data, no data line holds a line terminator. |
| Datastar.SplitPartsAreFactors | _site/datastar-sdk.js:279 | The parts of the split contain only characters of the data. |
| Datastar.EachOptionIsADataLine | _site/datastar-sdk.js:301-310 | Throws the `toString` TypeError exactly when a kept option (not at its default) is `undefined` or `null`. |
| Datastar.HasDefaultValue | _site/datastar-sdk.js:289-295 | Only the three `DefaultMapping` keys have a default. A default value is never `undefined` or `null`, so filtering defaults out never drops an option that would throw. |
| Datastar.DefaultsProduceNoLines | _site/datastar-sdk.js:289-310 | Options all at their `DefaultMapping` defaults give no lines. |
| Datastar.OptionLinesUnfold | _site/datastar-sdk.js:301-310 | The lines are those of the first option, when it is kept, followed by those of the rest, in key order. |
| Datastar.OptionOfLine | _site/datastar-sdk.js:301-310 | Every option line comes from a kept option and starts with its key. |
| Datastar.OptionLinesKeyed | _site/datastar-sdk.js:301-310 | Every option line starts with the key of a kept option. |
| Datastar.EventOptionsNeverDataLines | _site/datastar-sdk.js:337 | `eventId` and `retryDuration` are never data lines: each line starts with the key of another option, not at its default. |
| Datastar.ValidateElementPatchMode | _site/datastar-sdk.js:173-177 | Succeeds exactly for the eight modes. Otherwise it throws the message that lists them. |
| Datastar.ValidateRequired | _site/datastar-sdk.js:187-191 | Throws `<name> is required and cannot be empty` exactly when the value is empty or all whitespace. |
| Datastar.PatchElements | _site/datastar-sdk.js:336-380 | The method returns or throws what `PatchElementsLines` gives. |
| Datastar.PatchElementsLines | _site/datastar-sdk.js:336-380 | What `patchElements` returns: a successful call gives a `datastar-patch-elements` event, closed by a lone newline. |
| Datastar.PatchElementsErrors | _site/datastar-sdk.js:343-358 | An invalid mode throws first. Blank elements throw next, unless removing by selector. Failing means exactly one of those or an unprintable option. |
| Datastar.RemoveWithoutSelectorCheckUnreachable | _site/datastar-sdk.js:362-368 | Once the earlier checks pass, the condition of the remove-without-selector check is false. |
| Datastar.PatchElementsSucceeds | _site/datastar-sdk.js:370-379 | On success the event has the option lines, then the `elements` lines. The elements lines are left out exactly when removing by selector with blank elements. |
| Datastar.PatchSignalsLines | _site/datastar-sdk.js:400-413 | Blank signals throw. Otherwise the call throws exactly when an option cannot be printed. |
| Datastar.PatchSignalsCarriesSignals | _site/datastar-sdk.js:404-412 | A `datastar-patch-signals` event with the option lines, then `signals` lines whose payloads join back to the signals. |
| Datastar.ExecuteScript | _site/datastar-sdk.js:441-477 | A `datastar-patch-elements` event with `mode append`, `selector body`, then the script tag as `elements` lines. |
| Datastar.SingleDataLine | _site/datastar-sdk.js:278-282 | Data without a newline is one line. |
| Datastar.FixedLine | _site/datastar-sdk.js:468-469 | `mode append` and `selector body` are single lines. |
| Datastar.ScriptEventLines | _site/datastar-sdk.js:467-471 | Line 0 is `mode append` and line 1 is `selector body`. After them come `elements` lines whose payloads join back to the tag. |
| Datastar.ScriptTagWraps | _site/datastar-sdk.js:465 | The tag opens with the attribute text and wraps the script unchanged. |
| Datastar.ScriptEffectIff | _site/datastar-sdk.js:442-463 | The attributes end in `data-effect="el.remove()"` exactly when `autoRemove` is absent or truthy, or when the caller's attributes already end in it. |
| Datastar.RemoveByElementsThrowsAsWritten | _site/datastar-sdk.js:502-513 | As written, removing by elements without a selector throws the `toString` TypeError. |
| Datastar.RemoveElementsAsWritten | _site/datastar-sdk.js:502-513 | As written: with neither a selector nor non-blank elements, `removeElements` throws the target error. A successful call gives a `datastar-patch-elements` event. |
| Datastar.RenderRemoveOptionsAsWritten | _site/datastar-sdk.js:507-512 | As written, the rendered options are `selector` and then `mode: 'remove'`. |
| Datastar.RenderRemoveOptions | _site/datastar-sdk.js:507-512 | Corrected: `selector` is passed only when truthy, then `mode: 'remove'`. |
| Datastar.RemoveElementsFailsOnlyWithoutTarget | _site/datastar-sdk.js:502-513 | Corrected: `removeElements` throws exactly when there is neither a selector nor non-blank elements, with that error. |
| Datastar.RemoveModeLine | _site/datastar-sdk.js:509 | `mode: 'remove'` is not the default, so it is the line `mode remove`. |
| Datastar.RemoveByElementsPasses | _site/datastar-sdk.js:502-513 | Corrected: removing by elements alone passes every check of `patchElements`. |
| Datastar.RemoveByElementsSends | _site/datastar-sdk.js:502-513 | Corrected: removing by elements alone sends `mode remove` and the elements lines, with the given id and retry. |
| Datastar.RemoveElements | _site/datastar-sdk.js:502-513 | Corrected: with neither a selector nor non-blank elements, `removeElements` throws the target error. A successful call gives a `datastar-patch-elements` event. |
| Datastar.Distinct | _site/datastar-sdk.js:540-543 | The keys the loop creates on the patch object: each key once. |
| Datastar.DistinctKeepsFirstOccurrences | _site/datastar-sdk.js:540-543 | The keys are created in the order of their first occurrence: each is taken from its first position, and the positions increase. |
| Datastar.RemoveSignals | _site/datastar-sdk.js:538-545 | The loop builds the null patch of the distinct keys. Its result is `patchSignals` of that patch, stringified with the keys in property order. |
| Datastar.RemovalPatchMeaning | _site/datastar-sdk.js:538-545 | The patch is never blank, so the call throws exactly on an unprintable option. It reads back as the keys in property order. These are exactly the given keys, each once. As a merge patch it removes exactly those signals. |
| Datastar.OwnKeysOfDistinct | _site/datastar-sdk.js:540-544 | Put in property order, the distinct keys are exactly the given keys, each once. |
| Datastar.RemovalRemovesKeys | _site/datastar-sdk.js:538-545 | The merge patch of the keys in property order removes exactly the given keys. |
| Datastar.RemovalPatchIndexFirst | _site/datastar-sdk.js:540-544 | `removeSignals(["b", "1"])` lists `"1"` before `"b"`: the integer-like key comes first. |

## Left out

- Promises, event listeners, `respondWith`/`waitUntil` and `console` output are not modelled. Each listener is one synchronous step, and a rejected promise is `NetworkError` or a `Failure`.
- The network, the random UUID, the request's parsed query and form, and the origin's existing caches are parameters.
- The BroadcastChannel `post` helper and the `/postMessage1`/`/postMessage2` broadcasts are left out (sw.js:59-82, 200-217): they are cross-context messaging. Only their redirect is modelled.
- `Router.listen` is left out as an event registration. Its listener body is `Routing.Router.Dispatch`. URL parsing is left out: the path is given.
- Handlers are opaque tokens, and calling them is outside the router.
- `console.error` for an unsupported method is not modelled.
- IndexedDB is a map from string key to value. Version upgrades, transactions and non-string keys are not modelled. `#createStore` is the handle it returns.
- The driver's `customStore` parameter is not modelled: every call uses the default store.
- KeyValueStore.Below: IndexedDB orders string keys by UTF-16 code unit. The model compares Dafny characters, which is the same order only outside the surrogate range.
- `cache.addAll` is all-or-nothing: one failed, non-ok or partial (206) fetch stores nothing. `Response` bodies are strings, and the `clone` of a response is the response.
- Only GET requests match in Cache Storage. Query strings and `Vary` are not modelled, so a response with `Vary: *`, which `put` and `addAll` reject, is stored.
- The cached responses the origin already holds are taken as given: their status need not be one `put` would accept. `respondWithSpliced` checks it as the `Response` constructor does.
- TaskViews.ListLinks states which links an item has. It does not state that a completed item lacks a Complete link. That claim is false in general, because `id` is printed unescaped (sw.js:154-155): a completed item whose id contains `/complete?id=` does contain the Complete link text.
- A `Response` built from the cached page keeps its headers as a list of pairs.
- `ServerSentEventGenerator.stream`, `readSignals` and the `controller.enqueue` side effect of `send` are not modelled. `send` is modelled by the lines it returns.
- Options are a list of properties in insertion order. JavaScript lists array-index keys first, which the model of the option objects does not do. The patch object of `removeSignals` is listed in property order (`JsValues.OwnKeys`).
- Option values are `undefined`, `null`, booleans, safe integers and strings. Non-integer numbers, objects and arrays as option values are not modelled.
- ServerSentEvents.RetryNumberRoundTrip is stated for safe integers only. JavaScript prints a number from 1e21 up in exponent form (`retry: 1e+21`), which the reader ignores, and prints integers above 2^53 rounded. Such durations are not modelled.
- Strings.DecimalRoundTrip is about the exact decimal numeral of any natural number. It is `String(n)` only for safe integers, which are the only numbers the model holds.
- ServerSentEvents.SendDecodes requires that no value contains `\n` or `\r`. A `\r` inside a data line splits it on the receiving side, which the SDK does not guard against.
- ServerSentEvents.SendDecodes requires at least one data line. A leading byte-order mark is not stripped by the modelled reader.
- `patchElements` and `patchSignals` take `elements`/`signals` as strings. A missing `elements` with remove-by-selector options, which throws at `elements.trim()`, is not modelled.
- `executeScript` takes `autoRemove`, `attributes`, `eventId` and `retryDuration` as separate parameters instead of one options object.
- Datastar.ScriptEffectIff also holds when the caller's own attributes already end in the effect attribute, so it is stated with that case.
- `removeSignals` takes a single key or an array of string keys. A `__proto__` key, which `patch[key] = null` would not make an own property, is not modelled.
- Values inside the merge patch are `null` only. Nested objects are not modelled.
- The JSON reader accepts exactly the `JSON.stringify` output, without whitespace.
- Strings are sequences of Dafny characters, so lone UTF-16 surrogates cannot be represented.

## Findings

| source | as written | input that shows it | evidently intended | confidence | as-written member | corrected member |
|---|---|---|---|---|---|---|
| _site/datastar-sdk.js:502-513 | `removeElements` always passes `selector` in the options object, also when it is `undefined`. `#eachOptionIsADataLine` then calls `toString` on it. | `removeElements(undefined, '<div id="a"></div>')` throws a TypeError | Removing by elements without a selector sends `mode remove` and the elements, which is what the method's own check at line 504 allows | not executed | Datastar.RemoveByElementsThrowsAsWritten | Datastar.RemoveByElementsSends |
| _site/sw.js:51-57 | The activate listener passes an async function, not a promise, to `waitUntil`. So `cleanCache` never runs. | After an update from a version whose cache `static-cache_0.0.0` holds `/`, `caches.match("/")` still answers with the old page | Activation deletes the previous version's caches, so assets are served from this version's cache | not executed | TaskWorker.StalePageServedAsWritten | TaskWorker.ActivatedWorkerServesFreshAssets |
