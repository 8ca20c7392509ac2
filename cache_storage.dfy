/**
 * The part of the browser's Cache Storage the tasks worker relies on: named
 * caches kept in creation order, each a map from request URL to response.
 * `caches.match` searches the caches in that order and answers from the
 * first that holds the URL; it never matches a request whose method is not
 * GET. `cache.put` of a non-GET request or of a partial (206) response is
 * rejected and stores nothing.
 */
module CacheStorage {
  import opened Basics

  datatype Response = Response(status: int, statusText: string, headers: seq<(string, string)>, body: string)

  /** `Response.redirect(location, 303)`. */
  function SeeOther(location: string): Response
  {
    Response(303, "", [("Location", location)], "")
  }

  /** The status of a partial response, which Cache Storage refuses to store. */
  const PartialContent := 206

  /** A status `cache.addAll` accepts: `response.ok`, and not a partial response. */
  predicate IsOk(status: int)
  {
    200 <= status <= 299 && status != PartialContent
  }

  /** The named caches, oldest first. */
  type Caches = seq<(string, map<string, Response>)>

  /** `caches.match(url)` for a GET request: the first cache, oldest first, that holds the URL. */
  function Match(caches: Caches, url: string): (r: Option<Response>)
    ensures r.None? <==> forall i :: 0 <= i < |caches| ==> url !in caches[i].1
    ensures r.Some? ==> exists i :: 0 <= i < |caches| && url in caches[i].1 && r.value == caches[i].1[url]
  {
    if caches == [] then None
    else if url in caches[0].1 then Some(caches[0].1[url])
    else
      var r := Match(caches[1..], url);
      assert forall i :: 1 <= i < |caches| ==> caches[i] == caches[1..][i - 1];
      r
  }

  /** `caches.open(name)`: an existing cache is reused, a new one is created last. */
  function Open(caches: Caches, name: string): (r: Caches)
    ensures name in Keys(r)
    ensures name in Keys(caches) ==> r == caches
    ensures name !in Keys(caches) ==> r == caches + [(name, map[])]
  {
    if name in Keys(caches) then caches
    else
      var r := caches + [(name, map[])];
      assert Keys(r)[|caches|] == name;
      r
  }

  /** The entry write behind `cache.put` and `cache.addAll`: the response stored under the URL in the cache called `name`. */
  function Store(caches: Caches, name: string, url: string, response: Response): (r: Caches)
    ensures Keys(r) == Keys(caches)
    ensures forall i :: 0 <= i < |r| && caches[i].0 == name ==> r[i].1 == caches[i].1[url := response]
    ensures forall i :: 0 <= i < |r| && caches[i].0 != name ==> r[i] == caches[i]
  {
    if caches == [] then []
    else
      var head := if caches[0].0 == name then (name, caches[0].1[url := response]) else caches[0];
      [head] + Store(caches[1..], name, url, response)
  }

  /**
   * `cache.put(url, response)` on the cache called `name`. A partial
   * response is rejected with a TypeError and nothing is stored.
   */
  function Put(caches: Caches, name: string, url: string, response: Response): (r: Caches)
    ensures Keys(r) == Keys(caches)
    ensures response.status == PartialContent ==> r == caches
    ensures forall i :: 0 <= i < |r| && caches[i].0 == name && response.status != PartialContent
              ==> r[i].1 == caches[i].1[url := response]
    ensures forall i :: 0 <= i < |r| && caches[i].0 != name ==> r[i] == caches[i]
  {
    if response.status == PartialContent then caches else Store(caches, name, url, response)
  }

  /** `caches.delete(name)`. */
  function Delete(caches: Caches, name: string): (r: Caches)
    ensures name !in Keys(r)
    ensures forall c :: c in r <==> c in caches && c.0 != name
  {
    if caches == [] then []
    else if caches[0].0 == name then Delete(caches[1..], name)
    else [caches[0]] + Delete(caches[1..], name)
  }

  /** Deletes every cache named in `names`, one `caches.delete` each. */
  function DeleteAll(caches: Caches, names: seq<string>): (r: Caches)
    ensures forall c :: c in r <==> c in caches && c.0 !in names
    decreases |names|
  {
    if names == [] then caches else DeleteAll(Delete(caches, names[0]), names[1..])
  }

  /**
   * After a miss, putting the fetched response into a cache (opening it
   * first) makes the next match answer with that response, unless it is a
   * partial response, which is not stored and still misses.
   */
  lemma {:induction false} PutAfterMissMatches(caches: Caches, name: string, url: string, response: Response)
    requires Match(caches, url).None?
    ensures Match(Put(Open(caches, name), name, url, response), url)
              == if response.status == PartialContent then None else Some(response)
  {
    if response.status == PartialContent {
      OpenKeepsMiss(caches, name, url);
      return;
    }
    var withCache := Open(caches, name);
    var r := Put(withCache, name, url, response);
    var k :| 0 <= k < |withCache| && Keys(withCache)[k] == name;
    var j := FirstNamed(withCache, name, k);
    assert url in r[j].1 && r[j].1[url] == response;
    forall i | 0 <= i < j ensures url !in r[i].1 {
      assert withCache[i].0 != name;
      if i < |caches| {
        assert withCache[i] == caches[i];
      }
    }
    MatchFirst(r, url, j);
  }

  /** Opening a cache adds no entry, so a miss stays a miss. */
  lemma OpenKeepsMiss(caches: Caches, name: string, url: string)
    requires Match(caches, url).None?
    ensures Match(Open(caches, name), url).None?
  {
    var r := Open(caches, name);
    forall i | 0 <= i < |r| ensures url !in r[i].1 {
      if i < |caches| {
        assert r[i] == caches[i];
      }
    }
  }

  /** The first position of a cache called `name`, given one at `k`. */
  lemma FirstNamed(caches: Caches, name: string, k: int) returns (j: int)
    requires 0 <= k < |caches| && caches[k].0 == name
    ensures 0 <= j <= k && caches[j].0 == name
    ensures forall i :: 0 <= i < j ==> caches[i].0 != name
  {
    j := 0;
    while caches[j].0 != name
      invariant 0 <= j <= k
      invariant forall i :: 0 <= i < j ==> caches[i].0 != name
      decreases k - j
    {
      j := j + 1;
    }
  }

  /** Match answers from the first cache holding the URL. */
  lemma {:induction false} MatchFirst(caches: Caches, url: string, j: int)
    requires 0 <= j < |caches| && url in caches[j].1
    requires forall i :: 0 <= i < j ==> url !in caches[i].1
    ensures Match(caches, url) == Some(caches[j].1[url])
    decreases j
  {
    if j > 0 {
      assert forall i :: 0 <= i < j - 1 ==> caches[1..][i] == caches[i + 1];
      MatchFirst(caches[1..], url, j - 1);
    }
  }
}
