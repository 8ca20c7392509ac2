/**
 * The pure helpers of the tasks service worker (_site/sw.js): the todo
 * record and its two constructors, the HTML templates of the list, the
 * splice of the list into the cached page at its lazy boundary, the
 * choice of the caches to evict, and the route the fetch listener takes.
 */
module TaskViews {
  import opened Basics
  import opened Strings
  import opened HtmlEscape

  const Version := "0.0.1"
  const StaticCacheName := "static-cache_" + Version
  const DatabaseName := "tasks-db"
  const StoreName := "tasks"

  /** The URLs `cacheStatic` stores and the fetch listener serves cache-first. */
  const Assets: seq<string> := ["/", "/index.html", "/main.js", "/htmx.min.js", "/app.webmanifest", "/main.css"]

  /** The comment the cached page carries where the list goes. */
  const LazyBoundary := "<!-- lazy -->"

  /**
   * A stored record. `Todo` is the `TodoItem` of the source. `Completion` is
   * what `completeTodo(undefined)` builds: spreading `undefined` adds no
   * property, so only `completed` is present.
   */
  datatype Todo =
    | Todo(id: string, title: string, completed: bool)
    | Completion(completed: bool)

  /** `createTodo(title)` with the random UUID passed in: the key and the new record. */
  function CreateTodo(uuid: string, title: string): (entry: (string, Todo))
    ensures entry.1.Todo? && entry.0 == entry.1.id
    ensures entry.1.id == uuid && entry.1.title == title && !entry.1.completed
  {
    (uuid, Todo(uuid, title, false))
  }

  /** `completeTodo(todo)`: `{...todo, completed: true}`, where `todo` is `undefined` for a missing record. */
  function CompleteTodo(todo: Option<Todo>): (r: Todo)
    ensures r.completed
    ensures todo.Some? && todo.value.Todo? ==>
              r.Todo? && r.id == todo.value.id && r.title == todo.value.title
    ensures todo.None? ==> r == Completion(true)
  {
    match todo
    case None => Completion(true)
    case Some(Todo(id, title, _)) => Todo(id, title, true)
    case Some(Completion(_)) => Completion(true)
  }

  /** Completing twice is completing once. */
  lemma CompleteIdempotent(todo: Option<Todo>)
    ensures CompleteTodo(Some(CompleteTodo(todo))) == CompleteTodo(todo)
  {
  }

  /** A template literal's rendering of `id`: `"undefined"` when the property is missing. */
  function IdText(t: Todo): string
  {
    if t.Todo? then t.id else "undefined"
  }

  function TitleText(t: Todo): string
  {
    if t.Todo? then t.title else "undefined"
  }

  function DeleteLink(id: string): string
  {
    "<a href=\"/delete?id=" + id + "\">Delete</a>"
  }

  function CompleteLink(id: string): string
  {
    "<a href=\"/complete?id=" + id + "\">Complete</a>"
  }

  const ItemOpen := "\n    <li>\n      "
  const ItemClose := "\n    </li>\n  "

  /** `list(id, title, completed)`: one `<li>` element. */
  function List(id: string, title: string, completed: bool): (item: string)
    ensures StartsWith(item, ItemOpen) && EndsWith(item, ItemClose)
  {
    var inner :=
      if completed then "<s>" + title + "</s> " + DeleteLink(id)
      else CompleteLink(id) + " " + title + " " + DeleteLink(id);
    Wrapped(ItemOpen, inner, ItemClose);
    ItemOpen + inner + ItemClose
  }

  /** Text built around a body starts with its opening and ends with its closing. */
  lemma Wrapped(open: string, body: string, close: string)
    ensures StartsWith(open + body + close, open) && EndsWith(open + body + close, close)
  {
    assert open + body + close == open + (body + close);
    PrefixOfConcat(open, body + close);
    SuffixOfConcat(open + body, close);
  }

  /** The `map` of `generateTodos`: one `list` per record, fields read by destructuring. */
  function Items(data: seq<Todo>): (items: seq<string>)
    ensures |items| == |data|
    ensures forall i :: 0 <= i < |data| ==>
              items[i] == List(IdText(data[i]), TitleText(data[i]), data[i].completed)
  {
    if data == [] then [] else [List(IdText(data[0]), TitleText(data[0]), data[0].completed)] + Items(data[1..])
  }

  const ListOpen := "\n    <ul slot=\"todo-list\">\n      "
  const ListClose := "\n    </ul>\n  "

  /** `generateTodos(data)`: one `<ul>` element, empty when there are no records. */
  function GenerateTodos(data: seq<Todo>): (list: string)
    ensures StartsWith(list, ListOpen) && EndsWith(list, ListClose)
    ensures data == [] ==> list == ListOpen + ListClose
  {
    Wrapped(ListOpen, Concat(Items(data)), ListClose);
    ListOpen + Concat(Items(data)) + ListClose
  }

  /** The template of `spliceResponseWithData` around its three pieces. */
  function Frame(head: string, list: string, tail: string): string
  {
    "\n    " + head + "\n    " + list + "\n    " + tail + "\n  "
  }

  /**
   * `spliceResponseWithData(cachedContent, data)`: the content untouched when
   * there is no data; otherwise the first two parts of a split at the lazy
   * boundary around the list, where a missing second part prints as `undefined`.
   */
  function Splice(cachedContent: string, data: Option<seq<Todo>>): (page: string)
    ensures data.None? ==> page == cachedContent
    ensures data.Some? ==> Contains(page, GenerateTodos(data.value))
  {
    match data
    case None => cachedContent
    case Some(todos) =>
      var parts := Split(cachedContent, LazyBoundary);
      var tail := if |parts| >= 2 then parts[1] else "undefined";
      var list := GenerateTodos(todos);
      assert Frame(parts[0], list, tail) == ("\n    " + parts[0] + "\n    ") + list + ("\n    " + tail + "\n  ");
      ContainsMiddle("\n    " + parts[0] + "\n    ", list, "\n    " + tail + "\n  ");
      Frame(parts[0], list, tail)
  }

  /** `'<'` starts the boundary and appears nowhere else in it, so no occurrence can straddle its start. */
  lemma BoundaryStartsOnce()
    ensures |LazyBoundary| == 13 && LazyBoundary[0] == '<'
    ensures forall k :: 1 <= k < |LazyBoundary| ==> LazyBoundary[k] != '<'
  {
  }

  /** The first boundary in `a + boundary + rest`, when `a` has none, is the one after `a`. */
  lemma {:induction false} BoundaryFirst(a: string, rest: string)
    requires !Contains(a, LazyBoundary)
    ensures IndexOf(a + LazyBoundary + rest, LazyBoundary) == Some(|a|)
  {
    var s := a + LazyBoundary + rest;
    BoundaryStartsOnce();
    assert OccursAt(s, LazyBoundary, |a|) by {
      assert s[|a|..|a| + |LazyBoundary|] == LazyBoundary;
    }
    forall j | 0 <= j < |a| ensures !OccursAt(s, LazyBoundary, j) {
      if j + |LazyBoundary| <= |a| {
        assert !OccursAt(a, LazyBoundary, j);
        assert a[j..j + |LazyBoundary|] == s[j..j + |LazyBoundary|];
      } else if j + |LazyBoundary| <= |s| {
        var k := |a| - j;
        assert s[j..j + |LazyBoundary|][k] == s[|a|] == '<';
        assert LazyBoundary[k] != '<';
      }
    }
    IndexOfFirst(s, LazyBoundary, |a|);
  }

  /** With exactly one boundary the list replaces it, between the text before and after it. */
  lemma SpliceOneBoundary(a: string, b: string, todos: seq<Todo>)
    requires !Contains(a, LazyBoundary) && !Contains(b, LazyBoundary)
    ensures Splice(a + LazyBoundary + b, Some(todos)) == Frame(a, GenerateTodos(todos), b)
  {
    var s := a + LazyBoundary + b;
    BoundaryFirst(a, b);
    assert s[..|a|] == a;
    assert s[|a| + |LazyBoundary|..] == b;
    SplitAtFirst(s, LazyBoundary, |a|);
    SplitAbsent(b, LazyBoundary);
  }

  /** Without a boundary the whole page comes first and the text `undefined` last. */
  lemma SpliceNoBoundary(content: string, todos: seq<Todo>)
    requires !Contains(content, LazyBoundary)
    ensures Splice(content, Some(todos)) == Frame(content, GenerateTodos(todos), "undefined")
  {
    SplitAbsent(content, LazyBoundary);
  }

  /** Everything from a second boundary on is dropped from the page. */
  lemma SpliceDropsAfterSecondBoundary(a: string, b: string, c: string, todos: seq<Todo>)
    requires !Contains(a, LazyBoundary) && !Contains(b, LazyBoundary)
    ensures Splice(a + LazyBoundary + b + LazyBoundary + c, Some(todos)) == Frame(a, GenerateTodos(todos), b)
  {
    var rest := b + LazyBoundary + c;
    var s := a + LazyBoundary + rest;
    assert s == a + LazyBoundary + b + LazyBoundary + c;
    BoundaryFirst(a, rest);
    assert s[..|a|] == a;
    assert s[|a| + |LazyBoundary|..] == rest;
    SplitAtFirst(s, LazyBoundary, |a|);
    BoundaryFirst(b, c);
    assert rest[..|b|] == b;
    SplitAtFirst(rest, LazyBoundary, |b|);
  }

  /** A text occurs inside any text built around it. */
  lemma ContainsMiddle(a: string, b: string, c: string)
    ensures Contains(a + b + c, b)
  {
    var s := a + b + c;
    assert s[|a|..|a| + |b|] == b;
    assert OccursAt(s, b, |a|);
  }

  /**
   * An item carries a Delete link for its id; an open item also a Complete
   * link for the same id, and a completed one its title struck through.
   */
  lemma ListLinks(id: string, title: string, completed: bool)
    ensures Contains(List(id, title, completed), DeleteLink(id))
    ensures !completed ==> Contains(List(id, title, completed), CompleteLink(id))
    ensures completed ==> Contains(List(id, title, completed), "<s>" + title + "</s>")
  {
    if completed {
      CompletedItemLinks(id, title);
    } else {
      OpenItemLinks(id, title);
    }
  }

  lemma CompletedItemLinks(id: string, title: string)
    ensures Contains(List(id, title, true), DeleteLink(id))
    ensures Contains(List(id, title, true), "<s>" + title + "</s>")
  {
    var open, close := ItemOpen, ItemClose;
    var struck := "<s>" + title + "</s>";
    assert List(id, title, true) == open + struck + (" " + DeleteLink(id) + close);
    ContainsMiddle(open, struck, " " + DeleteLink(id) + close);
    assert List(id, title, true) == (open + struck + " ") + DeleteLink(id) + close;
    ContainsMiddle(open + struck + " ", DeleteLink(id), close);
  }

  lemma OpenItemLinks(id: string, title: string)
    ensures Contains(List(id, title, false), DeleteLink(id))
    ensures Contains(List(id, title, false), CompleteLink(id))
  {
    var open, close := ItemOpen, ItemClose;
    assert List(id, title, false) == open + (CompleteLink(id) + (" " + title + " ") + DeleteLink(id)) + close;
    ContainsBothEnds(open, CompleteLink(id), " " + title + " ", DeleteLink(id), close);
  }

  /** Text wrapped around `x + m + y` contains both `x` and `y`. */
  lemma ContainsBothEnds(a: string, x: string, m: string, y: string, z: string)
    ensures Contains(a + (x + m + y) + z, x)
    ensures Contains(a + (x + m + y) + z, y)
  {
    var s := a + (x + m + y) + z;
    assert s == a + x + (m + y + z);
    ContainsMiddle(a, x, m + y + z);
    assert s == (a + x + m) + y + z;
    ContainsMiddle(a + x + m, y, z);
  }

  /** Each record renders as one item, in input order: the items of a split list are the split items. */
  lemma ItemsInOrder(a: seq<Todo>, b: seq<Todo>)
    ensures Items(a + b) == Items(a) + Items(b)
    ensures Concat(Items(a + b)) == Concat(Items(a)) + Concat(Items(b))
  {
    var joined, parts := Items(a + b), Items(a) + Items(b);
    forall i | 0 <= i < |joined| ensures joined[i] == parts[i] {
      if i < |a| {
        assert (a + b)[i] == a[i];
      } else {
        assert (a + b)[i] == b[i - |a|];
      }
    }
    assert joined == parts;
    ConcatAppend(Items(a), Items(b));
  }

  /** The list of one record is that record's item alone. */
  lemma GenerateOne(t: Todo)
    ensures GenerateTodos([t]) ==
      ListOpen + List(IdText(t), TitleText(t), t.completed) + ListClose
  {
    assert Items([t]) == [List(IdText(t), TitleText(t), t.completed)];
    assert Concat(Items([t])) == List(IdText(t), TitleText(t), t.completed) + Concat([]);
  }

  /** Escaped text cannot open a tag. */
  predicate TagFree(s: string)
  {
    forall i :: 0 <= i < |s| ==> !IsMarkup(s[i])
  }

  /**
   * The `/create` pipeline before the write: the value of the first form
   * field, HTML-escaped. An empty form has no first entry, and destructuring
   * `undefined` throws, so nothing is created.
   */
  function TitleFromForm(form: seq<(string, string)>): (title: Option<string>)
    ensures form == [] <==> title.None?
    ensures title.Some? ==> title.value == EscapeHtml(form[0].1) && TagFree(title.value)
  {
    if form == [] then None
    else Some(EscapeHtml(form[0].1))
  }

  /** The `filter` of `cleanCache`: every cache name but the current static one, in order. */
  function StaleCacheNames(keys: seq<string>): (stale: seq<string>)
    ensures forall i :: 0 <= i < |stale| ==> stale[i] != StaticCacheName && stale[i] in keys
    ensures forall k :: k in keys && k != StaticCacheName ==> k in stale
    ensures |stale| <= |keys|
  {
    if keys == [] then []
    else if keys[0] == StaticCacheName then StaleCacheNames(keys[1..])
    else [keys[0]] + StaleCacheNames(keys[1..])
  }

  /** The branch of the fetch listener a path selects. */
  datatype Route =
    | Page              // `/` and `/index.html`: the page with the list spliced in
    | PostMessage(n: nat)  // `/postMessage1`, `/postMessage2`: a broadcast, then a redirect
    | Create
    | Delete
    | Complete
    | CachedAsset       // one of the other assets: cache first
    | Ignored           // no `respondWith`: the browser fetches as usual

  function RouteOf(path: string): (r: Route)
    ensures r == Page <==> path == "/" || path == "/index.html"
    ensures r == CachedAsset <==> path in Assets && path != "/" && path != "/index.html"
    ensures r == Ignored <==> path !in Assets && path != "/postMessage1" && path != "/postMessage2"
                              && path != "/create" && path != "/delete" && path != "/complete"
  {
    if path == "/" || path == "/index.html" then Page
    else if path == "/postMessage1" then PostMessage(1)
    else if path == "/postMessage2" then PostMessage(2)
    else if path == "/create" then Create
    else if path == "/delete" then Delete
    else if path == "/complete" then Complete
    else if path in Assets then CachedAsset
    else Ignored
  }
}
