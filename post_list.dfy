/** The post feed: the filter state (typed search text, its debounced copy,
    the selected tag shared with the wrapper, the tag-click flag), the
    infinite-query cache keyed by that state, the scroll mode, and the ids of
    the posts whose comments are expanded. Timers and the intersection
    observer are explicit events. */
module PostList {
  import opened Wrappers
  import opened Text
  import opened Seqs
  import TagListWrapper

  /** Posts asked for per page. */
  const PageSize: nat := 5

  datatype Post = Post(id: int, title: string)

  /** What the server returns for one page. */
  datatype Page = Page(posts: seq<Post>, hasMore: bool)

  /** The cached pages of one query and the page parameter each was fetched with. */
  datatype InfiniteData = InfiniteData(pages: seq<Page>, pageParams: seq<int>)

  /** `["posts", search, tag]`. */
  datatype QueryKey = QueryKey(entity: string, search: string, tag: string)

  /** The arguments of the server call `getPosts(skip, take, search, tag)`. */
  datatype ServerArgs = ServerArgs(skip: int, take: int, search: Option<string>, tagName: Option<string>)

  datatype ScrollMode = Auto | Manual

  /** Which of the three branches the list area renders. */
  datatype Body = NoPostsYet | NoPostsFound | PostItems

  // ---------------------------------------------------------------- query key and server call

  /** The query key: the tag alone when one is selected, else the debounced text alone. */
  function QueryKeyFor(tag: string, debounced: string): QueryKey {
    if tag != "" then QueryKey("posts", "", tag) else QueryKey("posts", debounced, "")
  }

  /** `s || undefined`. */
  function Defined(s: string): (r: Option<string>)
    ensures r.Some? <==> s != ""
    ensures r.Some? ==> r.value == s
  {
    if s != "" then Some(s) else None
  }

  /** The server arguments for one page: the page parameter as `skip`, five
      posts, and at most one filter, empty strings sent as undefined. */
  function ArgsFor(tag: string, debounced: string, pageParam: int): (a: ServerArgs)
    ensures a.skip == pageParam && a.take == PageSize
    ensures !(a.search.Some? && a.tagName.Some?)
    ensures a.tagName.Some? <==> tag != ""
    ensures a.tagName.Some? ==> a.tagName.value == tag
    ensures a.search.Some? <==> tag == "" && debounced != ""
    ensures a.search.Some? ==> a.search.value == debounced
  {
    ServerArgs(pageParam, PageSize, if tag != "" then None else Defined(debounced), Defined(tag))
  }

  /** A tag-mode key names the tag whatever the text; a search-mode key names
      the text; the two kinds never coincide. */
  lemma QueryKeyModes(tag: string, debounced: string, other: string)
    ensures tag != "" ==> QueryKeyFor(tag, debounced) == QueryKey("posts", "", tag)
    ensures QueryKeyFor("", debounced) == QueryKey("posts", debounced, "")
    ensures tag != "" ==> QueryKeyFor(tag, debounced) != QueryKeyFor("", other)
  {
  }

  /** The key holds everything the server call depends on: two filter states
      with one key ask the server the same question, so cached pages under a
      key always answer that key's query. */
  lemma KeyDeterminesArgs(t1: string, d1: string, t2: string, d2: string, pageParam: int)
    requires QueryKeyFor(t1, d1) == QueryKeyFor(t2, d2)
    ensures ArgsFor(t1, d1, pageParam) == ArgsFor(t2, d2, pageParam)
  {
  }

  // ---------------------------------------------------------------- pages

  /** `getNextPageParam`: the number of pages times five after a page that
      reports more, none otherwise. */
  function NextPageParam(pages: seq<Page>): (r: Option<int>)
    requires |pages| > 0
    ensures r.Some? <==> pages[|pages| - 1].hasMore
    ensures r.Some? ==> r.value == |pages| * PageSize
  {
    if pages[|pages| - 1].hasMore then Some(|pages| * PageSize) else None
  }

  /** `pages.flatMap(p => p.posts)`: a post shows exactly when some page holds it. */
  function Flatten(pages: seq<Page>): (r: seq<Post>)
    ensures forall p :: p in r <==> exists i :: 0 <= i < |pages| && p in pages[i].posts
    decreases |pages|
  {
    if pages == [] then []
    else
      var rest := Flatten(pages[1..]);
      assert forall i :: 0 < i < |pages| ==> pages[i] == pages[1..][i - 1];
      pages[0].posts + rest
  }

  function TotalPosts(pages: seq<Page>): nat
    decreases |pages|
  {
    if pages == [] then 0 else TotalPosts(pages[..|pages| - 1]) + |pages[|pages| - 1].posts|
  }

  lemma {:induction false} FlattenAppend(pages: seq<Page>, p: Page)
    ensures Flatten(pages + [p]) == Flatten(pages) + p.posts
    decreases |pages|
  {
    if pages == [] {
      assert Flatten([p]) == p.posts + Flatten([]);
    } else {
      assert (pages + [p])[1..] == pages[1..] + [p];
      FlattenAppend(pages[1..], p);
    }
  }

  /** The feed shows the pages' posts in order, so as many posts as the pages
      hold together. */
  lemma {:induction false} FlattenLength(pages: seq<Page>)
    ensures |Flatten(pages)| == TotalPosts(pages)
    decreases |pages|
  {
    if pages != [] {
      var init := pages[..|pages| - 1];
      FlattenLength(init);
      FlattenAppend(init, pages[|pages| - 1]);
      assert init + [pages[|pages| - 1]] == pages;
    }
  }

  /** The per-query invariant: page i was fetched with skip 5i, and every page
      but the last reported more. */
  ghost predicate WellPaged(d: InfiniteData) {
    && |d.pages| == |d.pageParams|
    && (forall i :: 0 <= i < |d.pageParams| ==> d.pageParams[i] == PageSize * i)
    && (forall i :: 0 <= i < |d.pages| - 1 ==> d.pages[i].hasMore)
  }

  /** The first page is fetched with skip 0 and each next page with the skip
      `getNextPageParam` returns, so the k-th page ever fetched for a query,
      counting from 0, was asked with skip 5k. */
  lemma {:induction false} NextPageKeepsPaging(d: InfiniteData, first: Page, page: Page)
    ensures WellPaged(InfiniteData([first], [0]))
    ensures WellPaged(d) && |d.pages| > 0 && d.pages[|d.pages| - 1].hasMore ==>
      WellPaged(InfiniteData(d.pages + [page], d.pageParams + [NextPageParam(d.pages).value]))
  {
    if WellPaged(d) && |d.pages| > 0 && d.pages[|d.pages| - 1].hasMore {
      var e := InfiniteData(d.pages + [page], d.pageParams + [NextPageParam(d.pages).value]);
      forall i | 0 <= i < |e.pages| - 1 ensures e.pages[i].hasMore {
        assert e.pages[i] == d.pages[i];
      }
      forall i | 0 <= i < |e.pageParams| ensures e.pageParams[i] == PageSize * i {
        if i < |d.pageParams| {
          assert e.pageParams[i] == d.pageParams[i];
        }
      }
    }
  }

  /** When the server filled every page, the next skip is exactly the number
      of posts already shown: paging neither skips nor repeats a post. */
  lemma {:induction false} NextSkipIsPostsShown(pages: seq<Page>)
    requires |pages| > 0 && pages[|pages| - 1].hasMore
    requires forall i :: 0 <= i < |pages| ==> |pages[i].posts| == PageSize
    ensures NextPageParam(pages) == Some(|Flatten(pages)|)
  {
    FullPagesTotal(pages);
    FlattenLength(pages);
  }

  lemma {:induction false} FullPagesTotal(pages: seq<Page>)
    requires forall i :: 0 <= i < |pages| ==> |pages[i].posts| == PageSize
    ensures TotalPosts(pages) == |pages| * PageSize
    decreases |pages|
  {
    if pages != [] {
      FullPagesTotal(pages[..|pages| - 1]);
    }
  }

  // ---------------------------------------------------------------- expanded comments

  /** `toggleComments`: drop every copy of a present id, append an absent one. */
  function Toggle(ids: seq<int>, id: int): seq<int> {
    if id in ids then RemoveAll(ids, id) else ids + [id]
  }

  /** Toggling flips the membership of the id alone, keeps the other ids in
      their order, and never creates a duplicate. */
  lemma ToggleProperties(ids: seq<int>, id: int)
    ensures id in Toggle(ids, id) <==> id !in ids
    ensures id !in ids ==> Toggle(ids, id) == ids + [id]
    ensures forall x :: x != id ==> (x in Toggle(ids, id) <==> x in ids)
    ensures RemoveAll(Toggle(ids, id), id) == RemoveAll(ids, id)
    ensures NoDuplicates(ids) ==> NoDuplicates(Toggle(ids, id))
  {
    if id in ids {
      if NoDuplicates(ids) {
        RemoveAllNoDuplicates(ids, id);
      }
    } else {
      RemoveAllAppend(ids, [id], id);
      assert RemoveAll([id], id) == [];
      assert RemoveAll(ids, id) + [] == RemoveAll(ids, id);
      if NoDuplicates(ids) {
        AppendAbsentNoDuplicates(ids, id);
      }
    }
  }

  /** Toggling one id twice restores which ids are expanded. */
  lemma ToggleTwice(ids: seq<int>, id: int)
    ensures forall x :: x in Toggle(Toggle(ids, id), id) <==> x in ids
  {
    ToggleProperties(ids, id);
    ToggleProperties(Toggle(ids, id), id);
  }

  // ---------------------------------------------------------------- rendering

  /** The list area: the "no posts yet" branch, then the "no posts found"
      branch, then the list. */
  function BodyFor(posts: seq<Post>, debounced: string, tag: string): Body {
    if |posts| == 0 then NoPostsYet
    else if |posts| == 0 && (debounced != "" || tag != "") then NoPostsFound
    else PostItems
  }

  /** The first branch already takes every empty list, so "no posts found"
      never renders, whatever the filters. */
  lemma NoPostsFoundUnreachable(posts: seq<Post>, debounced: string, tag: string)
    ensures BodyFor(posts, debounced, tag) != NoPostsFound
    ensures BodyFor(posts, debounced, tag) == NoPostsYet <==> |posts| == 0
  {
  }

  // ---------------------------------------------------------------- the controller

  /** Every cached query is well paged, and a fetch in flight asks for the
      page after the cached ones (skip 0 when nothing is cached yet), which
      only happens when the last cached page reported more. */
  ghost predicate CacheConsistent(cache: map<QueryKey, InfiniteData>, inFlight: map<QueryKey, int>) {
    && (forall k :: k in cache ==> WellPaged(cache[k]) && |cache[k].pages| > 0)
    && (forall k :: k in inFlight ==>
          (k in cache ==> inFlight[k] == PageSize * |cache[k].pages|
                          && cache[k].pages[|cache[k].pages| - 1].hasMore)
          && (k !in cache ==> inFlight[k] == 0))
  }

  /** The entry a query's cache gets when the page it waited for arrives. */
  function Arrived(cache: map<QueryKey, InfiniteData>, key: QueryKey, page: Page): (d: InfiniteData)
    ensures d.pages == (if key in cache then cache[key].pages else []) + [page]
  {
    if key in cache
    then InfiniteData(cache[key].pages + [page], cache[key].pageParams + [PageSize * |cache[key].pages|])
    else InfiniteData([page], [0])
  }

  /** Storing an awaited page and retiring its fetch keeps the cache consistent. */
  lemma ArrivalKeepsConsistent(cache: map<QueryKey, InfiniteData>, inFlight: map<QueryKey, int>,
                               key: QueryKey, page: Page)
    requires CacheConsistent(cache, inFlight) && key in inFlight
    ensures CacheConsistent(cache[key := Arrived(cache, key, page)], inFlight - {key})
  {
    var d := if key in cache then cache[key] else InfiniteData([], []);
    NextPageKeepsPaging(d, page, page);
  }

  class Feed {
    /** The wrapper's selection: the `tagSearchQuery` prop, and the state the
        `onUserSearchStart` callback clears. */
    const selection: TagListWrapper.TagSelection
    /** Whether the wrapper passed `onUserSearchStart`. */
    const hasCallback: bool

    var typed: string
    var debounced: string
    var tagClickFlag: bool
    /** The tag effect's 0 ms timer is scheduled. */
    var tagTimerPending: bool
    /** 100 ms flag-reset timers scheduled and not yet fired. */
    var flagResetsPending: nat
    /** The 500 ms debounce timer is scheduled. */
    var debouncePending: bool
    var scrollMode: ScrollMode
    var expanded: seq<int>
    var cache: map<QueryKey, InfiniteData>
    /** Queries with a page fetch in flight, and the skip it asked for. */
    var inFlight: map<QueryKey, int>
    /** How many times the posts queries were marked stale. */
    var invalidations: nat

    ghost predicate Valid()
      reads this
    {
      && NoDuplicates(expanded)
      && CacheConsistent(cache, inFlight)
    }

    /** Mounting: manual scrolling, no text, nothing expanded or cached. The
        effects run once: the debounce timer starts, and a tag already
        selected sets the flag and schedules its timer. */
    constructor (selection: TagListWrapper.TagSelection, hasCallback: bool)
      ensures Valid()
      ensures this.selection == selection && this.hasCallback == hasCallback
      ensures typed == "" && debounced == "" && scrollMode == Manual && expanded == []
      ensures cache == map[] && inFlight == map[] && invalidations == 0
      ensures flagResetsPending == 0 && debouncePending
      ensures tagClickFlag == tagTimerPending == (selection.tagSearchQuery != "")
    {
      this.selection := selection;
      this.hasCallback := hasCallback;
      typed, debounced := "", "";
      tagClickFlag := selection.tagSearchQuery != "";
      tagTimerPending := selection.tagSearchQuery != "";
      flagResetsPending := 0;
      debouncePending := true;
      scrollMode := Manual;
      expanded := [];
      cache, inFlight := map[], map[];
      invalidations := 0;
    }

    function Tag(): string
      reads selection
    {
      selection.tagSearchQuery
    }

    function CurrentKey(): QueryKey
      reads this, selection
    {
      QueryKeyFor(Tag(), debounced)
    }

    /** The pages of the active query. */
    function Pages(): seq<Page>
      reads this, selection
    {
      if CurrentKey() in cache then cache[CurrentKey()].pages else []
    }

    /** The posts on screen. */
    function Posts(): seq<Post>
      reads this, selection
    {
      Flatten(Pages())
    }

    function HasNextPage(): bool
      reads this, selection
    {
      |Pages()| > 0 && NextPageParam(Pages()).Some?
    }

    function IsFetchingNextPage(): bool
      reads this, selection
    {
      CurrentKey() in inFlight && |Pages()| > 0
    }

    /** The observer's condition, on top of the sentinel being rendered (it
        sits inside the list branch, so some post must show). */
    predicate AutoLoadAllowed(intersecting: bool)
      reads this, selection
    {
      scrollMode == Auto && intersecting && HasNextPage() && !IsFetchingNextPage() && |Posts()| > 0
    }

    /** The "more" button exists in manual mode with a next page, inside the
        list branch, and is disabled while a next page loads. */
    predicate LoadMoreAllowed()
      reads this, selection
    {
      scrollMode == Manual && HasNextPage() && !IsFetchingNextPage() && |Posts()| > 0
    }

    function Body(): Body
      reads this, selection
    {
      BodyFor(Posts(), debounced, Tag())
    }

    twostate predicate ListUnchanged()
      reads this
    {
      && scrollMode == old(scrollMode) && expanded == old(expanded)
      && cache == old(cache) && inFlight == old(inFlight) && invalidations == old(invalidations)
    }

    twostate predicate FilterUnchanged()
      reads this
    {
      && typed == old(typed) && debounced == old(debounced) && tagClickFlag == old(tagClickFlag)
      && tagTimerPending == old(tagTimerPending) && flagResetsPending == old(flagResetsPending)
      && debouncePending == old(debouncePending)
    }

    // ------------------------------------------------------------ filter events

    /** A tag chip was clicked. If the selection changes, both effects that
        depend on it re-run: a non-empty tag sets the flag and schedules the
        clearing timer (an empty one only cancels it), and the debounce
        timer starts over. Re-clicking the selected tag changes nothing. */
    method TagSelected(name: string)
      requires Valid()
      modifies this, selection
      ensures Valid() && ListUnchanged()
      ensures Tag() == name
      ensures typed == old(typed) && debounced == old(debounced)
      ensures flagResetsPending == old(flagResetsPending)
      ensures name == old(Tag()) ==> FilterUnchanged()
      ensures name != old(Tag()) ==>
        && tagTimerPending == (name != "")
        && tagClickFlag == (name != "" || old(tagClickFlag))
        && debouncePending
    {
      var previous := selection.tagSearchQuery;
      selection.HandleTagClick(name);
      if name != previous {
        tagTimerPending := name != "";
        if name != "" {
          tagClickFlag := true;
        }
        debouncePending := true;
      }
    }

    /** The tag effect's 0 ms timer: both search texts are cleared, the posts
        queries are marked stale, and the flag reset is scheduled. */
    method TagTimerFired()
      requires Valid()
      modifies this
      ensures Valid()
      ensures !old(tagTimerPending) ==> FilterUnchanged() && ListUnchanged()
      ensures old(tagTimerPending) ==>
        && typed == "" && debounced == ""
        && !tagTimerPending
        && tagClickFlag == old(tagClickFlag)
        && flagResetsPending == old(flagResetsPending) + 1
        && debouncePending == (old(debouncePending) || old(typed) != "")
        && invalidations == old(invalidations) + 1
        && scrollMode == old(scrollMode) && expanded == old(expanded)
        && cache == old(cache) && inFlight == old(inFlight)
    {
      if tagTimerPending {
        tagTimerPending := false;
        if typed != "" {
          debouncePending := true;
        }
        typed := "";
        debounced := "";
        invalidations := invalidations + 1;
        flagResetsPending := flagResetsPending + 1;
      }
    }

    /** A 100 ms timer: the flag is cleared. */
    method FlagReset()
      requires Valid()
      modifies this
      ensures Valid() && ListUnchanged()
      ensures old(flagResetsPending) == 0 ==> FilterUnchanged()
      ensures old(flagResetsPending) > 0 ==>
        && !tagClickFlag && flagResetsPending == old(flagResetsPending) - 1
        && typed == old(typed) && debounced == old(debounced)
        && tagTimerPending == old(tagTimerPending) && debouncePending == old(debouncePending)
    {
      if flagResetsPending > 0 {
        flagResetsPending := flagResetsPending - 1;
        tagClickFlag := false;
      }
    }

    /** The search box changed (typing, or the Clear button with ""): a new
        text restarts the debounce timer. */
    method SearchTyped(text: string)
      requires Valid()
      modifies this
      ensures Valid() && ListUnchanged()
      ensures typed == text
      ensures debouncePending == (old(debouncePending) || text != old(typed))
      ensures debounced == old(debounced) && tagClickFlag == old(tagClickFlag)
      ensures tagTimerPending == old(tagTimerPending) && flagResetsPending == old(flagResetsPending)
    {
      if text != typed {
        typed := text;
        debouncePending := true;
      }
    }

    /** The 500 ms debounce timer: the debounced text catches up with the typed
        text, and the tag is dropped only when the flag is clear, the trimmed
        text is non-empty (by `Trim`'s contract, the text is not all white
        space), a tag is selected and the callback exists. Dropping
        it re-runs both tag-dependent effects: the pending clearing timer is
        cancelled and the debounce timer starts again. */
    method DebounceFired() returns (searchStarted: bool)
      requires Valid()
      modifies this, selection
      ensures Valid() && ListUnchanged()
      ensures !old(debouncePending) ==>
        !searchStarted && FilterUnchanged() && Tag() == old(Tag())
      ensures old(debouncePending) ==>
        && debounced == old(typed)
        && searchStarted == (!old(tagClickFlag) && !AllSpace(old(typed)) && old(Tag()) != "" && hasCallback)
        && Tag() == (if searchStarted then "" else old(Tag()))
        && debouncePending == searchStarted
        && tagTimerPending == (old(tagTimerPending) && !searchStarted)
        && typed == old(typed) && tagClickFlag == old(tagClickFlag)
        && flagResetsPending == old(flagResetsPending)
    {
      searchStarted := false;
      if debouncePending {
        debouncePending := false;
        debounced := typed;
        if !tagClickFlag && !AllSpace(typed) && selection.tagSearchQuery != "" && hasCallback {
          selection.HandleUserSearchStart();
          searchStarted := true;
          tagTimerPending := false;
          debouncePending := true;
        }
      }
    }

    // ------------------------------------------------------------ list events

    method SetScrollMode(mode: ScrollMode)
      requires Valid()
      modifies this
      ensures Valid() && FilterUnchanged()
      ensures scrollMode == mode
      ensures expanded == old(expanded) && cache == old(cache) && inFlight == old(inFlight)
      ensures invalidations == old(invalidations)
    {
      scrollMode := mode;
    }

    method ToggleComments(id: int)
      requires Valid()
      modifies this
      ensures Valid() && FilterUnchanged()
      ensures expanded == Toggle(old(expanded), id)
      ensures scrollMode == old(scrollMode) && cache == old(cache) && inFlight == old(inFlight)
      ensures invalidations == old(invalidations)
    {
      ToggleProperties(expanded, id);
      expanded := Toggle(expanded, id);
    }

    /** A create, update or delete succeeded: the posts queries are marked stale. */
    method MutationSucceeded()
      requires Valid()
      modifies this
      ensures Valid() && FilterUnchanged()
      ensures invalidations == old(invalidations) + 1
      ensures scrollMode == old(scrollMode) && expanded == old(expanded)
      ensures cache == old(cache) && inFlight == old(inFlight)
    {
      invalidations := invalidations + 1;
    }

    /** The library's first fetch of a query with no pages: skip 0. */
    method FetchFirstPage() returns (request: Option<ServerArgs>)
      requires Valid()
      modifies this
      ensures Valid() && FilterUnchanged()
      ensures request.Some? <==> old(CurrentKey() !in cache && CurrentKey() !in inFlight)
      ensures request.Some? ==>
        request.value == ArgsFor(Tag(), debounced, 0) && inFlight == old(inFlight)[CurrentKey() := 0]
      ensures request.None? ==> inFlight == old(inFlight)
      ensures scrollMode == old(scrollMode) && expanded == old(expanded)
      ensures cache == old(cache) && invalidations == old(invalidations)
    {
      var key := CurrentKey();
      if key !in cache && key !in inFlight {
        request := Some(ArgsFor(selection.tagSearchQuery, debounced, 0));
        inFlight := inFlight[key := 0];
      } else {
        request := None;
      }
    }

    /** Asks for the page after the active query's last one. */
    method FetchNextPage() returns (request: ServerArgs)
      requires Valid() && HasNextPage() && !IsFetchingNextPage()
      modifies this
      ensures Valid() && FilterUnchanged()
      ensures request == ArgsFor(Tag(), debounced, |Pages()| * PageSize)
      ensures inFlight == old(inFlight)[CurrentKey() := |Pages()| * PageSize]
      ensures scrollMode == old(scrollMode) && expanded == old(expanded)
      ensures cache == old(cache) && invalidations == old(invalidations)
    {
      var key := CurrentKey();
      var skip := NextPageParam(cache[key].pages).value;
      request := ArgsFor(selection.tagSearchQuery, debounced, skip);
      inFlight := inFlight[key := skip];
    }

    /** The observer saw the sentinel change: the next page is fetched only in
        auto mode, when it intersects, a next page exists and none is loading. */
    method SentinelVisible(intersecting: bool) returns (request: Option<ServerArgs>)
      requires Valid()
      modifies this
      ensures Valid() && FilterUnchanged()
      ensures request.Some? <==> old(AutoLoadAllowed(intersecting))
      ensures request.Some? ==>
        && request.value == ArgsFor(Tag(), debounced, |Pages()| * PageSize)
        && inFlight == old(inFlight)[CurrentKey() := |Pages()| * PageSize]
      ensures request.None? ==> inFlight == old(inFlight)
      ensures scrollMode == old(scrollMode) && expanded == old(expanded)
      ensures cache == old(cache) && invalidations == old(invalidations)
    {
      if AutoLoadAllowed(intersecting) {
        var args := FetchNextPage();
        request := Some(args);
      } else {
        request := None;
      }
    }

    /** The manual "more" button. */
    method LoadMoreClicked() returns (request: Option<ServerArgs>)
      requires Valid()
      modifies this
      ensures Valid() && FilterUnchanged()
      ensures request.Some? <==> old(LoadMoreAllowed())
      ensures request.Some? ==>
        && request.value == ArgsFor(Tag(), debounced, |Pages()| * PageSize)
        && inFlight == old(inFlight)[CurrentKey() := |Pages()| * PageSize]
      ensures request.None? ==> inFlight == old(inFlight)
      ensures scrollMode == old(scrollMode) && expanded == old(expanded)
      ensures cache == old(cache) && invalidations == old(invalidations)
    {
      if LoadMoreAllowed() {
        var args := FetchNextPage();
        request := Some(args);
      } else {
        request := None;
      }
    }

    /** The server answered the fetch in flight for `key`. The page lands in
        that key's entry alone: an answer for a query that is no longer
        active leaves the posts on screen as they were. */
    method PageArrived(key: QueryKey, page: Page)
      requires Valid()
      modifies this
      ensures Valid() && FilterUnchanged()
      ensures key !in old(inFlight) ==> cache == old(cache) && inFlight == old(inFlight)
      ensures key in old(inFlight) ==>
        && inFlight == old(inFlight) - {key}
        && key in cache
        && cache[key].pages == (if key in old(cache) then old(cache)[key].pages else []) + [page]
        && cache == old(cache)[key := cache[key]]
      ensures key != CurrentKey() ==> Posts() == old(Posts())
      ensures key == CurrentKey() && key in old(inFlight) ==> Posts() == old(Posts()) + page.posts
      ensures scrollMode == old(scrollMode) && expanded == old(expanded)
      ensures invalidations == old(invalidations)
    {
      if key in inFlight {
        ArrivalKeepsConsistent(cache, inFlight, key, page);
        FlattenAppend(if key in cache then cache[key].pages else [], page);
        cache := cache[key := Arrived(cache, key, page)];
        inFlight := inFlight - {key};
      }
    }

    /** The fetch in flight for `key` failed; nothing is cached. */
    method RequestFailed(key: QueryKey)
      requires Valid()
      modifies this
      ensures Valid() && FilterUnchanged()
      ensures inFlight == old(inFlight) - {key}
      ensures scrollMode == old(scrollMode) && expanded == old(expanded)
      ensures cache == old(cache) && invalidations == old(invalidations)
    {
      inFlight := inFlight - {key};
    }
  }

  /** Example: text typed before a tag click is cleared by the tag's timer; while the
      flag is set the debounce keeps the tag; after the reset, new text drops
      the tag once debounced. */
  method TagThenSearchScenario() {
    var selection := new TagListWrapper.TagSelection();
    var feed := new Feed(selection, true);
    feed.SearchTyped("hel");
    feed.TagSelected("news");
    assert feed.tagClickFlag && feed.tagTimerPending;
    var started := feed.DebounceFired();
    assert !started && feed.Tag() == "news" && feed.debounced == "hel";
    feed.TagTimerFired();
    assert feed.typed == "" && feed.debounced == "" && feed.CurrentKey() == QueryKey("posts", "", "news");
    feed.FlagReset();
    assert !feed.tagClickFlag;
    feed.SearchTyped("alice");
    assert !IsSpace("alice"[0]);
    started := feed.DebounceFired();
    assert started && feed.Tag() == "" && feed.CurrentKey() == QueryKey("posts", "alice", "");
  }

  /** Example: the first page is asked with skip 0; after a tag click the tag's query
      asks its own first page, and a late page for the unfiltered query does
      not reach the screen. */
  method FirstPageScenario(late: Page) {
    var selection := new TagListWrapper.TagSelection();
    var feed := new Feed(selection, true);
    var r := feed.FetchFirstPage();
    assert r == Some(ServerArgs(0, 5, None, None));
    feed.TagSelected("news");
    var tagRequest := feed.FetchFirstPage();
    assert tagRequest == Some(ServerArgs(0, 5, None, Some("news")));
    feed.PageArrived(QueryKey("posts", "", ""), late);
    assert feed.Posts() == [];
  }

  /** Example: in auto mode a visible sentinel after a first page that reports more
      asks for skip 5, and asks only once while that page loads. */
  method AutoScrollScenario(p0: Page)
    requires p0.hasMore && |p0.posts| > 0
  {
    var selection := new TagListWrapper.TagSelection();
    var feed := new Feed(selection, true);
    var key := QueryKey("posts", "", "");
    assert feed.CurrentKey() == key;
    var r := feed.FetchFirstPage();
    assert feed.inFlight == map[key := 0];
    feed.PageArrived(key, p0);
    assert feed.inFlight == map[] && feed.Pages() == [p0];
    assert Flatten([p0]) == p0.posts + Flatten([]);
    feed.SetScrollMode(Auto);
    var next := feed.SentinelVisible(true);
    assert next == Some(ServerArgs(5, 5, None, None));
    var again := feed.SentinelVisible(true);
    assert again == None;
  }
}
