/**
 * The two infinite-scroll lists side by side, each served by a consistent
 * server holding a fixed catalogue: the search page stops as soon as the
 * reported total is covered, the bookmark page only after a page comes
 * back empty; a failure stops the search page for good but is simply
 * retried by the bookmark page.
 */
module Stopping {
  import opened Wrappers
  import opened Camps
  import Search
  import MyBookmark

  function Min(a: int, b: int): int
  {
    if a <= b then a else b
  }

  /** The page `page` of `size` items that a server holding `catalogue` returns. */
  function Slice(catalogue: seq<Camp>, page: nat, size: nat): seq<Camp>
  {
    catalogue[Min(page * size, |catalogue|)..Min((page + 1) * size, |catalogue|)]
  }

  /** The server's answer to a search request for `page`. */
  function SearchServed(catalogue: seq<Camp>, page: nat): Search.SearchResponse
  {
    Search.SearchResponse(Some(Slice(catalogue, page, Search.PageSize)), |catalogue|)
  }

  /** The search list once the first page of a search for `params` has arrived. */
  function SearchFirstPage(catalogue: seq<Camp>, params: Search.SearchParams): Search.ListState
  {
    Search.ApplyInitial(Search.ResetTo(params), Resolved(SearchServed(catalogue, 0)))
  }

  /** The search list after `k` scroll-triggered loads answered by the server. */
  function SearchScrolled(catalogue: seq<Camp>, params: Search.SearchParams, k: nat): Search.ListState
  {
    if k == 0 then SearchFirstPage(catalogue, params)
    else
      var s := SearchScrolled(catalogue, params, k - 1);
      Search.Load(s, false, Resolved(SearchServed(catalogue, s.page)))
  }

  /** Requests the search page makes for `n` matching camps: one per page of twelve, and at least one. */
  function SearchRequests(n: nat): nat
  {
    if n <= Search.PageSize then 1 else (n + Search.PageSize - 1) / Search.PageSize
  }

  lemma {:induction false} SearchScrollState(catalogue: seq<Camp>, params: Search.SearchParams, k: nat)
    requires k < SearchRequests(|catalogue|)
    ensures SearchScrolled(catalogue, params, k) ==
      Search.ListState(catalogue[..Min((k + 1) * 12, |catalogue|)], k + 1,
                       |catalogue| > (k + 1) * 12, params)
  {
    var n := |catalogue|;
    if k > 0 {
      SearchScrollState(catalogue, params, k - 1);
      var s := SearchScrolled(catalogue, params, k - 1);
      assert k * 12 < n;
      assert catalogue[..k * 12] + catalogue[k * 12..Min((k + 1) * 12, n)] ==
        catalogue[..Min((k + 1) * 12, n)];
    }
  }

  /**
   * For a non-empty filter, the search page requests SearchRequests(n)
   * pages in all (the first one and the scroll loads after it), each load
   * before the last finding more to come; it then holds the whole
   * catalogue in order, stops, and every further load does nothing. The
   * last page it fetched was not empty unless nothing matched.
   */
  lemma SearchStopsWhenTotalIsCovered(catalogue: seq<Camp>, params: Search.SearchParams,
                                      later: seq<Fetch<Search.SearchResponse>>)
    requires Search.HasFilter(params)
    ensures var last := SearchScrolled(catalogue, params, SearchRequests(|catalogue|) - 1);
      && last.camps == catalogue
      && !last.hasMore
      && Search.Loads(last, later) == last
    ensures forall k :: 0 <= k < SearchRequests(|catalogue|) - 1 ==>
      SearchScrolled(catalogue, params, k).hasMore
    ensures |catalogue| > 0 ==>
      Slice(catalogue, SearchRequests(|catalogue|) - 1, Search.PageSize) != []
  {
    var m := SearchRequests(|catalogue|);
    SearchScrollState(catalogue, params, m - 1);
    forall k | 0 <= k < m - 1
      ensures SearchScrolled(catalogue, params, k).hasMore
    {
      SearchScrollState(catalogue, params, k);
    }
    Search.HaltedLoadsChangeNothing(SearchScrolled(catalogue, params, m - 1), later);
  }

  /** The bookmark list after `k` complete fetches answered by the server. */
  function BookmarkScrolled(catalogue: seq<Camp>, k: nat): MyBookmark.BookmarkState
  {
    if k == 0 then MyBookmark.Initial()
    else
      var s := BookmarkScrolled(catalogue, k - 1);
      MyBookmark.FetchOnce(s, Resolved(Slice(catalogue, s.page, MyBookmark.PageSize)))
  }

  /** Requests the bookmark page makes for `n` bookmarks: one per page of three, plus a final empty one. */
  function BookmarkRequests(n: nat): nat
  {
    (n + MyBookmark.PageSize - 1) / MyBookmark.PageSize + 1
  }

  lemma {:induction false} BookmarkScrollState(catalogue: seq<Camp>, k: nat)
    requires k < BookmarkRequests(|catalogue|)
    ensures BookmarkScrolled(catalogue, k) ==
      MyBookmark.BookmarkState(catalogue[..Min(k * 3, |catalogue|)], k, true, false)
  {
    var n := |catalogue|;
    if k > 0 {
      BookmarkScrollState(catalogue, k - 1);
      assert (k - 1) * 3 < n;
      assert catalogue[..(k - 1) * 3] + catalogue[(k - 1) * 3..Min(k * 3, n)] ==
        catalogue[..Min(k * 3, n)];
    }
  }

  /**
   * The bookmark page makes BookmarkRequests(n) requests: one per page
   * holding bookmarks, each finding more to come, and one more whose
   * answer is empty; only then does it hold every bookmark in order and
   * stop, after which every further fetch does nothing.
   */
  lemma BookmarksStopAfterEmptyPage(catalogue: seq<Camp>, later: seq<Fetch<seq<Camp>>>)
    ensures var last := BookmarkScrolled(catalogue, BookmarkRequests(|catalogue|));
      && last.items == catalogue
      && !last.hasMore
      && MyBookmark.Fetches(last, later) == last
    ensures forall k :: 0 <= k < BookmarkRequests(|catalogue|) ==>
      BookmarkScrolled(catalogue, k).hasMore
    ensures Slice(catalogue, BookmarkRequests(|catalogue|) - 1, MyBookmark.PageSize) == []
  {
    var m := BookmarkRequests(|catalogue|);
    BookmarkScrollState(catalogue, m - 1);
    forall k | 0 <= k < m
      ensures BookmarkScrolled(catalogue, k).hasMore
    {
      BookmarkScrollState(catalogue, k);
    }
    MyBookmark.HaltedFetchesChangeNothing(BookmarkScrolled(catalogue, m), later);
  }

  /**
   * The two stopping rules compared on the same catalogue of `n` camps:
   * for any camps at all the bookmark page needs more requests than the
   * search page would (for a non-empty filter), because its rule waits
   * for an empty page; an empty catalogue takes one request on each page.
   */
  lemma StoppingRulesCompared(n: nat)
    ensures n > 0 ==> BookmarkRequests(n) > SearchRequests(n)
    ensures n == 0 ==> BookmarkRequests(n) == SearchRequests(n) == 1
  {
    var q, r := (n + 11) / 12, (n + 2) / 3;
    assert 12 * q <= n + 11;
    assert 3 * r >= n;
    assert n > 0 ==> r >= 1;
    assert n > 12 ==> q <= r;
  }

  /**
   * After a failed request the two pages part ways: the search page stops
   * for good, whatever later requests would bring, while the bookmark page
   * is left exactly as it was and requests the same page again.
   */
  lemma FailureHandlingCompared(s: Search.ListState, b: MyBookmark.BookmarkState,
                                later: seq<Fetch<Search.SearchResponse>>)
    requires s.hasMore && MyBookmark.FetchAllowed(b)
    ensures Search.Loads(s, [Rejected] + later) == s.(hasMore := false)
    ensures MyBookmark.FetchOnce(b, Rejected) == b
    ensures MyBookmark.FetchAllowed(MyBookmark.FetchOnce(b, Rejected))
  {
    Search.FailureHaltsUntilReset(s, later);
  }
}
