/**
 * The bookmarked camps page (src/pages/account/MyBookmark.js): pages of
 * three bookmarked camps fetched one after another as the end of the list
 * comes into view, the empty state, and the success notification.
 *
 * The component sets `loading` itself before it awaits the service and
 * clears it in `finally`, so a fetch is modelled in two steps: BeginFetch
 * (the guard and the request) and FinishFetch (what happens once the
 * request settles). Between the two, every further attempt is refused.
 */
module MyBookmark {
  import opened Wrappers
  import opened Camps

  /** Bookmarked camps requested per page. */
  const PageSize: nat := 3

  /** The arguments of one `getBookmarkedCamps` call (the token aside). */
  datatype BookmarkRequest = BookmarkRequest(page: nat, size: nat)

  /** The list bookkeeping of the page. */
  datatype BookmarkState = BookmarkState(items: seq<Camp>, page: nat, hasMore: bool, loading: bool)

  /** The state when the page mounts. */
  function Initial(): BookmarkState
  {
    BookmarkState([], 0, true, false)
  }

  /** `!(loading || !hasMore)` */
  predicate FetchAllowed(s: BookmarkState)
  {
    !s.loading && s.hasMore
  }

  /** `fetchBookmarkedCamps` up to its `await`. */
  function Begin(s: BookmarkState): BookmarkState
  {
    if FetchAllowed(s) then s.(loading := true) else s
  }

  /** `fetchBookmarkedCamps` after its `await`, `finally` included. */
  function Finish(s: BookmarkState, f: Fetch<seq<Camp>>): BookmarkState
  {
    match f
    case Resolved(content) =>
      s.(items := s.items + content, hasMore := |content| > 0, page := s.page + 1, loading := false)
    case Rejected => s.(loading := false)
  }

  /** A whole `fetchBookmarkedCamps` call that no other call overlaps. */
  function FetchOnce(s: BookmarkState, f: Fetch<seq<Camp>>): BookmarkState
  {
    if FetchAllowed(s) then Finish(Begin(s), f) else s
  }

  /** Successive calls, each settled with the next outcome of `fs`. */
  function Fetches(s: BookmarkState, fs: seq<Fetch<seq<Camp>>>): BookmarkState
    decreases |fs|
  {
    if fs == [] then s else Fetches(FetchOnce(s, fs[0]), fs[1..])
  }

  /** The pages of the resolved outcomes, in order; rejections dropped. */
  function Pages(fs: seq<Fetch<seq<Camp>>>): seq<seq<Camp>>
  {
    if fs == [] then []
    else if fs[0].Resolved? then [fs[0].value] + Pages(fs[1..])
    else Pages(fs[1..])
  }

  function Flatten(pages: seq<seq<Camp>>): seq<Camp>
  {
    if pages == [] then [] else pages[0] + Flatten(pages[1..])
  }

  /** A fetch begun while another is in flight, or after the end, does nothing. */
  lemma {:induction false} HaltedFetchesChangeNothing(s: BookmarkState, fs: seq<Fetch<seq<Camp>>>)
    requires !FetchAllowed(s)
    ensures Fetches(s, fs) == s
    decreases |fs|
  {
    if fs != [] {
      HaltedFetchesChangeNothing(s, fs[1..]);
    }
  }

  /**
   * A failed fetch leaves no trace: the calls behave exactly as if the
   * failures had never happened, so the page that failed is simply
   * requested again by the next call.
   */
  lemma {:induction false} FailuresLeaveNoTrace(s: BookmarkState, fs: seq<Fetch<seq<Camp>>>)
    ensures Fetches(s, fs) == Fetches(s, Resolutions(fs))
    decreases |fs|
  {
    if fs != [] {
      FailuresLeaveNoTrace(FetchOnce(s, fs[0]), fs[1..]);
      if fs[0].Rejected? {
        FailuresLeaveNoTrace(s, fs[1..]);
      } else {
        assert Resolutions(fs) == [fs[0]] + Resolutions(fs[1..]);
        assert ([fs[0]] + Resolutions(fs[1..]))[1..] == Resolutions(fs[1..]);
      }
    }
  }

  /** The resolved outcomes of `fs`, in order. */
  function Resolutions(fs: seq<Fetch<seq<Camp>>>): (rs: seq<Fetch<seq<Camp>>>)
    ensures forall i :: 0 <= i < |rs| ==> rs[i].Resolved?
  {
    if fs == [] then []
    else if fs[0].Resolved? then [fs[0]] + Resolutions(fs[1..])
    else Resolutions(fs[1..])
  }

  /** `hasMore` turns false only when some fetch came back with an empty page. */
  lemma {:induction false} StopsOnlyAfterEmptyPage(s: BookmarkState, fs: seq<Fetch<seq<Camp>>>)
    requires s.hasMore
    requires !Fetches(s, fs).hasMore
    ensures Resolved([]) in fs
    decreases |fs|
  {
    assert fs != [];
    var t := FetchOnce(s, fs[0]);
    if fs[0] == Resolved([]) {
    } else {
      assert t.hasMore;
      StopsOnlyAfterEmptyPage(t, fs[1..]);
    }
  }

  /**
   * As long as no page before the last came back empty, every resolved
   * page is appended in order after the items already listed, and the page
   * counter advances once per resolved page.
   */
  lemma {:induction false} FetchesAppendEveryPage(s: BookmarkState, fs: seq<Fetch<seq<Camp>>>)
    requires FetchAllowed(s)
    requires forall i :: 0 <= i < |fs| - 1 ==> fs[i] != Resolved([])
    ensures Fetches(s, fs).items == s.items + Flatten(Pages(fs))
    ensures Fetches(s, fs).page == s.page + |Pages(fs)|
    ensures !Fetches(s, fs).loading
    decreases |fs|
  {
    if fs == [] {
      assert s.items + [] == s.items;
    } else {
      var t := FetchOnce(s, fs[0]);
      if |fs| == 1 {
        assert fs[1..] == [];
        if fs[0].Resolved? {
          assert Pages(fs) == [fs[0].value];
          assert Flatten(Pages(fs)) == fs[0].value + [];
        }
      } else {
        assert FetchAllowed(t);
        FetchesAppendEveryPage(t, fs[1..]);
        if fs[0].Resolved? {
          assert Pages(fs) == [fs[0].value] + Pages(fs[1..]);
          assert Flatten(Pages(fs)) == fs[0].value + Flatten(Pages(fs[1..]));
        }
      }
    }
  }

  /** One card of the list, as handed to the bookmarked-camp card. */
  datatype BookmarkCard = BookmarkCard(
    campId: int, name: string, lineIntro: string, streetAddr: string,
    keywords: Option<seq<string>>, isMarked: bool)

  /** What the page shows below its title: the cards, or the empty state. */
  datatype BookmarkView = EmptyState | CardList(cards: seq<BookmarkCard>)

  function CardOf(camp: Camp): BookmarkCard
  {
    BookmarkCard(camp.campId, camp.name, LineIntro(camp), camp.streetAddr, camp.keywords, camp.marked)
  }

  function Cards(items: seq<Camp>): (cards: seq<BookmarkCard>)
    ensures |cards| == |items|
    ensures forall i :: 0 <= i < |items| ==> cards[i] == CardOf(items[i])
  {
    if items == [] then [] else [CardOf(items[0])] + Cards(items[1..])
  }

  /** The empty state exactly when nothing is listed; otherwise one card per camp, in order. */
  function View(items: seq<Camp>): (v: BookmarkView)
    ensures v.EmptyState? <==> |items| == 0
    ensures v.CardList? ==> |v.cards| == |items|
    ensures v.CardList? ==> forall i :: 0 <= i < |items| ==>
      v.cards[i].campId == items[i].campId && v.cards[i].lineIntro == LineIntro(items[i]) &&
      v.cards[i].isMarked == items[i].marked
  {
    if |items| > 0 then CardList(Cards(items)) else EmptyState
  }

  /** The page component. */
  class BookmarkPage {
    var bookmarkCardData: seq<Camp>
    var loading: bool
    var page: nat
    var hasMore: bool
    var snackbarMessage: string
    var snackbarOpen: bool
    var snackbarKey: nat
    /** Messages of reopen timers armed by `showSnackbarMessage` that have not fired yet. */
    var pendingMessages: seq<string>

    function State(): BookmarkState
      reads this
    {
      BookmarkState(bookmarkCardData, page, hasMore, loading)
    }

    constructor ()
      ensures State() == Initial()
      ensures snackbarMessage == "" && !snackbarOpen && snackbarKey == 0 && pendingMessages == []
    {
      bookmarkCardData, loading, page, hasMore := [], false, 0, true;
      snackbarMessage, snackbarOpen, snackbarKey := "", false, 0;
      pendingMessages := [];
    }

    /**
     * `fetchBookmarkedCamps` up to its `await` (also what the page runs
     * once on mount): refused while a fetch is in flight or after the end;
     * otherwise it marks the fetch in flight and requests the current page.
     */
    method BeginFetch() returns (request: Option<BookmarkRequest>)
      modifies this`loading
      ensures request.Some? <==> FetchAllowed(old(State()))
      ensures request.Some? ==> request.value == BookmarkRequest(page, PageSize) && loading
      ensures request.None? ==> loading == old(loading)
      ensures State() == Begin(old(State()))
    {
      if loading || !hasMore {
        return None;
      }
      loading := true;
      request := Some(BookmarkRequest(page, PageSize));
    }

    /**
     * The rest of `fetchBookmarkedCamps` once the request settles: a page
     * is appended, counted, and decides `hasMore`; a failure changes
     * nothing but `loading`, which is cleared either way.
     */
    method FinishFetch(f: Fetch<seq<Camp>>)
      requires loading
      modifies this`bookmarkCardData, this`hasMore, this`page, this`loading
      ensures State() == Finish(old(State()), f)
      ensures !loading
      ensures f.Rejected? ==>
        bookmarkCardData == old(bookmarkCardData) && page == old(page) && hasMore == old(hasMore)
      ensures f.Resolved? ==>
        bookmarkCardData == old(bookmarkCardData) + f.value && page == old(page) + 1 &&
        hasMore == (|f.value| > 0)
    {
      match f {
        case Resolved(newData) =>
          bookmarkCardData := bookmarkCardData + newData;
          hasMore := |newData| > 0;
          page := page + 1;
        case Rejected =>
      }
      loading := false;
    }

    /** The observer's callback `loadMore`: fetch when the sentinel is in view and more may come. */
    method LoadMore(intersecting: bool) returns (request: Option<BookmarkRequest>)
      modifies this`loading
      ensures request.Some? <==> intersecting && FetchAllowed(old(State()))
      ensures State() == if intersecting && old(hasMore) then Begin(old(State())) else old(State())
    {
      request := None;
      if intersecting && hasMore {
        request := BeginFetch();
      }
    }

    /** `showSnackbarMessage`: close the notification now and arm a timer to reopen it with `message`. */
    method ShowSnackbarMessage(message: string)
      modifies this`snackbarOpen, this`pendingMessages
      ensures !snackbarOpen && pendingMessages == old(pendingMessages) + [message]
    {
      snackbarOpen := false;
      pendingMessages := pendingMessages + [message];
    }

    /** The oldest armed timer firing: show its message under a fresh key. */
    method FireSnackbarTimer()
      requires pendingMessages != []
      modifies this`snackbarMessage, this`snackbarOpen, this`snackbarKey, this`pendingMessages
      ensures snackbarMessage == old(pendingMessages)[0] && snackbarOpen
      ensures snackbarKey == old(snackbarKey) + 1
      ensures pendingMessages == old(pendingMessages)[1..]
    {
      snackbarMessage := pendingMessages[0];
      snackbarOpen := true;
      snackbarKey := snackbarKey + 1;
      pendingMessages := pendingMessages[1..];
    }

    method HandleSnackbarClose()
      modifies this`snackbarOpen
      ensures !snackbarOpen
    {
      snackbarOpen := false;
    }

    /** What the page currently shows below its title. */
    function CurrentView(): (v: BookmarkView)
      reads this
      ensures v.EmptyState? <==> bookmarkCardData == []
    {
      View(bookmarkCardData)
    }
  }
}
