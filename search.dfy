/**
 * The search results page (src/pages/search/Search.js): the list of camps
 * reset on every change of the URL's query, the first page fetched for a
 * non-empty filter, further pages of twelve appended by infinite scroll,
 * the query string built by a new search, and the two notifications.
 */
module Search {
  import opened Wrappers
  import opened Camps
  import Text
  import FormUrlEncoding

  /** Camps requested per page. */
  const PageSize: nat := 12

  const MembersOnlyMessage: string := "회원만 이용할 수 있는 기능입니다"
  const BookmarkChangedMessage: string := "찜 상태를 변경하였습니다."

  /** The filter of a search. */
  datatype SearchParams = SearchParams(city: string, keyword: string)

  /** The arguments of one `searchCamps` call. */
  datatype PageRequest = PageRequest(page: nat, size: nat, city: string, keyword: string)

  /** What `searchCamps` resolves to; `content` may be missing. */
  datatype SearchResponse = SearchResponse(content: Option<seq<Camp>>, totalElements: int)

  /** The list bookkeeping of the page. */
  datatype ListState = ListState(camps: seq<Camp>, page: nat, hasMore: bool, params: SearchParams)

  /** The filter read from the URL: a missing parameter reads as `''`. */
  function FilterFromUrl(city: Option<string>, keyword: Option<string>): SearchParams
  {
    SearchParams(city.GetOr(""), keyword.GetOr(""))
  }

  /** The state right after a change of the URL's query. */
  function ResetTo(params: SearchParams): ListState
  {
    ListState([], 0, true, params)
  }

  /** The page only queries the server when some part of the filter is set. */
  predicate HasFilter(params: SearchParams)
  {
    params.city != "" || params.keyword != ""
  }

  /** The request for the page after the ones already listed. */
  function NextRequest(s: ListState): PageRequest
  {
    PageRequest(s.page, PageSize, s.params.city, s.params.keyword)
  }

  /**
   * What the `.then` of the first search does. The promise has no `catch`,
   * so a rejection changes nothing, and neither does a missing `content`.
   */
  function ApplyInitial(s: ListState, f: Fetch<SearchResponse>): ListState
  {
    if f.Resolved? && f.value.content.Some? then
      s.(camps := f.value.content.value, hasMore := f.value.totalElements > PageSize, page := 1)
    else s
  }

  /** What an issued `loadCamps` request does to the list once it settles. */
  function ApplyLoad(s: ListState, f: Fetch<SearchResponse>): ListState
  {
    match f
    case Rejected => s.(hasMore := false)
    case Resolved(r) =>
      if r.content.Some? then
        s.(camps := s.camps + r.content.value,
           hasMore := r.totalElements > (s.page + 1) * PageSize,
           page := s.page + 1)
      else s
  }

  /** Whether `loadCamps` issues a request at all. */
  predicate LoadAllowed(s: ListState, isLoading: bool)
  {
    !isLoading && s.hasMore
  }

  /** One `loadCamps` call, with `f` the outcome of its request if it issues one. */
  function Load(s: ListState, isLoading: bool, f: Fetch<SearchResponse>): ListState
  {
    if LoadAllowed(s, isLoading) then ApplyLoad(s, f) else s
  }

  /** Successive `loadCamps` calls, none of them overlapping another request. */
  function Loads(s: ListState, fs: seq<Fetch<SearchResponse>>): ListState
    decreases |fs|
  {
    if fs == [] then s else Loads(Load(s, false, fs[0]), fs[1..])
  }

  /** Once `hasMore` is false, no further load changes anything. */
  lemma {:induction false} HaltedLoadsChangeNothing(s: ListState, fs: seq<Fetch<SearchResponse>>)
    requires !s.hasMore
    ensures Loads(s, fs) == s
    decreases |fs|
  {
    if fs != [] {
      HaltedLoadsChangeNothing(s, fs[1..]);
    }
  }

  /**
   * A failed load stops the scroll for good: whatever the later loads would
   * have returned, the list stays as it was until the next reset.
   */
  lemma FailureHaltsUntilReset(s: ListState, fs: seq<Fetch<SearchResponse>>)
    requires s.hasMore
    ensures Loads(s, [Rejected] + fs) == s.(hasMore := false)
  {
    assert ([Rejected] + fs)[1..] == fs;
    HaltedLoadsChangeNothing(s.(hasMore := false), fs);
  }

  /**
   * Loads only ever append: the camps already listed stay in front, in
   * order, the page counter never goes back and the filter is kept.
   */
  lemma {:induction false} LoadsAppend(s: ListState, fs: seq<Fetch<SearchResponse>>)
    ensures s.camps <= Loads(s, fs).camps
    ensures s.page <= Loads(s, fs).page
    ensures Loads(s, fs).params == s.params
    ensures Loads(s, fs).page == s.page ==> Loads(s, fs).camps == s.camps
    ensures Loads(s, fs).page - s.page <= |fs|
    decreases |fs|
  {
    if fs != [] {
      LoadsAppend(Load(s, false, fs[0]), fs[1..]);
    }
  }

  /**
   * The first-page request is skipped for an empty filter, but the list is
   * still reset with `hasMore` set, so the first time the sentinel is in
   * view `loadCamps` requests page 0 with an empty city and keyword.
   */
  lemma EmptyFilterStillLoadsOnScroll(params: SearchParams)
    requires !HasFilter(params)
    ensures LoadAllowed(ResetTo(params), false)
    ensures NextRequest(ResetTo(params)) == PageRequest(0, PageSize, "", "")
  {
  }

  /** `searchValues.city === current.city && searchValues.keyword === current.keyword` */
  predicate IsSameSearch(current: SearchParams, values: SearchParams)
  {
    current.city == values.city && current.keyword == values.keyword
  }

  /** One appended parameter as it appears in the serialized query. */
  function Field(name: string, value: string): string
  {
    name + "=" + FormUrlEncoding.Encode(value)
  }

  /** The fields appended to the `URLSearchParams`, city first. */
  function QueryFields(values: SearchParams): seq<string>
  {
    (if values.city != "" then [Field("city", values.city)] else []) +
    (if values.keyword != "" then [Field("keyword", values.keyword)] else [])
  }

  /** `params.toString()` */
  function QueryString(values: SearchParams): string
  {
    Text.Join(QueryFields(values), '&')
  }

  /** A field of a query string split at its first `=`. */
  function NameValue(field: string): (string, string)
  {
    var parts := Text.Split(field, '=');
    (parts[0], Text.Join(parts[1..], '='))
  }

  function NameValues(fields: seq<string>): (pairs: seq<(string, string)>)
    ensures |pairs| == |fields|
    ensures forall i :: 0 <= i < |fields| ==> pairs[i] == NameValue(fields[i])
  {
    if fields == [] then [] else [NameValue(fields[0])] + NameValues(fields[1..])
  }

  /** How a reader of the URL takes a query string apart (values left encoded). */
  function ParseQuery(query: string): seq<(string, string)>
  {
    if query == "" then [] else NameValues(Text.Split(query, '&'))
  }

  /** The name/value pairs a search stands for, city first; values encoded. */
  function SearchPairs(values: SearchParams): seq<(string, string)>
  {
    (if values.city != "" then [("city", FormUrlEncoding.Encode(values.city))] else []) +
    (if values.keyword != "" then [("keyword", FormUrlEncoding.Encode(values.keyword))] else [])
  }

  lemma FieldParses(name: string, value: string)
    requires '=' !in name && '&' !in name && name != ""
    ensures NameValue(Field(name, value)) == (name, FormUrlEncoding.Encode(value))
    ensures '&' !in Field(name, value) && Field(name, value) != ""
  {
    var e := FormUrlEncoding.Encode(value);
    FormUrlEncoding.EncodedHasNoSeparators(value);
    assert name + "=" + e == name + ("=" + e);
    Text.SplitFreePrefix(name, "=" + e, '=');
    assert Text.Join([e], '=') == e;
    Text.SplitJoin([e], '=');
    assert ("=" + e)[0] == '=' && ("=" + e)[1..] == e;
    assert Text.Split("=" + e, '=') == [""] + [e];
    assert name + "" == name;
    assert Text.Split(name + "=" + e, '=') == [name, e];
    assert [name, e][1..] == [e];
  }

  /** Fields free of `&`, joined, read back as the fields' pairs. */
  lemma {:induction false} JoinedFieldsParse(fields: seq<string>, pairs: seq<(string, string)>)
    requires |fields| == |pairs| >= 1
    requires forall i :: 0 <= i < |fields| ==> '&' !in fields[i] && NameValue(fields[i]) == pairs[i]
    requires fields[0] != ""
    ensures Text.Join(fields, '&') != ""
    ensures ParseQuery(Text.Join(fields, '&')) == pairs
  {
    Text.SplitJoin(fields, '&');
    Text.JoinTakePrefix(fields, 1, '&');
    assert fields[..1] == [fields[0]];
  }

  /**
   * The query string a search navigates to names exactly the set parts of
   * the filter, city first, each under its own name: reading it back gives
   * the search's pairs, and nothing for an empty filter.
   */
  lemma QueryStringRoundTrip(values: SearchParams)
    ensures ParseQuery(QueryString(values)) == SearchPairs(values)
    ensures QueryString(values) == "" <==> !HasFilter(values)
  {
    var city, keyword := values.city, values.keyword;
    FieldParses("city", city);
    FieldParses("keyword", keyword);
    if city != "" && keyword != "" {
      JoinedFieldsParse([Field("city", city), Field("keyword", keyword)], SearchPairs(values));
    } else if city != "" {
      JoinedFieldsParse([Field("city", city)], SearchPairs(values));
    } else if keyword != "" {
      JoinedFieldsParse([Field("keyword", keyword)], SearchPairs(values));
    } else {
      assert QueryFields(values) == [];
    }
  }

  /** The page component: its list state, the hook's loading flag and the notifications. */
  class SearchPage {
    var camps: seq<Camp>
    var page: nat
    var hasMore: bool
    var searchParams: SearchParams
    /** `useApi`'s flag: true while a `searchCamps` request of the hook is in flight. */
    var isLoading: bool
    var snackbarMessage: string
    var snackbarNone: bool
    var snackbarBookmark: bool
    var snackbarKey: nat
    /** Reopen timers armed by `showSnackbarBookmark` that have not fired yet. */
    var armedTimers: nat

    function State(): ListState
      reads this
    {
      ListState(camps, page, hasMore, searchParams)
    }

    constructor ()
      ensures State() == ResetTo(SearchParams("", "")) && !isLoading
      ensures snackbarMessage == "" && !snackbarNone && !snackbarBookmark
      ensures snackbarKey == 0 && armedTimers == 0
    {
      camps, page, hasMore := [], 0, true;
      searchParams := SearchParams("", "");
      isLoading := false;
      snackbarMessage, snackbarNone, snackbarBookmark := "", false, false;
      snackbarKey, armedTimers := 0, 0;
    }

    /**
     * The effect run on every change of `location.search`: reset the list,
     * then, for a non-empty filter, request the first page and apply its
     * outcome `initial`.
     */
    method OnLocationSearch(cityParam: Option<string>, keywordParam: Option<string>,
                            initial: Fetch<SearchResponse>)
      returns (request: Option<PageRequest>)
      modifies this`camps, this`page, this`hasMore, this`searchParams
      ensures var params := FilterFromUrl(cityParam, keywordParam);
        && (request.Some? <==> HasFilter(params))
        && (request.Some? ==> request.value == PageRequest(0, PageSize, params.city, params.keyword))
        && State() == (if request.Some? then ApplyInitial(ResetTo(params), initial) else ResetTo(params))
    {
      var city := cityParam.GetOr("");
      var keyword := keywordParam.GetOr("");
      searchParams := SearchParams(city, keyword);
      camps := [];
      page := 0;
      hasMore := true;
      request := None;
      if city != "" || keyword != "" {
        request := Some(PageRequest(0, PageSize, city, keyword));
        if initial.Resolved? && initial.value.content.Some? {
          camps := initial.value.content.value;
          hasMore := initial.value.totalElements > PageSize;
          page := 1;
        }
      }
    }

    /**
     * `loadCamps`: nothing while a request is in flight or nothing more is
     * to come; otherwise request the next page and, with its outcome `f`,
     * append it or, on failure, stop loading.
     */
    method LoadCamps(f: Fetch<SearchResponse>) returns (request: Option<PageRequest>)
      modifies this`camps, this`page, this`hasMore
      ensures request.Some? <==> LoadAllowed(old(State()), isLoading)
      ensures request.Some? ==> request.value == NextRequest(old(State()))
      ensures State() == Load(old(State()), isLoading, f)
      ensures request.None? ==> State() == old(State())
      ensures request.Some? && f.Resolved? && f.value.content.Some? ==>
        camps == old(camps) + f.value.content.value && page == old(page) + 1 &&
        hasMore == (f.value.totalElements > (old(page) + 1) * PageSize)
      ensures request.Some? && f.Rejected? ==>
        !hasMore && camps == old(camps) && page == old(page)
    {
      if isLoading || !hasMore {
        return None;
      }
      request := Some(PageRequest(page, PageSize, searchParams.city, searchParams.keyword));
      match f {
        case Resolved(r) =>
          if r.content.Some? {
            camps := camps + r.content.value;
            hasMore := r.totalElements > (page + 1) * PageSize;
            page := page + 1;
          }
        case Rejected =>
          hasMore := false;
      }
    }

    /** The observer's callback: load when the sentinel is in view and loading is possible. */
    method OnSentinel(intersecting: bool, f: Fetch<SearchResponse>) returns (request: Option<PageRequest>)
      modifies this`camps, this`page, this`hasMore
      ensures request.Some? <==> intersecting && LoadAllowed(old(State()), isLoading)
      ensures State() == if intersecting then Load(old(State()), isLoading, f) else old(State())
    {
      request := None;
      if intersecting && hasMore && !isLoading {
        request := LoadCamps(f);
      }
    }

    /** `useApi` reporting that a request of the hook started or settled. */
    method ApiLoadingChanged(loading: bool)
      modifies this`isLoading
      ensures isLoading == loading
    {
      isLoading := loading;
    }

    /**
     * `handleSearch`: the same filter again does nothing; a new one clears
     * the list, takes the new filter and navigates to its query string.
     * `hasMore` is left alone: the navigation's effect resets it.
     */
    method HandleSearch(values: SearchParams) returns (target: Option<string>)
      modifies this`camps, this`page, this`searchParams
      ensures IsSameSearch(old(searchParams), values) ==> target.None? && State() == old(State())
      ensures !IsSameSearch(old(searchParams), values) ==>
        target == Some("/search?" + QueryString(values)) &&
        State() == ListState([], 0, old(hasMore), values)
    {
      if searchParams.city == values.city && searchParams.keyword == values.keyword {
        return None;
      }
      target := Some("/search?" + QueryString(values));
      camps := [];
      page := 0;
      searchParams := values;
    }

    /** `showSnackbarNone`: the members-only warning. */
    method ShowSnackbarNone()
      modifies this`snackbarMessage, this`snackbarNone
      ensures snackbarMessage == MembersOnlyMessage && snackbarNone
    {
      snackbarMessage := MembersOnlyMessage;
      snackbarNone := true;
    }

    /** `showSnackbarBookmark`: close the notification now and arm the reopen timer. */
    method ShowSnackbarBookmark()
      modifies this`snackbarBookmark, this`armedTimers
      ensures !snackbarBookmark && armedTimers == old(armedTimers) + 1
    {
      snackbarBookmark := false;
      armedTimers := armedTimers + 1;
    }

    /** The reopen timer firing: show the message under a fresh key. */
    method FireBookmarkTimer()
      requires armedTimers > 0
      modifies this`snackbarMessage, this`snackbarBookmark, this`snackbarKey, this`armedTimers
      ensures snackbarMessage == BookmarkChangedMessage && snackbarBookmark
      ensures snackbarKey == old(snackbarKey) + 1 && armedTimers == old(armedTimers) - 1
    {
      snackbarMessage := BookmarkChangedMessage;
      snackbarBookmark := true;
      snackbarKey := snackbarKey + 1;
      armedTimers := armedTimers - 1;
    }

    method HandleCloseNone()
      modifies this`snackbarNone
      ensures !snackbarNone
    {
      snackbarNone := false;
    }

    method HandleCloseBookmark()
      modifies this`snackbarBookmark
      ensures !snackbarBookmark
    {
      snackbarBookmark := false;
    }
  }
}
