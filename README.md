# Camping front end: list, bookmark and navigation logic in Dafny

This project models the state-keeping logic of a camping discovery web front end (React). It covers five components.

- **Search page** (`Search.js`). The list of matching camps is reset whenever the URL's query changes. The first page of twelve is requested only for a non-empty filter (city or keyword). Further pages are appended as the end of the list scrolls into view, guarded by `isLoading || !hasMore`. The page stops once the reported total is covered or a request fails. A new search builds the query string it navigates to. Two notifications, "members only" and "bookmark changed", are shown.
- **Bookmarks page** (`MyBookmark.js`). Pages of three bookmarked camps are fetched in the same way. This page stops only after a page comes back empty. A failure changes nothing but `loading`, so the same page is requested again. The page also has an empty state and a close-then-reopen notification.
- **Camp card** (`CampingCard.js`). The heart button flips `liked` only after the bookmark service has answered successfully. It never reaches the card's own click handler. Keywords are shown as `#tags`.
- **Header** (`Header.js`). Paths map to tabs and tabs map back to paths. The header also holds the login/logout control, the mobile drawer menu and the logo's hover image.
- **Contact bar** (`AddressInfo.js`). The telephone number is shown with its dashes removed in a `tel:` link. The address and homepage fall back to fixed texts when they are missing.

Each list page is a class whose fields are the component's state hooks. Its methods are proved against pure functions of the old state: `Search.Load`, `MyBookmark.Begin` and `MyBookmark.Finish`. The multi-step properties are lemmas about those functions:

- guards;
- appending in order;
- page counters;
- halting after a failure;
- draining a server that holds a fixed catalogue.

The module `Stopping` puts the two stopping rules side by side. Network results are parameters of type `Fetch<T>`, either `Resolved(value)` or `Rejected`.

The search page keeps `loadCamps` as one atomic step. It only reads `isLoading`, which belongs to the `useApi` hook and changes through `ApiLoadingChanged`. The bookmarks page sets and clears `loading` itself, so its fetch is two steps: `BeginFetch` and `FinishFetch`. This shows that no second fetch can start while one is in flight.

Behaviours of the code worth knowing:

- The card's toggle is not optimistic. `liked` changes only after the awaited call succeeds (`CampingCard.js:28-29`), so a failure needs no rollback.
- The card has no per-item pending guard.
- Pages are appended without de-duplication.
- The bookmarks page does not stop on a failure. It stops only after an empty page.
- An empty filter does not stop the search page from querying. `handleSearch` and the URL effect skip only the first-page request. The reset leaves `hasMore` true, so the first time the sentinel is in view, `loadCamps` requests page 0 with an empty city and keyword (`Search.EmptyFilterStillLoadsOnScroll`).
- `handleSearch` clears the list and the page counter but not `hasMore`. The URL effect that follows resets it.
- The first search's promise has no `catch`, so a rejection leaves the freshly reset list as it is.

## Model

| member | source | states |
|---|---|---|
| Text.Split | src/pages/search/Search.js:182 | `split(' ')` gives one piece more than there are separators, and no piece contains the separator |
| Text.JoinSplit | src/pages/search/Search.js:182 | joining the pieces of a split gives back the original string |
| Camps.AddressHead | src/pages/search/Search.js:182 | the first two space-separated words, joined by a space, are a prefix of the address with at most one space that is either the whole address or stops at its second space |
| Camps.AddressHeadUnique | src/pages/search/Search.js:182 | those three properties determine the short address uniquely |
| Camps.LineIntro | src/pages/search/Search.js:182 | a truthy `lineIntro` is shown as is; otherwise a prefix of the address with at most one space that is the whole address or stops at its second space (the short address, unique by `Camps.AddressHeadUnique`), then "에 있는 " and the name |
| Camps.ShortAddressIntro | src/pages/account/MyBookmark.js:115 | for an address with at most one space, the fallback names the whole address |
| FormUrlEncoding.Encode | src/pages/search/Search.js:117-120 | a serialized value is empty only for an empty value and holds only unreserved characters, `%` and `+` |
| Search.HaltedLoadsChangeNothing | src/pages/search/Search.js:62 | once `hasMore` is false, any number of loads leave the list unchanged |
| Search.FailureHaltsUntilReset | src/pages/search/Search.js:78-81 | a failed load sets `hasMore` false, keeps camps and page, and every later load is a no-op |
| Search.LoadsAppend | src/pages/search/Search.js:73-76 | loads keep the listed camps as a prefix, never decrease the page, advance it at most once per load, keep the filter, and leave the camps as they were when the page did not advance |
| Search.EmptyFilterStillLoadsOnScroll | src/pages/search/Search.js:39-43 | after a reset to an empty filter, a load is still allowed and requests page 0 with an empty city and keyword |
| Search.QueryStringRoundTrip | src/pages/search/Search.js:117-120 | the query string is empty exactly for an empty filter, and reading it back gives `city` only for a non-empty city and `keyword` only for a non-empty keyword, city first |
| Search.SearchPage.constructor | src/pages/search/Search.js:11-21 | empty list, page 0, `hasMore` true, empty filter, notifications closed, key 0 |
| Search.SearchPage.OnLocationSearch | src/pages/search/Search.js:32-58 | the list is reset to the URL's filter; the first page is requested exactly for a non-empty filter (page 0, size 12); content then gives camps, page 1 and `hasMore = total > 12`; a missing content or a rejection changes nothing |
| Search.SearchPage.LoadCamps | src/pages/search/Search.js:61-82 | nothing is requested or changed while loading or when nothing more is to come; otherwise the current page is requested and a content is appended, the page incremented and `hasMore = total > (page+1)*12`; a failure sets `hasMore` false and keeps camps and page |
| Search.SearchPage.OnSentinel | src/pages/search/Search.js:89-93 | a load happens exactly when the sentinel intersects, `hasMore` holds and nothing is loading |
| Search.SearchPage.ApiLoadingChanged | src/pages/search/Search.js:25-29 | the hook's loading flag takes the reported value |
| Search.SearchPage.HandleSearch | src/pages/search/Search.js:108-125 | the same filter changes nothing and navigates nowhere; a new one navigates to `/search?` plus its query string, clears camps and page, takes the new filter and keeps `hasMore` |
| Search.SearchPage.ShowSnackbarNone | src/pages/search/Search.js:127-130 | the members-only message is set and its notification opened |
| Search.SearchPage.ShowSnackbarBookmark | src/pages/search/Search.js:132-134 | the bookmark notification is closed first and one reopen timer is armed |
| Search.SearchPage.FireBookmarkTimer | src/pages/search/Search.js:134-138 | the timer sets the bookmark message, opens the notification and increments its key by exactly 1 |
| Search.SearchPage.HandleCloseNone | src/pages/search/Search.js:141-143 | the members-only notification is closed |
| Search.SearchPage.HandleCloseBookmark | src/pages/search/Search.js:145-147 | the bookmark notification is closed |
| MyBookmark.HaltedFetchesChangeNothing | src/pages/account/MyBookmark.js:33 | while loading, or once `hasMore` is false, any number of fetches change nothing |
| MyBookmark.FailuresLeaveNoTrace | src/pages/account/MyBookmark.js:43-47 | a run of fetches ends exactly as the same run without its failures would, so a failed page is requested again |
| MyBookmark.StopsOnlyAfterEmptyPage | src/pages/account/MyBookmark.js:41 | `hasMore` turns false only if some fetch came back with an empty page |
| MyBookmark.FetchesAppendEveryPage | src/pages/account/MyBookmark.js:38-42 | with no empty page before the last, the items are the old ones followed by every fetched page in order, the page counter equals the old one plus the number of pages, and loading is cleared |
| MyBookmark.View | src/pages/account/MyBookmark.js:108-155 | the empty state is shown exactly when no camp is listed; otherwise one card per camp, in order, with its id, fallback introduction and bookmark flag |
| MyBookmark.BookmarkPage.constructor | src/pages/account/MyBookmark.js:20-27 | empty list, not loading, page 0, `hasMore` true, notification closed with key 0 |
| MyBookmark.BookmarkPage.BeginFetch | src/pages/account/MyBookmark.js:32-37 | a request is made exactly when neither loading nor finished; it asks for the current page with size 3 and marks loading |
| MyBookmark.BookmarkPage.FinishFetch | src/pages/account/MyBookmark.js:38-47 | a page is appended after the old items, the page incremented and `hasMore = page non-empty`; a failure keeps items, page and `hasMore`; loading is false either way |
| MyBookmark.BookmarkPage.LoadMore | src/pages/account/MyBookmark.js:51-56 | a fetch begins exactly when the sentinel intersects and a fetch is allowed |
| MyBookmark.BookmarkPage.ShowSnackbarMessage | src/pages/account/MyBookmark.js:75-77 | the notification is closed first and a reopen timer carrying the message is armed |
| MyBookmark.BookmarkPage.FireSnackbarTimer | src/pages/account/MyBookmark.js:77-81 | the oldest timer shows its message, opens the notification and increments the key by exactly 1 |
| MyBookmark.BookmarkPage.HandleSnackbarClose | src/pages/account/MyBookmark.js:71-73 | the notification is closed |
| MyBookmark.BookmarkPage.CurrentView | src/pages/account/MyBookmark.js:108 | the empty state exactly when the accumulated list is empty |
| Stopping.SearchScrollState | src/pages/search/Search.js:43-76 | against a server holding a catalogue, after the first page and k loads the list holds the first 12(k+1) camps, the page is k+1 and `hasMore` says whether camps remain |
| Stopping.SearchStopsWhenTotalIsCovered | src/pages/search/Search.js:43-76 | for a non-empty filter, the search page makes max(1, ⌈n/12⌉) requests, each earlier one finding more to come; it then holds the whole catalogue in order and stops for good; its last page is non-empty unless nothing matched |
| Stopping.BookmarkScrollState | src/pages/account/MyBookmark.js:32-48 | against a server holding a catalogue, after k fetches the list holds the first 3k bookmarks, the page is k and more may come |
| Stopping.BookmarksStopAfterEmptyPage | src/pages/account/MyBookmark.js:32-48 | the bookmark page makes ⌈n/3⌉+1 requests, the last answered with an empty page; it then holds every bookmark in order and stops for good |
| Stopping.StoppingRulesCompared | src/pages/account/MyBookmark.js:41 | for a non-empty catalogue the bookmark rule costs more requests than the search rule; for an empty one both cost one |
| Stopping.FailureHandlingCompared | src/pages/account/MyBookmark.js:43-47 | after a failure the search page stops for good, while the bookmark page is left exactly as it was and may fetch again |
| CampingCard.LikedFollowsServer | src/components/camp/CampingCard.js:27-33 | for a logged-in user, `liked` flips once per successful call and never on a failure, so it tracks the server's bookmark state |
| CampingCard.LoggedOutClicksChangeNothing | src/components/camp/CampingCard.js:24-25 | a logged-out visitor's clicks never change `liked` |
| CampingCard.LoggedOutVisitorReachesServiceAsWritten | src/components/camp/CampingCard.js:11 | with the flag bound to the whole context value, a context that says "not logged in" still leads to a service call and no members-only notice |
| CampingCard.LoggedOutVisitorIsTurnedAway | src/components/camp/CampingCard.js:24-30 | reading `isAuthenticated` from the context, no call is made exactly for a logged-out visitor, who gets the members-only notice and an unchanged heart |
| CampingCard.KeywordTags | src/components/camp/CampingCard.js:66-73 | one tag per keyword, in input order, each `#` followed by the keyword |
| CampingCard.Card.constructor | src/components/camp/CampingCard.js:12 | `liked` starts equal to `marked` |
| CampingCard.Card.ToggleLike | src/components/camp/CampingCard.js:21-35 | the click never reaches the card; logged out: no call, `liked` kept, members-only notice; logged in: one call for the camp, then on success `liked` flips and the bookmark notice is raised, on failure `liked` is kept and nothing is raised |
| Header.TabRoundTrip | src/pages/home/Header.js:82-100 | choosing tab 1, 2 or 3 leads to a path whose tab is that tab; any other value leads to `/`, whose tab is 0 |
| Header.PathRoundTrip | src/pages/home/Header.js:42-53 | every path maps to a tab between 0 and 3, a path with a non-zero tab is that tab's path, and exactly the paths other than the three tab paths map to 0 |
| Header.MobileMenu | src/pages/home/Header.js:109-138 | home first; the three signed-in items, leading to the three tab paths, only when signed in; the last item is labelled 로그아웃 exactly when signed in |
| Header.HeaderBar.constructor | src/pages/home/Header.js:20-24 | default logo, drawer closed, tab of the current path |
| Header.HeaderBar.OnPathChange | src/pages/home/Header.js:58-60 | the tab follows the new path |
| Header.HeaderBar.HandleChange | src/pages/home/Header.js:82-100 | navigates to the tab's path and selects the tab of that path: the chosen tab for 1 to 3, otherwise 0 |
| Header.HeaderBar.HandleAuthClick | src/pages/home/Header.js:74-80 | logs out exactly when signed in, and otherwise navigates to `/login` |
| Header.HeaderBar.HandleMenuClick | src/pages/home/Header.js:104-107 | navigates to the item's path and leaves the drawer closed |
| Header.HeaderBar.OnDrawerAuthItem | src/pages/home/Header.js:133 | the login/logout action, then the drawer closed |
| Header.HeaderBar.ToggleDrawer | src/pages/home/Header.js:102 | the drawer takes the requested state |
| Header.HeaderBar.HandleMouseEnter | src/pages/home/Header.js:62-64 | the logo shows the hover image |
| Header.HeaderBar.HandleMouseLeave | src/pages/home/Header.js:66-68 | the logo goes back to the default image |
| AddressInfo.RemoveDashes | src/components/camp/AddressInfo.js:11 | the result holds no `-` and is as long as the input minus its dashes |
| AddressInfo.RemoveDashesKeepsOthers | src/components/camp/AddressInfo.js:11 | every other character is kept, in order, moved left by the number of dashes before it |
| AddressInfo.FormatTel | src/components/camp/AddressInfo.js:9-12 | nothing exactly for a missing or empty number; otherwise a dash-free string shorter by the number of dashes |
| AddressInfo.FormatTelIdempotent | src/components/camp/AddressInfo.js:9-12 | for a non-empty number, formatting twice equals formatting once exactly when the number has a character other than `-` |
| AddressInfo.ContactView | src/components/camp/AddressInfo.js:25-33 | a link exactly when the number has a character other than `-`; its href is `tel:` plus the number without dashes and its text the number as given; otherwise the fixed text |
| AddressInfo.AddressText | src/components/camp/AddressInfo.js:20 | the address when present and non-empty, otherwise the fixed text |
| AddressInfo.HomepageView | src/components/camp/AddressInfo.js:38-49 | a link to the homepage exactly when it is present and non-empty, otherwise the fixed text |

## Left out

- Search.QueryStringRoundTrip: values are compared in their serialized form; percent-decoding and `URLSearchParams.get` are not modelled, so the URL effect takes the already-decoded `city` and `keyword`.
- The `IntersectionObserver` registration, its threshold and its disconnection are browser primitives. Visibility is the `intersecting` argument of `OnSentinel` and `LoadMore`.
- The services (`searchInfoService`, `campService`, `bookmarkService`) and the `useApi` hook are not shown. Their results are `Fetch` parameters. `isLoading` is a field that only the hook changes.
- The 100 ms `setTimeout` before a notification reopens is modelled only as order. Showing a notification closes it and arms a timer; firing the timer reopens it. The header's logging timer and `console` output are left out.
- React scheduling, stale closures and async interleaving are left out. Every handler is one atomic step, except the bookmarks fetch, which is two steps. Two overlapping effects are therefore not captured. Two quick heart clicks both flip from the same `liked`. A search result that settles after a reset is appended to the new list.
- The access token from `localStorage`, `getRandomThumbnail` and the image URL effect are not part of this model.
- `handleCardClick` (navigation to `/camps/<id>`) is not modelled, because it needs number-to-text formatting.
- The "no results" view of the search page and the "loading" text of the bookmarks page are not modelled. Neither are the header's desktop tabs and labels, its blank render while authentication loads, or other layout and styling.
- A bookmark response without `content`, and a camp without `streetAddr` and without a `lineIntro`, are not modelled. Both make the JavaScript throw. The model assumes a list and an address.
- src/router/Router.js is not part of this model: its matching semantics belong to the routing library.

## Findings

| source | as written | input that shows it | evidently intended | confidence | as-written member | corrected member |
|---|---|---|---|---|---|---|
| src/components/camp/CampingCard.js:11 | `const isAuthenticated = useAuth()` binds the whole context value, which is truthy whenever a context value is provided | a visitor whose context value has `isAuthenticated: false` clicks the heart: the bookmark service is called and the members-only notice is never shown | read the flag from the context, `const {isAuthenticated} = useAuth()`, as src/pages/home/Header.js:21 does | not executed; high, given that the header destructures the same context as an object | CampingCard.LoggedOutVisitorReachesServiceAsWritten | CampingCard.LoggedOutVisitorIsTurnedAway |
