/**
 * A camp card of the search results (src/components/camp/CampingCard.js):
 * the heart button that toggles the camp's bookmark, and the keyword tags.
 *
 * The card flips `liked` only after the bookmark service has answered
 * successfully: a failed call leaves it as it was, and there is no guard
 * against a second click while a call is pending.
 */
module CampingCard {
  import opened Wrappers
  import opened Camps

  /** The value of the authentication context (its other members are not modelled). */
  datatype AuthContext = AuthContext(isAuthenticated: bool)

  /**
   * The card's login flag as written: the whole result of `useAuth()`,
   * which is truthy whenever a context value is provided at all.
   */
  function AuthFlagAsWritten(ctx: Option<AuthContext>): bool
  {
    ctx.Some?
  }

  /** The login flag as the header reads it: the context's `isAuthenticated`. */
  function AuthFlag(ctx: Option<AuthContext>): bool
  {
    ctx.Some? && ctx.value.isAuthenticated
  }

  /** The notification a click raises through the page's callbacks. */
  datatype Notice = NoNotice | MembersOnlyNotice | BookmarkChangedNotice

  /**
   * What one click on the heart does besides changing `liked`: the service
   * call it makes (the camp id), the notification, and whether the click
   * reaches the card's own `onClick`.
   */
  datatype ToggleEffect = ToggleEffect(serviceCall: Option<int>, notice: Notice, reachesCard: bool)

  /** `toggleLike`: the new `liked` and the effect, given how the service call settles. */
  function Toggle(liked: bool, authenticated: bool, campId: int, outcome: Fetch<()>): (bool, ToggleEffect)
  {
    if !authenticated then (liked, ToggleEffect(None, MembersOnlyNotice, false))
    else
      match outcome
      case Resolved(_) => (!liked, ToggleEffect(Some(campId), BookmarkChangedNotice, false))
      case Rejected => (liked, ToggleEffect(Some(campId), NoNotice, false))
  }

  /** `liked` after successive clicks, each call settling with the next outcome. */
  function Toggles(liked: bool, authenticated: bool, campId: int, outcomes: seq<Fetch<()>>): bool
    decreases |outcomes|
  {
    if outcomes == [] then liked
    else Toggles(Toggle(liked, authenticated, campId, outcomes[0]).0, authenticated, campId, outcomes[1..])
  }

  /** Number of calls that went through. */
  function Successes(outcomes: seq<Fetch<()>>): nat
  {
    if outcomes == [] then 0 else (if outcomes[0].Resolved? then 1 else 0) + Successes(outcomes[1..])
  }

  /**
   * The server flips the camp's bookmark on every call that succeeds, and
   * a logged-in user's card flips `liked` exactly then: after any run of
   * clicks the heart still shows the server's bookmark state.
   */
  lemma {:induction false} LikedFollowsServer(liked: bool, campId: int, outcomes: seq<Fetch<()>>)
    ensures Toggles(liked, true, campId, outcomes) == (if Successes(outcomes) % 2 == 0 then liked else !liked)
    decreases |outcomes|
  {
    if outcomes != [] {
      LikedFollowsServer(Toggle(liked, true, campId, outcomes[0]).0, campId, outcomes[1..]);
    }
  }

  /** For a visitor who is not logged in, no click changes the heart. */
  lemma {:induction false} LoggedOutClicksChangeNothing(liked: bool, campId: int, outcomes: seq<Fetch<()>>)
    ensures Toggles(liked, false, campId, outcomes) == liked
    decreases |outcomes|
  {
    if outcomes != [] {
      LoggedOutClicksChangeNothing(liked, campId, outcomes[1..]);
    }
  }

  /**
   * As written, a visitor whose context says "not logged in" is still
   * treated as logged in: the click calls the bookmark service and never
   * shows the members-only notice.
   */
  lemma LoggedOutVisitorReachesServiceAsWritten(liked: bool, campId: int, outcome: Fetch<()>)
    ensures var effect := Toggle(liked, AuthFlagAsWritten(Some(AuthContext(false))), campId, outcome).1;
      effect.serviceCall == Some(campId) && effect.notice != MembersOnlyNotice
  {
  }

  /**
   * Reading the flag from the context, a logged-out visitor gets the
   * members-only notice and no service call, while a logged-in user's
   * click always reaches the service.
   */
  lemma LoggedOutVisitorIsTurnedAway(ctx: Option<AuthContext>, liked: bool, campId: int, outcome: Fetch<()>)
    ensures var (l, effect) := Toggle(liked, AuthFlag(ctx), campId, outcome);
      (effect.serviceCall.None? <==> !(ctx.Some? && ctx.value.isAuthenticated)) &&
      (effect.notice == MembersOnlyNotice <==> effect.serviceCall.None?) &&
      (effect.serviceCall.None? ==> l == liked)
  {
  }

  /** The keyword tags: one `#keyword` per keyword, in the given order. */
  function KeywordTags(keywords: seq<string>): (tags: seq<string>)
    ensures |tags| == |keywords|
    ensures forall i :: 0 <= i < |keywords| ==>
      |tags[i]| == |keywords[i]| + 1 && tags[i][0] == '#' && tags[i][1..] == keywords[i]
  {
    if keywords == [] then [] else ["#" + keywords[0]] + KeywordTags(keywords[1..])
  }

  /** The card component: its camp and its `liked` state. */
  class Card {
    const campId: int
    var liked: bool

    /** `liked` starts as the camp's `marked` flag. */
    constructor (campId: int, marked: bool)
      ensures this.campId == campId && liked == marked
    {
      this.campId := campId;
      liked := marked;
    }

    /**
     * `toggleLike`, with `isAuthenticated` the login flag and `outcome` how
     * the bookmark service call settles if one is made.
     */
    method ToggleLike(isAuthenticated: bool, outcome: Fetch<()>) returns (effect: ToggleEffect)
      modifies this`liked
      ensures (liked, effect) == Toggle(old(liked), isAuthenticated, campId, outcome)
      ensures !effect.reachesCard
      ensures !isAuthenticated ==> effect.serviceCall.None? && liked == old(liked) && effect.notice == MembersOnlyNotice
      ensures isAuthenticated ==> effect.serviceCall == Some(campId)
      ensures isAuthenticated && outcome.Resolved? ==> liked == !old(liked) && effect.notice == BookmarkChangedNotice
      ensures isAuthenticated && outcome.Rejected? ==> liked == old(liked) && effect.notice == NoNotice
    {
      if !isAuthenticated {
        effect := ToggleEffect(None, MembersOnlyNotice, false);
      } else {
        match outcome {
          case Resolved(_) =>
            liked := !liked;
            effect := ToggleEffect(Some(campId), BookmarkChangedNotice, false);
          case Rejected =>
            effect := ToggleEffect(Some(campId), NoNotice, false);
        }
      }
    }
  }
}
