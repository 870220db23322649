/**
 * The home page: the session check that drops accounts without a profile,
 * the favorite routes, the route search with its two checks, the link it
 * builds to the room list and the way the room list reads it back, the
 * administrator button, and the two ways the page forgets the signed-in user.
 * The identity provider's session and its sign-out are explicit state.
 */
module Home {
  import opened Wrappers
  import opened Types
  import opened Seqs
  import opened Text
  import opened Store
  import Admin

  // ---------------------------------------------------------------------------
  // The link to the room list
  // ---------------------------------------------------------------------------

  const RoomsPath: string := "/rooms"

  /** The query of the link, `from=${from}&to=${to}`. */
  function RouteQuery(from: string, to: string): string {
    "from" + "=" + from + "&" + ("to" + "=" + to)
  }

  /** `/rooms?from=${from}&to=${to}`, each location written as its database value. */
  function RoomsUrl(from: Location, to: Location): string {
    RoomsPath + "?" + RouteQuery(LocationKey(from), LocationKey(to))
  }

  /** The query part of a URL: what follows its first `?`, or nothing. */
  function QueryOf(url: string): string {
    var i := IndexOf(url, '?');
    if i < 0 then "" else url[i + 1..]
  }

  /**
   * `searchParams.get(name)`: the value of the first `name=...` parameter of
   * the query, up to the next `&`; nothing when no parameter has that name.
   */
  function ParamValue(query: string, name: string): Option<string>
    decreases |query|
  {
    var key := name + "=";
    if StartsWith(query, key) then
      var rest := query[|key|..];
      var end := IndexOf(rest, '&');
      Some(if end < 0 then rest else rest[..end])
    else
      var next := IndexOf(query, '&');
      if next < 0 then None else ParamValue(query[next + 1..], name)
  }

  /** The route the room list reads from its URL. */
  function RouteOf(url: string): (Option<Location>, Option<Location>) {
    var q := QueryOf(url);
    var from := ParamValue(q, "from");
    var to := ParamValue(q, "to");
    (if from.Some? then ParseLocationKey(from.value) else None,
     if to.Some? then ParseLocationKey(to.value) else None)
  }

  /** The query of a URL is everything after the path when the path has no `?`. */
  lemma QueryAfterPath(path: string, q: string)
    requires '?' !in path
    ensures QueryOf(path + "?" + q) == q
  {
    IndexOfAfter(path, '?', q);
    var url := path + "?" + q;
    assert url[|path| + 1..] == q;
  }

  /** A parameter followed by others has the value up to the next `&`. */
  lemma ParamBeforeOthers(name: string, v: string, rest: string)
    requires '&' !in v
    ensures ParamValue(name + "=" + v + "&" + rest, name) == Some(v)
  {
    var key := name + "=";
    var q := key + v + "&" + rest;
    assert q[..|key|] == key;
    assert q[|key|..] == v + "&" + rest;
    IndexOfAfter(v, '&', rest);
    assert (v + "&" + rest)[..|v|] == v;
  }

  /** The last parameter has the rest of the query as its value. */
  lemma LastParam(name: string, v: string)
    requires '&' !in v
    ensures ParamValue(name + "=" + v, name) == Some(v)
  {
    var key := name + "=";
    var q := key + v;
    assert q[..|key|] == key;
    assert q[|key|..] == v;
  }

  /** A parameter of another name is skipped up to the next `&`. */
  lemma ParamSkipped(first: string, rest: string, name: string)
    requires '&' !in first && !StartsWith(first + "&" + rest, name + "=")
    ensures ParamValue(first + "&" + rest, name) == ParamValue(rest, name)
  {
    IndexOfAfter(first, '&', rest);
    assert (first + "&" + rest)[|first| + 1..] == rest;
  }

  /** A string does not start with one whose first character differs. */
  lemma FirstCharacterDiffers(s: string, t: string)
    requires s != [] && t != [] && s[0] != t[0]
    ensures !StartsWith(s, t)
  {
  }

  /** Both parameters of the query read back, when neither value holds a `&`. */
  lemma RouteQueryParams(from: string, to: string)
    requires '&' !in from && '&' !in to
    ensures ParamValue(RouteQuery(from, to), "from") == Some(from)
    ensures ParamValue(RouteQuery(from, to), "to") == Some(to)
  {
    var first := "from" + "=" + from;
    var rest := "to" + "=" + to;
    ParamBeforeOthers("from", from, rest);
    assert '&' !in first;
    assert RouteQuery(from, to)[0] == 'f';
    FirstCharacterDiffers(RouteQuery(from, to), "to" + "=");
    ParamSkipped(first, rest, "to");
    LastParam("to", to);
  }

  /** No location's database value holds a `&`. */
  lemma KeyHasNoAmpersand(l: Location)
    ensures '&' !in LocationKey(l)
  {
  }

  /** The room list reads back exactly the route the link was built from. */
  lemma RoomsUrlRoundTrip(from: Location, to: Location)
    ensures RouteOf(RoomsUrl(from, to)) == (Some(from), Some(to))
  {
    KeyHasNoAmpersand(from);
    KeyHasNoAmpersand(to);
    QueryAfterPath(RoomsPath, RouteQuery(LocationKey(from), LocationKey(to)));
    RouteQueryParams(LocationKey(from), LocationKey(to));
    ParseLocationKeyRoundTrip(from);
    ParseLocationKeyRoundTrip(to);
  }

  // ---------------------------------------------------------------------------
  // The route search and the favorites
  // ---------------------------------------------------------------------------

  const MissingLocationMessage: string := "출발지와 도착지를 모두 선택해주세요"
  const SameLocationMessage: string := "출발지와 도착지가 같을 수 없습니다"

  /** What a click did: an error notification, or a navigation. */
  datatype Action = ShowError(message: string) | Navigate(url: string)

  /**
   * `handleSearch`: both locations must be chosen, and they must differ; the
   * missing-location check comes first.
   */
  function HandleSearch(from: Option<Location>, to: Option<Location>): (r: Action)
    ensures r.ShowError? <==> from.None? || to.None? || from == to
    ensures r.ShowError? ==>
      r.message == if from.None? || to.None? then MissingLocationMessage else SameLocationMessage
    ensures r.Navigate? ==> RouteOf(r.url) == (from, to) && from != to
  {
    if from.None? || to.None? then ShowError(MissingLocationMessage)
    else if from == to then ShowError(SameLocationMessage)
    else
      RoomsUrlRoundTrip(from.value, to.value);
      Navigate(RoomsUrl(from.value, to.value))
  }

  /** `handleFavoriteClick`: go straight to the favorite's route. */
  function HandleFavoriteClick(favorite: Favorite): (r: Action)
    ensures r.Navigate? && RouteOf(r.url) == (Some(favorite.fromLocation), Some(favorite.toLocation))
  {
    RoomsUrlRoundTrip(favorite.fromLocation, favorite.toLocation);
    Navigate(RoomsUrl(favorite.fromLocation, favorite.toLocation))
  }

  /**
   * A favorite skips the same-location check: a favorite from a place to the
   * same place navigates, while the search for that route is refused.
   */
  lemma FavoriteSkipsSameLocationCheck(favorite: Favorite)
    requires favorite.fromLocation == favorite.toLocation
    ensures HandleFavoriteClick(favorite).Navigate?
    ensures HandleSearch(Some(favorite.fromLocation), Some(favorite.toLocation)) == ShowError(SameLocationMessage)
  {
  }

  /** `.eq('user_id', userId)` on `favorites`. */
  function OwnedBy(userId: Id): Favorite -> bool {
    (f: Favorite) => f.userId == userId
  }

  function FavoriteCreatedAt(): Favorite -> int { (f: Favorite) => f.createdAt }

  /** `loadFavorites`: the user's favorites, newest first. */
  function FavoriteList(favorites: seq<Favorite>, userId: Id): seq<Favorite> {
    SortBy(Filter(favorites, OwnedBy(userId)), Descending(FavoriteCreatedAt()))
  }

  /** The favorite list holds exactly the user's favorites, newest first. */
  lemma FavoriteListSpec(favorites: seq<Favorite>, userId: Id)
    ensures var list := FavoriteList(favorites, userId);
      && (forall f :: f in list <==> f in favorites && f.userId == userId)
      && forall i, j :: 0 <= i < j < |list| ==> list[i].createdAt >= list[j].createdAt
  {
    var kept := Filter(favorites, OwnedBy(userId));
    SortDescendingSpec(kept, FavoriteCreatedAt());
    var list := FavoriteList(favorites, userId);
    forall f ensures f in list <==> f in favorites && f.userId == userId {
      assert f in list <==> f in multiset(list);
      assert f in kept <==> f in multiset(kept);
      FilterMember(favorites, OwnedBy(userId), f);
    }
  }

  // ---------------------------------------------------------------------------
  // The page
  // ---------------------------------------------------------------------------

  datatype AuthMode = LoginMode | SignupMode

  const LogoutMessage: string := "로그아웃되었습니다"
  const LogoutErrorMessage: string := "로그아웃 중 오류가 발생했습니다"

  class HomePage {
    /** The account the identity provider holds a session for in this browser. */
    var session: Option<Id>
    var user: Option<User>
    var loading: bool
    var authMode: Option<AuthMode>
    var fromLocation: Option<Location>
    var toLocation: Option<Location>
    var favorites: seq<Favorite>

    constructor (session: Option<Id>)
      ensures this.session == session && user.None? && loading && authMode.None?
      ensures fromLocation.None? && toLocation.None? && favorites == []
    {
      this.session := session;
      user, loading, authMode := None, true, None;
      fromLocation, toLocation, favorites := None, None, [];
    }

    /**
     * `checkAuth`: a session whose account has exactly one profile row shows
     * that profile and its favorites; a session without one is signed out.
     */
    method CheckAuth(store: Store)
      modifies this`session, this`user, this`favorites, this`loading
      ensures !loading
      ensures old(session).None? ==> session.None? && user == old(user) && favorites == old(favorites)
      ensures old(session).Some? ==>
        var profile := ProfileOf(store.users, old(session).value);
        && (profile.Some? ==>
              session == old(session) && user == profile && favorites == FavoriteList(store.favorites, profile.value.id))
        && (profile.None? ==> session.None? && user == old(user) && favorites == old(favorites))
    {
      if session.Some? {
        var userData := ProfileOf(store.users, session.value);
        if userData.Some? {
          user := userData;
          favorites := FavoriteList(store.favorites, userData.value.id);
        } else {
          session := None;
        }
      }
      loading := false;
    }

    /**
     * The `SIGNED_IN` event with the session of account `signedIn`: that
     * session becomes current, `checkAuth` runs on it and the login or
     * signup form closes.
     */
    method OnSignedIn(store: Store, signedIn: Id)
      modifies this`session, this`user, this`favorites, this`loading, this`authMode
      ensures authMode.None? && !loading
      ensures fromLocation == old(fromLocation) && toLocation == old(toLocation)
      ensures var profile := ProfileOf(store.users, signedIn);
        && (profile.Some? ==>
              && session == Some(signedIn)
              && user == profile
              && favorites == FavoriteList(store.favorites, signedIn))
        && (profile.None? ==>
              && session.None?
              && user == old(user)
              && favorites == old(favorites))
    {
      session := Some(signedIn);
      CheckAuth(store);
      authMode := None;
    }

    /** The `SIGNED_OUT` event: forget the user and the favorites. */
    method OnSignedOut()
      modifies this`user, this`favorites
      ensures user.None? && favorites == []
    {
      user := None;
      favorites := [];
    }

    /**
     * `handleLogout`: sign out, then forget the user and the favorites; when
     * the sign-out fails nothing changes.
     */
    method HandleLogout(signOutFails: bool) returns (notice: Admin.Notice)
      modifies this`session, this`user, this`favorites
      ensures notice == if signOutFails then Admin.ErrorNotice(LogoutErrorMessage) else Admin.SuccessNotice(LogoutMessage)
      ensures signOutFails ==> session == old(session) && user == old(user) && favorites == old(favorites)
      ensures !signOutFails ==> session.None? && user.None? && favorites == []
    {
      if signOutFails {
        return Admin.ErrorNotice(LogoutErrorMessage);
      }
      session := None;
      user := None;
      favorites := [];
      notice := Admin.SuccessNotice(LogoutMessage);
    }

    /** The login and signup buttons open their form. */
    method ChooseAuthMode(mode: AuthMode)
      modifies this`authMode
      ensures authMode == Some(mode)
    {
      authMode := Some(mode);
    }

    /** The route selectors. */
    method ChooseFrom(l: Option<Location>)
      modifies this`fromLocation
      ensures fromLocation == l
    {
      fromLocation := l;
    }

    method ChooseTo(l: Option<Location>)
      modifies this`toLocation
      ensures toLocation == l
    {
      toLocation := l;
    }

    /** The search button is disabled until both locations are chosen; a disabled search would be refused anyway. */
    predicate SearchDisabled()
      reads this
      ensures SearchDisabled() ==> HandleSearch(fromLocation, toLocation) == ShowError(MissingLocationMessage)
    {
      fromLocation.None? || toLocation.None?
    }

    /** The administrator button is shown to profiles with the administrator flag. */
    predicate AdminButtonShown()
      reads this
    {
      user.Some? && user.value.isAdmin
    }
  }

  /** Whoever sees the administrator button may use the dashboard, whatever email is configured. */
  lemma AdminButtonMeansAuthorized(page: HomePage, adminEmail: Option<string>)
    requires page.AdminButtonShown()
    ensures page.user.Some? && Admin.IsAuthorized(page.user.value, adminEmail)
  {
  }

  /**
   * The converse does not hold: the profile with the configured email and no
   * flag may use the dashboard but is not shown the button.
   */
  lemma EmailAdminSeesNoButton(page: HomePage, u: User)
    requires page.user == Some(u) && !u.isAdmin
    ensures Admin.IsAuthorized(u, Some(u.email))
    ensures !page.AdminButtonShown()
  {
  }
}
