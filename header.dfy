/**
 * The page header (src/pages/home/Header.js): the tabs of the signed-in
 * area and the paths they stand for, the login/logout control, the mobile
 * drawer menu and the logo's hover image.
 */
module Header {

  const HomePath: string := "/"
  const ReservationPath: string := "/my-reservation"
  const BookmarkPath: string := "/my-bookmark"
  const MyPagePath: string := "/my-page"
  const LoginPath: string := "/login"

  const DefaultLogo: string := "/logo/logoWide.svg"
  const HoverLogo: string := "/logo/logoWideClicked.svg"

  /** `getTabValue`: the selected tab for a path; 0 is the hidden home tab. */
  function TabValue(pathname: string): int
  {
    if pathname == ReservationPath then 1
    else if pathname == BookmarkPath then 2
    else if pathname == MyPagePath then 3
    else 0
  }

  /** Where `handleChange` navigates for a tab. */
  function TabPath(tab: int): string
  {
    if tab == 1 then ReservationPath
    else if tab == 2 then BookmarkPath
    else if tab == 3 then MyPagePath
    else HomePath
  }

  /** Choosing a tab leads to a path that selects that same tab again; any other value leads home, tab 0. */
  lemma TabRoundTrip(tab: int)
    ensures TabValue(TabPath(tab)) == (if 1 <= tab <= 3 then tab else 0)
  {
  }

  /** Every path selecting a tab is the path of that tab; exactly the other paths select 0, the tab of home. */
  lemma PathRoundTrip(pathname: string)
    ensures 0 <= TabValue(pathname) <= 3
    ensures TabValue(pathname) != 0 ==> TabPath(TabValue(pathname)) == pathname
    ensures TabValue(pathname) == 0 <==> pathname !in {ReservationPath, BookmarkPath, MyPagePath}
  {
  }

  /** What the login/logout control does. */
  datatype AuthAction = Logout | NavigateTo(path: string)

  /** `handleAuthClick` */
  function AuthClick(isAuthenticated: bool): AuthAction
  {
    if isAuthenticated then Logout else NavigateTo(LoginPath)
  }

  /** What an item of the drawer does when clicked. */
  datatype MenuAction = Go(path: string) | AuthItem
  datatype MenuItem = MenuItem(text: string, action: MenuAction)

  /**
   * The drawer's items: home, then the three signed-in pages only for a
   * signed-in user, then the login or logout item.
   */
  function MobileMenu(isAuthenticated: bool): (menu: seq<MenuItem>)
    ensures |menu| == if isAuthenticated then 5 else 2
    ensures menu[0].action == Go(HomePath)
    ensures menu[|menu| - 1].action == AuthItem
    ensures menu[|menu| - 1].text == if isAuthenticated then "로그아웃" else "로그인"
    ensures forall i :: 0 <= i < |menu| && menu[i].action.Go? && menu[i].action.path != HomePath ==>
      isAuthenticated
    ensures isAuthenticated ==> forall t :: 1 <= t <= 3 ==> menu[t].action == Go(TabPath(t))
  {
    [MenuItem("홈", Go(HomePath))] +
    (if isAuthenticated then
       [MenuItem("나의 예약", Go(ReservationPath)),
        MenuItem("찜한 캠핑장", Go(BookmarkPath)),
        MenuItem("마이페이지", Go(MyPagePath))]
     else []) +
    [MenuItem(if isAuthenticated then "로그아웃" else "로그인", AuthItem)]
  }

  /** The header component's own state. */
  class HeaderBar {
    var value: int
    var drawerOpen: bool
    var logo: string

    constructor (pathname: string)
      ensures value == TabValue(pathname) && !drawerOpen && logo == DefaultLogo
    {
      value := TabValue(pathname);
      drawerOpen := false;
      logo := DefaultLogo;
    }

    /** The effect on a change of `location.pathname`. */
    method OnPathChange(pathname: string)
      modifies this`value
      ensures value == TabValue(pathname)
    {
      value := TabValue(pathname);
    }

    /**
     * `handleChange`: select the tab and go to its path; any value other
     * than the three tabs goes home and selects tab 0.
     */
    method HandleChange(newValue: int) returns (target: string)
      modifies this`value
      ensures target == TabPath(newValue)
      ensures value == TabValue(target)
      ensures value == if 1 <= newValue <= 3 then newValue else 0
    {
      value := newValue;
      if newValue == 1 {
        target := ReservationPath;
      } else if newValue == 2 {
        target := BookmarkPath;
      } else if newValue == 3 {
        target := MyPagePath;
      } else {
        target := HomePath;
        value := 0;
      }
    }

    /** `handleAuthClick`: log out when signed in, otherwise go to the login page. */
    method HandleAuthClick(isAuthenticated: bool) returns (action: AuthAction)
      ensures action.Logout? <==> isAuthenticated
      ensures !isAuthenticated ==> action == NavigateTo(LoginPath)
    {
      if isAuthenticated {
        action := Logout;
      } else {
        action := NavigateTo(LoginPath);
      }
    }

    /** `handleMenuClick`: go to the item's path and close the drawer. */
    method HandleMenuClick(path: string) returns (target: string)
      modifies this`drawerOpen
      ensures target == path && !drawerOpen
    {
      target := path;
      drawerOpen := false;
    }

    /** The drawer's last item: the login/logout control, then close the drawer. */
    method OnDrawerAuthItem(isAuthenticated: bool) returns (action: AuthAction)
      modifies this`drawerOpen
      ensures action == AuthClick(isAuthenticated) && !drawerOpen
    {
      action := HandleAuthClick(isAuthenticated);
      drawerOpen := false;
    }

    /** `toggleDrawer(open)` */
    method ToggleDrawer(open: bool)
      modifies this`drawerOpen
      ensures drawerOpen == open
    {
      drawerOpen := open;
    }

    method HandleMouseEnter()
      modifies this`logo
      ensures logo == HoverLogo
    {
      logo := HoverLogo;
    }

    method HandleMouseLeave()
      modifies this`logo
      ensures logo == DefaultLogo
    {
      logo := DefaultLogo;
    }
  }
}
