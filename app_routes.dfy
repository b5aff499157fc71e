/** The application shell: while the session check is outstanding every path
    shows the "Checking authentication..." interstitial; afterwards the route
    table decides, from the authentication flag and the requested path,
    whether to render a page or to navigate elsewhere. */
module AppRoutes {
  import opened Common

  /** A location pathname: the browser always reports one that starts with '/'. */
  type Path = p: string | |p| > 0 && p[0] == '/' witness "/"

  datatype View =
    | CheckingAuthentication
    | LoginView
    | SignupView
    | TodoView
    | UserDetailsView
    | UserTableView
    | UserFormView

  /** What the shell returns for one location: a page, or a `<Navigate to=…>`. */
  datatype Element = Render(view: View) | Navigate(to: Path)

  /** The route of the table that a pathname selects. */
  datatype RouteMatch =
    | RootRoute
    | LoginRoute
    | SignupRoute
    | TodoRoute
    | UserDetailsRoute
    | UsersRoute
    | UsersCreateRoute
    | UsersEditRoute(id: string)
    | CatchAllRoute

  /** Pages that sit behind `ProtectedRoute`. */
  predicate IsProtectedView(v: View) {
    v in {TodoView, UserDetailsView, UserTableView, UserFormView}
  }

  predicate IsProtectedRoute(m: RouteMatch) {
    m.TodoRoute? || m.UserDetailsRoute? || m.UsersRoute? || m.UsersCreateRoute? || m.UsersEditRoute?
  }

  /** The page a protected route shows once access is granted. */
  function ProtectedPage(m: RouteMatch): View
    requires IsProtectedRoute(m)
  {
    match m
    case TodoRoute => TodoView
    case UserDetailsRoute => UserDetailsView
    case UsersRoute => UserTableView
    case UsersCreateRoute => UserFormView
    case UsersEditRoute(_) => UserFormView
  }

  /** The router ignores any run of trailing slashes: the remaining prefix is
      empty or ends in another character, and what was cut is all slashes. */
  function StripTrailingSlashes(p: string): (r: string)
    ensures |r| <= |p| && r == p[..|r|]
    ensures r == [] || r[|r| - 1] != '/'
    ensures forall k :: |r| <= k < |p| ==> p[k] == '/'
  {
    if p != [] && p[|p| - 1] == '/' then StripTrailingSlashes(p[..|p| - 1]) else p
  }

  function LowerChar(c: char): char {
    if 'A' <= c <= 'Z' then (c as int + 32) as char else c
  }

  /** Route patterns are matched case-insensitively: lowering keeps the
      length and the segment boundaries, leaves no upper-case ASCII letter,
      and changes nothing in a path that has none. */
  function Lower(s: string): (r: string)
    ensures |r| == |s|
    ensures forall k :: 0 <= k < |s| ==> (r[k] == '/' <==> s[k] == '/')
    ensures forall k :: 0 <= k < |r| ==> !('A' <= r[k] <= 'Z')
    ensures (forall k :: 0 <= k < |s| ==> !('A' <= s[k] <= 'Z')) ==> r == s
  {
    seq(|s|, k requires 0 <= k < |s| => LowerChar(s[k]))
  }

  /** The login page's pathname: where `ProtectedRoute` sends visitors and
      where the pages navigate after a logout or a signup. */
  const LoginPath: Path := "/login"

  /** Lowering a prefix gives the prefix of the lowered string. */
  lemma LowerPrefix(s: string, n: nat)
    requires n <= |s|
    ensures Lower(s[..n]) == Lower(s)[..n]
  {
  }

  const EditPrefix: string := "/users/edit/"

  /** `:id` is exactly one non-empty segment: it holds no '/'. */
  predicate IsSegment(id: string) {
    id != [] && forall k :: 0 <= k < |id| ==> id[k] != '/'
  }

  /** Selects the entry of the route table (App.jsx lines 29-83) that a
      pathname matches; every path matches at least the catch-all `*`. */
  function Match(p: Path): (r: RouteMatch)
    // `/` is the only route a path made of slashes alone can select
    ensures r == RootRoute <==> StripTrailingSlashes(p) == ""
    // the `:id` of the edit route is one non-empty segment, in its original case
    ensures r.UsersEditRoute? ==> IsSegment(r.id)
  {
    var trimmed := StripTrailingSlashes(p);
    var key := Lower(trimmed);
    if key == "" then RootRoute
    else if key == "/login" then LoginRoute
    else if key == "/signup" then SignupRoute
    else if key == "/todo" then TodoRoute
    else if key == "/userdetails" then UserDetailsRoute
    else if key == "/users" then UsersRoute
    else if key == "/users/create" then UsersCreateRoute
    else if |key| > |EditPrefix| && key[..|EditPrefix|] == EditPrefix && IsSegment(key[|EditPrefix|..])
    then UsersEditRoute(trimmed[|EditPrefix|..])
    else CatchAllRoute
  }

  /** `ProtectedRoute`: its child when authenticated, otherwise to the login page. */
  function Protected(auth: bool, v: View): (e: Element)
    ensures e.Render? <==> auth
    ensures e.Render? ==> e.view == v
    ensures e.Navigate? ==> e.to == LoginPath
  {
    if auth then Render(v) else Navigate(LoginPath)
  }

  /** The element the shell produces for `(auth, loading)` at pathname `p`. */
  function Route(auth: bool, loading: bool, p: Path): (e: Element)
    // never a redirect, always the interstitial, while the session check runs
    ensures loading ==> e == Render(CheckingAuthentication)
    ensures e == Render(CheckingAuthentication) ==> loading
    // once settled, a protected page renders exactly when authenticated
    // (logged-in sessions are sent away from the login and signup pages)
    ensures e.Render? && !loading ==> (IsProtectedView(e.view) <==> auth)
    // every redirect goes to one of four fixed targets
    ensures e.Navigate? ==> e.to in {"/", "/login", "/users", "/userform"}
  {
    if loading then Render(CheckingAuthentication)
    else match Match(p)
      case RootRoute => Navigate(LoginPath)
      case LoginRoute => if auth then Navigate("/users") else Render(LoginView)
      case SignupRoute => if auth then Navigate("/userform") else Render(SignupView)
      case TodoRoute => Protected(auth, TodoView)
      case UserDetailsRoute => Protected(auth, UserDetailsView)
      case UsersRoute => Protected(auth, UserTableView)
      case UsersCreateRoute => Protected(auth, UserFormView)
      case UsersEditRoute(_) => Protected(auth, UserFormView)
      case CatchAllRoute => Navigate("/")
  }

  /** Follows the shell's redirects from `p`, at most `redirects` of them; the
      page reached, or None when the budget runs out first. */
  function Settle(auth: bool, loading: bool, p: Path, redirects: nat): (v: Option<View>)
    decreases redirects
    // the interstitial is reached exactly while the session check runs
    ensures v.Some? ==> (v.value == CheckingAuthentication <==> loading)
    // once settled, the page reached is protected exactly when authenticated
    ensures v.Some? && !loading ==> (IsProtectedView(v.value) <==> auth)
  {
    match Route(auth, loading, p)
    case Render(v) => Some(v)
    case Navigate(q) => if redirects == 0 then None else Settle(auth, loading, q, redirects - 1)
  }

  // The pathnames the shell and the pages navigate to, and what the shell
  // does at each once the session check has finished. `/userform` is not in
  // the table, so it falls to the catch-all.

  /** `/` always redirects to `/login`. */
  lemma RouteAtRoot(auth: bool)
    ensures Route(auth, false, "/") == Navigate("/login")
  {
    assert StripTrailingSlashes("/") == "";
  }

  /** `/login` sends an authenticated session on to `/users`, otherwise shows the login page. */
  lemma RouteAtLogin(auth: bool)
    ensures Route(auth, false, "/login") == if auth then Navigate("/users") else Render(LoginView)
  {
  }

  /** `/signup` sends an authenticated session on to `/userform`, otherwise shows the signup page. */
  lemma RouteAtSignup(auth: bool)
    ensures Route(auth, false, "/signup") == if auth then Navigate("/userform") else Render(SignupView)
  {
  }

  lemma RouteAtTodo(auth: bool)
    ensures Route(auth, false, "/todo") == if auth then Render(TodoView) else Navigate("/login")
  {
  }

  lemma RouteAtUsers(auth: bool)
    ensures Route(auth, false, "/users") == if auth then Render(UserTableView) else Navigate("/login")
  {
  }

  lemma RouteAtUserform(auth: bool)
    ensures Match("/userform") == CatchAllRoute
    ensures Route(auth, false, "/userform") == Navigate("/")
  {
  }

  /** A protected path renders its page when authenticated and redirects to
      `/login` otherwise. */
  lemma ProtectedPathGate(auth: bool, p: Path)
    requires IsProtectedRoute(Match(p))
    ensures Route(auth, false, p) == if auth then Render(ProtectedPage(Match(p))) else Navigate("/login")
  {
  }

  /** A path outside the table redirects to `/`. */
  lemma UnmatchedPathGoesHome(auth: bool, p: Path)
    requires Match(p) == CatchAllRoute
    ensures Route(auth, false, p) == Navigate("/")
  {
  }

  /** `/users/edit/:id` accepts any one non-empty segment as the id. */
  lemma EditRouteAccepts(id: string)
    requires IsSegment(id)
    ensures Match(EditPrefix + id) == UsersEditRoute(id)
  {
    var p: Path := EditPrefix + id;
    assert StripTrailingSlashes(p) == p by {
      assert p[|p| - 1] == id[|id| - 1];
    }
    var key := Lower(p);
    assert key[..|EditPrefix|] == EditPrefix by {
      assert p[..|EditPrefix|] == EditPrefix;
      LowerPrefix(p, |EditPrefix|);
      assert forall k :: 0 <= k < |EditPrefix| ==> !('A' <= EditPrefix[k] <= 'Z');
    }
    assert IsSegment(key[|EditPrefix|..]) by {
      forall k | 0 <= k < |id| ensures key[|EditPrefix|..][k] != '/' {
        assert p[|EditPrefix| + k] == id[k];
      }
    }
    assert p[|EditPrefix|..] == id;
    assert key[7] == 'e';
  }

  /** Conversely, a path that selects `/users/edit/:id` is, up to ASCII case
      and trailing slashes, the prefix `/users/edit/` followed by its id, and
      that id is one non-empty segment. */
  lemma EditRouteShape(p: Path)
    requires Match(p).UsersEditRoute?
    ensures IsSegment(Match(p).id)
    ensures StripTrailingSlashes(p) == StripTrailingSlashes(p)[..|EditPrefix|] + Match(p).id
    ensures Lower(StripTrailingSlashes(p)[..|EditPrefix|]) == EditPrefix
  {
    var t := StripTrailingSlashes(p);
    var key := Lower(t);
    var id := t[|EditPrefix|..];
    forall k | 0 <= k < |id| ensures id[k] != '/' {
      assert key[|EditPrefix|..][k] == key[|EditPrefix| + k];
    }
    LowerPrefix(t, |EditPrefix|);
  }

  // Redirect chains from the four fixed targets.

  lemma SettleAtUsers(auth: bool, n: nat)
    requires n >= 1
    ensures Settle(auth, false, "/users", n) == Some(if auth then UserTableView else LoginView)
  {
    RouteAtUsers(auth);
    RouteAtLogin(auth);
  }

  lemma SettleAtLogin(auth: bool, n: nat)
    requires n >= 1
    ensures Settle(auth, false, "/login", n) == Some(if auth then UserTableView else LoginView)
  {
    RouteAtLogin(auth);
    RouteAtUsers(auth);
  }

  lemma SettleAtRoot(auth: bool, n: nat)
    requires n >= 2
    ensures Settle(auth, false, "/", n) == Some(if auth then UserTableView else LoginView)
  {
    RouteAtRoot(auth);
    SettleAtLogin(auth, n - 1);
    assert Settle(auth, false, "/", n) == Settle(auth, false, "/login", n - 1);
  }

  lemma SettleAtUserform(auth: bool, n: nat)
    requires n >= 3
    ensures Settle(auth, false, "/userform", n) == Some(if auth then UserTableView else LoginView)
  {
    RouteAtUserform(auth);
    SettleAtRoot(auth, n - 1);
  }

  /** Once the session check has finished, following the shell's redirects
      from any path reaches a rendered page after at most four redirects;
      without authentication that page is the login or signup page, with it a
      protected page. */
  lemma SettlesWithinFourRedirects(auth: bool, p: Path)
    ensures Settle(auth, false, p, 4).Some?
    ensures var v := Settle(auth, false, p, 4).value;
      (IsProtectedView(v) <==> auth) && (!auth ==> v == LoginView || v == SignupView)
  {
    var e := Route(auth, false, p);
    if e.Navigate? {
      var t := e.to;
      if t == "/" {
        SettleAtRoot(auth, 3);
      } else if t == "/login" {
        SettleAtLogin(auth, 3);
      } else if t == "/users" {
        SettleAtUsers(auth, 3);
      } else {
        SettleAtUserform(auth, 3);
      }
    }
  }

  /** Four is the least bound that works: an authenticated visit to
      `/signup` goes to `/userform`, the catch-all, `/`, `/login` and only
      then renders `/users`. */
  lemma SignupChainNeedsFourRedirects()
    ensures Settle(true, false, "/signup", 4) == Some(UserTableView)
    ensures Settle(true, false, "/signup", 3) == None
  {
    RouteAtSignup(true);
    SettleAtUserform(true, 3);
    RouteAtUserform(true);
    RouteAtRoot(true);
    RouteAtLogin(true);
  }

  /** While the session check runs, every path settles at once on the
      interstitial, whatever the redirect budget. */
  lemma LoadingSettlesOnInterstitial(auth: bool, p: Path, n: nat)
    ensures Settle(auth, true, p, n) == Some(CheckingAuthentication)
  {
  }
}
