/**
 * The component tree of `Frontend/src/App.jsx`: an `AuthProvider` around a
 * layout that always shows the `Navbar` above the route table. Rendering a
 * path under a given session yields the screen the user sees.
 */
module AppRoutes {
  import opened Wrappers
  import AuthContext
  import LocalStorage
  import RouteGuard

  datatype Page = HomePage | RoomsPage | ApplicationsPage | LoginPage | RegisterPage

  /** A route's element: a page on its own or a page inside `ProtectedRoute`. */
  datatype Element = Plain(page: Page) | Protected(page: Page)

  datatype Route = Route(path: string, element: Element)

  datatype Tree = AuthProvider(child: Tree) | Layout(navbar: bool, routes: seq<Route>)

  /**
   * What the content area shows. `NoProvider` is a `ProtectedRoute` rendered
   * with no `AuthProvider` above it, where `useAuth()` gives `undefined` and
   * reading `user` from it throws.
   */
  datatype View = Shows(page: Page) | Navigate(to: string, replace: bool) | NoMatch | NoProvider

  datatype Screen = Screen(navbar: bool, view: View)

  /** The `<Routes>` table. */
  function RouteTable(): seq<Route> {
    [ Route("/", Protected(HomePage)),
      Route("/rooms", Protected(RoomsPage)),
      Route("/applications", Protected(ApplicationsPage)),
      Route("/login", Plain(LoginPage)),
      Route("/register", Plain(RegisterPage)) ]
  }

  /** The tree `App` returns. */
  function App(): Tree {
    AuthProvider(Layout(true, RouteTable()))
  }

  /** The element of the first route whose path is `path`. */
  function Match(routes: seq<Route>, path: string): (r: Option<Element>)
    ensures r.None? <==> forall i :: 0 <= i < |routes| ==> routes[i].path != path
    ensures r.Some? ==> exists i :: 0 <= i < |routes| && routes[i] == Route(path, r.value)
  {
    if routes == [] then None
    else if routes[0].path == path then Some(routes[0].element)
    else
      var r := Match(routes[1..], path);
      assert r.Some? ==> exists i :: 1 <= i < |routes| && routes[i] == Route(path, r.value) by {
        if r.Some? {
          var j :| 0 <= j < |routes[1..]| && routes[1..][j] == Route(path, r.value);
          assert routes[j + 1] == Route(path, r.value);
        }
      }
      r
  }

  /** An element under the session `context` an enclosing provider supplies, if any. */
  function RenderElement(e: Element, context: Option<Option<AuthContext.User>>): View {
    match e
    case Plain(p) => Shows(p)
    case Protected(p) =>
      if context.None? then NoProvider
      else
        match RouteGuard.ProtectedRoute(context.value, p)
        case Redirect(to, replace) => Navigate(to, replace)
        case Children(c) => Shows(c)
  }

  /** Renders `tree` at `path`; `user` is the state every `AuthProvider` in it holds. */
  function Render(tree: Tree, path: string, context: Option<Option<AuthContext.User>>, user: Option<AuthContext.User>): Screen {
    match tree
    case AuthProvider(child) => Render(child, path, Some(user), user)
    case Layout(navbar, routes) =>
      Screen(navbar, match Match(routes, path) case None => NoMatch case Some(e) => RenderElement(e, context))
  }

  // ----- Properties of the route table -----

  /** The navbar is on every screen and the guard always finds its provider. */
  lemma AppScreens(path: string, user: Option<AuthContext.User>)
    ensures Render(App(), path, None, user).navbar
    ensures Render(App(), path, None, user).view != NoProvider
  {
  }

  /** "/", "/rooms" and "/applications" send a signed-out user to a replacing redirect to "/login" and show a signed-in user the page. */
  lemma ProtectedPaths(user: Option<AuthContext.User>)
    ensures user.None? ==>
      && Render(App(), "/", None, user).view == Navigate("/login", true)
      && Render(App(), "/rooms", None, user).view == Navigate("/login", true)
      && Render(App(), "/applications", None, user).view == Navigate("/login", true)
    ensures user.Some? ==>
      && Render(App(), "/", None, user).view == Shows(HomePage)
      && Render(App(), "/rooms", None, user).view == Shows(RoomsPage)
      && Render(App(), "/applications", None, user).view == Shows(ApplicationsPage)
  {
  }

  /** "/login" and "/register" show their page whoever is signed in. */
  lemma PublicPaths(user: Option<AuthContext.User>)
    ensures Render(App(), "/login", None, user).view == Shows(LoginPage)
    ensures Render(App(), "/register", None, user).view == Shows(RegisterPage)
  {
  }

  /** Any other path matches no route. */
  lemma UnknownPaths(path: string, user: Option<AuthContext.User>)
    requires path !in {"/", "/rooms", "/applications", "/login", "/register"}
    ensures Render(App(), path, None, user).view == NoMatch
  {
  }

  /** Without the provider around it, a protected route could not render. */
  lemma ProviderIsNeeded(user: Option<AuthContext.User>)
    ensures Render(Layout(true, RouteTable()), "/rooms", None, user).view == NoProvider
  {
  }

  // ----- The first render after a reload -----

  /**
   * As written: a reload of a protected page renders with the provider's
   * initial `user`, which is `null`, so the guard redirects to "/login" even
   * when storage holds a session. The mount effect that restores the user
   * would run only after this render; that it runs after the `Navigate`
   * child's own effect has redirected follows React's child-first effect
   * order, which this model does not show.
   */
  method FirstRenderRedirects(storage: LocalStorage.Storage, path: string) returns (screen: Screen)
    requires AuthContext.StartupUser(storage.items).Some?
    requires path in {"/", "/rooms", "/applications"}
    ensures screen.navbar && screen.view == Navigate("/login", true)
  {
    var provider := new AuthContext.AuthProvider(storage);
    screen := Render(App(), path, None, provider.user);
  }

  /**
   * Corrected: with the lazy initialiser the provider starts from the stored
   * session, so the first render already shows the protected page.
   */
  method FirstRenderWithStoredUser(storage: LocalStorage.Storage, path: string) returns (screen: Screen)
    requires AuthContext.StartupUser(storage.items).Some?
    requires path in {"/", "/rooms", "/applications"}
    ensures screen.navbar && screen.view.Shows?
    ensures path == "/" ==> screen.view == Shows(HomePage)
    ensures path == "/rooms" ==> screen.view == Shows(RoomsPage)
    ensures path == "/applications" ==> screen.view == Shows(ApplicationsPage)
  {
    var provider := new AuthContext.AuthProvider.FromStorage(storage);
    ProtectedPaths(provider.user);
    AppScreens(path, provider.user);
    screen := Render(App(), path, None, provider.user);
  }

  /** Both initial states agree once the mount effect has run: the fix changes only the first render. */
  method InitialStatesAgreeAfterStartup(storage: LocalStorage.Storage) returns (asWritten: Option<AuthContext.User>, corrected: Option<AuthContext.User>)
    ensures asWritten == corrected == AuthContext.StartupUser(storage.items)
  {
    var p := new AuthContext.AuthProvider(storage);
    p.Startup();
    var q := new AuthContext.AuthProvider.FromStorage(storage);
    asWritten, corrected := p.user, q.user;
  }
}
