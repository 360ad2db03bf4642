/** The client shell, src/App.tsx: the signed-in user and the two
    localStorage entries it keeps, and the routing table with its redirects. */
module AppShell {
  import opened Base
  import Store
  import Queries
  import Layout

  /** A localStorage value: the JSON of a user profile, or plain text. */
  datatype Entry = ProfileJson(profile: Queries.Profile) | Raw(text: string)

  /** The body of a successful login reply. */
  datatype LoginData = LoginData(token: string, user: Queries.Profile)

  /** `getInitialRoute`: the login page when signed out, the dashboard for a
      super_admin, the lead list for everyone else. */
  function InitialRoute(user: Option<Queries.Profile>): (path: string)
    ensures path == "/login" <==> user.None?
    ensures path == "/" <==> user.Some? && user.value.role == SuperAdmin
    ensures path == "/leads" <==> user.Some? && user.value.role != SuperAdmin
  {
    if user.None? then "/login"
    else if user.value.role == SuperAdmin then "/"
    else "/leads"
  }

  // ---------------------------------------------------------------------------
  // Session storage

  /** The user restored on start-up from the 'user' entry; a missing or
      empty entry restores nobody. */
  function Restore(storage: map<string, Entry>): Option<Queries.Profile> {
    if "user" in storage && storage["user"].ProfileJson? then Some(storage["user"].profile) else None
  }

  /** The entries after `handleLogin`: 'user' holds the profile, 'token' the token. */
  function SignedIn(storage: map<string, Entry>, data: LoginData): (r: map<string, Entry>)
    ensures "user" in r && r["user"] == ProfileJson(data.user)
    ensures "token" in r && r["token"] == Raw(data.token)
    ensures forall k :: k in storage && k != "user" && k != "token" ==> k in r && r[k] == storage[k]
    ensures r.Keys == storage.Keys + {"user", "token"}
  {
    storage["user" := ProfileJson(data.user)]["token" := Raw(data.token)]
  }

  /** The entries after `handleLogout`: 'user' and 'token' removed, whatever was there. */
  function SignedOut(storage: map<string, Entry>): (r: map<string, Entry>)
    ensures "user" !in r && "token" !in r
    ensures forall k :: k in storage && k != "user" && k != "token" ==> k in r && r[k] == storage[k]
    ensures r.Keys == storage.Keys - {"user", "token"}
  {
    storage - {"user", "token"}
  }

  /** A reload after signing in restores the same user; after signing out, nobody. */
  lemma ReloadRestoresSession(storage: map<string, Entry>, data: LoginData)
    ensures Restore(SignedIn(storage, data)) == Some(data.user)
    ensures Restore(SignedOut(storage)) == None
    ensures Restore(SignedOut(SignedIn(storage, data))) == None
  {
  }

  /** Signing out twice is signing out once. */
  lemma SignOutIdempotent(storage: map<string, Entry>)
    ensures SignedOut(SignedOut(storage)) == SignedOut(storage)
  {
  }

  /** The app's state: the current user and localStorage. */
  class Session {
    var user: Option<Queries.Profile>
    var storage: map<string, Entry>

    /** The first render: nobody is signed in yet, whatever localStorage holds. */
    constructor (saved: map<string, Entry>)
      ensures storage == saved && user.None?
    {
      storage := saved;
      user := None;
    }

    /** The start-up effect, which runs after the first render: a saved 'user'
        entry becomes the current user; without one the user stays as it was. */
    method RestoreSaved()
      modifies this
      ensures storage == old(storage)
      ensures Restore(storage).Some? ==> user == Restore(storage)
      ensures Restore(storage).None? ==> user == old(user)
    {
      var saved := Restore(storage);
      if saved.Some? {
        user := saved;
      }
    }

    /** `handleLogin`. */
    method HandleLogin(data: LoginData)
      modifies this
      ensures user == Some(data.user)
      ensures storage == SignedIn(old(storage), data)
    {
      user := Some(data.user);
      storage := storage["user" := ProfileJson(data.user)];
      storage := storage["token" := Raw(data.token)];
    }

    /** `handleLogout`. */
    method HandleLogout()
      modifies this
      ensures user.None?
      ensures storage == SignedOut(old(storage))
    {
      user := None;
      storage := storage - {"user"};
      storage := storage - {"token"};
    }
  }

  // ---------------------------------------------------------------------------
  // Routing

  /** The pages. */
  datatype Screen =
    | LoginPage | DashboardPage | DealershipsPage | LocationsPage | UsersPage
    | LeadsPage | LeadDetailPage(id: string) | MessagesPage | SettingsPage

  /** What a path renders: a page on its own (the login page), a page inside
      the layout, or a redirect. */
  datatype View = Alone(screen: Screen) | InLayout(screen: Screen) | RedirectTo(path: string)

  /** `/leads/:id`: one non-empty segment after `/leads/`. */
  predicate IsLeadPath(path: string) {
    |path| > 7 && path[..7] == "/leads/" && '/' !in path[7..]
  }

  /** The pages nested under the layout route, other than '/'. */
  function LayoutChild(path: string): (s: Option<Screen>)
    ensures s.Some? ==> s.value != LoginPage && s.value != DashboardPage
  {
    if path == "/dealerships" then Some(DealershipsPage)
    else if path == "/locations" then Some(LocationsPage)
    else if path == "/users" then Some(UsersPage)
    else if path == "/leads" then Some(LeadsPage)
    else if IsLeadPath(path) then Some(LeadDetailPage(path[7..]))
    else if path == "/messages" then Some(MessagesPage)
    else if path == "/settings" || path == "/profile" then Some(SettingsPage)
    else None
  }

  /** The routing table. '/login' shows the login page when signed out and
      redirects to the initial route when signed in. The layout routes
      redirect to '/login' when signed out; among them '/' shows the
      dashboard to a super_admin only and sends everyone else to '/leads'.
      Any other path redirects to the initial route. No page other than '/'
      checks the role. */
  function Resolve(user: Option<Queries.Profile>, path: string): (v: View)
    ensures user.None? ==> v == Alone(LoginPage) || v == RedirectTo("/login")
    ensures user.None? ==> (v == Alone(LoginPage) <==> path == "/login")
    ensures user.Some? ==> v != Alone(LoginPage)
    ensures user.Some? && path == "/login" ==> v == RedirectTo(InitialRoute(user))
    ensures user.Some? && path == "/" ==>
      v == (if user.value.role == SuperAdmin then InLayout(DashboardPage) else RedirectTo("/leads"))
    ensures path != "/login" && path != "/" && LayoutChild(path).None? ==> v == RedirectTo(InitialRoute(user))
    ensures user.Some? && LayoutChild(path).Some? ==> v == InLayout(LayoutChild(path).value)
  {
    if path == "/login" then
      if user.Some? then RedirectTo(InitialRoute(user)) else Alone(LoginPage)
    else if path == "/" || LayoutChild(path).Some? then
      if user.None? then RedirectTo("/login")
      else if path == "/" then
        if user.value.role == SuperAdmin then InLayout(DashboardPage) else RedirectTo("/leads")
      else InLayout(LayoutChild(path).value)
    else RedirectTo(InitialRoute(user))
  }

  /** Redirects settle in one step: wherever a redirect points, that path
      renders a page. */
  lemma RedirectsSettle(user: Option<Queries.Profile>, path: string)
    ensures Resolve(user, path).RedirectTo? ==> !Resolve(user, Resolve(user, path).path).RedirectTo?
  {
    assert LayoutChild("/leads") == Some(LeadsPage);
    assert LayoutChild("/login").None? by {
      assert !IsLeadPath("/login");
    }
  }

  /** Where a render of `path` by `user` leaves the address bar: the target of
      the redirect, or `path` itself when a page is shown. */
  function Settle(user: Option<Queries.Profile>, path: string): string {
    var v := Resolve(user, path);
    if v.RedirectTo? then v.path else path
  }

  /** A reload: the first render has no user and redirects every path but
      '/login' to '/login'; the effect then restores the saved user, and the
      login route sends a signed-in user to the initial route. So a reload
      with a saved user ends on the initial route whatever path was loaded
      (a deep link such as '/leads/7' is not kept), and without one on
      '/login'. */
  lemma ReloadLandsOnInitialRoute(saved: map<string, Entry>, path: string)
    ensures Settle(None, path) == "/login"
    ensures Settle(Restore(saved), Settle(None, path)) == InitialRoute(Restore(saved))
    ensures !Resolve(Restore(saved), InitialRoute(Restore(saved))).RedirectTo?
  {
    RedirectsSettle(Restore(saved), "/login");
  }

  /** Every sidebar entry a signed-in user sees leads to a page, except that
      the dashboard entry sends everyone but a super_admin to the lead
      list. */
  lemma NavigationTargetsResolve(u: Queries.Profile, item: Layout.NavItem)
    requires item in Layout.Navigation(u.role)
    ensures item.href != "/" ==> Resolve(Some(u), item.href).InLayout?
    ensures item.href == "/" && u.role == SuperAdmin ==> Resolve(Some(u), item.href) == InLayout(DashboardPage)
    ensures item.href == "/" && u.role != SuperAdmin ==> Resolve(Some(u), item.href) == RedirectTo("/leads")
  {
    NavTableHrefs(item);
    if item.href == "/" {
      DashboardResolves(u);
    } else {
      ChildResolves(u, item.href);
    }
  }

  /** The targets of the sidebar entries. */
  lemma NavTableHrefs(item: Layout.NavItem)
    requires item in Layout.NavTable
    ensures item.href == "/" || item.href in {"/dealerships", "/users", "/leads", "/messages", "/settings"}
  {
    var k :| 0 <= k < |Layout.NavTable| && Layout.NavTable[k] == item;
  }

  /** '/' shows the dashboard to a super_admin and redirects everyone else. */
  lemma DashboardResolves(u: Queries.Profile)
    ensures u.role == SuperAdmin ==> Resolve(Some(u), "/") == InLayout(DashboardPage)
    ensures u.role != SuperAdmin ==> Resolve(Some(u), "/") == RedirectTo("/leads")
  {
  }

  /** The sidebar targets other than '/' render inside the layout. */
  lemma ChildResolves(u: Queries.Profile, h: string)
    requires h in {"/dealerships", "/users", "/leads", "/messages", "/settings"}
    ensures Resolve(Some(u), h).InLayout?
  {
    LayoutChildren();
  }

  /** The pages the sidebar entries other than the dashboard point at. */
  lemma LayoutChildren()
    ensures LayoutChild("/dealerships") == Some(DealershipsPage)
    ensures LayoutChild("/users") == Some(UsersPage)
    ensures LayoutChild("/leads") == Some(LeadsPage)
    ensures LayoutChild("/messages") == Some(MessagesPage)
    ensures LayoutChild("/settings") == Some(SettingsPage)
  {
    assert !IsLeadPath("/messages") by { assert "/messages"[..7] != "/leads/" by { assert "/messages"[1] != "/leads/"[1]; } }
    assert !IsLeadPath("/settings") by { assert "/settings"[..7] != "/leads/" by { assert "/settings"[1] != "/leads/"[1]; } }
  }

  /** A successful login lands a super_admin on the dashboard and everyone
      else on the lead list: the profile in the reply carries the role the
      token is signed with. */
  lemma LoginLanding(t: Store.Tables, email: Option<string>, password: Option<string>)
    requires Queries.Login(t, email, password).Ok?
    ensures var s := Queries.Login(t, email, password).value;
      InitialRoute(Some(s.user)) == (if s.claims.role == SuperAdmin then "/" else "/leads")
  {
  }
}
