/** The application's route table and `PrivateRoute`, the guard that
    wraps every page needing a session. The token is whatever the session
    holds; the guard never looks inside it. */
module Routes {
  import opened Base
  import Decimal
  import SectionList

  datatype Page = LoginPage | RegisterPage | DashboardPage | ProfilePage | SectionPage(id: string) | BinPage

  /** What the router puts on screen for a URL. */
  datatype View = Render(page: Page) | Redirect(to: string) | NothingMatched

  const SectionPrefix: string := "/section/"

  /** The `:id` of `/section/:id`: one non-empty path segment. */
  predicate IsSegment(s: string) {
    s != "" && forall i :: 0 <= i < |s| ==> s[i] != '/'
  }

  /** The route table: which page a path selects, if any. */
  function Match(path: string): (r: Option<Page>)
    ensures r == Some(LoginPage) <==> path == "/login"
    ensures r == Some(RegisterPage) <==> path == "/register"
    ensures r == Some(DashboardPage) <==> path == "/"
    ensures r == Some(ProfilePage) <==> path == "/profile"
    ensures r == Some(BinPage) <==> path == "/bin"
    ensures r.Some? && r.value.SectionPage? <==>
      |path| > |SectionPrefix| && path[..|SectionPrefix|] == SectionPrefix && IsSegment(path[|SectionPrefix|..])
    ensures r.Some? && r.value.SectionPage? ==> r.value.id == path[|SectionPrefix|..]
  {
    if path == "/login" then Some(LoginPage)
    else if path == "/register" then Some(RegisterPage)
    else if path == "/" then Some(DashboardPage)
    else if path == "/profile" then Some(ProfilePage)
    else if path == "/bin" then Some(BinPage)
    else if |path| > |SectionPrefix| && path[..|SectionPrefix|] == SectionPrefix && IsSegment(path[|SectionPrefix|..])
    then Some(SectionPage(path[|SectionPrefix|..]))
    else None
  }

  /** The pages whose route element is wrapped in `PrivateRoute`. */
  predicate Guarded(p: Page) {
    !(p.LoginPage? || p.RegisterPage?)
  }

  /** `PrivateRoute`: the wrapped page when the token is truthy, a redirect
      to the login page otherwise. */
  function PrivateRoute(token: Option<string>, page: Page): (v: View)
    ensures v == Render(page) <==> Truthy(token)
    ensures v == Redirect("/login") <==> !Truthy(token)
  {
    if Truthy(token) then Render(page) else Redirect("/login")
  }

  /** Navigating to `path` with the session holding `token`. */
  function Resolve(path: string, token: Option<string>): (v: View)
    ensures v.NothingMatched? <==> Match(path).None?
    ensures Match(path).Some? && !Guarded(Match(path).value) ==> v == Render(Match(path).value)
    ensures Match(path).Some? && Guarded(Match(path).value) ==> v == PrivateRoute(token, Match(path).value)
  {
    match Match(path)
    case None => NothingMatched
    case Some(page) => if Guarded(page) then PrivateRoute(token, page) else Render(page)
  }

  /** The login and register pages render whatever the session holds. */
  lemma OpenPagesNeverGuarded(token: Option<string>)
    ensures Resolve("/login", token) == Render(LoginPage)
    ensures Resolve("/register", token) == Render(RegisterPage)
  {
  }

  /** Without a token, and an empty token is none, each guarded path
      redirects to the login page; with one, it renders. */
  lemma GuardedPaths(token: Option<string>, id: string)
    requires IsSegment(id)
    ensures forall path :: path in ["/", "/profile", "/bin", SectionPrefix + id] ==>
      Resolve(path, token) == (if Truthy(token) then Render(Match(path).value) else Redirect("/login"))
    ensures Resolve(SectionPrefix + id, None) == Resolve(SectionPrefix + id, Some("")) == Redirect("/login")
  {
    var p := SectionPrefix + id;
    assert p[..|SectionPrefix|] == SectionPrefix && p[|SectionPrefix|..] == id;
  }

  /** The decision reads only whether a token is there: two sessions that
      agree on that see the same thing on every path. */
  lemma OnlyPresenceMatters(path: string, t1: Option<string>, t2: Option<string>)
    requires Truthy(t1) == Truthy(t2)
    ensures Resolve(path, t1) == Resolve(path, t2)
  {
  }

  /** A signed-in user clicking a section row lands on that section's page,
      and the page's `id` parameter reads back as the section's id. */
  lemma SectionLinkOpensSection(sectionId: nat, token: Option<string>)
    requires Truthy(token)
    ensures var param := Decimal.Show(sectionId);
      Resolve(SectionList.SectionPath(sectionId), token) == Render(SectionPage(param))
      && Decimal.Parse(param) == sectionId
  {
    var param := Decimal.Show(sectionId);
    var p := SectionList.SectionPath(sectionId);
    assert p[|SectionPrefix|..] == param;
    assert IsSegment(param) by {
      forall i | 0 <= i < |param| ensures param[i] != '/' {
        assert Decimal.IsDigit(param[i]);
      }
    }
    Decimal.ParseShow(sectionId);
  }
}
