/**
 * The route guard that runs before every page request: a path that starts
 * with a public prefix passes; otherwise a visitor without a session cookie
 * who asks for a user or tenant page is sent to the matching login page with
 * the requested path as `callbackUrl`; everything else passes.
 *
 * `Middleware` is the guard as written. Because "/" is in the public list
 * and route matching is `startsWith`, every path that begins with "/" is
 * public and the redirect is never reached (RootedPathsArePublic,
 * ProfileIsNotGuarded). `MiddlewareCorrected` matches "/" only exactly, which
 * is what the public list evidently intends, and it does guard the protected
 * pages (CorrectedGuardsProtectedRoutes).
 */
module Middleware {
  import opened Strings

  const PublicRoutes: seq<string> := [
    "/", "/login-user", "/login-tenant", "/register-user", "/register-tenant",
    "/verify-email", "/reset-password", "/confirm-reset-password", "/properties",
    "/privacy-policy", "/terms-of-service", "/cookie-policy", "/api", "/_next",
    "/favicon.ico", "/uploads"
  ]
  const UserRoutes: seq<string> := ["/profile", "/transactions"]
  const TenantRoutes: seq<string> := ["/tenant"]

  const SessionCookie := "next-auth.session-token"
  const SecureSessionCookie := "__Secure-next-auth.session-token"

  const LoginUser := "/login-user"
  const LoginTenant := "/login-tenant"

  /** The request's cookies, by name. */
  type Cookies = map<string, string>

  /** The guard's answer: let the request through, or redirect to a login
      page carrying `callbackUrl` as a query parameter. */
  datatype Decision = Next | Redirect(loginUrl: string, callbackUrl: string)

  /** `routes.some(route => pathname.startsWith(route))`. */
  predicate MatchesAny(routes: seq<string>, pathname: string) {
    exists i :: 0 <= i < |routes| && StartsWith(pathname, routes[i])
  }

  /** A cookie of either session name is a session, whatever its value. */
  predicate HasSession(cookies: Cookies) {
    SessionCookie in cookies || SecureSessionCookie in cookies
  }

  predicate IsUserRoute(pathname: string) {
    MatchesAny(UserRoutes, pathname)
  }

  predicate IsTenantRoute(pathname: string) {
    MatchesAny(TenantRoutes, pathname)
  }

  /** The part of the guard after the public-route test. */
  function Guard(isPublic: bool, pathname: string, cookies: Cookies): (d: Decision)
    ensures isPublic ==> d == Next
    ensures HasSession(cookies) ==> d == Next
    ensures d.Redirect? <==> !isPublic && !HasSession(cookies) && (IsUserRoute(pathname) || IsTenantRoute(pathname))
    ensures d.Redirect? ==> d.callbackUrl == pathname
    ensures d.Redirect? ==> (d.loginUrl == LoginTenant <==> IsTenantRoute(pathname))
    ensures d.Redirect? ==> d.loginUrl in {LoginTenant, LoginUser}
  {
    if isPublic then Next
    else if !HasSession(cookies) && (IsUserRoute(pathname) || IsTenantRoute(pathname)) then
      Redirect(if IsTenantRoute(pathname) then LoginTenant else LoginUser, pathname)
    else Next
  }

  /** The guard as written: public means "starts with some public route". */
  function Middleware(pathname: string, cookies: Cookies): (d: Decision)
    ensures MatchesAny(PublicRoutes, pathname) ==> d == Next
    ensures d.Redirect? ==> !HasSession(cookies) && (IsUserRoute(pathname) || IsTenantRoute(pathname))
    ensures d.Redirect? ==> d.callbackUrl == pathname
    ensures d.Redirect? ==> (d.loginUrl == LoginTenant <==> IsTenantRoute(pathname))
  {
    Guard(MatchesAny(PublicRoutes, pathname), pathname, cookies)
  }

  /** "/" is a public prefix of every rooted path, so the guard lets every
      such request through whatever cookies it carries. */
  lemma RootedPathsArePublic(pathname: string, cookies: Cookies)
    requires |pathname| > 0 && pathname[0] == '/'
    ensures MatchesAny(PublicRoutes, pathname)
    ensures Middleware(pathname, cookies) == Next
  {
    assert StartsWith(pathname, PublicRoutes[0]);
  }

  /** The concrete input behind the finding: a visitor without any cookie
      reaches the profile page. */
  lemma ProfileIsNotGuarded()
    ensures IsUserRoute("/profile")
    ensures !HasSession(map[])
    ensures Middleware("/profile", map[]) == Next
  {
    assert StartsWith("/profile", UserRoutes[0]);
    RootedPathsArePublic("/profile", map[]);
  }

  /** Route membership is plain prefix matching: "/tenantX" is a tenant
      route and "/profileX" a user route. */
  lemma PrefixMatchingIsLoose()
    ensures IsTenantRoute("/tenantX")
    ensures IsUserRoute("/profileX")
    ensures !IsTenantRoute("/profile")
  {
    assert StartsWith("/tenantX", TenantRoutes[0]);
    assert StartsWith("/profileX", UserRoutes[0]);
    assert !StartsWith("/profile", TenantRoutes[0]);
  }

  /** The evidently intended public test: "/" is the home page only, every
      other public route is a prefix. */
  predicate IsPublicCorrected(pathname: string) {
    pathname == "/" || MatchesAny(PublicRoutes[1..], pathname)
  }

  function MiddlewareCorrected(pathname: string, cookies: Cookies): (d: Decision)
    ensures IsPublicCorrected(pathname) ==> d == Next
    ensures d.Redirect? ==> d.callbackUrl == pathname
  {
    Guard(IsPublicCorrected(pathname), pathname, cookies)
  }

  /** Each protected route prefix differs from every public route other
      than "/" at a position both have. */
  lemma ProfileDivergesFromPublic()
    ensures forall i :: 0 <= i < |PublicRoutes[1..]| ==> Diverge(PublicRoutes[1..][i], "/profile")
  {
  }

  lemma TransactionsDivergesFromPublic()
    ensures forall i :: 0 <= i < |PublicRoutes[1..]| ==> Diverge(PublicRoutes[1..][i], "/transactions")
  {
  }

  lemma TenantDivergesFromPublic()
    ensures forall i :: 0 <= i < |PublicRoutes[1..]| ==> Diverge(PublicRoutes[1..][i], "/tenant")
  {
  }

  /** A path that starts with `prot` matches none of `routes` when every
      route diverges from `prot`. */
  lemma DivergentRoutesExclude(routes: seq<string>, pathname: string, prot: string)
    requires StartsWith(pathname, prot)
    requires forall i :: 0 <= i < |routes| ==> Diverge(routes[i], prot)
    ensures !MatchesAny(routes, pathname)
  {
    forall i | 0 <= i < |routes|
      ensures !StartsWith(pathname, routes[i])
    {
      DivergeUnrelated(routes[i], prot);
      if StartsWith(pathname, routes[i]) {
        if |routes[i]| <= |prot| {
          PrefixesComparable(pathname, routes[i], prot);
        } else {
          PrefixesComparable(pathname, prot, routes[i]);
        }
      }
    }
  }

  /** So a protected path is never public under the corrected test. */
  lemma {:induction false} ProtectedIsNotPublic(pathname: string)
    requires IsUserRoute(pathname) || IsTenantRoute(pathname)
    ensures !IsPublicCorrected(pathname)
  {
    var prot: string;
    if IsUserRoute(pathname) {
      var j :| 0 <= j < |UserRoutes| && StartsWith(pathname, UserRoutes[j]);
      prot := UserRoutes[j];
      if j == 0 {
        ProfileDivergesFromPublic();
      } else {
        TransactionsDivergesFromPublic();
      }
    } else {
      var j :| 0 <= j < |TenantRoutes| && StartsWith(pathname, TenantRoutes[j]);
      prot := TenantRoutes[j];
      TenantDivergesFromPublic();
    }
    assert |prot| > 1;
    DivergentRoutesExclude(PublicRoutes[1..], pathname, prot);
  }

  /** With the corrected public test, a visitor without a session is sent to
      the right login page for every user or tenant page, and only then. */
  lemma CorrectedGuardsProtectedRoutes(pathname: string, cookies: Cookies)
    ensures MiddlewareCorrected(pathname, cookies).Redirect?
        <==> !HasSession(cookies) && (IsUserRoute(pathname) || IsTenantRoute(pathname))
    ensures !HasSession(cookies) && (IsUserRoute(pathname) || IsTenantRoute(pathname)) ==>
        MiddlewareCorrected(pathname, cookies)
          == Redirect(if IsTenantRoute(pathname) then LoginTenant else LoginUser, pathname)
  {
    if IsUserRoute(pathname) || IsTenantRoute(pathname) {
      ProtectedIsNotPublic(pathname);
    }
  }

  /** The corrected guard on the finding's input. */
  lemma CorrectedGuardsProfile()
    ensures MiddlewareCorrected("/profile", map[]) == Redirect(LoginUser, "/profile")
  {
    assert StartsWith("/profile", UserRoutes[0]);
    assert IsUserRoute("/profile");
    assert !IsTenantRoute("/profile") by {
      assert Diverge(TenantRoutes[0], "/profile");
      DivergeUnrelated(TenantRoutes[0], "/profile");
    }
    CorrectedGuardsProtectedRoutes("/profile", map[]);
  }
}
