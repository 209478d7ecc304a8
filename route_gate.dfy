/**
 * The routing decision of the session middleware: which requests pass,
 * which authenticated requests are sent to their dashboard, and which
 * unauthenticated requests are sent to sign in.
 */
module RouteGate {
  import opened Wrappers
  import opened Text
  import opened Policy

  const PublicRoutes: seq<string> := ["/", "/sign-in", "/sign-up", "/forgot-password", "/reset-password", "/auth/callback"]

  /** `PUBLIC_ROUTES.some(route => pathname.startsWith(route))`. */
  predicate IsPublicPath(pathname: string)
  {
    exists i | 0 <= i < |PublicRoutes| :: StartsWith(pathname, PublicRoutes[i])
  }

  /** The pages a signed-in user is sent away from. */
  predicate IsAuthPage(pathname: string)
  {
    || StartsWith(pathname, "/sign-in")
    || StartsWith(pathname, "/sign-up")
    || StartsWith(pathname, "/forgot-password")
    || pathname == "/"
  }

  /** What the middleware answers: the request passes, or a redirect. */
  datatype Decision =
    | Continue
    | RedirectToDashboard(userId: UserId)             // `/dashboard/<user.id>`
    | RedirectToSignIn(redirectedFrom: string)        // `/sign-in?redirectedFrom=<pathname>`

  /** The decision of `updateSession` for a path, the session's user and the session lookup's error. */
  function Decide(pathname: string, user: Option<UserId>, authError: bool): (d: Decision)
    ensures d.RedirectToDashboard? ==> user == Some(d.userId) && IsAuthPage(pathname)
    ensures d.RedirectToSignIn? ==> d.redirectedFrom == pathname && !IsPublicPath(pathname)
    ensures user.Some? && !authError ==> !d.RedirectToSignIn?
    ensures !IsPublicPath(pathname) && (user.None? || authError) ==> d == RedirectToSignIn(pathname)
  {
    if IsPublicPath(pathname) then
      if user.Some? && IsAuthPage(pathname) then RedirectToDashboard(user.value) else Continue
    else if user.None? || authError then RedirectToSignIn(pathname)
    else Continue
  }

  /** "/" is a public route and matching is by prefix, so every path that starts with "/" is public. */
  lemma EveryRootedPathIsPublic(pathname: string)
    requires StartsWith(pathname, "/")
    ensures IsPublicPath(pathname)
  {
    assert StartsWith(pathname, PublicRoutes[0]);
  }

  /** Consequently the sign-in redirect is reached only by a path that does not start with "/". */
  lemma SignInRedirectOnlyForUnrootedPaths(pathname: string, user: Option<UserId>, authError: bool)
    requires Decide(pathname, user, authError).RedirectToSignIn?
    ensures !StartsWith(pathname, "/")
  {
    if StartsWith(pathname, "/") {
      EveryRootedPathIsPublic(pathname);
    }
  }

  /** A signed-in user on "/" or on a sign-in, sign-up or forgot-password page goes to the dashboard. */
  lemma SignedInAuthPageRedirects(pathname: string, user: UserId, authError: bool)
    requires IsAuthPage(pathname)
    ensures Decide(pathname, Some(user), authError) == RedirectToDashboard(user)
  {
    if pathname == "/" {
      EveryRootedPathIsPublic(pathname);
    } else if StartsWith(pathname, "/sign-in") {
      assert StartsWith(pathname, PublicRoutes[1]);
    } else if StartsWith(pathname, "/sign-up") {
      assert StartsWith(pathname, PublicRoutes[2]);
    } else {
      assert StartsWith(pathname, PublicRoutes[3]);
    }
  }

  /** A signed-in user on any other public path passes. */
  lemma SignedInOtherPublicPathPasses(pathname: string, user: UserId, authError: bool)
    requires IsPublicPath(pathname) && !IsAuthPage(pathname)
    ensures Decide(pathname, Some(user), authError) == Continue
  {
  }

  lemma SignedInExamples(user: UserId)
    ensures Decide("/reset-password", Some(user), false) == Continue
    ensures Decide("/auth/callback", Some(user), false) == Continue
    ensures Decide("/dashboard/x", Some(user), false) == Continue
  {
    EveryRootedPathIsPublic("/reset-password");
    EveryRootedPathIsPublic("/auth/callback");
    EveryRootedPathIsPublic("/dashboard/x");
    assert "/reset-password"[1] == 'r' && "/auth/callback"[1] == 'a' && "/dashboard/x"[1] == 'd';
  }

  /** A request without a user on a public path is never redirected. */
  lemma AnonymousPublicPathPasses(pathname: string, authError: bool)
    requires IsPublicPath(pathname)
    ensures Decide(pathname, None, authError) == Continue
  {
  }

  /** A non-public path without a user, or with a session error, goes to sign in and remembers the path. */
  lemma ProtectedPathRedirectsToSignIn(pathname: string, user: Option<UserId>, authError: bool)
    requires !IsPublicPath(pathname)
    requires user.None? || authError
    ensures Decide(pathname, user, authError) == RedirectToSignIn(pathname)
  {
  }

  /** As written, an anonymous request for a dashboard is let through. */
  lemma AnonymousDashboardPasses(ws: string)
    ensures Decide("/dashboard/" + ws, None, false) == Continue
  {
    EveryRootedPathIsPublic("/dashboard/" + ws);
  }

  // ---------------------------------------------------------------------
  // The evidently intended gate: "/" matches the home page only.

  predicate IsPublicPathCorrected(pathname: string)
  {
    exists i | 0 <= i < |PublicRoutes| ::
      if PublicRoutes[i] == "/" then pathname == "/" else StartsWith(pathname, PublicRoutes[i])
  }

  function DecideCorrected(pathname: string, user: Option<UserId>, authError: bool): Decision
  {
    if IsPublicPathCorrected(pathname) then
      if user.Some? && IsAuthPage(pathname) then RedirectToDashboard(user.value) else Continue
    else if user.None? || authError then RedirectToSignIn(pathname)
    else Continue
  }

  /** With the corrected match an anonymous request for a dashboard goes to sign in. */
  lemma CorrectedGateProtectsDashboard(ws: string, user: Option<UserId>, authError: bool)
    requires user.None? || authError
    ensures DecideCorrected("/dashboard/" + ws, user, authError) == RedirectToSignIn("/dashboard/" + ws)
  {
    var p := "/dashboard/" + ws;
    assert p[1] == 'd';
    forall i | 0 <= i < |PublicRoutes|
      ensures !(if PublicRoutes[i] == "/" then p == "/" else StartsWith(p, PublicRoutes[i]))
    {
      if PublicRoutes[i] != "/" {
        assert PublicRoutes[i][1] != 'd';
      }
    }
  }

  /** The corrected gate still serves every listed public route, and "/", to anonymous requests. */
  lemma CorrectedGateKeepsPublicRoutes(i: int, suffix: string, authError: bool)
    requires 0 <= i < |PublicRoutes|
    ensures PublicRoutes[i] != "/" ==> DecideCorrected(PublicRoutes[i] + suffix, None, authError) == Continue
    ensures DecideCorrected("/", None, authError) == Continue
  {
    assert PublicRoutes[0] == "/";
    if PublicRoutes[i] != "/" {
      assert StartsWith(PublicRoutes[i] + suffix, PublicRoutes[i]);
    }
  }
}
