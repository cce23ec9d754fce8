/**
 * The route guard run in front of the application: a request for a dashboard path
 * without a session token is redirected to the sign-in page, which is told where to
 * send the user back; everything else passes through. Reading the token from the
 * request is a parameter here (`hasToken`).
 */
module Middleware {
  import opened Strings

  datatype Action = Next | RedirectToSignIn(callbackUrl: string)

  /** The guard itself, applied to a request that reached it. */
  function Guard(pathname: string, hasToken: bool): (a: Action)
    ensures a.RedirectToSignIn? ==> a.callbackUrl == pathname
  {
    var isProtected := StartsWith(pathname, "/dashboard");
    if isProtected && !hasToken then RedirectToSignIn(pathname) else Next
  }

  /** The `matcher` patterns: `/dashboard/:path*` (the dashboard root and anything under
      it), `/signin` and `/signup`. Other paths never reach the guard. */
  predicate MatcherApplies(pathname: string)
  {
    pathname == "/dashboard" || StartsWith(pathname, "/dashboard/")
    || pathname == "/signin" || pathname == "/signup"
  }

  /** What a request meets: the guard when the matcher selects its path, else nothing. */
  function Route(pathname: string, hasToken: bool): (a: Action)
    ensures a.RedirectToSignIn? ==> a == Guard(pathname, hasToken)
  {
    if MatcherApplies(pathname) then Guard(pathname, hasToken) else Next
  }

  /** The guard redirects exactly the token-less requests for a path that is
      `/dashboard` followed by anything, and sends them back to that very path. */
  lemma GuardRedirectsExactly(pathname: string, hasToken: bool)
    ensures Guard(pathname, hasToken) == RedirectToSignIn(pathname)
        <==> !hasToken && exists rest :: pathname == "/dashboard" + rest
    ensures Guard(pathname, hasToken) == Next
        <==> hasToken || forall rest :: pathname != "/dashboard" + rest
  {
    StartsWithIff(pathname, "/dashboard");
  }

  /** With a session token, every request passes. */
  lemma TokenPassesEverything(pathname: string)
    ensures Guard(pathname, true) == Next && Route(pathname, true) == Next
  {
  }

  /** The sign-in and sign-up pages, and anything under them, always pass: the
      auth-route test the guard computes plays no part in the outcome. */
  lemma AuthRoutesPass(pathname: string, hasToken: bool)
    requires StartsWith(pathname, "/signin") || StartsWith(pathname, "/signup")
    ensures Guard(pathname, hasToken) == Next
  {
    assert pathname[1] != "/dashboard"[1];
  }

  /** The protection test is a bare prefix test: `/dashboardX` is guarded, yet the matcher
      never hands it to the guard. */
  lemma PrefixWiderThanMatcher()
    ensures Guard("/dashboardX", false) == RedirectToSignIn("/dashboardX")
    ensures Route("/dashboardX", false) == Next
  {
    assert "/dashboardX" == "/dashboard" + "X";
    StartsWithIff("/dashboardX", "/dashboard");
    assert "/dashboardX"[10] != "/dashboard/"[10];
  }

  /** Under the matcher, a token-less request is redirected exactly when it is for the
      dashboard root or a path below it. */
  lemma RouteRedirectsExactly(pathname: string, hasToken: bool)
    ensures Route(pathname, hasToken).RedirectToSignIn?
        <==> !hasToken && (pathname == "/dashboard" || StartsWith(pathname, "/dashboard/"))
  {
    if StartsWith(pathname, "/dashboard/") {
      assert pathname[..10] == "/dashboard/"[..10];
    }
    if pathname == "/signin" || pathname == "/signup" {
      assert pathname[1] != "/dashboard"[1];
    }
  }
}
