/** The request guard of frontend/src/app/middleware.js: a fixed list of
    protected route prefixes, and a redirect to the login page for a
    protected path requested without a session. */
module RouteGuard {
  import opened Wrappers
  import opened Text
  import opened Identity

  const ProtectedRoutes: seq<string> := ["/analyze/my", "/profile", "/settings"]

  /** `pathname === route || pathname.startsWith(`${route}/`)`. */
  predicate MatchesRoute(pathname: string, route: string)
  {
    pathname == route || StartsWith(pathname, route + "/")
  }

  /** A route matches exactly when it is a prefix of the path that ends the
      path or is followed by '/'. */
  lemma MatchesRouteShape(pathname: string, route: string)
    ensures MatchesRoute(pathname, route) <==>
      StartsWith(pathname, route) && (|pathname| == |route| || pathname[|route|] == '/')
  {
    if StartsWith(pathname, route + "/") {
      assert pathname[..|route|] == (route + "/")[..|route|] == route;
      assert pathname[|route|] == (route + "/")[|route|];
    }
    if StartsWith(pathname, route) && |pathname| != |route| && pathname[|route|] == '/' {
      assert pathname[..|route| + 1] == pathname[..|route|] + [pathname[|route|]];
    }
    if StartsWith(pathname, route) && |pathname| == |route| {
      assert pathname == pathname[..|route|];
    }
  }

  /** `routes.some(...)`, left to right. */
  function AnyRouteMatches(pathname: string, routes: seq<string>): (r: bool)
    ensures r <==> exists i :: 0 <= i < |routes| && MatchesRoute(pathname, routes[i])
  {
    if routes == [] then false
    else if MatchesRoute(pathname, routes[0]) then true
    else
      assert forall i :: 1 <= i < |routes| ==> routes[i] == routes[1..][i - 1];
      AnyRouteMatches(pathname, routes[1..])
  }

  predicate IsProtected(pathname: string)
  {
    AnyRouteMatches(pathname, ProtectedRoutes)
  }

  /** A path is protected exactly when it is a listed route or lies below one. */
  lemma IsProtectedIff(pathname: string)
    ensures IsProtected(pathname) <==>
      exists i :: 0 <= i < |ProtectedRoutes|
        && StartsWith(pathname, ProtectedRoutes[i])
        && (|pathname| == |ProtectedRoutes[i]| || pathname[|ProtectedRoutes[i]|] == '/')
  {
    forall i | 0 <= i < |ProtectedRoutes| {
      MatchesRouteShape(pathname, ProtectedRoutes[i]);
    }
  }

  /** A path below a protected path is protected. */
  lemma SubpathProtected(pathname: string, rest: string)
    requires IsProtected(pathname)
    ensures IsProtected(pathname + "/" + rest)
  {
    var i :| 0 <= i < |ProtectedRoutes| && MatchesRoute(pathname, ProtectedRoutes[i]);
    var route := ProtectedRoutes[i];
    var p := pathname + "/" + rest;
    if pathname == route {
      assert p[..|route + "/"|] == route + "/";
    } else {
      assert p[..|route + "/"|] == pathname[..|route + "/"|];
    }
    assert MatchesRoute(p, route);
  }

  /** A route followed by anything other than '/' is not that route. */
  lemma NotBelowRoute(pathname: string, route: string, k: nat)
    requires k == |route| < |pathname| && pathname[k] != '/'
    ensures !MatchesRoute(pathname, route)
  {
    assert (route + "/")[k] == '/';
  }

  /** A path no longer than the shortest route, different from all routes, is
      not protected. */
  lemma ShortPathNotProtected(pathname: string)
    requires |pathname| <= 8
    requires forall i :: 0 <= i < |ProtectedRoutes| ==> pathname != ProtectedRoutes[i]
    ensures !IsProtected(pathname)
  {
  }

  lemma ProtectedExamples()
    ensures IsProtected("/analyze/my/x")
    ensures IsProtected("/analyze/my")
    ensures !IsProtected("/analyze/myfoo")
    ensures !IsProtected("/analyze")
  {
    assert MatchesRoute("/analyze/my", ProtectedRoutes[0]);
    SubpathProtected("/analyze/my", "x");
    assert "/analyze/my" + "/" + "x" == "/analyze/my/x";
    var p := "/analyze/myfoo";
    NotBelowRoute(p, ProtectedRoutes[0], 11);
    assert !MatchesRoute(p, ProtectedRoutes[1]) by { assert p[1] != ProtectedRoutes[1][1]; }
    assert !MatchesRoute(p, ProtectedRoutes[2]) by { assert p[1] != ProtectedRoutes[2][1]; }
    var q := "/analyze";
    assert q != ProtectedRoutes[1] by { assert q[1] != ProtectedRoutes[1][1]; }
    ShortPathNotProtected(q);
  }

  // ---------------------------------------------------------------------
  // middleware

  /** A URL as the middleware builds it; `query` lists the search parameters
      in order. */
  datatype Url = Url(origin: string, pathname: string, query: seq<(string, string)>)

  /** `NextResponse.next()` or `NextResponse.redirect(url)`. */
  datatype Response = Next | Redirect(location: Url)

  const LoginPath: string := "/auth/login"

  /** The decision for one request, given the session the identity provider
      reports for it. */
  function Middleware(request: Url, session: Option<Session>): (r: Response)
    ensures r.Redirect? <==> IsProtected(request.pathname) && session.None?
    ensures r.Redirect? ==>
      && r.location.origin == request.origin
      && r.location.pathname == LoginPath
      && r.location.query == [("redirect", request.pathname)]
  {
    if IsProtected(request.pathname) && session.None? then
      Redirect(Url(request.origin, LoginPath, [("redirect", request.pathname)]))
    else
      Next
  }

  /** With a session there is never a redirect. */
  lemma SessionNeverRedirected(request: Url, s: Session)
    ensures Middleware(request, Some(s)) == Next
  {
  }
}
