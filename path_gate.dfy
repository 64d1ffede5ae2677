/** The earlier interceptor of `lib/middleware.ts`: a chain of prefix tests
    on the pathname alone, with no identity check; everything not allowed is
    redirected to the holding page. */
module PathGate {
  import opened Wrappers
  import opened Http
  import EdgeGate

  /** `new URL('/coming-soon', request.url)`: the holding page resolved
      against the request URL keeps only the origin; the query and the
      fragment of the request are dropped. */
  function ComingSoonUrl(url: Url): (r: Url)
    ensures r.origin == url.origin && r.pathname == ComingSoon
    ensures r.search == "" && r.hash == ""
  {
    Url(url.origin, ComingSoon, "", "")
  }

  /** The three early returns of the source, in order. */
  function Middleware(req: Request): (d: Decision)
    ensures d == Next <==> ("/admin" <= req.url.pathname || "/login" <= req.url.pathname
                           || "/coming-soon" <= req.url.pathname || "/api" <= req.url.pathname)
    ensures d.Redirect? ==> d.location == ComingSoonUrl(req.url)
  {
    var pathname := req.url.pathname;
    if "/admin" <= pathname || "/login" <= pathname then Next
    else if "/coming-soon" <= pathname then Next
    else if "/api" <= pathname then Next
    else Redirect(ComingSoonUrl(req.url))
  }

  /** The decision depends only on the pathname: cookies, query and
      fragment play no part, and the redirect differs only by origin. */
  lemma {:induction false} DependsOnlyOnPathname(a: Request, b: Request)
    requires a.url.pathname == b.url.pathname
    ensures Middleware(a).Next? == Middleware(b).Next?
    ensures a.url.origin == b.url.origin ==> Middleware(a) == Middleware(b)
  {
  }

  /** Every path this version lets through, the later interceptor of
      `middleware.ts` lets through unconditionally, whatever the token, the
      provider and the list say. */
  lemma {:induction false} AllowedHereAllowedByEdgeGate(req: Request, auth: string -> Call<Option<EdgeGate.User>>, grants: Call<set<string>>)
    requires Middleware(req) == Next
    ensures EdgeGate.IsExempt(req.url.pathname)
    ensures EdgeGate.Middleware(req, auth, grants) == Next
  {
  }

  /** The holding page this version redirects to passes through it, so it
      cannot loop either. */
  lemma {:induction false} NoRedirectLoop(req: Request)
    requires Middleware(req).Redirect?
    ensures Middleware(Request(Middleware(req).location, req.cookies)) == Next
  {
    assert "/coming-soon" <= ComingSoon;
  }
}
