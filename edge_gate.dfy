/** The early-access request interceptor of `middleware.ts`: exempt path
    prefixes pass; every other request passes only when the session token
    resolves to a user whose email is on the early-access list, and is
    otherwise redirected to the holding page. The auth provider and the
    database are inputs: `auth` is what the provider answers for a token,
    `grants` is what the lookup of the early-access list yields. */
module EdgeGate {
  import opened Wrappers
  import opened Http

  /** The name of the cookie carrying the session token. */
  const TokenCookie: string := "sb-access-token"

  /** A user as the auth provider returns it; the email may be missing. */
  datatype User = User(email: Option<string>)

  /** The fixed allow-list of path prefixes, matched by `startsWith`. */
  predicate IsExempt(pathname: string)
  {
    || "/admin" <= pathname
    || "/login" <= pathname
    || "/coming-soon" <= pathname
    || "/api" <= pathname
    || "/_next" <= pathname
    || "/favicon" <= pathname
  }

  /** `request.cookies.get('sb-access-token')?.value` */
  function AccessToken(req: Request): Option<string>
  {
    if TokenCookie in req.cookies then Some(req.cookies[TokenCookie]) else None
  }

  /** The identity the gate vouches for, stated link by link: a non-empty
      token, a call to the provider that returns, a user, and a non-empty
      email on that user. Any broken link leaves no identity. */
  function ResolvedEmail(req: Request, auth: string -> Call<Option<User>>): Option<string>
  {
    var token := AccessToken(req);
    if token.None? || token.value == "" then None
    else
      var answer := auth(token.value);
      if answer.Threw? || answer.value.None? then None
      else
        var email := answer.value.value.email;
        if email.None? || email.value == "" then None else email
  }

  /** The redirect the gate answers with: a copy of the request URL whose
      pathname alone is replaced by the holding page. */
  function ToComingSoon(url: Url): (r: Url)
    ensures r.pathname == ComingSoon
    ensures r.origin == url.origin && r.search == url.search && r.hash == url.hash
  {
    url.(pathname := ComingSoon)
  }

  /** The interceptor itself. The nested tests follow the source: token,
      user, email, whitelist row; an exception anywhere in the chain is
      caught and, like every other failure, ends in the redirect. */
  function Middleware(req: Request, auth: string -> Call<Option<User>>, grants: Call<set<string>>): (d: Decision)
    ensures IsExempt(req.url.pathname) ==> d == Next
    ensures d.Redirect? ==> d.location == ToComingSoon(req.url)
    ensures !IsExempt(req.url.pathname) ==>
              (d == Next <==> ResolvedEmail(req, auth).Some? && grants.Returned?
                              && ResolvedEmail(req, auth).value in grants.value)
  {
    var pathname := req.url.pathname;
    if IsExempt(pathname) then Next
    else
      var token := AccessToken(req);
      var allowed :=
        if token.Some? && token.value != "" then
          match auth(token.value)
          case Threw => false        // caught: falls through to the redirect
          case Returned(user) =>
            if user.Some? && user.value.email.Some? && user.value.email.value != "" then
              match grants
              case Threw => false    // caught: falls through to the redirect
              case Returned(whitelist) => user.value.email.value in whitelist
            else false
        else false;
      if allowed then Next else Redirect(ToComingSoon(req.url))
  }

  /** Prefix matching exempts more than the named sections: any path that
      merely begins with an exempt prefix passes, whoever asks. */
  lemma PrefixesAreNotSegments(req: Request, auth: string -> Call<Option<User>>, grants: Call<set<string>>)
    requires req.url.pathname in {"/apiary", "/administrator", "/login-help", "/favicon.png"}
    ensures Middleware(req, auth, grants) == Next
  {
  }

  /** Without a session cookie, or with an empty one, every non-exempt
      request is redirected, whatever the provider and the list would say. */
  lemma NoTokenRedirected(req: Request, auth: string -> Call<Option<User>>, grants: Call<set<string>>)
    requires !IsExempt(req.url.pathname)
    requires AccessToken(req) == None || AccessToken(req) == Some("")
    ensures Middleware(req, auth, grants) == Redirect(ToComingSoon(req.url))
  {
  }

  /** Fail closed: when the provider throws, or answers without a user or
      without an email, or the list lookup throws, the request is
      redirected, never let through. */
  lemma FailClosed(req: Request, auth: string -> Call<Option<User>>, grants: Call<set<string>>)
    requires !IsExempt(req.url.pathname)
    requires AccessToken(req).Some?
    requires || auth(AccessToken(req).value).Threw?
             || auth(AccessToken(req).value) == Returned(None)
             || auth(AccessToken(req).value) == Returned(Some(User(None)))
             || grants.Threw?
    ensures Middleware(req, auth, grants).Redirect?
  {
  }

  /** The redirect target is itself exempt, so following the redirect with
      the same cookies is let through: the gate cannot loop. */
  lemma {:induction false} NoRedirectLoop(req: Request, auth: string -> Call<Option<User>>, grants: Call<set<string>>)
    requires Middleware(req, auth, grants).Redirect?
    ensures Middleware(Request(Middleware(req, auth, grants).location, req.cookies), auth, grants) == Next
  {
    assert IsExempt(ToComingSoon(req.url).pathname) by {
      assert "/coming-soon" <= ComingSoon;
    }
  }

  /** Adding an email to the list lets its holder through on the very next
      request, and removing it sends the same request to the holding page:
      the gate keeps no state of its own. */
  lemma {:induction false} GrantAndRevoke(req: Request, auth: string -> Call<Option<User>>, list: set<string>, email: string)
    requires !IsExempt(req.url.pathname)
    requires ResolvedEmail(req, auth) == Some(email)
    ensures Middleware(req, auth, Returned(list + {email})) == Next
    ensures Middleware(req, auth, Returned(list - {email})) == Redirect(ToComingSoon(req.url))
  {
    assert email in list + {email};
    assert email !in list - {email};
  }

  /** The interceptor as deployed: requests the route filter leaves out
      (framework assets, the favicon, images) never reach it. */
  function Gate(req: Request, auth: string -> Call<Option<User>>, grants: Call<set<string>>): (d: Decision)
    ensures !Matched(req.url.pathname) ==> d == Next
    ensures Matched(req.url.pathname) ==> d == Middleware(req, auth, grants)
  {
    if Matched(req.url.pathname) then Middleware(req, auth, grants) else Next
  }
}
