/** The `/admin` route guard of `src/middleware.ts`: admin pages other than
    the login page need an `actorUserId` cookie. */
module MiddlewareGuard {
  import opened Text
  import opened ProxyGuard

  /** `middleware`: the login page always passes; any other path that starts
      with `/admin` is sent to the login page unless `actorUserId` is set;
      every other path passes. */
  function Middleware(pathname: string, cookies: map<string, string>): (d: Decision)
    ensures d == Pass || d == Redirect(LoginPath)
    ensures d.Redirect? <==>
      pathname != LoginPath && StartsWith(pathname, AdminPrefix) && !HasCookie(cookies, "actorUserId")
  {
    if pathname == LoginPath then Pass
    else if StartsWith(pathname, AdminPrefix) && !HasCookie(cookies, "actorUserId") then Redirect(LoginPath)
    else Pass
  }

  /** What a request meets under the same `/admin/:path*` matcher: the
      guard where the matcher covers the path, and no guard elsewhere. */
  function RoutedMiddleware(pathname: string, cookies: map<string, string>): (d: Decision)
    ensures d == Pass || d == Redirect(LoginPath)
    ensures d.Redirect? <==>
      MatcherCovers(pathname) && pathname != LoginPath && !HasCookie(cookies, "actorUserId")
  {
    if MatcherCovers(pathname) then
      MatcherWithinPrefix(pathname);
      Middleware(pathname, cookies)
    else Pass
  }

  /** The two guards differ only in which cookie they look at: on the login
      page and outside `/admin` both let every request through, and inside
      `/admin` a request that carries every cookie passes both. */
  lemma GuardsAgreeOutsideCookies(pathname: string, cookies: map<string, string>)
    ensures pathname == LoginPath || !StartsWith(pathname, AdminPrefix) ==>
      Middleware(pathname, cookies) == Pass && Proxy(pathname, cookies) == Pass
    ensures HasCookie(cookies, "actorUserId") && HasCookie(cookies, "admin_at") ==>
      Middleware(pathname, cookies) == Proxy(pathname, cookies) == Pass
  {
  }
}
