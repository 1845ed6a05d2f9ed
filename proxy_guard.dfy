/** The `/admin` route guard of `src/proxy.ts`: admin pages other than the
    login page need an access or a refresh token cookie. */
module ProxyGuard {
  import opened Text

  const LoginPath: string := "/admin/login"
  const AdminPrefix: string := "/admin"

  /** What the guard answers: let the request through, or redirect it. */
  datatype Decision = Pass | Redirect(location: string)

  /** `request.cookies.get(name)?.value` is a non-empty string. */
  predicate HasCookie(cookies: map<string, string>, name: string) {
    name in cookies && cookies[name] != ""
  }

  /** `proxy`: the login page always passes; any other path that starts with
      `/admin` is sent to the login page unless `admin_at` or `admin_rt` is
      set; every other path passes. */
  function Proxy(pathname: string, cookies: map<string, string>): (d: Decision)
    ensures d == Pass || d == Redirect(LoginPath)
    ensures d.Redirect? <==>
      pathname != LoginPath && StartsWith(pathname, AdminPrefix)
      && !HasCookie(cookies, "admin_at") && !HasCookie(cookies, "admin_rt")
  {
    if pathname == LoginPath then Pass
    else if StartsWith(pathname, AdminPrefix) && !HasCookie(cookies, "admin_at") && !HasCookie(cookies, "admin_rt") then
      Redirect(LoginPath)
    else Pass
  }

  /** Either token cookie is enough to reach any page. */
  lemma TokenCookiePasses(pathname: string, cookies: map<string, string>)
    requires HasCookie(cookies, "admin_at") || HasCookie(cookies, "admin_rt")
    ensures Proxy(pathname, cookies) == Pass
  {
  }

  /** The route matcher `/admin/:path*` of the guard's `config`: `/admin`
      itself or any path below `/admin/`. Next.js runs the guard only on
      the paths the matcher covers. */
  predicate MatcherCovers(pathname: string) {
    pathname == AdminPrefix || StartsWith(pathname, AdminPrefix + "/")
  }

  /** Every path the matcher covers passes the guard's own prefix test. */
  lemma MatcherWithinPrefix(pathname: string)
    requires MatcherCovers(pathname)
    ensures StartsWith(pathname, AdminPrefix)
  {
    if pathname != AdminPrefix {
      assert pathname[..|AdminPrefix|] == (pathname[..|AdminPrefix| + 1])[..|AdminPrefix|];
    }
  }

  /** What a request meets: the guard where the matcher covers the path,
      and no guard anywhere else. */
  function Routed(pathname: string, cookies: map<string, string>): (d: Decision)
    ensures d == Pass || d == Redirect(LoginPath)
    ensures d.Redirect? <==>
      MatcherCovers(pathname) && pathname != LoginPath
      && !HasCookie(cookies, "admin_at") && !HasCookie(cookies, "admin_rt")
  {
    if MatcherCovers(pathname) then
      MatcherWithinPrefix(pathname);
      Proxy(pathname, cookies)
    else Pass
  }

  /** The prefix test alone would also redirect `/administrator`; the
      matcher keeps the guard from running there, so the request passes. */
  lemma PrefixMatchGuardsAdministrator()
    ensures Proxy("/administrator", map[]) == Redirect(LoginPath)
    ensures Routed("/administrator", map[]) == Pass
  {
    assert StartsWith("/administrator", AdminPrefix) by {
      assert "/administrator"[..6] == "/admin";
    }
    assert !MatcherCovers("/administrator") by {
      assert "/administrator"[..7] != "/admin/" by {
        assert "/administrator"[6] == 'i';
      }
    }
  }
}
