/** The three authentication cookies of the admin area: the access token
    (`admin_at`), the refresh token (`admin_rt`) and the CSRF token
    (`admin_csrf`), issued on a response's cookie jar and cleared again. */
module AuthCookies {
  import opened Text

  const AccessCookie: string := "admin_at"
  const RefreshCookie: string := "admin_rt"
  const CsrfCookie: string := "admin_csrf"
  const AuthCookieNames: set<string> := {AccessCookie, RefreshCookie, CsrfCookie}

  /** Fallback lifetimes in seconds: 15 minutes and 7 days. */
  const DefaultAccessMaxAge: int := 900
  const DefaultRefreshMaxAge: int := 60 * 60 * 24 * 7

  datatype SameSite = Lax

  /** A cookie as `cookies.set` records it; an option left out of the call is
      `None` (for `sameSite`) or `false` (for `secure`). */
  datatype Cookie = Cookie(
    value: string,
    httpOnly: bool,
    sameSite: Option<SameSite>,
    secure: bool,
    path: string,
    maxAge: int)

  /** The signed-in user record, carried through unchanged. */
  datatype User = User(id: string)

  /** The token response of the back end's login and refresh endpoints.
      An expiry the back end left out is `None`. */
  datatype AuthTokens = AuthTokens(
    tokenType: string,
    accessToken: string,
    accessTokenExpiresIn: Option<real>,
    refreshToken: string,
    refreshTokenExpiresIn: Option<real>,
    user: User)

  /** `cookieMaxAge`: a missing, zero or negative lifetime falls back to
      `fallback`; any other lifetime is rounded down to whole seconds. */
  function CookieMaxAge(value: Option<real>, fallback: int): (r: int)
    ensures value.None? || value.value <= 0.0 ==> r == fallback
    ensures value.Some? && value.value > 0.0 ==> 0 <= r && r as real <= value.value < r as real + 1.0
  {
    if value.None? || value.value == 0.0 || value.value <= 0.0 then fallback
    else value.value.Floor
  }

  /** `s.replace(/-/g, "")`. */
  function RemoveDashes(s: string): (r: string)
    ensures '-' !in r
    ensures multiset(r) == multiset(s)['-' := 0]
  {
    if s == [] then []
    else
      assert s == [s[0]] + s[1..];
      (if s[0] == '-' then [] else [s[0]]) + RemoveDashes(s[1..])
  }

  /** The base-36 digit for `d % 36`: `0`-`9`, then `a`-`z`. */
  function Base36Digit(d: nat): (c: char)
    ensures IsAsciiDigit(c) || IsAsciiLower(c)
  {
    var v := d % 36;
    if v < 10 then ('0' as int + v) as char else ('a' as int + v - 10) as char
  }

  /** `Math.random().toString(36).slice(2)`, given the base-36 digits of the
      random fraction. */
  function Base36Fraction(digits: seq<nat>): (r: string)
    ensures |r| == |digits|
    ensures forall k :: 0 <= k < |r| ==> IsAsciiDigit(r[k]) || IsAsciiLower(r[k])
  {
    seq(|digits|, k requires 0 <= k < |digits| => Base36Digit(digits[k]))
  }

  /** `generateCsrfToken`: a random UUID without its dashes when
      `crypto.randomUUID` exists (`uuid`), otherwise two random base-36
      fractions. The token never contains a dash. */
  function GenerateCsrfToken(uuid: Option<string>, first: seq<nat>, second: seq<nat>): (token: string)
    ensures '-' !in token
  {
    if uuid.Some? then RemoveDashes(uuid.value)
    else Base36Fraction(first) + Base36Fraction(second)
  }

  /** The jar after `applyAuthCookies` issued `tokens` with CSRF token `csrf`. */
  function Applied(jar: map<string, Cookie>, tokens: AuthTokens, csrf: string, isProd: bool): map<string, Cookie> {
    var accessMaxAge := CookieMaxAge(tokens.accessTokenExpiresIn, DefaultAccessMaxAge);
    var refreshMaxAge := CookieMaxAge(tokens.refreshTokenExpiresIn, DefaultRefreshMaxAge);
    jar[AccessCookie := Cookie(tokens.accessToken, true, Some(Lax), isProd, "/", accessMaxAge)]
       [RefreshCookie := Cookie(tokens.refreshToken, true, Some(Lax), isProd, "/", refreshMaxAge)]
       [CsrfCookie := Cookie(csrf, false, Some(Lax), isProd, "/", refreshMaxAge)]
  }

  /** An expired, empty cookie as `clearAuthCookies` writes it. */
  function Expired(httpOnly: bool): Cookie {
    Cookie("", httpOnly, None, false, "/", 0)
  }

  /** The jar after `clearAuthCookies`. */
  function Cleared(jar: map<string, Cookie>): map<string, Cookie> {
    jar[AccessCookie := Expired(true)][RefreshCookie := Expired(true)][CsrfCookie := Expired(false)]
  }

  /** Issued cookies carry the tokens and lifetimes of the response: the
      access and refresh cookies are HTTP-only, the CSRF cookie is readable by
      scripts and lives as long as the refresh cookie, and all three are
      site-wide and same-site lax. */
  lemma AppliedCookies(jar: map<string, Cookie>, tokens: AuthTokens, csrf: string, isProd: bool)
    ensures var j := Applied(jar, tokens, csrf, isProd);
      && AuthCookieNames <= j.Keys
      && j[AccessCookie].value == tokens.accessToken
      && j[RefreshCookie].value == tokens.refreshToken
      && j[CsrfCookie].value == csrf
      && j[AccessCookie].maxAge == CookieMaxAge(tokens.accessTokenExpiresIn, 900)
      && j[RefreshCookie].maxAge == CookieMaxAge(tokens.refreshTokenExpiresIn, 604800)
      && j[CsrfCookie].maxAge == j[RefreshCookie].maxAge
      && j[AccessCookie].httpOnly && j[RefreshCookie].httpOnly && !j[CsrfCookie].httpOnly
      && (forall n :: n in AuthCookieNames ==> j[n].path == "/" && j[n].sameSite == Some(Lax))
      && (forall n :: n !in AuthCookieNames ==> (n in j <==> n in jar) && (n in jar ==> j[n] == jar[n]))
  {
  }

  /** Clearing empties the three cookies, expires them, and leaves every other
      cookie as it was. */
  lemma ClearedCookies(jar: map<string, Cookie>)
    ensures var j := Cleared(jar);
      && AuthCookieNames <= j.Keys
      && (forall n :: n in AuthCookieNames ==> j[n].value == "" && j[n].maxAge == 0 && j[n].path == "/")
      && j[AccessCookie].httpOnly && j[RefreshCookie].httpOnly && !j[CsrfCookie].httpOnly
      && (forall n :: n !in AuthCookieNames ==> (n in j <==> n in jar) && (n in jar ==> j[n] == jar[n]))
  {
  }

  /** Issuing and then clearing leaves no authentication cookie with a value. */
  lemma ClearAfterApply(jar: map<string, Cookie>, tokens: AuthTokens, csrf: string, isProd: bool)
    ensures var j := Cleared(Applied(jar, tokens, csrf, isProd));
      forall n :: n in AuthCookieNames ==> n in j && j[n].value == "" && j[n].maxAge == 0
  {
  }

  /** A response's cookie jar (`res.cookies`). */
  class ResponseCookies {
    var jar: map<string, Cookie>

    constructor ()
      ensures jar == map[]
    {
      jar := map[];
    }

    /** `applyAuthCookies`: issues the three cookies and returns the CSRF
        token. The random sources of `generateCsrfToken` are parameters. */
    method ApplyAuthCookies(tokens: AuthTokens, isProd: bool, uuid: Option<string>, first: seq<nat>, second: seq<nat>)
      returns (csrfToken: string)
      modifies this
      ensures csrfToken == GenerateCsrfToken(uuid, first, second)
      ensures '-' !in csrfToken
      ensures jar == Applied(old(jar), tokens, csrfToken, isProd)
    {
      var accessMaxAge := CookieMaxAge(tokens.accessTokenExpiresIn, 900);
      var refreshMaxAge := CookieMaxAge(tokens.refreshTokenExpiresIn, 60 * 60 * 24 * 7);
      csrfToken := GenerateCsrfToken(uuid, first, second);
      jar := jar[AccessCookie := Cookie(tokens.accessToken, true, Some(Lax), isProd, "/", accessMaxAge)];
      jar := jar[RefreshCookie := Cookie(tokens.refreshToken, true, Some(Lax), isProd, "/", refreshMaxAge)];
      jar := jar[CsrfCookie := Cookie(csrfToken, false, Some(Lax), isProd, "/", refreshMaxAge)];
    }

    /** `clearAuthCookies`. */
    method ClearAuthCookies()
      modifies this
      ensures jar == Cleared(old(jar))
    {
      jar := jar[AccessCookie := Expired(true)];
      jar := jar[RefreshCookie := Expired(true)];
      jar := jar[CsrfCookie := Expired(false)];
    }
  }
}
