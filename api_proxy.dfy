/** The server-side proxy from the front end's `/api/...` routes to the back
    end: which calls need a session, which need a CSRF token, when the proxy
    answers by itself, and the refresh-once, retry-once rule on a 401.
    The back end's replies and `JSON.parse` are parameters. */
module ApiProxy {
  import opened Text
  import opened AuthCookies

  // ---------------------------------------------------------------------
  // Headers

  /** A `Headers` object, keyed by the lower-cased header name. */
  type Headers = map<string, string>

  /** `headers.get(name)`: the lookup ignores the case of `name`. */
  function HeaderGet(h: Headers, name: string): Option<string> {
    if Lower(name) in h then Some(h[Lower(name)]) else None
  }

  /** `headers.set(name, value)`. */
  function HeaderSet(h: Headers, name: string, value: string): Headers {
    h[Lower(name) := value]
  }

  /** A header value that JavaScript treats as true: present and non-empty. */
  predicate Truthy(v: Option<string>) {
    v.Some? && v.value != ""
  }

  /** `withInternalProxyHeaders`: adds the shared proxy key when one is configured. */
  function WithInternalProxyHeaders(h: Headers, proxyKey: string): (r: Headers)
    ensures proxyKey == "" ==> r == h
    ensures proxyKey != "" ==> r == h["x-internal-proxy-key" := proxyKey]
  {
    LowerOfLowercase("X-Internal-Proxy-Key", "x-internal-proxy-key");
    if proxyKey != "" then HeaderSet(h, "X-Internal-Proxy-Key", proxyKey) else h
  }

  lemma LowerOfLowercase(name: string, lowered: string)
    requires |name| == |lowered|
    requires forall k :: 0 <= k < |name| ==> LowerChar(name[k]) == lowered[k]
    ensures Lower(name) == lowered
  {
  }

  /** The request headers `buildUpstreamHeaders` copies to the back end. */
  const ForwardedNames: seq<string> :=
    ["content-type", "accept", "range", "if-none-match", "if-match", "x-frontpage-version", "if-modified-since"]

  /** The response headers `passthroughHeaders` copies back to the browser. */
  const PassthroughNames: seq<string> :=
    ["content-type", "content-disposition", "content-length", "etag", "cache-control",
     "accept-ranges", "content-range", "location", "x-content-type-options"]

  /** Every name of `names` whose value in `from` is non-empty, with that value. */
  function Copied(from: Headers, names: seq<string>): (r: Headers)
    ensures forall n :: n in r <==> n in names && n in from && from[n] != ""
    ensures forall n :: n in r ==> r[n] == from[n]
  {
    map n | n in names && n in from && from[n] != "" :: from[n]
  }

  /** `passthroughHeaders`: copies the listed response headers that have a
      non-empty value, and no other header. */
  method PassthroughHeaders(from: Headers) returns (headers: Headers)
    ensures headers == Copied(from, PassthroughNames)
  {
    headers := map[];
    var i := 0;
    while i < |PassthroughNames|
      invariant 0 <= i <= |PassthroughNames|
      invariant headers == Copied(from, PassthroughNames[..i])
    {
      var key := PassthroughNames[i];
      assert PassthroughNames[..i + 1] == PassthroughNames[..i] + [key];
      if key in from && from[key] != "" {
        headers := headers[key := from[key]];
      }
      i := i + 1;
    }
    assert PassthroughNames[..i] == PassthroughNames;
  }

  /** A bearer `Authorization` header, when there is a token. */
  function Bearer(accessToken: string): (r: Headers)
    ensures "authorization" in r <==> accessToken != ""
    ensures accessToken != "" ==> r["authorization"] == "Bearer " + accessToken
    ensures forall n :: n in r ==> n == "authorization"
  {
    if accessToken != "" then map["authorization" := "Bearer " + accessToken] else map[]
  }

  /** The headers `buildUpstreamHeaders` produces. */
  function UpstreamHeaders(request: Headers, proxyKey: string, accessToken: string): Headers {
    WithInternalProxyHeaders(map[], proxyKey) + Copied(request, ForwardedNames) + Bearer(accessToken)
  }

  /** What reaches the back end: each listed request header that is set,
      with its value; a bearer token when there is one; the proxy key when
      configured; and no other header. */
  lemma UpstreamHeadersForwarded(request: Headers, proxyKey: string, accessToken: string, n: string)
    requires n in ForwardedNames
    ensures var h := UpstreamHeaders(request, proxyKey, accessToken);
      (n in h <==> n in request && request[n] != "") && (n in h ==> h[n] == request[n])
  {
  }

  lemma UpstreamHeadersAdded(request: Headers, proxyKey: string, accessToken: string)
    ensures var h := UpstreamHeaders(request, proxyKey, accessToken);
      && ("authorization" in h <==> accessToken != "")
      && (accessToken != "" ==> h["authorization"] == "Bearer " + accessToken)
      && ("x-internal-proxy-key" in h <==> proxyKey != "")
      && (proxyKey != "" ==> h["x-internal-proxy-key"] == proxyKey)
      && (forall n :: n in h ==> n in ForwardedNames || n == "authorization" || n == "x-internal-proxy-key")
  {
  }

  /** `buildUpstreamHeaders`: the proxy key, then each listed request header
      that is set (the source spells the seven copies out one by one, and
      reads `X-FrontPage-Version` under a second spelling that names the same
      header), then the bearer token. */
  method BuildUpstreamHeaders(request: Headers, proxyKey: string, accessToken: string) returns (headers: Headers)
    ensures headers == UpstreamHeaders(request, proxyKey, accessToken)
  {
    var copied: Headers := map[];
    var i := 0;
    while i < |ForwardedNames|
      invariant 0 <= i <= |ForwardedNames|
      invariant copied == Copied(request, ForwardedNames[..i])
    {
      var key := ForwardedNames[i];
      assert ForwardedNames[..i + 1] == ForwardedNames[..i] + [key];
      if key in request && request[key] != "" {
        copied := copied[key := request[key]];
      }
      i := i + 1;
    }
    assert ForwardedNames[..i] == ForwardedNames;
    headers := WithInternalProxyHeaders(map[], proxyKey) + copied + Bearer(accessToken);
  }

  /** The two spellings the proxy uses for the front-page version header
      name the same header. */
  lemma FrontPageVersionSpellings(h: Headers)
    ensures HeaderGet(h, "X-FrontPage-Version") == HeaderGet(h, "x-frontpage-version")
  {
    LowerOfLowercase("X-FrontPage-Version", "x-frontpage-version");
    LowerOfLowercase("x-frontpage-version", "x-frontpage-version");
  }

  // ---------------------------------------------------------------------
  // Methods and policy

  const MutatingMethods: set<string> := {"POST", "PUT", "PATCH", "DELETE"}

  /** `isMutatingMethod`: POST, PUT, PATCH or DELETE, in any letter case. */
  function IsMutatingMethod(verb: string): (r: bool)
    ensures r <==> exists m :: m in MutatingMethods && EqualsIgnoringCase(verb, m)
  {
    forall m | m in MutatingMethods ensures Upper(verb) == m <==> EqualsIgnoringCase(verb, m) {
      UpperMatches(verb, m);
    }
    Upper(verb) in MutatingMethods
  }

  lemma UpperLowerChar(c: char)
    ensures UpperChar(LowerChar(c)) == UpperChar(c)
  {
  }

  /** The method test ignores letter case. */
  lemma MutatingIgnoresCase(verb: string)
    ensures IsMutatingMethod(Lower(verb)) == IsMutatingMethod(verb)
  {
    assert Upper(Lower(verb)) == Upper(verb) by {
      forall k | 0 <= k < |verb| ensures Upper(Lower(verb))[k] == Upper(verb)[k] {
        UpperLowerChar(verb[k]);
      }
    }
  }

  lemma ReadsAreNotMutating()
    ensures !IsMutatingMethod("GET") && !IsMutatingMethod("HEAD")
  {
    assert Upper("GET") == "GET";
    assert Upper("HEAD") == "HEAD";
  }

  /** The per-route options of `proxyToBE`; `None` takes the default. */
  datatype ProxyOptions = ProxyOptions(
    requireAuth: Option<bool>,
    enforceCsrf: Option<bool>,
    allowRefreshOn401: Option<bool>)

  datatype Policy = Policy(requireAuth: bool, enforceCsrf: bool, allowRefreshOn401: bool)

  /** The back-end path with a leading slash. */
  function NormalizeBePath(bePath: string): (r: string)
    ensures StartsWith(r, "/")
    ensures StartsWith(bePath, "/") ==> r == bePath
  {
    if StartsWith(bePath, "/") then bePath else "/" + bePath
  }

  /** Admin calls and the current-user call need a session by default. */
  predicate AuthByDefault(path: string) {
    StartsWith(path, "/api/admin/") || path == "/api/auth/me"
  }

  /** The policy of one call: each option the route gives, else its
      default. A session is needed by default on the admin paths and the
      current-user path, with or without the leading slash; CSRF by default
      where a session is needed and the method mutates, in any letter case;
      a refresh after 401 by default where a session is needed. */
  function PolicyFor(bePath: string, verb: string, options: ProxyOptions): (r: Policy)
    ensures options.requireAuth.Some? ==> r.requireAuth == options.requireAuth.value
    ensures options.requireAuth.None? ==>
      (r.requireAuth <==>
        StartsWith(bePath, "/api/admin/") || bePath == "/api/auth/me"
        || StartsWith(bePath, "api/admin/") || bePath == "api/auth/me")
    ensures options.enforceCsrf.Some? ==> r.enforceCsrf == options.enforceCsrf.value
    ensures options.enforceCsrf.None? ==>
      (r.enforceCsrf <==> r.requireAuth && exists m :: m in MutatingMethods && EqualsIgnoringCase(verb, m))
    ensures options.allowRefreshOn401.Some? ==> r.allowRefreshOn401 == options.allowRefreshOn401.value
    ensures options.allowRefreshOn401.None? ==> r.allowRefreshOn401 == r.requireAuth
  {
    MutatingUpper(verb);
    AuthByDefaultWithoutSlash(bePath);
    var requireAuth := options.requireAuth.GetOr(AuthByDefault(NormalizeBePath(bePath)));
    Policy(
      requireAuth,
      options.enforceCsrf.GetOr(requireAuth && IsMutatingMethod(Upper(verb))),
      options.allowRefreshOn401.GetOr(requireAuth))
  }

  lemma UpperIdempotent(s: string)
    ensures Upper(Upper(s)) == Upper(s)
  {
  }

  /** Upper-casing a method name does not change whether it mutates. */
  lemma MutatingUpper(verb: string)
    ensures IsMutatingMethod(Upper(verb)) <==> exists m :: m in MutatingMethods && EqualsIgnoringCase(verb, m)
  {
    UpperIdempotent(verb);
    assert IsMutatingMethod(Upper(verb)) == IsMutatingMethod(verb);
  }

  /** The default session test on a path given with or without its
      leading slash. */
  lemma AuthByDefaultWithoutSlash(bePath: string)
    ensures AuthByDefault(NormalizeBePath(bePath)) <==>
      StartsWith(bePath, "/api/admin/") || bePath == "/api/auth/me"
      || StartsWith(bePath, "api/admin/") || bePath == "api/auth/me"
  {
    if !StartsWith(bePath, "/") {
      var n := "/" + bePath;
      assert StartsWith(n, "/api/admin/") <==> StartsWith(bePath, "api/admin/") by {
        if |bePath| >= 10 {
          assert n[..11] == "/" + bePath[..10];
          assert n[..11][1..] == bePath[..10];
          assert "/api/admin/"[1..] == "api/admin/";
        }
      }
      assert n == "/api/auth/me" <==> bePath == "api/auth/me" by {
        if n == "/api/auth/me" {
          assert bePath == n[1..];
        }
      }
      assert !StartsWith(bePath, "/api/admin/") && bePath != "/api/auth/me" by {
        if |bePath| > 0 {
          assert bePath[0] != '/' by {
            assert bePath[..1] != "/";
          }
        }
      }
    } else {
      assert !StartsWith(bePath, "api/admin/") && bePath != "api/auth/me" by {
        assert bePath[0] == '/';
      }
    }
  }

  /** Without options, admin calls need a session, mutating admin calls need
      a CSRF token, and a 401 may be refreshed exactly when a session is
      needed. */
  lemma DefaultPolicy(bePath: string, verb: string)
    ensures var p := PolicyFor(bePath, verb, ProxyOptions(None, None, None));
      && p.requireAuth == AuthByDefault(NormalizeBePath(bePath))
      && p.enforceCsrf == (p.requireAuth && IsMutatingMethod(verb))
      && p.allowRefreshOn401 == p.requireAuth
  {
    UpperIdempotent(verb);
  }

  /** An explicit option always wins over its default. */
  lemma ExplicitOptionsWin(bePath: string, verb: string, options: ProxyOptions)
    ensures var p := PolicyFor(bePath, verb, options);
      && (options.requireAuth.Some? ==> p.requireAuth == options.requireAuth.value)
      && (options.enforceCsrf.Some? ==> p.enforceCsrf == options.enforceCsrf.value)
      && (options.allowRefreshOn401.Some? ==> p.allowRefreshOn401 == options.allowRefreshOn401.value)
  {
  }

  /** A path without its leading slash gets the same default. */
  lemma BePathSlashOptional(bePath: string)
    requires !StartsWith(bePath, "/")
    ensures AuthByDefault(NormalizeBePath(bePath)) == AuthByDefault(NormalizeBePath("/" + bePath))
  {
    assert StartsWith("/" + bePath, "/");
  }

  // ---------------------------------------------------------------------
  // Token payloads

  /** `JSON.parse(raw)` read as a partial token response. A field that is
      missing or of the wrong type is `None`; an expiry that `Number` turns
      into `NaN` is `None`. */
  datatype PartialAuth = PartialAuth(
    accessToken: Option<string>,
    refreshToken: Option<string>,
    user: Option<User>,
    accessTokenExpiresIn: Option<real>,
    refreshTokenExpiresIn: Option<real>)

  /** `Number(v) || fallback`. */
  function NumberOr(v: Option<real>, fallback: int): (r: real)
    ensures r != 0.0 || fallback == 0
    ensures v.Some? && v.value != 0.0 ==> r == v.value
    ensures v.None? || v.value == 0.0 ==> r == fallback as real
  {
    if v.None? || v.value == 0.0 then fallback as real else v.value
  }

  /** `parseAuthPayload`: a token response only when the body parses and
      carries an access token, a refresh token and a user; missing expiries
      default to 15 minutes and 7 days; the type is always `Bearer`.
      `parse` stands for `JSON.parse`, with `None` for a failure or `null`. */
  function ParseAuthPayload(raw: string, parse: string -> Option<PartialAuth>): (r: Option<AuthTokens>)
    ensures r.Some? <==>
      raw != "" && parse(raw).Some? && Truthy(parse(raw).value.accessToken)
      && Truthy(parse(raw).value.refreshToken) && parse(raw).value.user.Some?
    ensures r.Some? ==>
      var d := parse(raw).value;
      && r.value.tokenType == "Bearer"
      && r.value.accessToken == d.accessToken.value && r.value.accessToken != ""
      && r.value.refreshToken == d.refreshToken.value && r.value.refreshToken != ""
      && r.value.user == d.user.value
      && r.value.accessTokenExpiresIn == Some(NumberOr(d.accessTokenExpiresIn, DefaultAccessMaxAge))
      && r.value.refreshTokenExpiresIn == Some(NumberOr(d.refreshTokenExpiresIn, DefaultRefreshMaxAge))
  {
    var data := if raw == "" then None else parse(raw);
    if data.None? || !Truthy(data.value.accessToken) || !Truthy(data.value.refreshToken) || data.value.user.None? then
      None
    else
      Some(AuthTokens(
        "Bearer",
        data.value.accessToken.value,
        Some(NumberOr(data.value.accessTokenExpiresIn, 900)),
        data.value.refreshToken.value,
        Some(NumberOr(data.value.refreshTokenExpiresIn, 60 * 60 * 24 * 7)),
        data.value.user.value))
  }

  /** The default `parseAuthPayload` fills in and the one the cookies fall
      back to agree: the cookie lifetimes of a parsed payload are those of
      its raw expiries, 15 minutes and 7 days when an expiry is missing,
      zero or negative. */
  lemma ParsedDefaultsGiveDefaultLifetimes(raw: string, parse: string -> Option<PartialAuth>)
    requires ParseAuthPayload(raw, parse).Some?
    ensures var d, t := parse(raw).value, ParseAuthPayload(raw, parse).value;
      && CookieMaxAge(t.accessTokenExpiresIn, DefaultAccessMaxAge) == CookieMaxAge(d.accessTokenExpiresIn, DefaultAccessMaxAge)
      && CookieMaxAge(t.refreshTokenExpiresIn, DefaultRefreshMaxAge) == CookieMaxAge(d.refreshTokenExpiresIn, DefaultRefreshMaxAge)
    ensures var d, t := parse(raw).value, ParseAuthPayload(raw, parse).value;
      && (d.accessTokenExpiresIn.None? ==> CookieMaxAge(t.accessTokenExpiresIn, DefaultAccessMaxAge) == 900)
      && (d.refreshTokenExpiresIn.None? ==> CookieMaxAge(t.refreshTokenExpiresIn, DefaultRefreshMaxAge) == 604800)
  {
  }

  // ---------------------------------------------------------------------
  // Base URL

  /** A parsed absolute URL: `origin` and `pathname` as `new URL` gives them. */
  datatype ParsedUrl = ParsedUrl(origin: string, pathname: string)

  /** The characters of `s` other than slashes, in order. */
  function WithoutSlashes(s: string): (r: string)
    ensures |r| <= |s|
    ensures forall k :: 0 <= k < |r| ==> r[k] != '/'
  {
    if s == [] then [] else (if s[0] == '/' then [] else [s[0]]) + WithoutSlashes(s[1..])
  }

  /** `s.replace(/\/{2,}/g, "/")`: every run of slashes becomes one slash. */
  function CollapseSlashes(s: string): (r: string)
    ensures |r| <= |s|
    ensures r == [] <==> s == []
    ensures r != [] ==> r[0] == s[0] && r[|r| - 1] == s[|s| - 1]
    ensures forall k :: 0 <= k < |r| - 1 ==> !(r[k] == '/' && r[k + 1] == '/')
    ensures WithoutSlashes(r) == WithoutSlashes(s)
    decreases |s|
  {
    if |s| >= 2 && s[0] == '/' && s[1] == '/' then CollapseSlashes(s[1..])
    else if s == [] then []
    else
      var c := CollapseSlashes(s[1..]);
      WithoutSlashesCons(s[0], c);
      assert c != [] ==> c[0] == s[1] && c[|c| - 1] == s[|s| - 1];
      [s[0]] + c
  }

  lemma WithoutSlashesCons(x: char, c: string)
    ensures WithoutSlashes([x] + c) == (if x == '/' then [] else [x]) + WithoutSlashes(c)
  {
    assert ([x] + c)[1..] == c;
  }

  /** Replacing every run of slashes by one slash is splitting at the
      slashes, dropping the empty pieces between two slashes and joining the
      rest with one slash. */
  lemma {:induction false} CollapseSlashesSplit(s: string)
    ensures Split(CollapseSlashes(s), '/') == DropInnerEmpties(Split(s, '/'))
    ensures CollapseSlashes(s) == Join(DropInnerEmpties(Split(s, '/')), "/")
    decreases |s|
  {
    if s != [] {
      CollapseSlashesSplit(s[1..]);
      var c := CollapseSlashes(s[1..]);
      if |s| >= 2 && s[0] == '/' && s[1] == '/' {
        assert CollapseSlashes(s) == c;
        SplitDoubleSlash(s);
      } else {
        assert CollapseSlashes(s) == [s[0]] + c;
        if s[0] == '/' {
          SingleSlashStep(s, c);
        } else {
          NonSlashStep(s, c);
        }
      }
    }
    JoinSplit(CollapseSlashes(s), '/');
  }

  /** A slash followed by another slash leaves the same pieces once the
      inner empty ones are dropped. */
  lemma SplitDoubleSlash(s: string)
    requires |s| >= 2 && s[0] == '/' && s[1] == '/'
    ensures DropInnerEmpties(Split(s, '/')) == DropInnerEmpties(Split(s[1..], '/'))
  {
    assert s[1..][1..] == s[2..];
    var p := Split(s[2..], '/');
    assert Split(s[1..], '/') == [""] + p;
    assert Split(s, '/') == [""] + Split(s[1..], '/');
    assert [""] + ([""] + p) == [""] + [""] + p;
    DropRepeatedEmpty(p);
  }

  /** A single slash in front keeps one empty first piece. */
  lemma SplitSingleSlash(s: string)
    requires s != [] && s[0] == '/' && (|s| == 1 || s[1] != '/')
    ensures DropInnerEmpties(Split(s, '/')) == [""] + DropInnerEmpties(Split(s[1..], '/'))
  {
    assert Split(s, '/') == [""] + Split(s[1..], '/');
    var p := Split(s[1..], '/');
    if |s| == 1 {
      assert p == [""];
    } else {
      assert p[0] == [s[1]] + Split(s[2..], '/')[0] by {
        assert s[1..][0] == s[1] && s[1..][1..] == s[2..];
      }
    }
    DropLeadingEmpty(p);
  }

  lemma SingleSlashStep(s: string, c: string)
    requires s != [] && s[0] == '/' && (|s| == 1 || s[1] != '/')
    requires Split(c, '/') == DropInnerEmpties(Split(s[1..], '/'))
    ensures Split([s[0]] + c, '/') == DropInnerEmpties(Split(s, '/'))
  {
    var r := [s[0]] + c;
    assert r[1..] == c;
    assert Split(r, '/') == [""] + Split(c, '/');
    SplitSingleSlash(s);
  }

  lemma NonSlashStep(s: string, c: string)
    requires s != [] && s[0] != '/'
    requires Split(c, '/') == DropInnerEmpties(Split(s[1..], '/'))
    ensures Split([s[0]] + c, '/') == DropInnerEmpties(Split(s, '/'))
  {
    var r := [s[0]] + c;
    assert r[1..] == c;
    var p := Split(s[1..], '/');
    var q := Split(c, '/');
    assert Split(r, '/') == [[s[0]] + q[0]] + q[1..];
    assert Split(s, '/') == [[s[0]] + p[0]] + p[1..];
    DropKeepsHead([s[0]] + p[0], p);
  }

  /** `s.replace(/\/+$/, "")`: drops every trailing slash. */
  function DropTrailingSlashes(s: string): (r: string)
    ensures |r| <= |s| && r == s[..|r|]
    ensures r == [] || r[|r| - 1] != '/'
    ensures forall k :: |r| <= k < |s| ==> s[k] == '/'
    decreases |s|
  {
    if s != [] && s[|s| - 1] == '/' then DropTrailingSlashes(s[..|s| - 1]) else s
  }

  /** `normalizeBaseUrl`: the trimmed setting, re-assembled from origin and
      path when it parses as a URL, otherwise with trailing slashes dropped.
      `parse` stands for `new URL`, with `None` when it throws. */
  function NormalizeBaseUrl(raw: Option<string>, parse: string -> Option<ParsedUrl>): (r: string)
    ensures Trim(raw.GetOr("")) == "" ==> r == ""
    ensures var input := Trim(raw.GetOr(""));
      input != "" && parse(input).None? ==> r == DropTrailingSlashes(input)
    ensures var input := Trim(raw.GetOr(""));
      input != "" && parse(input).Some? ==>
        r == parse(input).value.origin + DropTrailingSlashes(CollapseSlashes(parse(input).value.pathname))
  {
    var input := Trim(raw.GetOr(""));
    if input == "" then ""
    else
      match parse(input)
      case Some(parsed) =>
        var collapsed := DropTrailingSlashes(CollapseSlashes(parsed.pathname));
        var pathname := if collapsed == "/" then "" else collapsed;
        NormalizedPathShape(parsed.pathname);
        parsed.origin + pathname
      case None => DropTrailingSlashes(input)
  }

  /** The path part `normalizeBaseUrl` appends never ends in a slash and never
      holds two slashes in a row; in particular the `"/"` case is already
      covered by dropping trailing slashes. */
  lemma NormalizedPathShape(pathname: string)
    ensures var p := DropTrailingSlashes(CollapseSlashes(pathname));
      && p != "/"
      && (p == [] || p[|p| - 1] != '/')
      && forall k :: 0 <= k < |p| - 1 ==> !(p[k] == '/' && p[k + 1] == '/')
  {
    var c := CollapseSlashes(pathname);
    var p := DropTrailingSlashes(c);
    PrefixNoDoubleSlash(c, |p|);
    assert p == c[..|p|];
  }

  /** A prefix of a string without two slashes in a row has none either. */
  lemma PrefixNoDoubleSlash(c: string, n: nat)
    requires n <= |c|
    requires forall k :: 0 <= k < |c| - 1 ==> !(c[k] == '/' && c[k + 1] == '/')
    ensures forall k :: 0 <= k < n - 1 ==> !(c[..n][k] == '/' && c[..n][k + 1] == '/')
  {
  }

  // ---------------------------------------------------------------------
  // proxyToBE

  /** An incoming request: method, query string (`url.search`), headers and cookies. */
  datatype Request = Request(verb: string, search: string, headers: Headers, cookies: map<string, string>, body: string)

  /** A back-end reply: status, headers and body. */
  datatype Reply = Reply(status: int, headers: Headers, body: string)

  /** The refresh endpoint's reply: `ok` and the body text. */
  datatype RefreshReply = RefreshReply(ok: bool, raw: string)

  /** One call the proxy makes to the back end. */
  datatype UpstreamCall =
    | Send(target: string, verb: string, headers: Headers, body: Option<string>)
    | Refresh(target: string, headers: Headers, refreshToken: string)

  datatype Body = Message(message: string) | Forwarded(content: string)

  /** The response and every back-end call made to produce it. */
  datatype Outcome = Outcome(status: int, body: Body, headers: Headers, cookies: map<string, Cookie>, calls: seq<UpstreamCall>)

  /** Server settings: the normalised back-end URL, the proxy key, production mode. */
  datatype Env = Env(baseUrl: string, proxyKey: string, isProd: bool)

  /** The random sources of `generateCsrfToken`. */
  datatype Randomness = Randomness(uuid: Option<string>, first: seq<nat>, second: seq<nat>)

  /** `cookieStore.get(name)?.value || ""`. */
  function CookieValue(cookies: map<string, string>, name: string): string {
    if name in cookies then cookies[name] else ""
  }

  /** The CSRF check: the header and the cookie are both non-empty and equal.
      The second header lookup, spelled `X-CSRF-Token`, reads the same header. */
  function CsrfMatches(request: Request): (r: bool)
    ensures r <==>
      "x-csrf-token" in request.headers && CsrfCookie in request.cookies
      && request.headers["x-csrf-token"] != ""
      && request.headers["x-csrf-token"] == request.cookies[CsrfCookie]
  {
    var headerToken := if "x-csrf-token" in request.headers then request.headers["x-csrf-token"] else "";
    var cookieToken := CookieValue(request.cookies, CsrfCookie);
    headerToken != "" && cookieToken != "" && headerToken == cookieToken
  }

  /** `refreshAccessToken`: one call to the refresh endpoint and its payload. */
  datatype Refreshed = Refreshed(call: Option<UpstreamCall>, payload: Option<AuthTokens>)

  function RefreshAccessToken(env: Env, refreshToken: string, request: Request, reply: RefreshReply,
                              parse: string -> Option<PartialAuth>): (r: Refreshed)
    ensures env.baseUrl == "" || refreshToken == "" ==> r == Refreshed(None, None)
    ensures env.baseUrl != "" && refreshToken != "" ==>
      && r.call.Some? && r.call.value.Refresh?
      && r.call.value.refreshToken == refreshToken
      && r.call.value.target == env.baseUrl + "/api/auth/refresh"
    ensures r.payload.Some? ==> reply.ok && r.payload == ParseAuthPayload(reply.raw, parse)
  {
    if env.baseUrl == "" || refreshToken == "" then Refreshed(None, None)
    else
      var base := WithInternalProxyHeaders(map["content-type" := "application/json", "accept" := "application/json"], env.proxyKey);
      var headers := if "user-agent" in request.headers && request.headers["user-agent"] != "" then
        base["user-agent" := request.headers["user-agent"]] else base;
      var call := Refresh(env.baseUrl + "/api/auth/refresh", headers, refreshToken);
      Refreshed(Some(call), if !reply.ok then None else ParseAuthPayload(reply.raw, parse))
  }

  /** The refresh path is taken: refresh is allowed, the first reply is 401
      and there is a refresh token. */
  predicate Attempted(policy: Policy, first: Reply, refreshToken: string) {
    policy.allowRefreshOn401 && first.status == 401 && refreshToken != ""
  }

  /** The request is sent again: the refresh produced an access token. */
  predicate Retries(policy: Policy, first: Reply, refreshToken: string, payload: Option<AuthTokens>) {
    Attempted(policy, first, refreshToken) && payload.Some? && payload.value.accessToken != ""
  }

  /** The cookies of a forwarded response: issued when a refresh produced
      tokens, then cleared when a session was required and the final status
      is 401. */
  function FinalCookies(policy: Policy, status: int, payload: Option<AuthTokens>, csrf: string, isProd: bool): map<string, Cookie> {
    var issued := if payload.Some? then Applied(map[], payload.value, csrf, isProd) else map[];
    if policy.requireAuth && status == 401 then Cleared(issued) else issued
  }

  /** The body `proxyToBE` sends: none for GET and HEAD. */
  function RequestBody(verb: string, request: Request): Option<string> {
    if verb != "GET" && verb != "HEAD" then Some(request.body) else None
  }

  /** The outcome of forwarding: the first send; the refresh call when the
      refresh path is taken; the second send when it produced a token; the
      status, body and passthrough headers of the last reply; and the cookies
      of `FinalCookies`. */
  ghost predicate ForwardedAs(out: Outcome, env: Env, request: Request, target: string, verb: string, policy: Policy,
                              accessToken: string, refreshToken: string, first: Reply, refreshReply: RefreshReply,
                              second: Reply, parse: string -> Option<PartialAuth>, random: Randomness)
  {
    var refreshed := RefreshAccessToken(env, refreshToken, request, refreshReply, parse);
    var attempted := Attempted(policy, first, refreshToken);
    var payload := if attempted then refreshed.payload else None;
    var retried := Retries(policy, first, refreshToken, payload);
    var final := if retried then second else first;
    var body := RequestBody(verb, request);
    && env.baseUrl != ""
    && out.calls ==
         [Send(target, verb, UpstreamHeaders(request.headers, env.proxyKey, accessToken), body)]
         + (if attempted then [refreshed.call.value] else [])
         + (if retried then [Send(target, verb, UpstreamHeaders(request.headers, env.proxyKey, payload.value.accessToken), body)] else [])
    && out.status == final.status
    && out.body == Forwarded(final.body)
    && out.headers == Copied(final.headers, PassthroughNames)
    && out.cookies == FinalCookies(policy, final.status, payload, GenerateCsrfToken(random.uuid, random.first, random.second), env.isProd)
  }

  /** The request URL on the back end: base, path with a leading slash, query. */
  function Target(env: Env, request: Request, bePath: string): string {
    env.baseUrl + NormalizeBePath(bePath) + request.search
  }

  /** No token of either kind on a route that needs a session. */
  predicate MissingSession(policy: Policy, request: Request) {
    policy.requireAuth && CookieValue(request.cookies, AccessCookie) == "" && CookieValue(request.cookies, RefreshCookie) == ""
  }

  /** `proxyToBE`. The back end's replies to the first send, to the refresh
      call and to the retry are parameters; only the calls actually made
      appear in the outcome. */
  method ProxyToBE(env: Env, request: Request, bePath: string, options: ProxyOptions,
                   first: Reply, refreshReply: RefreshReply, second: Reply,
                   parse: string -> Option<PartialAuth>, random: Randomness)
    returns (out: Outcome)
    // No back end configured: 500 before anything else.
    ensures env.baseUrl == "" ==> out.status == 500 && out.calls == [] && out.cookies == map[]
    // A session is required but there is no token at all: 401, cookies cleared.
    ensures env.baseUrl != "" && MissingSession(PolicyFor(bePath, request.verb, options), request) ==>
      out.status == 401 && out.calls == [] && out.cookies == Cleared(map[])
    // CSRF enforced and the tokens do not match: 403.
    ensures env.baseUrl != "" && !MissingSession(PolicyFor(bePath, request.verb, options), request)
            && PolicyFor(bePath, request.verb, options).enforceCsrf && !CsrfMatches(request) ==>
      out.status == 403 && out.calls == [] && out.cookies == map[]
    // Otherwise the request is forwarded.
    ensures env.baseUrl != "" && !MissingSession(PolicyFor(bePath, request.verb, options), request)
            && !(PolicyFor(bePath, request.verb, options).enforceCsrf && !CsrfMatches(request)) ==>
      ForwardedAs(out, env, request, Target(env, request, bePath), Upper(request.verb), PolicyFor(bePath, request.verb, options),
                  CookieValue(request.cookies, AccessCookie), CookieValue(request.cookies, RefreshCookie),
                  first, refreshReply, second, parse, random)
  {
    if env.baseUrl == "" {
      return Outcome(500, Message("Missing BE_BASE_URL env var on Frontend server"), map[], map[], []);
    }
    var policy := PolicyFor(bePath, request.verb, options);
    if MissingSession(policy, request) {
      var jar := new ResponseCookies();
      jar.ClearAuthCookies();
      return Outcome(401, Message("Unauthorized"), map[], jar.jar, []);
    }
    if policy.enforceCsrf && !CsrfMatches(request) {
      return Outcome(403, Message("CSRF token mismatch"), map[], map[], []);
    }
    out := Forward(env, request, Target(env, request, bePath), Upper(request.verb), policy,
                   CookieValue(request.cookies, AccessCookie), CookieValue(request.cookies, RefreshCookie),
                   first, refreshReply, second, parse, random);
  }

  /** The forwarding half of `proxyToBE`: send, refresh once on a 401, send
      once more, and build the response. */
  method Forward(env: Env, request: Request, target: string, verb: string, policy: Policy,
                 accessToken: string, refreshToken: string, first: Reply, refreshReply: RefreshReply,
                 second: Reply, parse: string -> Option<PartialAuth>, random: Randomness)
    returns (out: Outcome)
    requires env.baseUrl != ""
    ensures ForwardedAs(out, env, request, target, verb, policy, accessToken, refreshToken,
                        first, refreshReply, second, parse, random)
  {
    var calls, upstream, refreshedPayload := Exchange(env, request, target, verb, policy, accessToken, refreshToken,
                                                      first, refreshReply, second, parse);
    var responseHeaders := PassthroughHeaders(upstream.headers);
    var jar := new ResponseCookies();
    if refreshedPayload.Some? {
      var _ := jar.ApplyAuthCookies(refreshedPayload.value, env.isProd, random.uuid, random.first, random.second);
    }
    if policy.requireAuth && upstream.status == 401 {
      jar.ClearAuthCookies();
    }
    out := Outcome(upstream.status, Forwarded(upstream.body), responseHeaders, jar.jar, calls);
  }

  /** The calls to the back end: send, refresh once on a 401, send once more.
      Returns the calls made, the reply that decides the response and the
      refreshed tokens, if any. */
  method Exchange(env: Env, request: Request, target: string, verb: string, policy: Policy,
                  accessToken: string, refreshToken: string, first: Reply, refreshReply: RefreshReply,
                  second: Reply, parse: string -> Option<PartialAuth>)
    returns (calls: seq<UpstreamCall>, final: Reply, payload: Option<AuthTokens>)
    requires env.baseUrl != ""
    ensures var refreshed := RefreshAccessToken(env, refreshToken, request, refreshReply, parse);
      var attempted := Attempted(policy, first, refreshToken);
      && payload == (if attempted then refreshed.payload else None)
      && final == (if Retries(policy, first, refreshToken, payload) then second else first)
      && calls ==
         [Send(target, verb, UpstreamHeaders(request.headers, env.proxyKey, accessToken), RequestBody(verb, request))]
         + (if attempted then [refreshed.call.value] else [])
         + (if Retries(policy, first, refreshToken, payload) then
              [Send(target, verb, UpstreamHeaders(request.headers, env.proxyKey, payload.value.accessToken), RequestBody(verb, request))]
            else [])
  {
    var body := RequestBody(verb, request);
    var headers := BuildUpstreamHeaders(request.headers, env.proxyKey, accessToken);
    calls := [Send(target, verb, headers, body)];
    final := first;
    payload := None;

    if policy.allowRefreshOn401 && first.status == 401 && refreshToken != "" {
      var refreshed := RefreshAccessToken(env, refreshToken, request, refreshReply, parse);
      calls := calls + [refreshed.call.value];
      payload := refreshed.payload;
      if payload.Some? && payload.value.accessToken != "" {
        var retryHeaders := BuildUpstreamHeaders(request.headers, env.proxyKey, payload.value.accessToken);
        calls := calls + [Send(target, verb, retryHeaders, body)];
        final := second;
      }
    }
  }

  /** Forwarding calls the back end once, or twice with a refresh call in
      between; the second send happens only after a 401 on a route that
      allows refresh and a refresh that produced an access token, and it
      carries that token. */
  lemma AtMostOneRetry(out: Outcome, env: Env, request: Request, target: string, verb: string, policy: Policy,
                       accessToken: string, refreshToken: string, first: Reply, refreshReply: RefreshReply,
                       second: Reply, parse: string -> Option<PartialAuth>, random: Randomness)
    requires ForwardedAs(out, env, request, target, verb, policy, accessToken, refreshToken,
                         first, refreshReply, second, parse, random)
    ensures 1 <= |out.calls| <= 3
    ensures out.calls[0].Send? && out.calls[0].target == target
    ensures |out.calls| >= 2 ==> policy.allowRefreshOn401 && first.status == 401 && out.calls[1].Refresh?
    ensures |out.calls| == 3 ==>
      && refreshReply.ok
      && out.calls[2].Send? && out.calls[2].target == target
      && "authorization" in out.calls[2].headers
      && out.status == second.status
    ensures |out.calls| < 3 ==> out.status == first.status
  {
    var refreshed := RefreshAccessToken(env, refreshToken, request, refreshReply, parse);
    if Retries(policy, first, refreshToken, refreshed.payload) {
      UpstreamHeadersAdded(request.headers, env.proxyKey, refreshed.payload.value.accessToken);
    }
  }

  /** A route that does not allow refresh sends exactly once and passes the
      reply on; without a refresh no cookie is touched unless the route needs
      a session and the reply is 401. */
  lemma NoRefreshSendsOnce(out: Outcome, env: Env, request: Request, target: string, verb: string, policy: Policy,
                           accessToken: string, refreshToken: string, first: Reply, refreshReply: RefreshReply,
                           second: Reply, parse: string -> Option<PartialAuth>, random: Randomness)
    requires ForwardedAs(out, env, request, target, verb, policy, accessToken, refreshToken,
                         first, refreshReply, second, parse, random)
    requires !policy.allowRefreshOn401
    ensures |out.calls| == 1 && out.status == first.status
    ensures out.cookies == if policy.requireAuth && first.status == 401 then Cleared(map[]) else map[]
  {
  }

  /** When a refresh succeeded but the retry still got 401 on a route that
      needs a session, the cookies just issued are cleared again. */
  lemma RetryStill401ClearsCookies(policy: Policy, payload: Option<AuthTokens>, csrf: string, isProd: bool)
    requires policy.requireAuth
    ensures var jar := FinalCookies(policy, 401, payload, csrf, isProd);
      forall n :: n in AuthCookieNames ==> n in jar && jar[n].value == ""
  {
  }

  /** Tokens from a refresh are issued as the three cookies unless the final
      reply is a 401 on a route that needs a session. */
  lemma IssuedCookiesCarryRefreshedTokens(policy: Policy, status: int, tokens: AuthTokens, csrf: string, isProd: bool)
    requires !(policy.requireAuth && status == 401)
    ensures var jar := FinalCookies(policy, status, Some(tokens), csrf, isProd);
      && AccessCookie in jar && jar[AccessCookie].value == tokens.accessToken
      && RefreshCookie in jar && jar[RefreshCookie].value == tokens.refreshToken
      && CsrfCookie in jar && jar[CsrfCookie].value == csrf
  {
    AppliedCookies(map[], tokens, csrf, isProd);
  }
}
