/** The Google OAuth callback (api/auth/callback/google.js): it checks the
    request method, the provider's error parameter and the signed state
    cookie, then exchanges the code, resolves the user, sets the session
    cookie and redirects back to the application with the outcome in the
    query. The code exchange is an abstract outcome (a parameter), and so
    are the random parts of new user and identity ids. */
module GoogleCallback {
  import opened Wrappers
  import opened Strings
  import opened Json
  import opened Http
  import opened Env
  import opened Users
  import opened Session

  // ---------------------------------------------------------------------
  // withAuthResult
  // ---------------------------------------------------------------------

  /** `/^https?:\/\//i`: the text starts with `http://` or `https://`, the
      scheme in any letter case. */
  predicate IsHttpUrl(s: string) {
    (|s| >= 7 && Lower(s[..4]) == "http" && s[4..7] == "://")
    || (|s| >= 8 && Lower(s[..5]) == "https" && s[5..8] == "://")
  }

  /** The URL withAuthResult produces when it returns: the absolute base
      when it is an http(s) URL, the site root `/` otherwise, with `auth`
      set to the status and `detail` added only when it is non-empty. */
  function AuthResultUrl(baseUrl: string, status: string, detail: string): Url {
    Url(if IsHttpUrl(baseUrl) then baseUrl else "/",
        [("auth", status)] + (if detail != "" then [("detail", detail)] else []))
  }

  /** `new URL(baseUrl)` throws: the base passes the http(s) test but the
      URL parser rejects it (a bad port, a space in the host). */
  predicate BaseUrlThrows(codecs: Codecs, baseUrl: string) {
    IsHttpUrl(baseUrl) && !codecs.urlParses(baseUrl)
  }

  /** The TypeError `new URL` throws. */
  const InvalidUrlError := "TypeError: Invalid URL"

  /** withAuthResult: the two branches of the source, each setting `auth`
      and then, for a non-empty detail, `detail` on an empty parameter
      list; the absolute branch throws when the base does not parse. */
  method WithAuthResult(codecs: Codecs, baseUrl: string, status: string, detail: string) returns (url: Result<Url, string>)
    ensures url.Err? <==> BaseUrlThrows(codecs, baseUrl)
    ensures url.Err? ==> url.error == InvalidUrlError
    ensures url.Ok? ==> url.value == AuthResultUrl(baseUrl, status, detail)
  {
    if !IsHttpUrl(baseUrl) {
      var search := SetParam([], "auth", status);
      if detail != "" {
        SetParamNew(search, "detail", detail);
        search := SetParam(search, "detail", detail);
      }
      return Ok(Url("/", search));
    }
    if !codecs.urlParses(baseUrl) {
      return Err(InvalidUrlError);
    }
    var query := SetParam([], "auth", status);
    if detail != "" {
      SetParamNew(query, "detail", detail);
      query := SetParam(query, "detail", detail);
    }
    url := Ok(Url(baseUrl, query));
  }

  /** Reading the redirect back: `auth` is the status, `detail` is present
      exactly when it was non-empty, nothing else is added, and the base is
      the root `/` exactly when the given base is not an http(s) URL. */
  lemma AuthResultReads(baseUrl: string, status: string, detail: string)
    ensures var url := AuthResultUrl(baseUrl, status, detail);
      ParamValue(url.query, "auth") == Some(status)
      && ParamValue(url.query, "detail") == (if detail == "" then None else Some(detail))
      && |url.query| == (if detail == "" then 1 else 2)
      && (url.base == "/" <==> !IsHttpUrl(baseUrl))
  {
    var q := AuthResultUrl(baseUrl, status, detail).query;
    if detail != "" {
      assert q[1..] == [("detail", detail)];
    }
  }

  // ---------------------------------------------------------------------
  // The handler's decisions before the code exchange
  // ---------------------------------------------------------------------

  /** A query parameter that is present and non-empty (truthy). */
  function Given(req: Request, name: string): (r: Option<string>)
    ensures r.Some? <==> name in req.query && req.query[name] != ""
    ensures r.Some? ==> r.value == req.query[name]
  {
    if name in req.query && req.query[name] != "" then Some(req.query[name]) else None
  }

  /** `getBaseUrl(req) || '/'`. */
  function BaseUrlOr(env: Environment, req: Request): string {
    match GetBaseUrl(env, req)
    case Some(b) => if b != "" then b else "/"
    case None => "/"
  }

  /** Where the handler goes before its try block: a refusal of other
      methods, the provider's own error, a state mismatch, an exception
      that escapes (a malformed Cookie header while reading the state
      cookie), or on to the code exchange. */
  datatype Route =
    | NotAllowed
    | ProviderError(detail: string)
    | StateMismatch
    | Escapes(error: string)
    | Exchange(code: string, state: string)

  function RouteOf(env: Environment, codecs: Codecs, req: Request, nowMillis: int): Route {
    if req.httpMethod != "GET" then NotAllowed
    else if Given(req, "error").Some? then ProviderError(Given(req, "error").value)
    else if Given(req, "code").None? || Given(req, "state").None? then StateMismatch
    else
      match VerifyOAuthStateFromRequest(env, codecs, req, "google", Given(req, "state").value, nowMillis)
      case Err(e) => Escapes(e)
      case Ok(verified) =>
        if verified then Exchange(Given(req, "code").value, Given(req, "state").value) else StateMismatch
  }

  /** The code is exchanged only for a GET without an error parameter whose
      state cookie is correctly signed with AUTH_SECRET and names Google,
      the very state of the query, and a live expiry. */
  lemma ExchangeNeedsVerifiedState(env: Environment, codecs: Codecs, req: Request, nowMillis: int)
    requires RouteOf(env, codecs, req, nowMillis).Exchange?
    ensures var route := RouteOf(env, codecs, req, nowMillis);
      req.httpMethod == "GET" && Given(req, "error").None?
      && Given(req, "code") == Some(route.code) && Given(req, "state") == Some(route.state)
      && Cookies(codecs, Header(req, "cookie")).Ok?
      && var token := CookieToken(Cookies(codecs, Header(req, "cookie")).value, OAuthStateCookieName);
      token.Some? && SignedCorrectly(env, codecs, token.value)
      && StateClaimsMatch(codecs.parse(codecs.fromBase64url(TokenParts(token.value).0)), "google",
                          route.state, NowSeconds(nowMillis))
  {
    var state := Given(req, "state").value;
    assert VerifyOAuthStateFromRequest(env, codecs, req, "google", state, nowMillis) == Ok(true);
  }

  /** The round trip the sign-in flow relies on: a GET carrying a code and
      exactly the state cookie set at sign-in for Google, back within ten
      minutes, goes on to the exchange when the query's state is the one in
      the cookie, and is a state mismatch when it is another. */
  lemma StateCookieFlow(env: Environment, codecs: Codecs, req: Request, state: string, issuedMillis: int, nowMillis: int)
    requires req.httpMethod == "GET" && Given(req, "error").None? && Given(req, "code").Some? && Given(req, "state").Some?
    requires CodecsRoundTrip(env, codecs, OAuthStatePayload("google", state, issuedMillis))
    requires CreateSignedPayload(env, codecs, OAuthStatePayload("google", state, issuedMillis)).Ok?
    requires CarriesCookie(codecs, req, OAuthStateCookieName,
                           CreateSignedPayload(env, codecs, OAuthStatePayload("google", state, issuedMillis)).value)
    requires NowSeconds(nowMillis) < NowSeconds(issuedMillis) + OAuthStateTtlSeconds
    ensures req.query["state"] == state ==> RouteOf(env, codecs, req, nowMillis) == Exchange(req.query["code"], state)
    ensures req.query["state"] != state ==> RouteOf(env, codecs, req, nowMillis) == StateMismatch
  {
    OAuthStateRoundTrip(env, codecs, req, "google", state, req.query["state"], issuedMillis, nowMillis);
  }

  // ---------------------------------------------------------------------
  // The handler's exits and the response they leave
  // ---------------------------------------------------------------------

  /** How the handler ended: before the try block along a route, or in it,
      signed in or with the error it caught. */
  datatype Exit = Early(route: Route) | SignedIn(user: User) | SignInFailed(error: string)

  /** An exit that goes on to withAuthResult and the redirect: all but
      the refusal and the exception escaping the state check. */
  predicate ReachesRedirect(exit: Exit) {
    !(exit == Early(NotAllowed) || (exit.Early? && exit.route.Escapes?))
  }

  /** The `auth` status and `detail` of a redirecting exit. */
  function AuthOutcome(exit: Exit): (string, string) {
    match exit
    case Early(route) => if route.ProviderError? then ("error", route.detail) else ("error", "state_mismatch")
    case SignedIn(_) => ("success", "")
    case SignInFailed(_) => ("error", "oauth_failed")
  }

  /** The outcome of resolving the user in the try block. */
  function Resolution(exit: Exit): Result<User, string> {
    match exit
    case SignedIn(user) => Ok(user)
    case SignInFailed(e) => Err(e)
    case Early(_) => Err("")
  }

  /** The session cookie setSessionCookie writes for `user`. */
  function SessionCookieOf(env: Environment, codecs: Codecs, req: Request, user: User, nowMillis: int): string {
    match CreateSignedPayload(env, codecs, CreateSessionUser(user, nowMillis))
    case Ok(token) => SerializedCookie(codecs, SessionCookieName, token, CookieOptionsFor(SessionTtlSeconds, env, req))
    case Err(_) => ""
  }

  /** The expired, empty state cookie clearOAuthStateCookie writes. */
  function StateClearing(env: Environment, codecs: Codecs, req: Request): string {
    SerializedCookie(codecs, OAuthStateCookieName, "", CookieOptionsFor(0, env, req))
  }

  /** The Set-Cookie header after an exit that reaches the redirect: the
      session cookie when signed in, then the clearing state cookie; when
      the base URL throws after a sign-in, the catch block clears the state
      cookie a second time. */
  function CookiesAfter(existing: HeaderValue, exit: Exit, throws: bool, env: Environment, codecs: Codecs, req: Request,
                        nowMillis: int): HeaderValue {
    var withSession := if exit.SignedIn? then Appended(existing, SessionCookieOf(env, codecs, req, exit.user, nowMillis)) else existing;
    var cleared := Appended(withSession, StateClearing(env, codecs, req));
    if throws && exit.SignedIn? then Appended(cleared, StateClearing(env, codecs, req)) else cleared
  }

  /** The cookies a header value carries, an empty single value counting as
      none. */
  function Present(h: HeaderValue): seq<string> {
    if h == One("") then [] else HeaderValues(h)
  }

  /** Appending a cookie adds it after the cookies present; a non-empty
      one is then present itself. */
  lemma AppendedPresent(existing: HeaderValue, cookie: string)
    ensures HeaderValues(Appended(existing, cookie)) == Present(existing) + [cookie]
    ensures cookie != "" ==> Present(Appended(existing, cookie)) == Present(existing) + [cookie]
  {
    AppendedKeepsOrder(existing, cookie);
  }

  lemma SerializedNotEmpty(codecs: Codecs, name: string, value: string, options: CookieOptions)
    ensures SerializedCookie(codecs, name, value, options) != ""
  {
    CookieStart(codecs, name, value, options);
    var parts := CookieParts(codecs, name, value, options);
    assert parts == [parts[0]] + parts[1..];
    assert |parts[0]| > 0;
  }

  lemma SessionCookieNotEmpty(env: Environment, codecs: Codecs, req: Request, user: User, nowMillis: int)
    requires CreateSignedPayload(env, codecs, CreateSessionUser(user, nowMillis)).Ok?
    ensures SessionCookieOf(env, codecs, req, user, nowMillis) != ""
  {
    var token := CreateSignedPayload(env, codecs, CreateSessionUser(user, nowMillis)).value;
    SerializedNotEmpty(codecs, SessionCookieName, token, CookieOptionsFor(SessionTtlSeconds, env, req));
  }

  /** After the method check, every exit that reaches the redirect keeps
      the cookies set before, adds the session cookie when and only when
      the user signed in, and then clears the state cookie: exactly once
      and last, except after a sign-in whose base URL throws, where the
      catch block clears it once more. */
  lemma StateClearings(existing: HeaderValue, exit: Exit, throws: bool, env: Environment, codecs: Codecs, req: Request,
                       nowMillis: int)
    requires exit.SignedIn? ==> CreateSignedPayload(env, codecs, CreateSessionUser(exit.user, nowMillis)).Ok?
    ensures HeaderValues(CookiesAfter(existing, exit, throws, env, codecs, req, nowMillis))
      == Present(existing)
         + (if exit.SignedIn? then [SessionCookieOf(env, codecs, req, exit.user, nowMillis)] else [])
         + [StateClearing(env, codecs, req)]
         + (if throws && exit.SignedIn? then [StateClearing(env, codecs, req)] else [])
  {
    var clearing := StateClearing(env, codecs, req);
    SerializedNotEmpty(codecs, OAuthStateCookieName, "", CookieOptionsFor(0, env, req));
    var withSession := existing;
    if exit.SignedIn? {
      var session := SessionCookieOf(env, codecs, req, exit.user, nowMillis);
      SessionCookieNotEmpty(env, codecs, req, exit.user, nowMillis);
      AppendedPresent(existing, session);
      withSession := Appended(existing, session);
    }
    AppendedPresent(withSession, clearing);
    if throws && exit.SignedIn? {
      AppendedPresent(Appended(withSession, clearing), clearing);
    }
  }

  /** What the try block does to the user tables: a failed exchange leaves
      them alone and is the error caught; otherwise the user is resolved
      from the profile as resolveUserFromIdentity promises, with the exit
      carrying the resolved user or the resolution's error. */
  ghost predicate SignInRecorded(u0: map<string, UserRow>, i0: map<(string, string), IdentityRow>,
                                 u1: map<string, UserRow>, i1: map<(string, string), IdentityRow>,
                                 exchange: Result<Profile, string>, userUuid: string, identityUuid: string, exit: Exit)
  {
    (exchange.Err? ==> exit == SignInFailed(exchange.error) && u1 == u0 && i1 == i0)
    && (exchange.Ok? ==> ResolvedAs(u0, i0, u1, i1, exchange.value, userUuid, identityUuid, Resolution(exit)))
  }

  /** The response an exit that reaches the redirect leaves, against the
      response before it: the cookies of CookiesAfter, the Allow header,
      content type and body kept, and either a 302 to the outcome's URL or,
      when the base URL throws, status, location and end as they were. */
  predicate Concluded(after: Snapshot, before: Snapshot, exit: Exit, throws: bool,
                      env: Environment, codecs: Codecs, req: Request, nowMillis: int, baseUrl: string)
  {
    after.setCookie == CookiesAfter(before.setCookie, exit, throws, env, codecs, req, nowMillis)
    && after.allow == before.allow && after.contentType == before.contentType && after.body == before.body
    && if throws then
         after.status == before.status && after.location == before.location && after.ended == before.ended
       else
         after.status == 302 && after.ended
         && after.location == Some(AuthResultUrl(baseUrl, AuthOutcome(exit).0, AuthOutcome(exit).1))
  }

  const MethodNotAllowedBody: Json := JObject([("error", JString("Method not allowed"))])

  /** Clearing the state cookie, then redirecting with the outcome: the
      pair every exit after the method check ends with. When the base URL
      throws, the cookie is cleared and the TypeError is returned instead
      of the redirect. */
  method ClearAndRedirect(env: Environment, codecs: Codecs, req: Request, res: Response,
                          baseUrl: string, status: string, detail: string)
    returns (thrown: Option<string>)
    modifies res
    ensures thrown.Some? <==> BaseUrlThrows(codecs, baseUrl)
    ensures thrown.Some? ==> thrown.value == InvalidUrlError
    ensures res.setCookie == Appended(old(res.setCookie), StateClearing(env, codecs, req))
    ensures thrown.None? ==> res.status == 302 && res.location == Some(AuthResultUrl(baseUrl, status, detail)) && res.ended
    ensures thrown.Some? ==> res.status == old(res.status) && res.location == old(res.location) && res.ended == old(res.ended)
    ensures res.allow == old(res.allow) && res.body == old(res.body) && res.contentType == old(res.contentType)
  {
    ClearOAuthStateCookie(env, codecs, req, res);
    var url := WithAuthResult(codecs, baseUrl, status, detail);
    if url.Err? {
      return Some(url.error);
    }
    Redirect(res, url.value, 302);
    thrown := None;
  }

  /** An early exit along a route that redirects: the provider's error or
      a state mismatch. */
  method RedirectEarly(env: Environment, codecs: Codecs, req: Request, res: Response, nowMillis: int, baseUrl: string,
                       route: Route)
    returns (thrown: Option<string>)
    requires route.ProviderError? || route.StateMismatch?
    modifies res
    ensures thrown.Some? <==> BaseUrlThrows(codecs, baseUrl)
    ensures Concluded(SnapshotOf(res), old(SnapshotOf(res)), Early(route), thrown.Some?, env, codecs, req, nowMillis, baseUrl)
  {
    var (status, detail) := AuthOutcome(Early(route));
    thrown := ClearAndRedirect(env, codecs, req, res, baseUrl, status, detail);
  }

  /** The exit of the try block once the user is resolved, or the error
      caught on the way. */
  function ExitOf(resolved: Result<User, string>): (exit: Exit)
    ensures Resolution(exit) == resolved
  {
    match resolved
    case Ok(user) => SignedIn(user)
    case Err(e) => SignInFailed(e)
  }

  /** The end of the try block and its catch: with a user, set the session
      cookie, clear the state cookie and redirect with success; with an
      error, clear the state cookie and redirect with `oauth_failed`.
      Setting the session cookie cannot throw here, because the state
      cookie was verified with AUTH_SECRET. A base URL that throws in the
      try block is caught, and then throws again in the catch block, out
      of the handler. */
  method Conclude(env: Environment, codecs: Codecs, req: Request, res: Response, nowMillis: int, baseUrl: string,
                  resolved: Result<User, string>)
    returns (exit: Exit, thrown: Option<string>)
    requires GetEnv(env, "AUTH_SECRET").Ok?
    modifies res
    ensures exit == ExitOf(resolved)
    ensures thrown.Some? <==> BaseUrlThrows(codecs, baseUrl)
    ensures Concluded(SnapshotOf(res), old(SnapshotOf(res)), exit, thrown.Some?, env, codecs, req, nowMillis, baseUrl)
  {
    if resolved.Err? {
      thrown := ClearAndRedirect(env, codecs, req, res, baseUrl, "error", "oauth_failed");
      return SignInFailed(resolved.error), thrown;
    }
    var session := SetSessionCookie(env, codecs, req, res, CreateSessionUser(resolved.value, nowMillis));
    assert session.Ok?;
    thrown := ClearAndRedirect(env, codecs, req, res, baseUrl, "success", "");
    if thrown.Some? {
      thrown := ClearAndRedirect(env, codecs, req, res, baseUrl, "error", "oauth_failed");
    }
    exit := SignedIn(resolved.value);
  }

  /** The try block: exchange the code for a profile and resolve the user
      from it, then conclude; an error on the way is caught. */
  method SignIn(env: Environment, codecs: Codecs, req: Request, res: Response, nowMillis: int, baseUrl: string,
                exchange: Result<Profile, string>, directory: UserDirectory, userUuid: string, identityUuid: string)
    returns (exit: Exit, thrown: Option<string>)
    requires directory.Valid()
    requires GetEnv(env, "AUTH_SECRET").Ok?
    modifies res, directory
    ensures directory.Valid()
    ensures exit.SignedIn? || exit.SignInFailed?
    ensures SignInRecorded(old(directory.users), old(directory.identities), directory.users, directory.identities,
                           exchange, userUuid, identityUuid, exit)
    ensures thrown.Some? <==> BaseUrlThrows(codecs, baseUrl)
    ensures Concluded(SnapshotOf(res), old(SnapshotOf(res)), exit, thrown.Some?, env, codecs, req, nowMillis, baseUrl)
  {
    var resolved: Result<User, string>;
    if exchange.Err? {
      resolved := Err(exchange.error);
    } else {
      resolved := directory.ResolveUserFromIdentity(exchange.value, userUuid, identityUuid);
    }
    exit, thrown := Conclude(env, codecs, req, res, nowMillis, baseUrl, resolved);
  }

  /** The handler past its method check: the provider's error, the state
      checks, then the try block. `thrown` is the TypeError of a base URL
      that does not parse, which escapes the handler. */
  method HandleGet(env: Environment, codecs: Codecs, req: Request, res: Response, nowMillis: int,
                   exchange: Result<Profile, string>, directory: UserDirectory, userUuid: string, identityUuid: string)
    returns (exit: Exit, thrown: Option<string>)
    requires req.httpMethod == "GET"
    requires directory.Valid()
    modifies res, directory
    ensures directory.Valid()
    ensures var route := RouteOf(env, codecs, req, nowMillis);
      (!route.Exchange? ==> (exit == Early(route)
         && directory.users == old(directory.users) && directory.identities == old(directory.identities)))
      && (route.Exchange? ==> ((exit.SignedIn? || exit.SignInFailed?)
         && SignInRecorded(old(directory.users), old(directory.identities), directory.users, directory.identities,
                           exchange, userUuid, identityUuid, exit)))
    ensures thrown.Some? <==> ReachesRedirect(exit) && BaseUrlThrows(codecs, BaseUrlOr(env, req))
    ensures exit.Early? && exit.route.Escapes? ==> unchanged(res)
    ensures ReachesRedirect(exit) ==>
      Concluded(SnapshotOf(res), old(SnapshotOf(res)), exit, thrown.Some?, env, codecs, req, nowMillis, BaseUrlOr(env, req))
  {
    var baseUrl := BaseUrlOr(env, req);
    var error := Given(req, "error");
    if error.Some? {
      thrown := RedirectEarly(env, codecs, req, res, nowMillis, baseUrl, ProviderError(error.value));
      return Early(ProviderError(error.value)), thrown;
    }
    var code := Given(req, "code");
    var state := Given(req, "state");
    if code.None? || state.None? {
      thrown := RedirectEarly(env, codecs, req, res, nowMillis, baseUrl, StateMismatch);
      return Early(StateMismatch), thrown;
    }
    var verified := VerifyOAuthStateFromRequest(env, codecs, req, "google", state.value, nowMillis);
    if verified.Err? {
      return Early(Escapes(verified.error)), None;
    }
    if !verified.value {
      thrown := RedirectEarly(env, codecs, req, res, nowMillis, baseUrl, StateMismatch);
      return Early(StateMismatch), thrown;
    }
    assert RouteOf(env, codecs, req, nowMillis) == Exchange(code.value, state.value);
    exit, thrown := SignIn(env, codecs, req, res, nowMillis, baseUrl, exchange, directory, userUuid, identityUuid);
  }

  /** The handler. Other methods get 405 with `Allow: GET` and no cookie is
      touched; every other exit but an escaping exception clears the state
      cookie and redirects with the exit's outcome, or throws the TypeError
      of a base URL that does not parse; only a sign-in sets the session
      cookie, before the clearing one; and the user directory changes only
      in the try block. */
  method Handler(env: Environment, codecs: Codecs, req: Request, res: Response, nowMillis: int,
                 exchange: Result<Profile, string>, directory: UserDirectory, userUuid: string, identityUuid: string)
    returns (exit: Exit, thrown: Option<string>)
    requires directory.Valid()
    modifies res, directory
    ensures directory.Valid()
    ensures var route := RouteOf(env, codecs, req, nowMillis);
      (!route.Exchange? ==> (exit == Early(route)
         && directory.users == old(directory.users) && directory.identities == old(directory.identities)))
      && (route.Exchange? ==> ((exit.SignedIn? || exit.SignInFailed?)
         && SignInRecorded(old(directory.users), old(directory.identities), directory.users, directory.identities,
                           exchange, userUuid, identityUuid, exit)))
    ensures exit == Early(NotAllowed) ==>
      res.status == 405 && res.allow == Some("GET") && res.body == Some(MethodNotAllowedBody) && res.ended
      && res.setCookie == old(res.setCookie) && res.location == old(res.location)
    ensures thrown.Some? <==> ReachesRedirect(exit) && BaseUrlThrows(codecs, BaseUrlOr(env, req))
    ensures exit.Early? && exit.route.Escapes? ==> unchanged(res)
    ensures ReachesRedirect(exit) ==>
      Concluded(SnapshotOf(res), old(SnapshotOf(res)), exit, thrown.Some?, env, codecs, req, nowMillis, BaseUrlOr(env, req))
  {
    if req.httpMethod != "GET" {
      res.allow := Some("GET");
      SendJson(res, 405, MethodNotAllowedBody);
      return Early(NotAllowed), None;
    }
    exit, thrown := HandleGet(env, codecs, req, res, nowMillis, exchange, directory, userUuid, identityUuid);
  }
}
