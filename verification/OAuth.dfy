/** The decision parts of the OAuth authorization-code flow (section 4.1 of
    RFC 6749) in api/_lib/oauth.js: the callback URI, the authorize URLs and
    their query parameters, and the checks applied to the profiles Google
    and GitHub return. The token and profile requests themselves are not
    modelled; their JSON results are inputs. */
module OAuth {
  import opened Wrappers
  import opened Strings
  import opened Json
  import opened Http
  import opened Env
  import opened Users

  // ---------------------------------------------------------------------
  // toUrlWithQuery
  // ---------------------------------------------------------------------

  /** The names of a parameter list. */
  function Names(params: seq<(string, Option<string>)>): set<string> {
    set i | 0 <= i < |params| :: params[i].0
  }

  /** No name occurs twice, as in the entries of an object literal. */
  predicate DistinctNames(params: seq<(string, Option<string>)>) {
    forall i, j :: 0 <= i < j < |params| ==> params[i].0 != params[j].0
  }

  /** The parameters toUrlWithQuery keeps, in order: those whose value is
      neither undefined, null nor empty. */
  function Kept(params: seq<(string, Option<string>)>): (r: seq<(string, string)>)
    ensures forall i :: 0 <= i < |r| ==> r[i].1 != "" && r[i].0 in Names(params)
    decreases |params|
  {
    if params == [] then []
    else
      var front := params[..|params| - 1];
      var last := params[|params| - 1];
      assert Names(front) <= Names(params) by {
        forall i | 0 <= i < |front| ensures front[i].0 in Names(params) {
          assert front[i] == params[i];
        }
      }
      Kept(front) + (if last.1.Some? && last.1.value != "" then [(last.0, last.1.value)] else [])
  }

  /** A pair is kept exactly when it was given with that non-empty value. */
  lemma {:induction false} KeptExactly(params: seq<(string, Option<string>)>, name: string, value: string)
    ensures (name, value) in Kept(params) <==> value != "" && (name, Some(value)) in params
    decreases |params|
  {
    if params != [] {
      var front := params[..|params| - 1];
      assert params == front + [params[|params| - 1]];
      KeptExactly(front, name, value);
    }
  }

  /** toUrlWithQuery: sets each kept parameter on the URL's query in turn. */
  method ToUrlWithQuery(base: string, params: seq<(string, Option<string>)>) returns (url: Url)
    requires DistinctNames(params)
    ensures url == Url(base, Kept(params))
  {
    url := Url(base, []);
    var i := 0;
    while i < |params|
      invariant 0 <= i <= |params|
      invariant url == Url(base, Kept(params[..i]))
    {
      var (key, value) := params[i];
      assert params[..i + 1][..i] == params[..i];
      assert params[..i + 1][i] == params[i];
      if value.Some? && value.value != "" {
        assert key !in Names(params[..i]);
        SetParamNew(url.query, key, value.value);
        url := url.(query := SetParam(url.query, key, value.value));
      }
      i := i + 1;
    }
    assert params[..i] == params;
  }

  /** The value a kept parameter reads back as on the built URL; a
      parameter given as undefined, null or empty is absent. */
  lemma ParamOfKept(params: seq<(string, Option<string>)>, name: string, value: Option<string>)
    requires DistinctNames(params) && (name, value) in params
    ensures value.Some? && value.value != "" ==> ParamValue(Kept(params), name) == value
    ensures value.None? || value.value == "" ==> ParamValue(Kept(params), name).None?
  {
    var q := Kept(params);
    forall i | 0 <= i < |q| && q[i].0 == name
      ensures value.Some? && q[i].1 == value.value
    {
      KeptExactly(params, q[i].0, q[i].1);
    }
    if value.Some? && value.value != "" {
      KeptExactly(params, name, value.value);
    }
  }

  // ---------------------------------------------------------------------
  // getRedirectUri and the authorize URLs
  // ---------------------------------------------------------------------

  const NoBaseUrl: string := "Unable to resolve APP_URL for OAuth callback."

  /** getRedirectUri: the provider's callback path under the base URL;
      throws when there is no base URL. */
  function GetRedirectUri(env: Environment, req: Request, provider: string): (r: Result<string, string>)
    ensures r.Err? <==> GetBaseUrl(env, req).None? || GetBaseUrl(env, req).value == ""
    ensures r.Err? ==> r.error == NoBaseUrl
    ensures r.Ok? ==> r.value == GetBaseUrl(env, req).value + "/api/auth/callback/" + provider
  {
    var baseUrl := GetBaseUrl(env, req);
    if baseUrl.None? || baseUrl.value == "" then Err(NoBaseUrl)
    else Ok(baseUrl.value + "/api/auth/callback/" + provider)
  }

  /** With a usable APP_URL the callback URI joins it and the callback path
      with exactly one '/'. */
  lemma RedirectUriSingleSlash(env: Environment, req: Request, provider: string)
    requires var fromEnv := NormalizeBaseUrl(EnvVar(env, "APP_URL")); fromEnv.Some? && fromEnv.value != ""
    ensures var b := NormalizeBaseUrl(EnvVar(env, "APP_URL")).value;
      GetRedirectUri(env, req, provider) == Ok(b + "/api/auth/callback/" + provider) && b[|b| - 1] != '/'
  {
  }

  const GoogleAuthorizeEndpoint: string := "https://accounts.google.com/o/oauth2/v2/auth"
  const GithubAuthorizeEndpoint: string := "https://github.com/login/oauth/authorize"

  /** The parameters of the Google authorize URL, in source order. */
  function GoogleAuthorizeParams(clientId: string, redirectUri: string, state: string): (params: seq<(string, Option<string>)>)
    ensures DistinctNames(params)
  {
    [("client_id", Some(clientId)), ("redirect_uri", Some(redirectUri)), ("response_type", Some("code")),
     ("scope", Some("openid email profile")), ("include_granted_scopes", Some("true")),
     ("prompt", Some("select_account")), ("state", Some(state))]
  }

  /** The parameters of the GitHub authorize URL, in source order. */
  function GithubAuthorizeParams(clientId: string, redirectUri: string, state: string): (params: seq<(string, Option<string>)>)
    ensures DistinctNames(params)
  {
    [("client_id", Some(clientId)), ("redirect_uri", Some(redirectUri)),
     ("scope", Some("read:user user:email")), ("state", Some(state))]
  }

  /** A parameter set to `value`, or absent when the value is empty. */
  function NonEmpty(value: string): Option<string> {
    if value == "" then None else Some(value)
  }

  /** buildGoogleAuthorizeUrl: the callback URI is resolved first, then the
      client id; either may throw. The URL asks for a code with scope
      `openid email profile` and carries the state. */
  method BuildGoogleAuthorizeUrl(env: Environment, req: Request, state: string) returns (r: Result<Url, string>)
    ensures GetRedirectUri(env, req, "google").Err? ==> r == Err(NoBaseUrl)
    ensures GetRedirectUri(env, req, "google").Ok? && GetEnv(env, "GOOGLE_CLIENT_ID").Err? ==>
      r == Err(GetEnv(env, "GOOGLE_CLIENT_ID").error)
    ensures r.Ok? <==> GetRedirectUri(env, req, "google").Ok? && GetEnv(env, "GOOGLE_CLIENT_ID").Ok?
    ensures r.Ok? ==>
      var q := r.value.query;
      r.value.base == GoogleAuthorizeEndpoint
      && ParamValue(q, "client_id") == Some(env["GOOGLE_CLIENT_ID"])
      && ParamValue(q, "redirect_uri") == Some(GetRedirectUri(env, req, "google").value)
      && ParamValue(q, "response_type") == Some("code")
      && ParamValue(q, "scope") == Some("openid email profile")
      && ParamValue(q, "include_granted_scopes") == Some("true")
      && ParamValue(q, "prompt") == Some("select_account")
      && ParamValue(q, "state") == NonEmpty(state)
  {
    var redirectUri := GetRedirectUri(env, req, "google");
    if redirectUri.Err? {
      return Err(redirectUri.error);
    }
    var clientId := GetEnv(env, "GOOGLE_CLIENT_ID");
    if clientId.Err? {
      return Err(clientId.error);
    }
    var params := GoogleAuthorizeParams(clientId.value, redirectUri.value, state);
    var url := ToUrlWithQuery(GoogleAuthorizeEndpoint, params);
    GoogleParamsRead(clientId.value, redirectUri.value, state);
    r := Ok(url);
  }

  lemma GoogleParamsRead(clientId: string, redirectUri: string, state: string)
    requires clientId != "" && redirectUri != ""
    ensures var q := Kept(GoogleAuthorizeParams(clientId, redirectUri, state));
      ParamValue(q, "client_id") == Some(clientId)
      && ParamValue(q, "redirect_uri") == Some(redirectUri)
      && ParamValue(q, "response_type") == Some("code")
      && ParamValue(q, "scope") == Some("openid email profile")
      && ParamValue(q, "include_granted_scopes") == Some("true")
      && ParamValue(q, "prompt") == Some("select_account")
      && ParamValue(q, "state") == NonEmpty(state)
  {
    var params := GoogleAuthorizeParams(clientId, redirectUri, state);
    ParamOfKept(params, "client_id", Some(clientId));
    ParamOfKept(params, "redirect_uri", Some(redirectUri));
    ParamOfKept(params, "response_type", Some("code"));
    ParamOfKept(params, "scope", Some("openid email profile"));
    ParamOfKept(params, "include_granted_scopes", Some("true"));
    ParamOfKept(params, "prompt", Some("select_account"));
    ParamOfKept(params, "state", Some(state));
  }

  /** buildGithubAuthorizeUrl: scope `read:user user:email` and the state. */
  method BuildGithubAuthorizeUrl(env: Environment, req: Request, state: string) returns (r: Result<Url, string>)
    ensures GetRedirectUri(env, req, "github").Err? ==> r == Err(NoBaseUrl)
    ensures GetRedirectUri(env, req, "github").Ok? && GetEnv(env, "GITHUB_CLIENT_ID").Err? ==>
      r == Err(GetEnv(env, "GITHUB_CLIENT_ID").error)
    ensures r.Ok? <==> GetRedirectUri(env, req, "github").Ok? && GetEnv(env, "GITHUB_CLIENT_ID").Ok?
    ensures r.Ok? ==>
      var q := r.value.query;
      r.value.base == GithubAuthorizeEndpoint
      && ParamValue(q, "client_id") == Some(env["GITHUB_CLIENT_ID"])
      && ParamValue(q, "redirect_uri") == Some(GetRedirectUri(env, req, "github").value)
      && ParamValue(q, "scope") == Some("read:user user:email")
      && ParamValue(q, "state") == NonEmpty(state)
  {
    var redirectUri := GetRedirectUri(env, req, "github");
    if redirectUri.Err? {
      return Err(redirectUri.error);
    }
    var clientId := GetEnv(env, "GITHUB_CLIENT_ID");
    if clientId.Err? {
      return Err(clientId.error);
    }
    var params := GithubAuthorizeParams(clientId.value, redirectUri.value, state);
    var url := ToUrlWithQuery(GithubAuthorizeEndpoint, params);
    ParamOfKept(params, "client_id", Some(clientId.value));
    ParamOfKept(params, "redirect_uri", Some(redirectUri.value));
    ParamOfKept(params, "scope", Some("read:user user:email"));
    ParamOfKept(params, "state", Some(state));
    r := Ok(url);
  }

  // ---------------------------------------------------------------------
  // Profiles
  // ---------------------------------------------------------------------

  const GoogleEmailRequired: string := "Google account must have a verified email address."
  const GithubEmailRequired: string := "GitHub account must expose at least one verified email address."

  /** The Google profile check: a truthy `email` and `email_verified`
      strictly true; the provider user id is `String(sub)`. */
  function GoogleProfile(codecs: Codecs, profile: Json): (r: Result<Profile, string>)
    ensures r.Err? <==> profile.JNull? || !Truthy(Get(profile, "email")) || Get(profile, "email_verified") != Some(JBool(true))
    ensures r.Err? && !profile.JNull? ==> r.error == GoogleEmailRequired
    ensures r.Ok? ==> (r.value.provider == "google"
      && r.value.providerUserId == JsText(codecs, Get(profile, "sub"))
      && r.value.email == JsText(codecs, Get(profile, "email")))
    ensures r.Ok? && Get(profile, "email").value.JString? ==> r.value.email != ""
  {
    match Property(profile, "email")
    case Err(e) => Err(e)
    case Ok(email) =>
      if !Truthy(email) || Get(profile, "email_verified") != Some(JBool(true)) then Err(GoogleEmailRequired)
      else Ok(Profile("google", JsText(codecs, Get(profile, "sub")), JsText(codecs, email),
                      StringOrNull(Get(profile, "name")), StringOrNull(Get(profile, "picture"))))
  }

  /** `item && item.verified` (and `item.primary` when asked). */
  predicate Qualifies(item: Json, needPrimary: bool) {
    Truthy(Some(item)) && Truthy(Get(item, "verified")) && (!needPrimary || Truthy(Get(item, "primary")))
  }

  /** `Array.prototype.find`: the first qualifying item. */
  function FindQualifying(items: seq<Json>, needPrimary: bool): (r: Option<Json>)
    ensures r.None? <==> forall i :: 0 <= i < |items| ==> !Qualifies(items[i], needPrimary)
    ensures r.Some? ==> exists i :: (0 <= i < |items| && items[i] == r.value && Qualifies(items[i], needPrimary)
      && forall j :: 0 <= j < i ==> !Qualifies(items[j], needPrimary))
    decreases |items|
  {
    if items == [] then None
    else if Qualifies(items[0], needPrimary) then Some(items[0])
    else
      var r := FindQualifying(items[1..], needPrimary);
      assert forall i :: 1 <= i < |items| ==> items[i] == items[1..][i - 1];
      r
  }

  /** The email entry chosen from GitHub's list: the first verified primary
      one, else the first verified one; none when the list is not an
      array. */
  function SelectGithubEmail(emails: Json): Option<Json> {
    if !emails.JArray? then None
    else
      var primary := FindQualifying(emails.items, true);
      if primary.Some? then primary else FindQualifying(emails.items, false)
  }

  /** The chosen entry is verified; it is primary whenever some verified
      entry is primary; nothing is chosen only when no entry is verified. */
  lemma SelectGithubEmailPrefersPrimary(emails: Json)
    requires emails.JArray?
    ensures SelectGithubEmail(emails).Some? ==> Qualifies(SelectGithubEmail(emails).value, false)
    ensures (exists i :: 0 <= i < |emails.items| && Qualifies(emails.items[i], true)) ==>
      Qualifies(SelectGithubEmail(emails).value, true)
    ensures SelectGithubEmail(emails).None? <==> forall i :: 0 <= i < |emails.items| ==> !Qualifies(emails.items[i], false)
  {
    var items := emails.items;
    if FindQualifying(items, true).Some? {
      var i :| 0 <= i < |items| && items[i] == FindQualifying(items, true).value && Qualifies(items[i], true);
      assert Qualifies(items[i], false);
    } else {
      if FindQualifying(items, false).None? {
        forall i | 0 <= i < |items| ensures !Qualifies(items[i], false) {
        }
      }
    }
  }

  /** The GitHub display name: a non-empty string `name`, else a string
      `login`, else null. */
  function GithubDisplayName(profile: Json): (r: Option<string>)
    ensures NonEmptyText(Get(profile, "name")) ==> r == Some(Get(profile, "name").value.s)
    ensures !NonEmptyText(Get(profile, "name")) ==> r == StringOrNull(Get(profile, "login"))
  {
    var name := Get(profile, "name");
    if NonEmptyText(name) then Some(name.value.s) else StringOrNull(Get(profile, "login"))
  }

  predicate NonEmptyText(v: Option<Json>) {
    v.Some? && v.value.JString? && |v.value.s| > 0
  }

  /** The only way to an empty display name is an empty `login`. */
  lemma GithubDisplayNameEmpty(profile: Json)
    requires GithubDisplayName(profile) == Some("")
    ensures Get(profile, "login") == Some(JString(""))
  {
  }

  /** The GitHub profile: the chosen email entry must exist and have a
      truthy `email`; then the profile's `id` is read, which throws on a null
      profile. */
  function GithubProfile(codecs: Codecs, profile: Json, emails: Json): (r: Result<Profile, string>)
    ensures SelectGithubEmail(emails).None? || !Truthy(Get(SelectGithubEmail(emails).value, "email")) ==>
      r == Err(GithubEmailRequired)
    ensures r.Ok? <==> SelectGithubEmail(emails).Some? && Truthy(Get(SelectGithubEmail(emails).value, "email")) && !profile.JNull?
    ensures r.Ok? ==> (r.value.provider == "github"
      && r.value.providerUserId == JsText(codecs, Get(profile, "id"))
      && r.value.email == JsText(codecs, Get(SelectGithubEmail(emails).value, "email"))
      && r.value.displayName == GithubDisplayName(profile)
      && Qualifies(SelectGithubEmail(emails).value, false))
  {
    var verified := SelectGithubEmail(emails);
    if verified.None? || !Truthy(Get(verified.value, "email")) then Err(GithubEmailRequired)
    else
      match Property(profile, "id")
      case Err(e) => Err(e)
      case Ok(id) =>
        assert emails.JArray?;
        SelectGithubEmailPrefersPrimary(emails);
        Ok(Profile("github", JsText(codecs, id), JsText(codecs, Get(verified.value, "email")),
                   GithubDisplayName(profile), StringOrNull(Get(profile, "avatar_url"))))
  }
}
