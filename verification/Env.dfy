/** Environment lookups and the public base URL of the deployment
    (api/_lib/env.js). The process environment is a map from variable names
    to their string values. */
module Env {
  import opened Wrappers
  import opened Strings
  import opened Http

  type Environment = map<string, string>

  /** `process.env[key]`: undefined (None) when the variable is not set. */
  function EnvVar(env: Environment, key: string): (r: Option<string>)
    ensures r.Some? <==> key in env
  {
    if key in env then Some(env[key]) else None
  }

  /** How many '/' characters `s` ends with. */
  function TrailingSlashes(s: string): (k: nat)
    ensures k <= |s| && forall i :: |s| - k <= i < |s| ==> s[i] == '/'
    ensures k < |s| ==> s[|s| - k - 1] != '/'
  {
    if |s| > 0 && s[|s| - 1] == '/' then 1 + TrailingSlashes(s[..|s| - 1]) else 0
  }

  /** `s.replace(/\/+$/, '')`: the text without its run of trailing slashes. */
  function StripTrailingSlashes(s: string): (r: string)
    ensures r == [] || r[|r| - 1] != '/'
    ensures |r| <= |s| && r == s[..|r|] && forall i :: |r| <= i < |s| ==> s[i] == '/'
  {
    s[..|s| - TrailingSlashes(s)]
  }

  /** normalizeBaseUrl: null for a missing or blank value, otherwise the
      trimmed text with its trailing slashes removed. */
  function NormalizeBaseUrl(value: Option<string>): (r: Option<string>)
    ensures r.None? <==> value.None? || AllWhitespace(value.value)
    ensures r.Some? ==> r.value == [] || (r.value[|r.value| - 1] != '/' && !IsWhitespace(r.value[0]))
    ensures r.Some? ==> |r.value| <= |Trim(value.value)| && r.value == Trim(value.value)[..|r.value|]
    ensures r.Some? ==> forall i :: |r.value| <= i < |Trim(value.value)| ==> Trim(value.value)[i] == '/'
  {
    match value
    case None => None
    case Some(text) =>
      var trimmed := Trim(text);
      if trimmed == "" then None else Some(StripTrailingSlashes(trimmed))
  }

  /** A value made only of slashes, after trimming, normalises to the empty
      text, which `getBaseUrl` then treats as absent. */
  lemma NormalizeOnlySlashes(text: string)
    requires Trim(text) != [] && forall i :: 0 <= i < |Trim(text)| ==> Trim(text)[i] == '/'
    ensures NormalizeBaseUrl(Some(text)) == Some("")
  {
  }

  /** Normalising again changes nothing when the first result is non-empty
      and does not end in whitespace. */
  lemma NormalizeIdempotent(text: string)
    requires NormalizeBaseUrl(Some(text)).Some?
    requires var r := NormalizeBaseUrl(Some(text)).value; r != [] && !IsWhitespace(r[|r| - 1])
    ensures NormalizeBaseUrl(NormalizeBaseUrl(Some(text))) == NormalizeBaseUrl(Some(text))
  {
    var r := NormalizeBaseUrl(Some(text)).value;
    assert IsTrimmed(r);
    TrimOfTrimmed(r);
    assert TrailingSlashes(r) == 0;
    assert r[..|r| - 0] == r;
  }

  /** Whitespace before the trailing slashes survives the first pass:
      "a /" gives "a ". */
  lemma NormalizeKeepsInnerSpace()
    ensures NormalizeBaseUrl(Some("a /")) == Some("a ")
  {
    var s := "a /";
    assert !IsWhitespace(s[0]) && !IsWhitespace(s[2]);
    assert TrimStart(s) == s by { assert s[0..] == s; }
    assert TrimEnd(s) == s by { assert s[..3] == s; }
    assert s[..2] == "a ";
    assert TrailingSlashes("a ") == 0;
  }

  /** So a second pass can shorten the result: normalising is not
      idempotent ("a /" gives "a ", which gives "a"). */
  lemma NormalizeNotIdempotent()
    ensures NormalizeBaseUrl(NormalizeBaseUrl(Some("a /"))) == Some("a") != NormalizeBaseUrl(Some("a /"))
  {
    NormalizeKeepsInnerSpace();
    var t := "a ";
    assert TrimStart(t) == t by { assert t[0..] == t; }
    assert t[..1] == "a";
    assert TrailingSpace("a") == 0;
    assert TrimEnd(t) == "a";
    assert TrailingSlashes("a") == 0;
    assert StripTrailingSlashes("a") == "a" by { assert "a"[..1] == "a"; }
  }

  /** A header used as `req.headers[name] || fallback`: absent or empty
      falls back. */
  function HeaderOr(req: Request, name: string, fallback: Option<string>): (r: Option<string>)
    ensures name in req.headers && req.headers[name] != "" ==> r == Some(req.headers[name])
    ensures !(name in req.headers && req.headers[name] != "") ==> r == fallback
  {
    if name in req.headers && req.headers[name] != "" then Some(req.headers[name]) else fallback
  }

  /** getBaseUrl: the normalised APP_URL when it is non-empty; otherwise
      `proto://host` from the forwarded or plain Host header and the
      forwarded protocol (https by default); null without a host. */
  function GetBaseUrl(env: Environment, req: Request): (r: Option<string>)
    ensures var fromEnv := NormalizeBaseUrl(EnvVar(env, "APP_URL"));
      fromEnv.Some? && fromEnv.value != "" ==> r == fromEnv
    ensures var fromEnv := NormalizeBaseUrl(EnvVar(env, "APP_URL"));
      var host := HeaderOr(req, "x-forwarded-host", Header(req, "host"));
      !(fromEnv.Some? && fromEnv.value != "") ==>
        (r.None? <==> host.None? || host.value == "")
        && (r.Some? ==> r.value == HeaderOr(req, "x-forwarded-proto", Some("https")).value + "://" + host.value)
  {
    var fromEnv := NormalizeBaseUrl(EnvVar(env, "APP_URL"));
    if fromEnv.Some? && fromEnv.value != "" then fromEnv
    else
      var host := HeaderOr(req, "x-forwarded-host", Header(req, "host"));
      var proto := HeaderOr(req, "x-forwarded-proto", Some("https")).value;
      if host.None? || host.value == "" then None
      else Some(proto + "://" + host.value)
  }

  /** A base URL never ends in '/' when it comes from APP_URL. */
  lemma BaseUrlFromEnvHasNoTrailingSlash(env: Environment, req: Request)
    requires var fromEnv := NormalizeBaseUrl(EnvVar(env, "APP_URL")); fromEnv.Some? && fromEnv.value != ""
    ensures var r := GetBaseUrl(env, req).value; r != [] && r[|r| - 1] != '/'
  {
  }

  /** getEnv: the variable's value, or the error it throws when the variable
      is missing or empty. */
  function GetEnv(env: Environment, key: string): (r: Result<string, string>)
    ensures r.Ok? <==> key in env && env[key] != ""
    ensures r.Ok? ==> r.value == env[key]
    ensures r.Err? ==> r.error == "Missing required environment variable: " + key
  {
    if key in env && |env[key]| > 0 then Ok(env[key])
    else Err("Missing required environment variable: " + key)
  }

  /** optionalEnv: the variable's value, or null when missing or empty. */
  function OptionalEnv(env: Environment, key: string): (r: Option<string>)
    ensures r.Some? <==> key in env && env[key] != ""
  {
    if key in env && |env[key]| > 0 then Some(env[key]) else None
  }

  /** getEnv throws exactly where optionalEnv gives null, and otherwise both
      give the same value. */
  lemma GetEnvAgreesWithOptionalEnv(env: Environment, key: string)
    ensures GetEnv(env, key).Err? <==> OptionalEnv(env, key).None?
    ensures GetEnv(env, key).Ok? ==> GetEnv(env, key).value == OptionalEnv(env, key).value
  {
  }

  datatype ProvidersConfigured = ProvidersConfigured(google: bool, github: bool)

  /** authProvidersConfigured: a provider is available when both its client
      id and its client secret are set and non-empty. */
  function AuthProvidersConfigured(env: Environment): (r: ProvidersConfigured)
    ensures r.google <==> ("GOOGLE_CLIENT_ID" in env && env["GOOGLE_CLIENT_ID"] != "")
                          && ("GOOGLE_CLIENT_SECRET" in env && env["GOOGLE_CLIENT_SECRET"] != "")
    ensures r.github <==> ("GITHUB_CLIENT_ID" in env && env["GITHUB_CLIENT_ID"] != "")
                          && ("GITHUB_CLIENT_SECRET" in env && env["GITHUB_CLIENT_SECRET"] != "")
  {
    ProvidersConfigured(
      OptionalEnv(env, "GOOGLE_CLIENT_ID").Some? && OptionalEnv(env, "GOOGLE_CLIENT_SECRET").Some?,
      OptionalEnv(env, "GITHUB_CLIENT_ID").Some? && OptionalEnv(env, "GITHUB_CLIENT_SECRET").Some?)
  }
}
