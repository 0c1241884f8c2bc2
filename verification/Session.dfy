/** Cookies and signed tokens (api/_lib/session.js): parsing the Cookie
    request header (section 4.2 of RFC 6265), serialising Set-Cookie values
    (section 4.1 of RFC 6265), `payload.signature` tokens, the session
    claims and the OAuth `state` check (section 10.12 of RFC 6749). The
    HMAC, base64url, JSON and URI codecs are the given functions of a
    `Codecs` record; the clock is a parameter in milliseconds. */
module Session {
  import opened Wrappers
  import opened Strings
  import opened Json
  import opened Http
  import opened Env
  import opened Users

  const SessionCookieName: string := "gantt_session"
  const OAuthStateCookieName: string := "gantt_oauth_state"
  const SessionTtlSeconds: int := 60 * 60 * 24 * 30
  const OAuthStateTtlSeconds: int := 60 * 10

  /** The message of the URIError `decodeURIComponent` throws on a malformed escape. */
  const UriMalformed: string := "URI malformed"

  // ---------------------------------------------------------------------
  // parseCookies
  // ---------------------------------------------------------------------

  /** `.map((item) => item.trim()).filter(Boolean)`. */
  function NonEmptyTrimmed(parts: seq<string>): (items: seq<string>)
    ensures |items| <= |parts|
    ensures forall i :: 0 <= i < |items| ==> items[i] != "" && IsTrimmed(items[i])
  {
    if parts == [] then []
    else
      var t := Trim(parts[0]);
      (if t == "" then [] else [t]) + NonEmptyTrimmed(parts[1..])
  }

  /** The items of a Cookie header; none for a missing or empty header. */
  function CookieItems(header: Option<string>): (items: seq<string>)
    ensures header.None? || header.value == "" ==> items == []
    ensures forall i :: 0 <= i < |items| ==> items[i] != "" && IsTrimmed(items[i])
  {
    if header.None? || header.value == "" then [] else NonEmptyTrimmed(Split(header.value, ';'))
  }

  /** An item split at its first '=': None when it has no '=' or starts
      with one, which the parser skips. */
  function CookieSplit(item: string): (r: Option<(string, string)>)
    ensures r.None? <==> '=' !in item || item[0] == '='
    ensures r.Some? ==> r.value.0 != "" && '=' !in r.value.0 && item == r.value.0 + "=" + r.value.1
  {
    if '=' !in item then None
    else
      var i := IndexOf(item, '=');
      if i == 0 then None
      else
        assert item == item[..i] + "=" + item[i + 1..];
        Some((item[..i], item[i + 1..]))
  }

  /** The decoded name and value an item contributes: none for a skipped
      item, the URIError when either part does not decode. */
  function ItemPair(codecs: Codecs, item: string): (r: Result<Option<(string, string)>, string>)
    ensures CookieSplit(item).None? ==> r == Ok(None)
    ensures r.Err? ==> r.error == UriMalformed
  {
    match CookieSplit(item)
    case None => Ok(None)
    case Some((name, value)) =>
      match codecs.uriDecode(name)
      case None => Err(UriMalformed)
      case Some(key) =>
        match codecs.uriDecode(value)
        case None => Err(UriMalformed)
        case Some(v) => Ok(Some((key, v)))
  }

  /** One step of the `reduce`: the accumulator with the item's pair set. */
  function AddCookie(codecs: Codecs, acc: map<string, string>, item: string): (r: Result<map<string, string>, string>)
    ensures r.Err? <==> ItemPair(codecs, item).Err?
  {
    match ItemPair(codecs, item)
    case Err(e) => Err(e)
    case Ok(None) => Ok(acc)
    case Ok(Some(p)) => Ok(acc[p.0 := p.1])
  }

  /** The fold over the items, in order; the first URIError escapes. */
  function CookiesFrom(codecs: Codecs, items: seq<string>): (r: Result<map<string, string>, string>)
    decreases |items|
  {
    if items == [] then Ok(map[])
    else
      match CookiesFrom(codecs, items[..|items| - 1])
      case Err(e) => Err(e)
      case Ok(acc) => AddCookie(codecs, acc, items[|items| - 1])
  }

  /** parseCookies as a value. */
  function Cookies(codecs: Codecs, header: Option<string>): Result<map<string, string>, string> {
    CookiesFrom(codecs, CookieItems(header))
  }

  /** parseCookies: the fold into a mutable accumulator. */
  method ParseCookies(codecs: Codecs, header: Option<string>) returns (r: Result<map<string, string>, string>)
    ensures r == Cookies(codecs, header)
    ensures header.None? || header.value == "" ==> r == Ok(map[])
  {
    var items := CookieItems(header);
    var acc: map<string, string> := map[];
    var i := 0;
    while i < |items|
      invariant 0 <= i <= |items|
      invariant CookiesFrom(codecs, items[..i]) == Ok(acc)
    {
      CookiesFromStep(codecs, items, i, acc);
      var step := ItemPair(codecs, items[i]);
      match step {
        case Err(e) =>
          CookiesErrSticky(codecs, items, i + 1);
          return Err(e);
        case Ok(None) =>
        case Ok(Some(p)) =>
          acc := acc[p.0 := p.1];
      }
      i := i + 1;
    }
    assert items[..i] == items;
    r := Ok(acc);
  }

  /** One more item folds in by AddCookie. */
  lemma CookiesFromStep(codecs: Codecs, items: seq<string>, i: nat, acc: map<string, string>)
    requires i < |items| && CookiesFrom(codecs, items[..i]) == Ok(acc)
    ensures CookiesFrom(codecs, items[..i + 1]) == AddCookie(codecs, acc, items[i])
  {
    assert items[..i + 1][..i] == items[..i];
  }

  /** Once the fold has thrown, the rest of the items do not matter. */
  lemma {:induction false} CookiesErrSticky(codecs: Codecs, items: seq<string>, k: nat)
    requires k <= |items|
    requires CookiesFrom(codecs, items[..k]).Err?
    ensures CookiesFrom(codecs, items) == CookiesFrom(codecs, items[..k])
    decreases |items| - k
  {
    if k == |items| {
      assert items[..k] == items;
    } else {
      assert items[..k + 1][..k] == items[..k];
      assert CookiesFrom(codecs, items[..k + 1]) == CookiesFrom(codecs, items[..k]);
      CookiesErrSticky(codecs, items, k + 1);
    }
  }

  /** The decoded pairs of the items, front to back (an independent
      description of what the fold sees). */
  function Pairs(codecs: Codecs, items: seq<string>): (r: Result<seq<(string, string)>, string>)
    decreases |items|
  {
    if items == [] then Ok([])
    else
      match ItemPair(codecs, items[0])
      case Err(e) => Err(e)
      case Ok(p) =>
        match Pairs(codecs, items[1..])
        case Err(e) => Err(e)
        case Ok(ps) => Ok((if p.Some? then [p.value] else []) + ps)
  }

  /** The value of the last pair named `key`. */
  function LastValue(pairs: seq<(string, string)>, key: string): (r: Option<string>)
    ensures r.None? <==> forall i :: 0 <= i < |pairs| ==> pairs[i].0 != key
    decreases |pairs|
  {
    if pairs == [] then None
    else
      var later := LastValue(pairs[1..], key);
      if later.Some? then later
      else if pairs[0].0 == key then Some(pairs[0].1)
      else
        assert forall i :: 1 <= i < |pairs| ==> pairs[i] == pairs[1..][i - 1];
        None
  }

  lemma {:induction false} LastValueSnoc(pairs: seq<(string, string)>, p: (string, string), key: string)
    ensures LastValue(pairs + [p], key) == if p.0 == key then Some(p.1) else LastValue(pairs, key)
    decreases |pairs|
  {
    if pairs == [] {
      assert ([] + [p])[1..] == [];
    } else {
      assert (pairs + [p])[1..] == pairs[1..] + [p];
      LastValueSnoc(pairs[1..], p, key);
    }
  }

  lemma {:induction false} PairsSnoc(codecs: Codecs, items: seq<string>, item: string)
    ensures Pairs(codecs, items + [item]).Err? <==> Pairs(codecs, items).Err? || ItemPair(codecs, item).Err?
    ensures Pairs(codecs, items + [item]).Ok? ==>
      Pairs(codecs, items + [item]).value
        == Pairs(codecs, items).value + (if ItemPair(codecs, item).value.Some? then [ItemPair(codecs, item).value.value] else [])
    decreases |items|
  {
    if items == [] {
      assert ([] + [item])[1..] == [];
    } else {
      assert (items + [item])[0] == items[0];
      assert (items + [item])[1..] == items[1..] + [item];
      PairsSnoc(codecs, items[1..], item);
    }
  }

  /** A later duplicate name overrides an earlier one: the parsed map holds
      exactly the names of the decoded pairs, each with the value of its last
      pair; and the parse throws exactly when some item does not decode. */
  lemma {:induction false} CookiesAreLastValues(codecs: Codecs, items: seq<string>)
    ensures CookiesFrom(codecs, items).Err? <==> Pairs(codecs, items).Err?
    ensures CookiesFrom(codecs, items).Ok? ==>
      forall key :: (key in CookiesFrom(codecs, items).value <==> LastValue(Pairs(codecs, items).value, key).Some?)
        && (key in CookiesFrom(codecs, items).value ==>
              CookiesFrom(codecs, items).value[key] == LastValue(Pairs(codecs, items).value, key).value)
    decreases |items|
  {
    if items != [] {
      var front := items[..|items| - 1];
      var last := items[|items| - 1];
      assert items == front + [last];
      CookiesAreLastValues(codecs, front);
      PairsSnoc(codecs, front, last);
      if CookiesFrom(codecs, items).Ok? {
        var ps := Pairs(codecs, front).value;
        match ItemPair(codecs, last)
        case Ok(None) =>
          assert Pairs(codecs, items).value == ps + [];
          assert ps + [] == ps;
        case Ok(Some(p)) =>
          assert Pairs(codecs, items).value == ps + [p];
          forall key
            ensures LastValue(ps + [p], key) == if p.0 == key then Some(p.1) else LastValue(ps, key)
          {
            LastValueSnoc(ps, p, key);
          }
      }
    }
  }

  /** A header carrying one `name=value` item parses to that one pair;
      the value may itself contain '='. */
  lemma SingleCookie(codecs: Codecs, name: string, value: string)
    requires name != "" && '=' !in name
    requires ';' !in name + "=" + value && IsTrimmed(name + "=" + value)
    requires codecs.uriDecode(name).Some? && codecs.uriDecode(value).Some?
    ensures Cookies(codecs, Some(name + "=" + value))
      == Ok(map[codecs.uriDecode(name).value := codecs.uriDecode(value).value])
  {
    var item := name + "=" + value;
    assert item[|name|] == '=';
    assert Split(item, ';') == [item];
    TrimOfTrimmed(item);
    assert NonEmptyTrimmed([item]) == [item] by {
      assert [item][1..] == [];
    }
    assert CookieItems(Some(item)) == [item];
    var i := IndexOf(item, '=');
    assert forall j :: 0 <= j < |name| ==> item[j] == name[j];
    assert i == |name|;
    assert item[..i] == name && item[i + 1..] == value;
    assert CookieSplit(item) == Some((name, value));
    assert ItemPair(codecs, item) == Ok(Some((codecs.uriDecode(name).value, codecs.uriDecode(value).value)));
    assert [item][..0] == [];
    assert CookiesFrom(codecs, [item]) == AddCookie(codecs, map[], item);
  }

  // ---------------------------------------------------------------------
  // serializeCookie and appendSetCookie
  // ---------------------------------------------------------------------

  /** The options `serializeCookie` reads; a missing option is None. */
  datatype CookieOptions = CookieOptions(
    maxAge: Option<real>,
    path: Option<string>,
    httpOnly: Option<bool>,
    sameSite: Option<string>,
    secure: bool)

  /** `options.path || '/'`. */
  function CookiePath(options: CookieOptions): (r: string)
    ensures r != ""
  {
    if options.path.Some? && options.path.value != "" then options.path.value else "/"
  }

  /** The attributes in their order: Max-Age when a number is given, Path
      always, HttpOnly unless switched off, SameSite when set, Secure when
      set. */
  function CookieAttributes(options: CookieOptions): seq<string> {
    (if options.maxAge.Some? then ["Max-Age=" + IntToString(options.maxAge.value.Floor)] else [])
    + ["Path=" + CookiePath(options)]
    + (if options.httpOnly != Some(false) then ["HttpOnly"] else [])
    + (if options.sameSite.Some? && options.sameSite.value != "" then ["SameSite=" + options.sameSite.value] else [])
    + (if options.secure then ["Secure"] else [])
  }

  /** The encoded name=value pair followed by the attributes. */
  function CookieParts(codecs: Codecs, name: string, value: string, options: CookieOptions): seq<string> {
    [codecs.uriEncode(name) + "=" + codecs.uriEncode(value)] + CookieAttributes(options)
  }

  /** The Set-Cookie value for those parts. */
  function SerializedCookie(codecs: Codecs, name: string, value: string, options: CookieOptions): string {
    Join(CookieParts(codecs, name, value, options), "; ")
  }

  /** serializeCookie: pushes the parts one by one and joins them. */
  method SerializeCookie(codecs: Codecs, name: string, value: string, options: CookieOptions) returns (cookie: string)
    ensures cookie == SerializedCookie(codecs, name, value, options)
  {
    var parts := [codecs.uriEncode(name) + "=" + codecs.uriEncode(value)];
    if options.maxAge.Some? {
      parts := parts + ["Max-Age=" + IntToString(options.maxAge.value.Floor)];
    }
    parts := parts + ["Path=" + CookiePath(options)];
    if options.httpOnly != Some(false) {
      parts := parts + ["HttpOnly"];
    }
    if options.sameSite.Some? && options.sameSite.value != "" {
      parts := parts + ["SameSite=" + options.sameSite.value];
    }
    if options.secure {
      parts := parts + ["Secure"];
    }
    assert parts == CookieParts(codecs, name, value, options);
    cookie := Join(parts, "; ");
  }

  /** A serialised cookie starts with name=value, followed by Max-Age
      exactly when a number is given, and otherwise by the Path. */
  lemma CookieStart(codecs: Codecs, name: string, value: string, options: CookieOptions)
    ensures var parts := CookieParts(codecs, name, value, options);
      |parts| >= 2 && parts[0] == codecs.uriEncode(name) + "=" + codecs.uriEncode(value)
      && (options.maxAge.Some? ==> parts[1] == "Max-Age=" + IntToString(options.maxAge.value.Floor))
      && (options.maxAge.None? ==> parts[1] == "Path=" + CookiePath(options))
  {
  }

  /** Every attribute after the pair holds an '=', except the two flags. */
  lemma AttributesHoldEquals(codecs: Codecs, name: string, value: string, options: CookieOptions)
    ensures var parts := CookieParts(codecs, name, value, options);
      forall k :: 0 <= k < |parts| && parts[k] != "HttpOnly" && parts[k] != "Secure" ==> '=' in parts[k]
  {
    var pair := codecs.uriEncode(name) + "=" + codecs.uriEncode(value);
    assert pair[|codecs.uriEncode(name)|] == '=';
    AttributeListHoldsEquals(options);
    assert CookieParts(codecs, name, value, options) == [pair] + CookieAttributes(options);
  }

  lemma AttributeListHoldsEquals(options: CookieOptions)
    ensures forall a :: a in CookieAttributes(options) && a != "HttpOnly" && a != "Secure" ==> '=' in a
  {
    var age := if options.maxAge.Some? then ["Max-Age=" + IntToString(options.maxAge.value.Floor)] else [];
    var path := "Path=" + CookiePath(options);
    assert path[4] == '=';
    if options.maxAge.Some? {
      assert age[0][7] == '=';
    }
    if options.sameSite.Some? {
      assert ("SameSite=" + options.sameSite.value)[8] == '=';
    }
  }

  /** The Path attribute is always present, HttpOnly is present unless it is
      switched off, and Secure only when it is asked for. */
  lemma CookieFlags(codecs: Codecs, name: string, value: string, options: CookieOptions)
    ensures var parts := CookieParts(codecs, name, value, options);
      ("Path=" + CookiePath(options)) in parts
      && ("HttpOnly" in parts <==> options.httpOnly != Some(false))
      && ("Secure" in parts <==> options.secure)
  {
    var parts := CookieParts(codecs, name, value, options);
    AttributesHoldEquals(codecs, name, value, options);
    assert '=' !in "HttpOnly" && '=' !in "Secure";
    assert "HttpOnly" != "Secure";
  }

  /** SameSite appears among the attributes, with exactly the given value,
      only when a non-empty one is set. */
  lemma CookieSameSite(options: CookieOptions, s: string)
    ensures ("SameSite=" + s) in CookieAttributes(options) <==> options.sameSite == Some(s) && s != ""
  {
    var t := "SameSite=" + s;
    assert t[0] == 'S' && t[1] == 'a';
    if options.maxAge.Some? {
      assert ("Max-Age=" + IntToString(options.maxAge.value.Floor))[0] == 'M';
    }
    assert ("Path=" + CookiePath(options))[0] == 'P';
    assert |t| >= 9 && t != "HttpOnly" && t != "Secure";
    if options.sameSite.Some? {
      var u := "SameSite=" + options.sameSite.value;
      assert t == u ==> t[9..] == s && u[9..] == options.sameSite.value;
    }
  }

  /** A header value after appendSetCookie: an unset or empty header takes
      the cookie alone, a single value becomes a list of two, a list grows
      by one. */
  function Appended(existing: HeaderValue, cookie: string): HeaderValue {
    match existing
    case Unset => One(cookie)
    case One(v) => if v == "" then One(cookie) else Many([v, cookie])
    case Many(vs) => Many(vs + [cookie])
  }

  /** Every cookie already set stays, in order, and the new one comes last
      (an empty single value, which JavaScript treats as absent, is the one
      exception and is replaced). */
  lemma AppendedKeepsOrder(existing: HeaderValue, cookie: string)
    ensures existing != One("") ==> HeaderValues(Appended(existing, cookie)) == HeaderValues(existing) + [cookie]
    ensures existing == One("") ==> HeaderValues(Appended(existing, cookie)) == [cookie]
  {
  }

  /** appendSetCookie. */
  method AppendSetCookie(res: Response, cookie: string)
    modifies res
    ensures res.setCookie == Appended(old(res.setCookie), cookie)
    ensures res.status == old(res.status) && res.location == old(res.location) && res.body == old(res.body)
    ensures res.allow == old(res.allow) && res.contentType == old(res.contentType) && res.ended == old(res.ended)
  {
    var existing := res.setCookie;
    if existing.Unset? || existing == One("") {
      res.setCookie := One(cookie);
      return;
    }
    if existing.Many? {
      res.setCookie := Many(existing.values + [cookie]);
      return;
    }
    res.setCookie := Many([existing.value, cookie]);
  }

  /** isSecureRequest: the forwarded protocol mentions https, or, without
      that header, the process runs in production. */
  predicate IsSecureRequest(env: Environment, req: Request) {
    if "x-forwarded-proto" in req.headers then Contains(req.headers["x-forwarded-proto"], "https")
    else "NODE_ENV" in env && env["NODE_ENV"] == "production"
  }

  /** The options every cookie of this module is written with. */
  function CookieOptionsFor(maxAge: int, env: Environment, req: Request): CookieOptions {
    CookieOptions(Some(maxAge as real), Some("/"), Some(true), Some("Lax"), IsSecureRequest(env, req))
  }

  /** Every cookie of this module carries `Secure` exactly when the
      forwarded protocol mentions https, or, for a request without that
      header, when NODE_ENV is "production". */
  lemma CookieSecure(codecs: Codecs, name: string, value: string, maxAge: int, env: Environment, req: Request)
    ensures "Secure" in CookieParts(codecs, name, value, CookieOptionsFor(maxAge, env, req)) <==>
      if "x-forwarded-proto" in req.headers then Contains(req.headers["x-forwarded-proto"], "https")
      else "NODE_ENV" in env && env["NODE_ENV"] == "production"
  {
    CookieFlags(codecs, name, value, CookieOptionsFor(maxAge, env, req));
  }

  /** A forwarded protocol decides over NODE_ENV: a request forwarded as
      plain http gets no `Secure` cookie, even in production. */
  lemma ForwardedHttpNotSecure(codecs: Codecs, name: string, value: string, maxAge: int, env: Environment, req: Request)
    requires "x-forwarded-proto" in req.headers && req.headers["x-forwarded-proto"] == "http"
    ensures "Secure" !in CookieParts(codecs, name, value, CookieOptionsFor(maxAge, env, req))
  {
    CookieSecure(codecs, name, value, maxAge, env, req);
    var h := "http";
    assert !("https" <= h);
    assert h[1..] == "ttp" && h[1..][1..] == "tp" && h[1..][1..][1..] == "p" && h[1..][1..][1..][1..] == "";
    assert !Contains(h[1..][1..][1..][1..], "https");
    assert !Contains(h, "https");
  }

  /** A proxy that forwards a list of protocols counts as https when any
      entry is. */
  lemma ForwardedListSecure(codecs: Codecs, name: string, value: string, maxAge: int, env: Environment, req: Request)
    requires "x-forwarded-proto" in req.headers && req.headers["x-forwarded-proto"] == "http,https"
    ensures "Secure" in CookieParts(codecs, name, value, CookieOptionsFor(maxAge, env, req))
  {
    CookieSecure(codecs, name, value, maxAge, env, req);
    var h := "http,https";
    assert h[1..][1..][1..][1..][1..] == "https";
    assert Contains(h, "https");
  }

  // ---------------------------------------------------------------------
  // Signed tokens
  // ---------------------------------------------------------------------

  /** sign: the HMAC of the value under AUTH_SECRET; throws without it. */
  function Sign(env: Environment, codecs: Codecs, value: string): (r: Result<string, string>)
    ensures r.Err? <==> GetEnv(env, "AUTH_SECRET").Err?
    ensures r.Err? ==> r == Err(GetEnv(env, "AUTH_SECRET").error)
    ensures r.Ok? ==> r.value == codecs.hmac(env["AUTH_SECRET"], value)
  {
    match GetEnv(env, "AUTH_SECRET")
    case Err(e) => Err(e)
    case Ok(secret) => Ok(codecs.hmac(secret, value))
  }

  /** The base64url text of a payload's JSON. */
  function Encoded(codecs: Codecs, payload: Json): string {
    codecs.toBase64url(codecs.stringify(payload))
  }

  /** createSignedPayload: `encoded.signature`. */
  function CreateSignedPayload(env: Environment, codecs: Codecs, payload: Json): (r: Result<string, string>)
    ensures r.Err? <==> GetEnv(env, "AUTH_SECRET").Err?
  {
    var encoded := Encoded(codecs, payload);
    match Sign(env, codecs, encoded)
    case Err(e) => Err(e)
    case Ok(signature) => Ok(encoded + "." + signature)
  }

  /** The first two '.'-separated parts of a token; a missing second part is
      the empty text (undefined, which is falsy). */
  function TokenParts(token: string): (r: (string, string))
    ensures '.' !in r.0 && '.' !in r.1
    ensures r.0 <= token && ('.' in token <==> |r.0| < |token| && token[|r.0|] == '.')
    ensures '.' !in token ==> r == (token, "")
  {
    var parts := Split(token, '.');
    SplitPartsFree(token, '.');
    (parts[0], if |parts| > 1 then parts[1] else "")
  }

  /** The token's signature part is the HMAC of its payload part. */
  predicate SignedCorrectly(env: Environment, codecs: Codecs, token: string) {
    var (encoded, signature) := TokenParts(token);
    encoded != "" && signature != "" && "AUTH_SECRET" in env && env["AUTH_SECRET"] != ""
    && signature == codecs.hmac(env["AUTH_SECRET"], encoded)
  }

  /** verifySignedPayload: null for an empty part or a wrong signature, the
      parsed payload (null when it does not parse) otherwise; it throws only
      when AUTH_SECRET is missing and both parts are present. */
  function VerifySignedPayload(env: Environment, codecs: Codecs, token: string): (r: Result<Option<Json>, string>)
    ensures r.Err? <==> TokenParts(token).0 != "" && TokenParts(token).1 != "" && GetEnv(env, "AUTH_SECRET").Err?
    ensures r.Ok? && r.value.Some? ==> SignedCorrectly(env, codecs, token)
    ensures SignedCorrectly(env, codecs, token) ==> r == Ok(codecs.parse(codecs.fromBase64url(TokenParts(token).0)))
  {
    var (encoded, provided) := TokenParts(token);
    if encoded == "" || provided == "" then Ok(None)
    else
      match Sign(env, codecs, encoded)
      case Err(e) => Err(e)
      case Ok(expected) =>
        if provided != expected then Ok(None)
        else Ok(codecs.parse(codecs.fromBase64url(encoded)))
  }

  predicate IsBase64urlChar(c: char) {
    ('A' <= c <= 'Z') || ('a' <= c <= 'z') || ('0' <= c <= '9') || c == '-' || c == '_'
  }

  /** Non-empty text in the base64url alphabet (section 5 of RFC 4648),
      without padding, as Node's encoder writes it. */
  predicate IsBase64url(s: string) {
    s != [] && forall i :: 0 <= i < |s| ==> IsBase64urlChar(s[i])
  }

  /** The codec facts a token round trip relies on, at one payload: the
      encodings are non-empty base64url text, base64url decoding undoes the
      encoding, and the JSON text parses back to the payload. */
  predicate CodecsRoundTrip(env: Environment, codecs: Codecs, payload: Json) {
    "AUTH_SECRET" in env && env["AUTH_SECRET"] != ""
    && IsBase64url(Encoded(codecs, payload))
    && IsBase64url(codecs.hmac(env["AUTH_SECRET"], Encoded(codecs, payload)))
    && codecs.fromBase64url(Encoded(codecs, payload)) == codecs.stringify(payload)
    && codecs.parse(codecs.stringify(payload)) == Some(payload)
  }

  /** verify(create(p)) gives p back. */
  lemma VerifyOfCreate(env: Environment, codecs: Codecs, payload: Json)
    requires CodecsRoundTrip(env, codecs, payload)
    ensures CreateSignedPayload(env, codecs, payload).Ok?
    ensures VerifySignedPayload(env, codecs, CreateSignedPayload(env, codecs, payload).value) == Ok(Some(payload))
  {
    var encoded := Encoded(codecs, payload);
    var signature := codecs.hmac(env["AUTH_SECRET"], encoded);
    assert '.' !in encoded by { assert !IsBase64urlChar('.'); }
    assert '.' !in signature by { assert !IsBase64urlChar('.'); }
    SplitTwo(encoded, signature, '.');
    assert CreateSignedPayload(env, codecs, payload).value == encoded + ['.'] + signature;
  }

  /** A changed signature part is rejected. */
  lemma VerifyRejectsForgery(env: Environment, codecs: Codecs, encoded: string, signature: string)
    requires '.' !in encoded && '.' !in signature
    requires "AUTH_SECRET" in env && env["AUTH_SECRET"] != ""
    requires signature != codecs.hmac(env["AUTH_SECRET"], encoded)
    ensures VerifySignedPayload(env, codecs, encoded + "." + signature) == Ok(None)
  {
    SplitTwo(encoded, signature, '.');
  }

  // ---------------------------------------------------------------------
  // Sessions
  // ---------------------------------------------------------------------

  /** `Math.floor(Date.now() / 1000)`. */
  function NowSeconds(nowMillis: int): (r: int)
    ensures r * 1000 <= nowMillis < r * 1000 + 1000
  {
    nowMillis / 1000
  }

  /** createSessionUser: the claims of a session issued at `nowMillis`,
      valid for 30 days. */
  function CreateSessionUser(user: User, nowMillis: int): Json {
    JObject([
      ("uid", JString(user.id)),
      ("email", JString(user.email)),
      ("name", JsonOfOption(NullIfEmpty(user.displayName))),
      ("avatar", JsonOfOption(NullIfEmpty(user.avatarUrl))),
      ("exp", JNumber((NowSeconds(nowMillis) + SessionTtlSeconds) as real))])
  }

  /** The session getSessionFromRequest returns. */
  datatype SessionInfo = SessionInfo(userId: string, email: string, displayName: Option<string>, avatarUrl: Option<string>, exp: real)

  /** A member that is a non-empty string. */
  predicate NonEmptyString(v: Option<Json>) {
    v.Some? && v.value.JString? && v.value.s != ""
  }

  /** A number member later than `now`. */
  predicate LiveExpiry(v: Option<Json>, now: int) {
    v.Some? && v.value.JNumber? && v.value.n > now as real
  }

  /** The claim checks of getSessionFromRequest on a verified payload:
      an object with a live `exp`, a non-empty `uid` and a non-empty
      `email`; a non-string name or avatar becomes null. */
  function SessionOfPayload(payload: Option<Json>, now: int): (r: Option<SessionInfo>)
    ensures r.Some? <==> (payload.Some? && payload.value.JObject?
      && LiveExpiry(Get(payload.value, "exp"), now)
      && NonEmptyString(Get(payload.value, "uid")) && NonEmptyString(Get(payload.value, "email")))
    ensures r.Some? ==> r.value.exp > now as real && r.value.userId != "" && r.value.email != ""
    ensures r.Some? ==> (r.value.displayName == StringOrNull(Get(payload.value, "name"))
      && r.value.avatarUrl == StringOrNull(Get(payload.value, "avatar")))
  {
    match payload
    case None => None
    case Some(p) =>
      // `!payload || typeof payload !== 'object'`: null and the scalars go;
      // an array passes this test but has no `exp`.
      if !(p.JArray? || p.JObject?) then None
      else
        var exp := Get(p, "exp");
        if !(exp.Some? && exp.value.JNumber?) || exp.value.n <= now as real then None
        else
          var uid := Get(p, "uid");
          var email := Get(p, "email");
          if !NonEmptyString(uid) || !NonEmptyString(email) then None
          else Some(SessionInfo(uid.value.s, email.value.s, StringOrNull(Get(p, "name")), StringOrNull(Get(p, "avatar")), exp.value.n))
  }

  /** The cookie named `name`, if set and non-empty. */
  function CookieToken(cookies: map<string, string>, name: string): (r: Option<string>)
    ensures r.Some? <==> name in cookies && cookies[name] != ""
    ensures r.Some? ==> r.value == cookies[name]
  {
    if name in cookies && cookies[name] != "" then Some(cookies[name]) else None
  }

  /** getSessionFromRequest. Only a malformed Cookie header throws; a
      failing verification (even a missing AUTH_SECRET) is caught and gives
      no session. */
  function GetSessionFromRequest(env: Environment, codecs: Codecs, req: Request, nowMillis: int): (r: Result<Option<SessionInfo>, string>)
    ensures r.Err? <==> Cookies(codecs, Header(req, "cookie")).Err?
    ensures r.Ok? && r.value.Some? ==>
      var token := CookieToken(Cookies(codecs, Header(req, "cookie")).value, SessionCookieName);
      token.Some? && SignedCorrectly(env, codecs, token.value)
      && r.value.value.exp > NowSeconds(nowMillis) as real && r.value.value.userId != "" && r.value.value.email != ""
  {
    match Cookies(codecs, Header(req, "cookie"))
    case Err(e) => Err(e)
    case Ok(cookies) =>
      match CookieToken(cookies, SessionCookieName)
      case None => Ok(None)
      case Some(token) =>
        match VerifySignedPayload(env, codecs, token)
        case Err(_) => Ok(None)
        case Ok(payload) => Ok(SessionOfPayload(payload, NowSeconds(nowMillis)))
  }

  /** A request whose Cookie header is exactly `name=token`. */
  predicate CarriesCookie(codecs: Codecs, req: Request, name: string, token: string) {
    "cookie" in req.headers && req.headers["cookie"] == name + "=" + token
    && ';' !in name + "=" + token && IsTrimmed(name + "=" + token) && '=' !in name
    && codecs.uriDecode(name) == Some(name) && codecs.uriDecode(token) == Some(token)
  }

  /** The members of created session claims read back as written. */
  lemma CreatedClaims(user: User, issuedMillis: int)
    ensures var p := CreateSessionUser(user, issuedMillis);
      Get(p, "uid") == Some(JString(user.id)) && Get(p, "email") == Some(JString(user.email))
      && Get(p, "name") == Some(JsonOfOption(NullIfEmpty(user.displayName)))
      && Get(p, "avatar") == Some(JsonOfOption(NullIfEmpty(user.avatarUrl)))
      && Get(p, "exp") == Some(JNumber((NowSeconds(issuedMillis) + SessionTtlSeconds) as real))
  {
    var ms := CreateSessionUser(user, issuedMillis).members;
    LookupAt(ms, 0, "uid");
    LookupAt(ms, 1, "email");
    LookupAt(ms, 2, "name");
    LookupAt(ms, 3, "avatar");
    LookupAt(ms, 4, "exp");
  }

  /** The claims of a freshly created session pass the checks until they
      expire 30 days later, and give back the user's fields. */
  lemma SessionOfCreated(user: User, issuedMillis: int, now: int)
    requires user.id != "" && user.email != ""
    ensures now < NowSeconds(issuedMillis) + SessionTtlSeconds ==>
      SessionOfPayload(Some(CreateSessionUser(user, issuedMillis)), now)
        == Some(SessionInfo(user.id, user.email, NullIfEmpty(user.displayName), NullIfEmpty(user.avatarUrl),
                            (NowSeconds(issuedMillis) + SessionTtlSeconds) as real))
    ensures now >= NowSeconds(issuedMillis) + SessionTtlSeconds ==>
      SessionOfPayload(Some(CreateSessionUser(user, issuedMillis)), now) == None
  {
    CreatedClaims(user, issuedMillis);
  }

  /** A session cookie read back before it expires yields the session it
      was issued for; from its expiry on, none. */
  lemma SessionRoundTrip(env: Environment, codecs: Codecs, req: Request, user: User, issuedMillis: int, nowMillis: int)
    requires user.id != "" && user.email != ""
    requires CodecsRoundTrip(env, codecs, CreateSessionUser(user, issuedMillis))
    requires CreateSignedPayload(env, codecs, CreateSessionUser(user, issuedMillis)).Ok?
    requires CarriesCookie(codecs, req, SessionCookieName, CreateSignedPayload(env, codecs, CreateSessionUser(user, issuedMillis)).value)
    ensures NowSeconds(nowMillis) < NowSeconds(issuedMillis) + SessionTtlSeconds ==>
      GetSessionFromRequest(env, codecs, req, nowMillis)
        == Ok(Some(SessionInfo(user.id, user.email, NullIfEmpty(user.displayName), NullIfEmpty(user.avatarUrl),
                               (NowSeconds(issuedMillis) + SessionTtlSeconds) as real)))
    ensures NowSeconds(nowMillis) >= NowSeconds(issuedMillis) + SessionTtlSeconds ==>
      GetSessionFromRequest(env, codecs, req, nowMillis) == Ok(None)
  {
    var p := CreateSessionUser(user, issuedMillis);
    var token := CreateSignedPayload(env, codecs, p).value;
    VerifyOfCreate(env, codecs, p);
    SingleCookie(codecs, SessionCookieName, token);
    assert Header(req, "cookie") == Some(SessionCookieName + "=" + token);
    assert Cookies(codecs, Header(req, "cookie")) == Ok(map[SessionCookieName := token]);
    assert CookieToken(map[SessionCookieName := token], SessionCookieName) == Some(token);
    assert VerifySignedPayload(env, codecs, token) == Ok(Some(p));
    assert GetSessionFromRequest(env, codecs, req, nowMillis) == Ok(SessionOfPayload(Some(p), NowSeconds(nowMillis)));
    SessionOfCreated(user, issuedMillis, NowSeconds(nowMillis));
  }

  /** setSessionCookie: appends the signed session cookie (30 days); a
      missing AUTH_SECRET throws before any header is touched. */
  method SetSessionCookie(env: Environment, codecs: Codecs, req: Request, res: Response, sessionUser: Json)
    returns (r: Result<(), string>)
    modifies res
    ensures r.Err? <==> GetEnv(env, "AUTH_SECRET").Err?
    ensures r.Err? ==> res.setCookie == old(res.setCookie)
    ensures r.Ok? ==> res.setCookie == Appended(old(res.setCookie),
      SerializedCookie(codecs, SessionCookieName, CreateSignedPayload(env, codecs, sessionUser).value,
                       CookieOptionsFor(SessionTtlSeconds, env, req)))
    ensures res.status == old(res.status) && res.location == old(res.location) && res.body == old(res.body)
    ensures res.allow == old(res.allow) && res.contentType == old(res.contentType) && res.ended == old(res.ended)
  {
    var token := CreateSignedPayload(env, codecs, sessionUser);
    if token.Err? {
      return Err(token.error);
    }
    var cookie := SerializeCookie(codecs, SessionCookieName, token.value, CookieOptionsFor(SessionTtlSeconds, env, req));
    AppendSetCookie(res, cookie);
    r := Ok(());
  }

  /** clearSessionCookie: appends an empty session cookie with Max-Age 0. */
  method ClearSessionCookie(env: Environment, codecs: Codecs, req: Request, res: Response)
    modifies res
    ensures res.setCookie == Appended(old(res.setCookie), SerializedCookie(codecs, SessionCookieName, "", CookieOptionsFor(0, env, req)))
    ensures res.status == old(res.status) && res.location == old(res.location) && res.body == old(res.body)
    ensures res.allow == old(res.allow) && res.contentType == old(res.contentType) && res.ended == old(res.ended)
  {
    var cookie := SerializeCookie(codecs, SessionCookieName, "", CookieOptionsFor(0, env, req));
    AppendSetCookie(res, cookie);
  }

  /** The decimal texts of the two lifetimes. */
  lemma LifetimeTexts()
    ensures IntToString(SessionTtlSeconds) == "2592000"
    ensures IntToString(OAuthStateTtlSeconds) == "600"
  {
    assert NatToString(600) == "600" by {
      assert NatToString(6) == "6";
      assert NatToString(60) == "60";
    }
    assert NatToString(2592000) == "2592000" by {
      assert NatToString(2) == "2";
      assert NatToString(25) == "25";
      assert NatToString(259) == "259";
      assert NatToString(2592) == "2592";
      assert NatToString(25920) == "25920";
      assert NatToString(259200) == "259200";
    }
  }

  /** A clearing cookie carries an empty value and Max-Age=0. */
  lemma ClearingCookie(codecs: Codecs, env: Environment, req: Request, name: string)
    requires codecs.uriEncode("") == ""
    ensures CookieParts(codecs, name, "", CookieOptionsFor(0, env, req))[..2] == [codecs.uriEncode(name) + "=", "Max-Age=0"]
  {
    var parts := CookieParts(codecs, name, "", CookieOptionsFor(0, env, req));
    CookieStart(codecs, name, "", CookieOptionsFor(0, env, req));
    assert (0 as real).Floor == 0;
    assert IntToString(0) == "0";
    assert parts[0] == codecs.uriEncode(name) + "=";
    assert parts[1] == "Max-Age=0";
  }

  /** A session cookie lives 30 days and an OAuth state cookie 10 minutes. */
  lemma CookieLifetimes(codecs: Codecs, env: Environment, req: Request, name: string, token: string)
    ensures CookieParts(codecs, name, token, CookieOptionsFor(SessionTtlSeconds, env, req))[1] == "Max-Age=2592000"
    ensures CookieParts(codecs, name, token, CookieOptionsFor(OAuthStateTtlSeconds, env, req))[1] == "Max-Age=600"
  {
    CookieStart(codecs, name, token, CookieOptionsFor(SessionTtlSeconds, env, req));
    CookieStart(codecs, name, token, CookieOptionsFor(OAuthStateTtlSeconds, env, req));
    assert (SessionTtlSeconds as real).Floor == SessionTtlSeconds;
    assert (OAuthStateTtlSeconds as real).Floor == OAuthStateTtlSeconds;
    LifetimeTexts();
  }

  // ---------------------------------------------------------------------
  // OAuth state
  // ---------------------------------------------------------------------

  /** The payload setOAuthStateCookie signs: provider, state and an expiry
      ten minutes after `nowMillis`. */
  function OAuthStatePayload(provider: string, state: string, nowMillis: int): Json {
    JObject([
      ("provider", JString(provider)),
      ("state", JString(state)),
      ("exp", JNumber((NowSeconds(nowMillis) + OAuthStateTtlSeconds) as real))])
  }

  /** setOAuthStateCookie: appends the signed state cookie (10 minutes); a
      missing AUTH_SECRET throws before any header is touched. */
  method SetOAuthStateCookie(env: Environment, codecs: Codecs, req: Request, res: Response, provider: string, state: string, nowMillis: int)
    returns (r: Result<(), string>)
    modifies res
    ensures r.Err? <==> GetEnv(env, "AUTH_SECRET").Err?
    ensures r.Err? ==> res.setCookie == old(res.setCookie)
    ensures r.Ok? ==> res.setCookie == Appended(old(res.setCookie),
      SerializedCookie(codecs, OAuthStateCookieName,
                       CreateSignedPayload(env, codecs, OAuthStatePayload(provider, state, nowMillis)).value,
                       CookieOptionsFor(OAuthStateTtlSeconds, env, req)))
    ensures res.status == old(res.status) && res.location == old(res.location) && res.body == old(res.body)
    ensures res.allow == old(res.allow) && res.contentType == old(res.contentType) && res.ended == old(res.ended)
  {
    var token := CreateSignedPayload(env, codecs, OAuthStatePayload(provider, state, nowMillis));
    if token.Err? {
      return Err(token.error);
    }
    var cookie := SerializeCookie(codecs, OAuthStateCookieName, token.value, CookieOptionsFor(OAuthStateTtlSeconds, env, req));
    AppendSetCookie(res, cookie);
    r := Ok(());
  }

  /** clearOAuthStateCookie: appends an empty state cookie with Max-Age 0. */
  method ClearOAuthStateCookie(env: Environment, codecs: Codecs, req: Request, res: Response)
    modifies res
    ensures res.setCookie == Appended(old(res.setCookie), SerializedCookie(codecs, OAuthStateCookieName, "", CookieOptionsFor(0, env, req)))
    ensures res.status == old(res.status) && res.location == old(res.location) && res.body == old(res.body)
    ensures res.allow == old(res.allow) && res.contentType == old(res.contentType) && res.ended == old(res.ended)
  {
    var cookie := SerializeCookie(codecs, OAuthStateCookieName, "", CookieOptionsFor(0, env, req));
    AppendSetCookie(res, cookie);
  }

  /** The claim checks of verifyOAuthStateFromRequest on a verified
      payload: a live expiry and strictly equal provider and state. */
  predicate StateClaimsMatch(payload: Option<Json>, provider: string, state: string, now: int) {
    payload.Some? && (payload.value.JArray? || payload.value.JObject?)
    && LiveExpiry(Get(payload.value, "exp"), now)
    && Get(payload.value, "provider") == Some(JString(provider))
    && Get(payload.value, "state") == Some(JString(state))
  }

  /** verifyOAuthStateFromRequest: true exactly when the state cookie holds a
      correctly signed token whose payload has a live expiry and the
      expected provider and state. Only a malformed Cookie header throws. */
  function VerifyOAuthStateFromRequest(env: Environment, codecs: Codecs, req: Request, provider: string, state: string, nowMillis: int)
    : (r: Result<bool, string>)
    ensures r.Err? <==> Cookies(codecs, Header(req, "cookie")).Err?
    ensures r == Ok(true) <==>
      Cookies(codecs, Header(req, "cookie")).Ok?
      && var token := CookieToken(Cookies(codecs, Header(req, "cookie")).value, OAuthStateCookieName);
      token.Some? && SignedCorrectly(env, codecs, token.value)
      && StateClaimsMatch(codecs.parse(codecs.fromBase64url(TokenParts(token.value).0)), provider, state, NowSeconds(nowMillis))
  {
    match Cookies(codecs, Header(req, "cookie"))
    case Err(e) => Err(e)
    case Ok(cookies) =>
      match CookieToken(cookies, OAuthStateCookieName)
      case None => Ok(false)
      case Some(token) =>
        match VerifySignedPayload(env, codecs, token)
        case Err(_) => Ok(false)
        case Ok(payload) => Ok(StateClaimsMatch(payload, provider, state, NowSeconds(nowMillis)))
  }

  /** Created state claims match exactly the expected provider and state
      they were created with, until they expire ten minutes later. */
  lemma StateOfCreated(provider: string, state: string, expected: string, issuedMillis: int, now: int)
    ensures now < NowSeconds(issuedMillis) + OAuthStateTtlSeconds ==>
      (StateClaimsMatch(Some(OAuthStatePayload(provider, state, issuedMillis)), provider, expected, now) <==> expected == state)
    ensures now >= NowSeconds(issuedMillis) + OAuthStateTtlSeconds ==>
      !StateClaimsMatch(Some(OAuthStatePayload(provider, state, issuedMillis)), provider, expected, now)
  {
    var p := OAuthStatePayload(provider, state, issuedMillis);
    LookupAt(p.members, 0, "provider");
    LookupAt(p.members, 1, "state");
    LookupAt(p.members, 2, "exp");
  }

  /** A state cookie read back within ten minutes by the same provider
      accepts exactly its own state. */
  lemma OAuthStateRoundTrip(env: Environment, codecs: Codecs, req: Request, provider: string, state: string,
                            expected: string, issuedMillis: int, nowMillis: int)
    requires CodecsRoundTrip(env, codecs, OAuthStatePayload(provider, state, issuedMillis))
    requires CreateSignedPayload(env, codecs, OAuthStatePayload(provider, state, issuedMillis)).Ok?
    requires CarriesCookie(codecs, req, OAuthStateCookieName,
                           CreateSignedPayload(env, codecs, OAuthStatePayload(provider, state, issuedMillis)).value)
    requires NowSeconds(nowMillis) < NowSeconds(issuedMillis) + OAuthStateTtlSeconds
    ensures VerifyOAuthStateFromRequest(env, codecs, req, provider, expected, nowMillis) == Ok(expected == state)
  {
    var p := OAuthStatePayload(provider, state, issuedMillis);
    var token := CreateSignedPayload(env, codecs, p).value;
    VerifyOfCreate(env, codecs, p);
    SingleCookie(codecs, OAuthStateCookieName, token);
    assert Header(req, "cookie") == Some(OAuthStateCookieName + "=" + token);
    assert Cookies(codecs, Header(req, "cookie")) == Ok(map[OAuthStateCookieName := token]);
    assert CookieToken(map[OAuthStateCookieName := token], OAuthStateCookieName) == Some(token);
    assert VerifySignedPayload(env, codecs, token) == Ok(Some(p));
    StateOfCreated(provider, state, expected, issuedMillis, NowSeconds(nowMillis));
  }
}
