/** JSON values as the server code sees them after `JSON.parse`, the
    JavaScript truthiness and property lookup the code applies to them, and
    the platform encoders (JSON text, base64url, HMAC, URI components), which
    the model takes as given functions. */
module Json {
  import opened Wrappers

  /** A parsed JSON value. An object keeps its members in source order. */
  datatype Json =
    | JNull
    | JBool(b: bool)
    | JNumber(n: real)
    | JString(s: string)
    | JArray(items: seq<Json>)
    | JObject(members: seq<(string, Json)>)

  /** The value of the last member named `key`: a later duplicate key
      overrides an earlier one, as `JSON.parse` builds objects. */
  function Lookup(members: seq<(string, Json)>, key: string): (r: Option<Json>)
    ensures r.None? <==> forall i :: 0 <= i < |members| ==> members[i].0 != key
    ensures r.Some? ==> exists i :: (0 <= i < |members| && members[i] == (key, r.value)
      && forall j :: i < j < |members| ==> members[j].0 != key)
    decreases |members|
  {
    if members == [] then None
    else if members[|members| - 1].0 == key then Some(members[|members| - 1].1)
    else Lookup(members[..|members| - 1], key)
  }

  /** A member named `key` with no later member of that name is the one
      found. */
  lemma {:induction false} LookupAt(members: seq<(string, Json)>, i: nat, key: string)
    requires i < |members| && members[i].0 == key
    requires forall j :: i < j < |members| ==> members[j].0 != key
    ensures Lookup(members, key) == Some(members[i].1)
    decreases |members|
  {
    if i < |members| - 1 {
      LookupAt(members[..|members| - 1], i, key);
    }
  }

  /** `value.key` on a value that is not null: an object's member, or
      undefined (None). */
  function Get(v: Json, key: string): (r: Option<Json>)
    ensures !v.JObject? ==> r.None?
  {
    if v.JObject? then Lookup(v.members, key) else None
  }

  /** JavaScript truthiness of a possibly undefined value. */
  predicate Truthy(v: Option<Json>) {
    match v
    case None => false
    case Some(JNull) => false
    case Some(JBool(b)) => b
    case Some(JNumber(n)) => n != 0.0
    case Some(JString(s)) => s != ""
    case Some(_) => true
  }

  /** The string value of a member that is a string, else null (None): the
      code's `typeof x === 'string' ? x : null`. */
  function StringOrNull(v: Option<Json>): (r: Option<string>)
    ensures r.Some? <==> v.Some? && v.value.JString?
  {
    if v.Some? && v.value.JString? then Some(v.value.s) else None
  }

  /** `x || null` on an optional string: the empty string becomes null. */
  function NullIfEmpty(v: Option<string>): (r: Option<string>)
    ensures r.Some? <==> v.Some? && v.value != ""
    ensures r.Some? ==> r == v
  {
    if v.Some? && v.value != "" then v else None
  }

  /** A JSON text member list, for building objects. */
  function JsonOfOption(v: Option<string>): (r: Json)
    ensures r.JString? <==> v.Some?
  {
    if v.Some? then JString(v.value) else JNull
  }

  /** Number of bytes of the UTF-8 encoding of a string of Unicode scalar
      values (`Buffer.byteLength(text, 'utf8')`). */
  function Utf8Length(s: string): (r: nat)
    ensures |s| <= r <= 4 * |s|
  {
    if s == [] then 0
    else
      var c := s[0] as int;
      (if c < 0x80 then 1 else if c < 0x800 then 2 else if c < 0x10000 then 3 else 4) + Utf8Length(s[1..])
  }

  /** The encoders the server code calls into. None of them is modelled;
      where a proof needs one of their properties, that property is a
      precondition of the lemma. */
  datatype Codecs = Codecs(
    stringify: Json -> string,           // JSON.stringify
    parse: string -> Option<Json>,       // JSON.parse; None when it throws
    toBase64url: string -> string,       // Buffer.from(text).toString('base64url')
    fromBase64url: string -> string,     // Buffer.from(text, 'base64url').toString('utf8')
    hmac: (string, string) -> string,    // HMAC-SHA256(secret, message), base64url digest
    uriEncode: string -> string,         // encodeURIComponent
    uriDecode: string -> Option<string>, // decodeURIComponent; None when it throws
    toText: Json -> string,              // String(value)
    urlParses: string -> bool)           // new URL(text) does not throw

  /** `String(x)` of a member that may be undefined. */
  function JsText(codecs: Codecs, v: Option<Json>): (r: string)
    ensures v.None? ==> r == "undefined"
    ensures v.Some? && v.value.JString? ==> r == v.value.s
  {
    if v.None? then "undefined" else JsString(codecs, v.value)
  }

  /** The message of the TypeError that reading a property of null throws. */
  function NullPropertyError(key: string): string {
    "Cannot read properties of null (reading '" + key + "')"
  }

  /** `value.key` where `value` may be null: reading a property of null
      throws, anything else gives the member or undefined. */
  function Property(v: Json, key: string): (r: Result<Option<Json>, string>)
    ensures r.Err? <==> v.JNull?
    ensures r.Ok? ==> r.value == Get(v, key)
  {
    if v.JNull? then Err(NullPropertyError(key)) else Ok(Get(v, key))
  }

  /** `String(value)`: a string stays itself. */
  function JsString(codecs: Codecs, v: Json): (r: string)
    ensures v.JString? ==> r == v.s
  {
    if v.JString? then v.s else codecs.toText(v)
  }
}
