/** The request and response objects the serverless handlers work on, the
    two response helpers of api/_lib/http.js, and URLs as a base plus an
    ordered list of query parameters (the `URLSearchParams` of the WHATWG
    URL Standard). */
module Http {
  import opened Wrappers
  import opened Json

  /** An incoming request: its method, its headers under lower-case names,
      and its query parameters. */
  datatype Request = Request(httpMethod: string, headers: map<string, string>, query: map<string, string>)

  /** `req.headers[name]`, undefined (None) when absent. */
  function Header(req: Request, name: string): (r: Option<string>)
    ensures r.Some? <==> name in req.headers
  {
    if name in req.headers then Some(req.headers[name]) else None
  }

  /** `req.query[name]`, undefined (None) when absent. */
  function QueryParam(req: Request, name: string): (r: Option<string>)
    ensures r.Some? <==> name in req.query
  {
    if name in req.query then Some(req.query[name]) else None
  }

  /** The value of a response header that may hold one string or a list of
      strings (Node's `setHeader`). */
  datatype HeaderValue = Unset | One(value: string) | Many(values: seq<string>)

  /** The strings a header value carries, in order. */
  function HeaderValues(h: HeaderValue): (r: seq<string>)
    ensures h.Unset? ==> r == []
  {
    match h
    case Unset => []
    case One(v) => [v]
    case Many(vs) => vs
  }

  /** A URL: its base text and its query parameters in order. */
  datatype Url = Url(base: string, query: seq<(string, string)>)

  /** The parameters not named `name`, in order. */
  function Others(q: seq<(string, string)>, name: string): (r: seq<(string, string)>)
    ensures forall i :: 0 <= i < |r| ==> r[i].0 != name && r[i] in q
    ensures forall p :: p in q && p.0 != name ==> p in r
  {
    if q == [] then []
    else
      assert q == [q[0]] + q[1..];
      (if q[0].0 == name then [] else [q[0]]) + Others(q[1..], name)
  }

  /** A list without parameters named `name` is its own `Others`. */
  lemma {:induction false} OthersOfUnnamed(q: seq<(string, string)>, name: string)
    requires forall i :: 0 <= i < |q| ==> q[i].0 != name
    ensures Others(q, name) == q
  {
    if q != [] {
      OthersOfUnnamed(q[1..], name);
    }
  }

  /** `searchParams.set(name, value)`: the first parameter of that name takes
      the value and the later ones go; with none, the pair is appended
      (section 6.2 of the WHATWG URL Standard). */
  function SetParam(q: seq<(string, string)>, name: string, value: string): (r: seq<(string, string)>)
    ensures (name, value) in r
    ensures forall i :: 0 <= i < |r| ==> r[i] == (name, value) || r[i] in q
    ensures forall p :: p in q && p.0 != name ==> p in r
  {
    if q == [] then [(name, value)]
    else if q[0].0 == name then [(name, value)] + Others(q[1..], name)
    else [q[0]] + SetParam(q[1..], name, value)
  }

  /** Setting a name the list does not hold appends the pair. */
  lemma {:induction false} SetParamNew(q: seq<(string, string)>, name: string, value: string)
    requires forall i :: 0 <= i < |q| ==> q[i].0 != name
    ensures SetParam(q, name, value) == q + [(name, value)]
  {
    if q != [] {
      SetParamNew(q[1..], name, value);
      assert q == [q[0]] + q[1..];
    }
  }

  /** The value of the parameter named `name`, if any (`searchParams.get`). */
  function ParamValue(q: seq<(string, string)>, name: string): (r: Option<string>)
    ensures r.Some? ==> (name, r.value) in q
    ensures r.None? <==> forall i :: 0 <= i < |q| ==> q[i].0 != name
  {
    if q == [] then None
    else if q[0].0 == name then Some(q[0].1)
    else
      assert forall i :: 0 < i < |q| ==> q[i] == q[1..][i - 1];
      ParamValue(q[1..], name)
  }

  /** After `searchParams.set(name, value)` the name reads back as the
      value, and it is held by exactly one pair. */
  lemma {:induction false} SetParamReadsBack(q: seq<(string, string)>, name: string, value: string)
    ensures var r := SetParam(q, name, value);
      ParamValue(r, name) == Some(value)
      && forall i, j :: 0 <= i < |r| && 0 <= j < |r| && r[i].0 == name && r[j].0 == name ==> i == j
  {
    if q != [] && q[0].0 != name {
      SetParamReadsBack(q[1..], name, value);
      var r := SetParam(q, name, value);
      assert r[1..] == SetParam(q[1..], name, value);
    }
  }

  /** A server response under construction. */
  class Response {
    var status: int
    var setCookie: HeaderValue
    var location: Option<Url>
    var allow: Option<string>
    var contentType: Option<string>
    var body: Option<Json>
    var ended: bool

    constructor ()
      ensures status == 200 && setCookie == Unset && location == None && allow == None
      ensures contentType == None && body == None && !ended
    {
      status := 200;
      setCookie := Unset;
      location := None;
      allow := None;
      contentType := None;
      body := None;
      ended := false;
    }
  }

  /** What a response holds at one moment. */
  datatype Snapshot = Snapshot(status: int, setCookie: HeaderValue, location: Option<Url>, allow: Option<string>,
                               contentType: Option<string>, body: Option<Json>, ended: bool)

  function SnapshotOf(res: Response): Snapshot
    reads res
  {
    Snapshot(res.status, res.setCookie, res.location, res.allow, res.contentType, res.body, res.ended)
  }

  /** `json(res, statusCode, payload)`: a JSON body with that status ends
      the response; the cookies set before are kept. */
  method SendJson(res: Response, statusCode: int, payload: Json)
    modifies res
    ensures res.status == statusCode && res.body == Some(payload) && res.ended
    ensures res.contentType == Some("application/json; charset=utf-8")
    ensures res.setCookie == old(res.setCookie) && res.location == old(res.location)
    ensures res.allow == old(res.allow)
  {
    res.status := statusCode;
    res.contentType := Some("application/json; charset=utf-8");
    res.body := Some(payload);
    res.ended := true;
  }

  /** `redirect(res, location, statusCode)`: a Location header and an empty
      body end the response. */
  method Redirect(res: Response, location: Url, statusCode: int)
    modifies res
    ensures res.status == statusCode && res.location == Some(location) && res.ended
    ensures res.setCookie == old(res.setCookie) && res.body == old(res.body)
    ensures res.allow == old(res.allow) && res.contentType == old(res.contentType)
  {
    res.status := statusCode;
    res.location := Some(location);
    res.ended := true;
  }
}
