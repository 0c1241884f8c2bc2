/** The workspace endpoint (api/workspace.js): a per-user store of one JSON
    workspace, read with GET and replaced with PUT behind the session gate.
    The user_workspace table is a map from user id to its row; the request
    body, the database failure (if any) and the timestamp `NOW()` gives are
    inputs. */
module Workspace {
  import opened Wrappers
  import opened Json
  import opened Http
  import opened Env
  import opened Session

  const MaxWorkspaceSizeBytes: nat := 4_500_000

  const InvalidPayload: string := "Invalid workspace payload"
  const PayloadTooLarge: string := "Workspace payload is too large"

  /** normalizeWorkspacePayload: only a JSON object passes, and only when its
      JSON text takes at most 4,500,000 bytes of UTF-8. */
  function NormalizeWorkspacePayload(codecs: Codecs, payload: Option<Json>): (r: Result<Json, string>)
    ensures r.Ok? <==> payload.Some? && payload.value.JObject?
                       && Utf8Length(codecs.stringify(payload.value)) <= MaxWorkspaceSizeBytes
    ensures r.Ok? ==> r.value == payload.value
    ensures r.Err? && !(payload.Some? && payload.value.JObject?) ==> r.error == InvalidPayload
    ensures r.Err? && payload.Some? && payload.value.JObject? ==> r.error == PayloadTooLarge
  {
    // `!payload || typeof payload !== 'object' || Array.isArray(payload)`
    if !Truthy(payload) || !(payload.value.JObject? || payload.value.JArray?) || payload.value.JArray? then
      Err(InvalidPayload)
    else if Utf8Length(codecs.stringify(payload.value)) > MaxWorkspaceSizeBytes then
      Err(PayloadTooLarge)
    else
      Ok(payload.value)
  }

  /** The size limit is inclusive: an object of exactly 4,500,000 bytes is
      stored, one byte more is refused. */
  lemma SizeLimitInclusive(codecs: Codecs, payload: Json)
    requires payload.JObject?
    ensures Utf8Length(codecs.stringify(payload)) == MaxWorkspaceSizeBytes ==>
      NormalizeWorkspacePayload(codecs, Some(payload)) == Ok(payload)
    ensures Utf8Length(codecs.stringify(payload)) == MaxWorkspaceSizeBytes + 1 ==>
      NormalizeWorkspacePayload(codecs, Some(payload)) == Err(PayloadTooLarge)
  {
  }

  /** A stored workspace and the time it was last written. */
  datatype WorkspaceRow = WorkspaceRow(payload: Json, updatedAt: string)

  /** What the handler answers: a status, a JSON body, and the Allow header
      when it sets one. */
  datatype Reply = Reply(status: int, body: Json, allow: Option<string>)

  /** The handler's result: an error escaping it, or a reply with the
      table as it is afterwards. */
  datatype Outcome = Escaped(error: string) | Replied(reply: Reply, rows: map<string, WorkspaceRow>)

  function ErrorBody(message: string): Json {
    JObject([("error", JString(message))])
  }

  /** The 500 answer to an error thrown inside the handler's try block. */
  function Failed(detail: string): Reply {
    Reply(500, JObject([("error", JString("Workspace sync failed")), ("detail", JString(detail))]), None)
  }

  /** The GET answer for a user: the stored workspace and its time, or
      nulls for a user without a row. */
  function WorkspaceBody(rows: map<string, WorkspaceRow>, userId: string): Json {
    if userId in rows then JObject([("workspace", rows[userId].payload), ("updatedAt", JString(rows[userId].updatedAt))])
    else JObject([("workspace", JNull), ("updatedAt", JNull)])
  }

  /** GET: the caller's row, or a 500 when the query fails. */
  function GetOutcome(rows: map<string, WorkspaceRow>, userId: string, dbFailure: Option<string>): Outcome {
    if dbFailure.Some? then Replied(Failed(dbFailure.value), rows)
    else Replied(Reply(200, WorkspaceBody(rows, userId), None), rows)
  }

  /** PUT: the body's workspace replaces the caller's row; a body that does
      not parse, a null body, an invalid workspace or a failing query is
      answered 500 with the error's message. */
  function PutOutcome(codecs: Codecs, rows: map<string, WorkspaceRow>, userId: string, body: Result<Json, string>,
                      dbFailure: Option<string>, now: string): Outcome
  {
    match body
    case Err(e) => Replied(Failed(e), rows)
    case Ok(b) =>
      match Property(b, "workspace")
      case Err(e) => Replied(Failed(e), rows)
      case Ok(w) =>
        match NormalizeWorkspacePayload(codecs, w)
        case Err(e) => Replied(Failed(e), rows)
        case Ok(payload) =>
          if dbFailure.Some? then Replied(Failed(dbFailure.value), rows)
          else Replied(Reply(200, JObject([("ok", JBool(true)), ("updatedAt", JString(now))]), None),
                       rows[userId := WorkspaceRow(payload, now)])
  }

  /** The handler as a function of the table before the request. */
  function HandleWorkspace(codecs: Codecs, rows: map<string, WorkspaceRow>, session: Result<Option<SessionInfo>, string>,
                           httpMethod: string, body: Result<Json, string>, dbFailure: Option<string>, now: string): Outcome
  {
    match session
    case Err(e) => Escaped(e)  // requireSession runs outside the try block
    case Ok(None) => Replied(Reply(401, ErrorBody("Unauthorized"), None), rows)
    case Ok(Some(s)) =>
      if httpMethod == "GET" then GetOutcome(rows, s.userId, dbFailure)
      else if httpMethod == "PUT" then PutOutcome(codecs, rows, s.userId, body, dbFailure, now)
      else Replied(Reply(405, ErrorBody("Method not allowed"), Some("GET, PUT")), rows)
  }

  /** The response carries the reply: its status and body, and its Allow
      header when it sets one. */
  predicate Answered(res: Response, reply: Reply, oldAllow: Option<string>)
    reads res
  {
    res.ended && res.status == reply.status && res.body == Some(reply.body)
    && res.allow == (if reply.allow.Some? then reply.allow else oldAllow)
  }

  /** Without a valid session nothing is stored: a malformed Cookie header
      escapes, and a missing or invalid session is answered with 401. */
  lemma UnauthorizedChangesNothing(codecs: Codecs, rows: map<string, WorkspaceRow>, session: Result<Option<SessionInfo>, string>,
                                   httpMethod: string, body: Result<Json, string>, dbFailure: Option<string>, now: string)
    requires !(session.Ok? && session.value.Some?)
    ensures var o := HandleWorkspace(codecs, rows, session, httpMethod, body, dbFailure, now);
      (session.Err? ==> o == Escaped(session.error))
      && (session.Ok? ==> o.Replied? && o.reply.status == 401 && o.rows == rows)
  {
  }

  /** Only a PUT that is answered 200 changes the table, and then only the
      caller's row, which holds the new payload. */
  lemma OnlySuccessfulPutWrites(codecs: Codecs, rows: map<string, WorkspaceRow>, session: Result<Option<SessionInfo>, string>,
                                httpMethod: string, body: Result<Json, string>, dbFailure: Option<string>, now: string)
    requires HandleWorkspace(codecs, rows, session, httpMethod, body, dbFailure, now).Replied?
    ensures var o := HandleWorkspace(codecs, rows, session, httpMethod, body, dbFailure, now);
      (o.rows != rows ==> httpMethod == "PUT" && o.reply.status == 200)
      && (o.reply.status != 200 || httpMethod != "PUT" ==> o.rows == rows)
      && (forall u :: u in rows ==> u in o.rows)
      && (forall u :: session.Ok? && session.value.Some? && u != session.value.value.userId ==>
            (u in o.rows <==> u in rows) && (u in rows ==> o.rows[u] == rows[u]))
  {
  }

  /** A successful PUT stores the request's workspace object, and a later
      GET by the same user returns it. */
  lemma PutThenGet(codecs: Codecs, rows: map<string, WorkspaceRow>, s: SessionInfo, body: Result<Json, string>, now: string)
    requires HandleWorkspace(codecs, rows, Ok(Some(s)), "PUT", body, None, now).Replied?
    requires HandleWorkspace(codecs, rows, Ok(Some(s)), "PUT", body, None, now).reply.status == 200
    ensures body.Ok? && Get(body.value, "workspace").Some? && Get(body.value, "workspace").value.JObject?
    ensures var after := HandleWorkspace(codecs, rows, Ok(Some(s)), "PUT", body, None, now).rows;
      var again := HandleWorkspace(codecs, after, Ok(Some(s)), "GET", Err(""), None, now);
      again.Replied? && again.reply.status == 200
      && again.reply.body == JObject([("workspace", Get(body.value, "workspace").value), ("updatedAt", JString(now))])
  {
  }

  /** A PUT whose body does not parse, is null, or carries no valid
      workspace is answered 500 with the error's message, and nothing is
      stored. */
  lemma RejectedPutChangesNothing(codecs: Codecs, rows: map<string, WorkspaceRow>, s: SessionInfo,
                                  body: Result<Json, string>, dbFailure: Option<string>, now: string)
    requires body.Err? || body.value.JNull?
             || NormalizeWorkspacePayload(codecs, Get(body.value, "workspace")).Err? || dbFailure.Some?
    ensures var o := HandleWorkspace(codecs, rows, Ok(Some(s)), "PUT", body, dbFailure, now);
      o.Replied? && o.reply.status == 500 && o.rows == rows
      && Get(o.reply.body, "error") == Some(JString("Workspace sync failed"))
  {
    var o := HandleWorkspace(codecs, rows, Ok(Some(s)), "PUT", body, dbFailure, now);
    var message :| o.reply == Failed(message);
    LookupAt(o.reply.body.members, 0, "error");
  }

  /** GET for a user without a row answers nulls. */
  lemma GetWithoutRow(codecs: Codecs, rows: map<string, WorkspaceRow>, s: SessionInfo, now: string)
    requires s.userId !in rows
    ensures var o := HandleWorkspace(codecs, rows, Ok(Some(s)), "GET", Err(""), None, now);
      o == Replied(Reply(200, JObject([("workspace", JNull), ("updatedAt", JNull)]), None), rows)
  {
  }

  /** Any other method is refused with 405 and `Allow: GET, PUT`. */
  lemma OtherMethodsRefused(codecs: Codecs, rows: map<string, WorkspaceRow>, s: SessionInfo, httpMethod: string,
                            body: Result<Json, string>, dbFailure: Option<string>, now: string)
    requires httpMethod != "GET" && httpMethod != "PUT"
    ensures var o := HandleWorkspace(codecs, rows, Ok(Some(s)), httpMethod, body, dbFailure, now);
      o.Replied? && o.reply.status == 405 && o.reply.allow == Some("GET, PUT") && o.rows == rows
  {
  }

  /** The user_workspace table. */
  class WorkspaceStore {
    var rows: map<string, WorkspaceRow>

    constructor ()
      ensures rows == map[]
    {
      rows := map[];
    }

    /** requireSession: a 401 answer when there is no session. A malformed
        Cookie header throws out of it. */
    method RequireSession(env: Environment, codecs: Codecs, req: Request, res: Response, nowMillis: int)
      returns (r: Result<Option<SessionInfo>, string>)
      modifies res
      ensures r == GetSessionFromRequest(env, codecs, req, nowMillis)
      ensures r == Ok(None) ==> res.status == 401 && res.body == Some(ErrorBody("Unauthorized")) && res.ended
      ensures r != Ok(None) ==> res.status == old(res.status) && res.body == old(res.body) && res.ended == old(res.ended)
      ensures res.allow == old(res.allow) && res.setCookie == old(res.setCookie)
    {
      r := GetSessionFromRequest(env, codecs, req, nowMillis);
      if r == Ok(None) {
        SendJson(res, 401, ErrorBody("Unauthorized"));
      }
    }

    /** The handler: the session gate, then GET, PUT or 405, with errors
        thrown inside answered 500. The table and the response end as
        HandleWorkspace says. */
    method Handler(env: Environment, codecs: Codecs, req: Request, res: Response, nowMillis: int,
                   body: Result<Json, string>, dbFailure: Option<string>, now: string)
      returns (r: Result<(), string>)
      modifies this, res
      ensures var o := HandleWorkspace(codecs, old(rows), GetSessionFromRequest(env, codecs, req, nowMillis),
                                       req.httpMethod, body, dbFailure, now);
        (o.Escaped? ==> r == Err(o.error) && rows == old(rows) && res.ended == old(res.ended))
        && (o.Replied? ==> r.Ok? && rows == o.rows && Answered(res, o.reply, old(res.allow)))
      ensures res.setCookie == old(res.setCookie)
    {
      var session := RequireSession(env, codecs, req, res, nowMillis);
      if session.Err? {
        return Err(session.error);
      }
      if session.value.None? {
        return Ok(());
      }
      var userId := session.value.value.userId;
      r := Ok(());
      if req.httpMethod == "GET" {
        HandleGet(res, userId, dbFailure);
      } else if req.httpMethod == "PUT" {
        HandlePut(codecs, res, userId, body, dbFailure, now);
      } else {
        HandleOther(res);
      }
    }

    /** Any other method. */
    method HandleOther(res: Response)
      modifies res
      ensures Answered(res, Reply(405, ErrorBody("Method not allowed"), Some("GET, PUT")), old(res.allow))
      ensures res.setCookie == old(res.setCookie)
    {
      res.allow := Some("GET, PUT");
      SendJson(res, 405, ErrorBody("Method not allowed"));
    }

    /** The GET branch. */
    method HandleGet(res: Response, userId: string, dbFailure: Option<string>)
      modifies res
      ensures var o := GetOutcome(rows, userId, dbFailure);
        o.Replied? && o.rows == rows && Answered(res, o.reply, old(res.allow))
      ensures res.setCookie == old(res.setCookie)
    {
      if dbFailure.Some? {
        SendJson(res, 500, Failed(dbFailure.value).body);
        return;
      }
      SendJson(res, 200, WorkspaceBody(rows, userId));
    }

    /** The PUT branch: the upsert. */
    method HandlePut(codecs: Codecs, res: Response, userId: string, body: Result<Json, string>,
                     dbFailure: Option<string>, now: string)
      modifies this, res
      ensures var o := PutOutcome(codecs, old(rows), userId, body, dbFailure, now);
        o.Replied? && rows == o.rows && Answered(res, o.reply, old(res.allow))
      ensures res.setCookie == old(res.setCookie)
    {
      if body.Err? {
        SendJson(res, 500, Failed(body.error).body);
        return;
      }
      var w := Property(body.value, "workspace");
      if w.Err? {
        SendJson(res, 500, Failed(w.error).body);
        return;
      }
      var workspace := NormalizeWorkspacePayload(codecs, w.value);
      if workspace.Err? {
        SendJson(res, 500, Failed(workspace.error).body);
        return;
      }
      if dbFailure.Some? {
        SendJson(res, 500, Failed(dbFailure.value).body);
        return;
      }
      rows := rows[userId := WorkspaceRow(workspace.value, now)];
      SendJson(res, 200, JObject([("ok", JBool(true)), ("updatedAt", JString(now))]));
    }
  }
}
