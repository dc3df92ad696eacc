/** Session guards and the uniform JSON response of `config/auth.php`.

    A request ends in exactly one `Response`: `jsonResponse` sets the status, emits
    the body and exits, so a guard that fires is the last thing a handler does. The
    model writes each guard as a function that returns `Some(response)` when it fires
    and `None` when the request may go on. */
module AuthConfig {
  import opened Wrappers
  import opened Text

  /** A JSON value as `json_encode` writes it. */
  datatype Json =
    | JNull
    | JBool(b: bool)
    | JInt(i: int)
    | JStr(s: string)
    | JList(items: seq<Json>)
    | JObject(fields: map<string, Json>)

  /** The terminal `(status, body)` pair of a request. */
  datatype Response = Response(status: int, body: map<string, Json>)

  /** `jsonResponse(['error' => msg], status)`. */
  function ErrorResponse(status: int, msg: string): (r: Response)
    ensures r.status == status && r.body.Keys == {"error"} && r.body["error"] == JStr(msg)
  {
    Response(status, map["error" := JStr(msg)])
  }

  /** A request body after `json_decode($raw, true)`: its members, each already a
      PHP string. A member that is JSON `null` is absent here, as `??` and `isset`
      treat it the same. */
  type Body = map<string, string>

  /** `$body[key] ?? default`. */
  function Get(body: Body, key: string, default: string): (v: string)
    ensures key in body ==> v == body[key]
    ensures key !in body ==> v == default
  {
    if key in body then body[key] else default
  }

  /** The session as the handlers read it. `user_id` is written only from a database
      id, so it is an int when present. */
  datatype Session = Session(userId: Option<int>, username: Option<string>, role: Option<string>)

  const EmptySession := Session(None, None, None)

  /** PHP `empty()` of the session's `user_id`: missing or 0. */
  predicate NoUser(s: Session) {
    s.userId.None? || s.userId == Some(0)
  }

  const UnauthorisedMessage := "Unauthorised — please log in."

  /** `requireAuth()`: 401 exactly when the session holds no user id. */
  function RequireAuth(s: Session): (r: Option<Response>)
    ensures r.Some? <==> NoUser(s)
    ensures r.Some? ==> r.value == ErrorResponse(401, UnauthorisedMessage)
  {
    if NoUser(s) then Some(ErrorResponse(401, UnauthorisedMessage)) else None
  }

  /** `requireJSON()`: 415 unless the Content-Type header (empty when missing)
      contains `application/json`, matched case-sensitively. */
  function RequireJson(contentType: string): (r: Option<Response>)
    ensures r.None? <==> exists i :: 0 <= i <= |contentType| && IsPrefix("application/json", contentType[i..])
    ensures r.Some? ==> r.value == ErrorResponse(415, "Content-Type must be application/json.")
  {
    ContainsAt(contentType, "application/json");
    if Contains(contentType, "application/json") then None
    else Some(ErrorResponse(415, "Content-Type must be application/json."))
  }

  /** The check `api/cart.php` and `api/profile.php` make in place of `requireJSON`:
      `stripos($contentType, 'application/json') === false` is a 400, not a 415, and
      the match ignores case. */
  function ContentTypeGate(contentType: string): (r: Option<Response>)
    ensures r.None? <==> ContainsIgnoreCase(contentType, "application/json")
    ensures r.Some? ==> r.value == ErrorResponse(400, "Content-Type must be application/json")
  {
    if ContainsIgnoreCase(contentType, "application/json") then None
    else Some(ErrorResponse(400, "Content-Type must be application/json"))
  }

  /** `readJsonBody()`. `raw` is the request body; `decoded` is what `json_decode`
      makes of it, `None` when that is not an array (malformed text, a scalar, `null`). */
  function ReadJsonBody(raw: string, decoded: Option<Body>): (r: Result<Body, Response>)
    ensures raw == "" ==> r == Success(map[])
    ensures raw != "" && decoded.None? ==> r == Failure(ErrorResponse(400, "Malformed JSON body."))
    ensures raw != "" && decoded.Some? ==> r == Success(decoded.value)
  {
    if raw == "" then Success(map[])
    else if decoded.None? then Failure(ErrorResponse(400, "Malformed JSON body."))
    else Success(decoded.value)
  }

  /** What a handler that reads a JSON body sees of the request: the Content-Type
      header (empty when missing), the raw body and what `json_decode` makes of it. */
  datatype JsonInput = JsonInput(contentType: string, raw: string, decoded: Option<Body>)

  /** `readJsonBody()` on that request. */
  function BodyOf(req: JsonInput): Result<Body, Response> {
    ReadJsonBody(req.raw, req.decoded)
  }

  /** `requireAdmin(); requireJSON();`, the opening of every JSON write handler. */
  function AdminJsonGate(caller: Caller, contentType: string): (r: Option<Response>)
    ensures caller.adminGate.Some? ==> r == caller.adminGate
    ensures caller.adminGate.None? ==> r == RequireJson(contentType)
  {
    if caller.adminGate.Some? then caller.adminGate else RequireJson(contentType)
  }

  /** The `catch (\Throwable $e)` of every router: 500 with the exception's message. */
  function ServerError(message: string): (r: Response)
    ensures r.status == 500 && "error" in r.body && r.body["error"] == JStr("Server error: " + message)
  {
    ErrorResponse(500, "Server error: " + message)
  }

  /** What the helpers called by the handlers but defined in no file of this model
      (`requireAdmin`, `isAdmin`, `isClient`, `getCurrentUserId`) answer for one
      request. `adminGate` is the response `requireAdmin()` ends the request with, or
      `None` when it lets the request through. */
  datatype Caller = Caller(
    session: Session,
    adminGate: Option<Response>,
    isAdmin: bool,
    isClient: bool,
    currentUserId: int)
}
