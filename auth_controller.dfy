/** `src/controllers/AuthController.php`: login writes the session, logout clears
    it, `me` reads it. */
module AuthController {
  import opened Wrappers
  import opened Text
  import opened AuthConfig
  import U = UserModel

  /** `$_SESSION`, which the handlers read and write. */
  class SessionStore {
    var current: Session

    constructor (s: Session)
      ensures current == s
    {
      current := s;
    }
  }

  const InvalidCredentials := "Invalid username or password."

  /** The guards of `login`, in order: Content-Type, body, presence of both fields
      (the username trimmed, the password not), then the lookup and the hash check,
      which answer with one and the same message. `verify` stands for
      `password_verify`. */
  function LoginCheck(req: JsonInput, rows: seq<U.User>, verify: (string, string) -> bool): (d: Result<U.User, Response>)
    ensures RequireJson(req.contentType).Some? ==> d == Failure(RequireJson(req.contentType).value)
    ensures RequireJson(req.contentType).None? && BodyOf(req).Failure? ==> d == Failure(BodyOf(req).error)
    ensures RequireJson(req.contentType).None? && BodyOf(req).Success? ==>
              var username := Trim(Get(BodyOf(req).value, "username", ""));
              var password := Get(BodyOf(req).value, "password", "");
              && (username == "" || password == "" ==>
                    d == Failure(ErrorResponse(400, "username and password are required.")))
              && (username != "" && password != "" ==>
                    && (U.FindByUsername(rows, username).None? ==> d == Failure(ErrorResponse(401, InvalidCredentials)))
                    && (U.FindByUsername(rows, username).Some? ==>
                          (d.Success? <==> verify(password, U.FindByUsername(rows, username).value.passwordHash)))
                    && (d.Success? ==> d.value == U.FindByUsername(rows, username).value))
    ensures d.Failure? && d.error.status == 401 ==> d.error == ErrorResponse(401, InvalidCredentials)
    ensures d.Success? ==> d.value in rows
  {
    if RequireJson(req.contentType).Some? then Failure(RequireJson(req.contentType).value)
    else match BodyOf(req)
      case Failure(resp) => Failure(resp)
      case Success(body) =>
        var username := Trim(Get(body, "username", ""));
        var password := Get(body, "password", "");
        if username == "" || password == "" then Failure(ErrorResponse(400, "username and password are required."))
        else match U.FindByUsername(rows, username)
          case None => Failure(ErrorResponse(401, InvalidCredentials))
          case Some(user) =>
            if !verify(password, user.passwordHash) then Failure(ErrorResponse(401, InvalidCredentials))
            else Success(user)
  }

  /** The `user` object of the login response: id, username and role only. */
  function LoginUser(u: U.User): (m: map<string, Json>)
    ensures m.Keys == {"id", "username", "role"}
  {
    map["id" := JInt(u.id), "username" := JStr(u.username), "role" := JStr(u.role)]
  }

  /** `login`: on success the session holds exactly the user's id, username and role. */
  method Login(req: JsonInput, users: U.UserTable, verify: (string, string) -> bool, session: SessionStore) returns (r: Response)
    modifies session
    ensures LoginCheck(req, users.rows, verify).Failure? ==>
              r == LoginCheck(req, users.rows, verify).error && unchanged(session)
    ensures LoginCheck(req, users.rows, verify).Success? ==>
              var u := LoginCheck(req, users.rows, verify).value;
              && session.current == Session(Some(u.id), Some(u.username), Some(u.role))
              && r == Response(200, map["message" := JStr("Login successful."), "user" := JObject(LoginUser(u))])
  {
    var check := LoginCheck(req, users.rows, verify);
    if check.Failure? {
      return check.error;
    }
    var user := check.value;
    session.current := Session(Some(user.id), Some(user.username), Some(user.role));
    r := Response(200, map["message" := JStr("Login successful."), "user" := JObject(LoginUser(user))]);
  }

  /** An unknown username and a wrong password cannot be told apart. */
  lemma LoginHidesWhichPartFailed(req: JsonInput, rows: seq<U.User>, verify: (string, string) -> bool, other: seq<U.User>)
    requires RequireJson(req.contentType).None? && BodyOf(req).Success?
    requires var b := BodyOf(req).value; Trim(Get(b, "username", "")) != "" && Get(b, "password", "") != ""
    requires LoginCheck(req, rows, verify).Failure? && LoginCheck(req, other, verify).Failure?
    ensures LoginCheck(req, rows, verify) == LoginCheck(req, other, verify)
  {
  }

  /** `logout`: requires a session and leaves it empty. */
  method Logout(session: SessionStore) returns (r: Response)
    modifies session
    ensures NoUser(old(session.current)) ==> r == ErrorResponse(401, UnauthorisedMessage) && unchanged(session)
    ensures !NoUser(old(session.current)) ==>
              session.current == EmptySession && r == Response(200, map["message" := JStr("Logged out successfully.")])
  {
    var gate := RequireAuth(session.current);
    if gate.Some? {
      return gate.value;
    }
    session.current := EmptySession;
    r := Response(200, map["message" := JStr("Logged out successfully.")]);
  }

  function OptionalString(v: Option<string>): Json {
    match v
    case None => JNull
    case Some(s) => JStr(s)
  }

  /** `me`: `authenticated: false` without a user id, else the three session fields. */
  method Me(session: SessionStore) returns (r: Response)
    ensures NoUser(session.current) ==> r == Response(200, map["authenticated" := JBool(false)])
    ensures !NoUser(session.current) ==>
      && r.status == 200 && r.body.Keys == {"authenticated", "user"}
      && r.body["authenticated"] == JBool(true)
      && r.body["user"] == JObject(map["id" := JInt(session.current.userId.value),
                                       "username" := OptionalString(session.current.username),
                                       "role" := OptionalString(session.current.role)])
  {
    var s := session.current;
    if NoUser(s) {
      return Response(200, map["authenticated" := JBool(false)]);
    }
    r := Response(200, map[
      "authenticated" := JBool(true),
      "user" := JObject(map["id" := JInt(s.userId.value), "username" := OptionalString(s.username), "role" := OptionalString(s.role)])]);
  }
}
