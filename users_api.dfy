/** `api/users.php`: the admin-only user management endpoint, its router and its
    handlers. */
module UsersApi {
  import opened Wrappers
  import opened Text
  import opened Db
  import opened AuthConfig
  import U = UserModel
  import Seqs

  // ---------------------------------------------------------------------------
  // Routing
  // ---------------------------------------------------------------------------

  datatype Route =
    | ListUsers
    | ListClients
    | ShowUser(id: int)
    | CreateUser
    | UpdateUser(id: int)
    | DeleteUser(id: int)
    | NotFound

  /** The `match (true)` of the router: the first arm that holds wins. `idParam` is
      `$_GET['id']` (cast with `(int)` when set) and `clientsParam` is
      `$_GET['clients']`, which selects the client list only when it is exactly '1'. */
  function RouteOf(verb: string, idParam: Option<string>, clientsParam: Option<string>): (r: Route)
    ensures verb == "GET" && idParam.None? ==> r == (if clientsParam == Some("1") then ListClients else ListUsers)
    ensures verb == "GET" && idParam.Some? ==> r == ShowUser(IntCast(idParam.value))
    ensures verb == "POST" ==> r == CreateUser
    ensures verb == "PUT" && idParam.Some? ==> r == UpdateUser(IntCast(idParam.value))
    ensures verb == "DELETE" && idParam.Some? ==> r == DeleteUser(IntCast(idParam.value))
    ensures r == NotFound <==>
              !(verb == "GET" || verb == "POST" || ((verb == "PUT" || verb == "DELETE") && idParam.Some?))
  {
    var clients := clientsParam == Some("1");
    if verb == "GET" && idParam.None? && !clients then ListUsers
    else if verb == "GET" && idParam.None? && clients then ListClients
    else if verb == "GET" && idParam.Some? then ShowUser(IntCast(idParam.value))
    else if verb == "POST" then CreateUser
    else if verb == "PUT" && idParam.Some? then UpdateUser(IntCast(idParam.value))
    else if verb == "DELETE" && idParam.Some? then DeleteUser(IntCast(idParam.value))
    else NotFound
  }

  /** An id in the query wins over `clients`, and a write needs an id. */
  lemma RoutePrecedence(idParam: string, clientsParam: Option<string>)
    ensures RouteOf("GET", Some(idParam), clientsParam).ShowUser?
    ensures RouteOf("PUT", None, clientsParam) == NotFound
    ensures RouteOf("DELETE", None, clientsParam) == NotFound
    ensures RouteOf("POST", Some(idParam), clientsParam) == CreateUser
  {
  }

  const RouteNotFound := ErrorResponse(404, "Route not found.")

  // ---------------------------------------------------------------------------
  // Handlers
  // ---------------------------------------------------------------------------

  function SummaryJson(s: U.UserSummary): Json {
    JObject(map["id" := JInt(s.id), "username" := JStr(s.username), "role" := JStr(s.role),
                "full_name" := JStr(s.fullName), "email" := JStr(s.email)])
  }

  function SummariesJson(s: seq<U.UserSummary>): (r: seq<Json>)
    ensures |r| == |s| && forall i :: 0 <= i < |s| ==> r[i] == SummaryJson(s[i])
  {
    if s == [] then [] else [SummaryJson(s[0])] + SummariesJson(s[1..])
  }

  function ClientJson(c: U.ClientEntry): Json {
    JObject(map["id" := JInt(c.id), "username" := JStr(c.username), "full_name" := JStr(c.fullName), "email" := JStr(c.email)])
  }

  function ClientsJson(s: seq<U.ClientEntry>): (r: seq<Json>)
    ensures |r| == |s| && forall i :: 0 <= i < |s| ==> r[i] == ClientJson(s[i])
  {
    if s == [] then [] else [ClientJson(s[0])] + ClientsJson(s[1..])
  }

  /** `listUsers`: every account, newest first, no password hashes. */
  method ListUsersHandler(caller: Caller, users: U.UserTable) returns (r: Response)
    ensures caller.adminGate.Some? ==> r == caller.adminGate.value
    ensures caller.adminGate.None? ==>
      r == Response(200, map["data" := JList(SummariesJson(U.FindAll(users.rows))), "count" := JInt(|users.rows|)])
  {
    if caller.adminGate.Some? {
      return caller.adminGate.value;
    }
    var all := U.FindAll(users.rows);
    r := Response(200, map["data" := JList(SummariesJson(all)), "count" := JInt(|all|)]);
  }

  /** `listClients`: the client accounts by username, with their number. */
  method ListClientsHandler(caller: Caller, users: U.UserTable) returns (r: Response)
    ensures caller.adminGate.Some? ==> r == caller.adminGate.value
    ensures caller.adminGate.None? ==>
      r == Response(200, map["data" := JList(ClientsJson(U.FindAllClients(users.rows))),
                             "count" := JInt(Seqs.Count(users.rows, U.IsClient))])
  {
    if caller.adminGate.Some? {
      return caller.adminGate.value;
    }
    var clients := U.FindAllClients(users.rows);
    r := Response(200, map["data" := JList(ClientsJson(clients)), "count" := JInt(|clients|)]);
  }

  /** `showUser`. */
  method ShowUserHandler(caller: Caller, id: int, users: U.UserTable) returns (r: Response)
    ensures caller.adminGate.Some? ==> r == caller.adminGate.value
    ensures caller.adminGate.None? && U.FindById(users.rows, id).None? ==> r == ErrorResponse(404, "User not found.")
    ensures caller.adminGate.None? && U.FindById(users.rows, id).Some? ==>
              r == Response(200, map["data" := JObject(U.PublicFields(U.FindById(users.rows, id).value))])
  {
    if caller.adminGate.Some? {
      return caller.adminGate.value;
    }
    var user := U.FindById(users.rows, id);
    if user.None? {
      return ErrorResponse(404, "User not found.");
    }
    r := Response(200, map["data" := JObject(U.PublicFields(user.value))]);
  }

  /** The guards of `createUser`: admin, Content-Type, body, 422, then 409 for a
      taken username. */
  function CreateCheck(caller: Caller, req: JsonInput, rows: seq<U.User>, emailOk: string -> bool, hash: string -> string)
    : (d: Result<U.UserData, Response>)
    ensures AdminJsonGate(caller, req.contentType).Some? ==> d == Failure(AdminJsonGate(caller, req.contentType).value)
    ensures AdminJsonGate(caller, req.contentType).None? && BodyOf(req).Failure? ==> d == Failure(BodyOf(req).error)
    ensures AdminJsonGate(caller, req.contentType).None? && BodyOf(req).Success? ==>
              var v := U.Validate(BodyOf(req).value, false, emailOk, hash);
              && (v.Failure? ==> d == Failure(ErrorResponse(422, v.error)))
              && (v.Success? && U.UsernameExists(rows, v.value.username, None) ==>
                    d == Failure(ErrorResponse(409, "Username already exists.")))
    ensures d.Success? ==>
              && BodyOf(req).Success? && U.Validate(BodyOf(req).value, false, emailOk, hash) == Success(d.value)
              && !U.UsernameExists(rows, d.value.username, None)
              && d.value.passwordHash.Some?
  {
    var gate := AdminJsonGate(caller, req.contentType);
    if gate.Some? then Failure(gate.value)
    else match BodyOf(req)
      case Failure(resp) => Failure(resp)
      case Success(body) =>
        match U.Validate(body, false, emailOk, hash)
        case Failure(msg) => Failure(ErrorResponse(422, msg))
        case Success(data) =>
          U.PasswordHashPresence(body, false, emailOk, hash);
          if U.UsernameExists(rows, data.username, None) then Failure(ErrorResponse(409, "Username already exists."))
          else Success(data)
  }

  /** `createUser`: 201 with the stored account, without its hash. */
  method CreateUserHandler(caller: Caller, req: JsonInput, users: U.UserTable, emailOk: string -> bool, hash: string -> string)
    returns (r: Response)
    requires users.Valid()
    modifies users
    ensures users.Valid()
    ensures CreateCheck(caller, req, old(users.rows), emailOk, hash).Failure? ==>
              r == CreateCheck(caller, req, old(users.rows), emailOk, hash).error && unchanged(users)
    ensures CreateCheck(caller, req, old(users.rows), emailOk, hash).Success? ==>
              var d := CreateCheck(caller, req, old(users.rows), emailOk, hash).value;
              var created := U.User(old(users.nextId), d.username, d.passwordHash.value, d.role, d.fullName, d.email);
              && users.rows == old(users.rows) + [created]
              && r == Response(201, map["message" := JStr("User created."), "data" := JObject(U.PublicFields(created))])
  {
    var check := CreateCheck(caller, req, users.rows, emailOk, hash);
    if check.Failure? {
      return check.error;
    }
    r := InsertUser(check.value, users);
  }

  /** The `try` block of `createUser`: insert, then read the row back. */
  method InsertUser(d: U.UserData, users: U.UserTable) returns (r: Response)
    requires users.Valid()
    requires d.passwordHash.Some? && !U.UsernameExists(users.rows, d.username, None)
    modifies users
    ensures users.Valid()
    ensures var created := U.User(old(users.nextId), d.username, d.passwordHash.value, d.role, d.fullName, d.email);
            && users.rows == old(users.rows) + [created]
            && r == Response(201, map["message" := JStr("User created."), "data" := JObject(U.PublicFields(created))])
  {
    var created := users.Create(d, d.passwordHash.value);
    match created {
      case Failure(e) =>
        assert false;
      case Success(newId) =>
        U.IdsUnique(users.rows, |users.rows| - 1);
        var user := U.FindById(users.rows, newId);
        r := Response(201, map["message" := JStr("User created."), "data" := JObject(U.PublicFields(user.value))]);
    }
  }

  /** The guards of `updateUser`: admin, Content-Type, 404 before the body is read,
      body, 422, then 409 only when another account has the username. */
  function UpdateCheck(caller: Caller, id: int, req: JsonInput, rows: seq<U.User>, emailOk: string -> bool, hash: string -> string)
    : (d: Result<U.UserData, Response>)
    ensures AdminJsonGate(caller, req.contentType).Some? ==> d == Failure(AdminJsonGate(caller, req.contentType).value)
    ensures AdminJsonGate(caller, req.contentType).None? && U.FindById(rows, id).None? ==>
              d == Failure(ErrorResponse(404, "User not found."))
    ensures AdminJsonGate(caller, req.contentType).None? && U.FindById(rows, id).Some? && BodyOf(req).Failure? ==>
              d == Failure(BodyOf(req).error)
    ensures AdminJsonGate(caller, req.contentType).None? && U.FindById(rows, id).Some? && BodyOf(req).Success? ==>
              var v := U.Validate(BodyOf(req).value, true, emailOk, hash);
              && (v.Failure? ==> d == Failure(ErrorResponse(422, v.error)))
              && (v.Success? && U.UsernameExists(rows, v.value.username, Some(id)) ==>
                    d == Failure(ErrorResponse(409, "Username already exists on another user.")))
    ensures d.Success? ==>
              && U.FindById(rows, id).Some? && BodyOf(req).Success?
              && U.Validate(BodyOf(req).value, true, emailOk, hash) == Success(d.value)
              && !U.UsernameExists(rows, d.value.username, Some(id))
  {
    var gate := AdminJsonGate(caller, req.contentType);
    if gate.Some? then Failure(gate.value)
    else if U.FindById(rows, id).None? then Failure(ErrorResponse(404, "User not found."))
    else match BodyOf(req)
      case Failure(resp) => Failure(resp)
      case Success(body) =>
        match U.Validate(body, true, emailOk, hash)
        case Failure(msg) => Failure(ErrorResponse(422, msg))
        case Success(data) =>
          if U.UsernameExists(rows, data.username, Some(id)) then
            Failure(ErrorResponse(409, "Username already exists on another user."))
          else Success(data)
  }

  /** An account keeps its own username without a conflict. */
  lemma OwnUsernamePassesUpdate(rows: seq<U.User>, id: int)
    requires U.UniqueKeys(rows) && U.FindById(rows, id).Some?
    ensures !U.UsernameExists(rows, U.FindById(rows, id).value.username, Some(id))
  {
    var u := U.FindById(rows, id).value;
    forall i | 0 <= i < |rows| && rows[i].username == u.username
      ensures rows[i].id == id
    {
      var k :| 0 <= k < |rows| && rows[k] == u;
      if i != k {
        assert rows[i].username == rows[k].username;
      }
    }
  }

  /** `validate` fills in every field, so an update always rewrites role, full
      name and email: a body that leaves out `role` makes the account a client. */
  lemma UpdateWithoutRoleDemotes(caller: Caller, id: int, req: JsonInput, rows: seq<U.User>, emailOk: string -> bool,
                                 hash: string -> string)
    requires UpdateCheck(caller, id, req, rows, emailOk, hash).Success?
    requires "role" !in BodyOf(req).value
    ensures U.Patched(U.FindById(rows, id).value, U.PatchOf(UpdateCheck(caller, id, req, rows, emailOk, hash).value)).role == "client"
  {
  }

  /** `updateUser`: 500 when nothing changed, else 200 with the new row. */
  method UpdateUserHandler(caller: Caller, id: int, req: JsonInput, users: U.UserTable, emailOk: string -> bool,
                           hash: string -> string) returns (r: Response)
    requires users.Valid()
    modifies users
    ensures users.Valid()
    ensures UpdateCheck(caller, id, req, old(users.rows), emailOk, hash).Failure? ==>
              r == UpdateCheck(caller, id, req, old(users.rows), emailOk, hash).error && unchanged(users)
    ensures UpdateCheck(caller, id, req, old(users.rows), emailOk, hash).Success? ==>
              var p := U.PatchOf(UpdateCheck(caller, id, req, old(users.rows), emailOk, hash).value);
              var before := U.FindById(old(users.rows), id).value;
              && users.rows == U.PatchedRows(old(users.rows), id, p)
              && (U.Patched(before, p) == before ==> r == ErrorResponse(500, "Update failed — no rows affected."))
              && (U.Patched(before, p) != before ==>
                    r == Response(200, map["message" := JStr("User updated."), "data" := JObject(U.PublicFields(U.Patched(before, p)))]))
  {
    var check := UpdateCheck(caller, id, req, users.rows, emailOk, hash);
    if check.Failure? {
      return check.error;
    }
    r := ApplyUpdate(id, U.PatchOf(check.value), users);
  }

  /** The `try` block of `updateUser`. */
  method ApplyUpdate(id: int, p: U.UserPatch, users: U.UserTable) returns (r: Response)
    requires users.Valid()
    requires U.FindById(users.rows, id).Some? && p.username.Some?
    requires !U.UsernameExists(users.rows, p.username.value, Some(id))
    modifies users
    ensures users.Valid()
    ensures var before := U.FindById(old(users.rows), id).value;
            && users.rows == U.PatchedRows(old(users.rows), id, p)
            && (U.Patched(before, p) == before ==> r == ErrorResponse(500, "Update failed — no rows affected."))
            && (U.Patched(before, p) != before ==>
                  r == Response(200, map["message" := JStr("User updated."), "data" := JObject(U.PublicFields(U.Patched(before, p)))]))
  {
    var o := users.rows;
    U.PatchChangesFoundRow(o, id, p);
    var updated := users.Update(id, p);
    match updated {
      case Failure(e) =>
        assert false;
      case Success(ok) =>
        if !ok {
          return ErrorResponse(500, "Update failed — no rows affected.");
        }
        U.FindAfterPatch(o, id, p, id + 1);
        var user := U.FindById(users.rows, id);
        r := Response(200, map["message" := JStr("User updated."), "data" := JObject(U.PublicFields(user.value))]);
    }
  }

  /** The guards of `deleteUser`: admin, 404, then 409 for the caller's own account. */
  function DeleteCheck(caller: Caller, id: int, rows: seq<U.User>): (d: Option<Response>)
    ensures caller.adminGate.Some? ==> d == caller.adminGate
    ensures caller.adminGate.None? && U.FindById(rows, id).None? ==> d == Some(ErrorResponse(404, "User not found."))
    ensures caller.adminGate.None? && U.FindById(rows, id).Some? && id == caller.currentUserId ==>
              d == Some(ErrorResponse(409, "Cannot delete your own account."))
    ensures d.None? <==> caller.adminGate.None? && U.FindById(rows, id).Some? && id != caller.currentUserId
  {
    if caller.adminGate.Some? then caller.adminGate
    else if U.FindById(rows, id).None? then Some(ErrorResponse(404, "User not found."))
    else if id == caller.currentUserId then Some(ErrorResponse(409, "Cannot delete your own account."))
    else None
  }

  /** `deleteUser`. */
  method DeleteUserHandler(caller: Caller, id: int, users: U.UserTable) returns (r: Response)
    requires users.Valid()
    modifies users
    ensures users.Valid()
    ensures DeleteCheck(caller, id, old(users.rows)).Some? ==>
              r == DeleteCheck(caller, id, old(users.rows)).value && unchanged(users)
    ensures DeleteCheck(caller, id, old(users.rows)).None? ==>
              && users.rows == U.Deleted(old(users.rows), id)
              && U.FindById(users.rows, caller.currentUserId) == U.FindById(old(users.rows), caller.currentUserId)
              && r == Response(200, map["message" := JStr("User deleted.")])
  {
    var check := DeleteCheck(caller, id, users.rows);
    if check.Some? {
      return check.value;
    }
    var o := users.rows;
    var removed := users.Delete(id);
    if !removed {
      assert false;
    }
    DeletedKeepsOthers(o, id, caller.currentUserId);
    r := Response(200, map["message" := JStr("User deleted.")]);
  }

  /** Deleting one account leaves every other account where lookups find it. */
  lemma DeletedKeepsOthers(rows: seq<U.User>, id: int, other: int)
    requires U.UniqueKeys(rows) && other != id
    ensures U.FindById(U.Deleted(rows, id), other) == U.FindById(rows, other)
  {
    Seqs.FilterIsSubsequence(rows, (u: U.User) => u.id != id);
    Seqs.SubsequenceKeepsKeysDistinct(U.Deleted(rows, id), rows, (u: U.User) => u.id);
  }
}
