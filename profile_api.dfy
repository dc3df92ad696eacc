/** `api/profile.php`: a signed-in user reads their own account, edits its full
    name and e-mail, or changes its password. */
module ProfileApi {
  import opened Wrappers
  import opened Text
  import opened AuthConfig
  import U = UserModel

  const MethodNotAllowed := ErrorResponse(405, "Method not allowed")

  /** `handleGet`. */
  method HandleGet(userId: int, users: U.UserTable) returns (r: Response)
    ensures U.FindById(users.rows, userId).None? ==> r == ErrorResponse(404, "User not found")
    ensures U.FindById(users.rows, userId).Some? ==>
              r == Response(200, map["success" := JBool(true), "user" := JObject(U.PublicFields(U.FindById(users.rows, userId).value))])
  {
    var user := U.FindById(users.rows, userId);
    if user.None? {
      return ErrorResponse(404, "User not found");
    }
    r := Response(200, map["success" := JBool(true), "user" := JObject(U.PublicFields(user.value))]);
  }

  /** PHP `empty()` of a string: "" and "0". */
  predicate EmptyString(s: string) {
    s == "" || s == "0"
  }

  /** The checks of `handleProfileUpdate`, in order, and the patch they build: only
      `full_name` and `email`, trimmed, each only when sent. */
  function ProfileCheck(data: Body, emailOk: string -> bool): (d: Result<U.UserPatch, Response>)
    ensures "full_name" in data && ByteLength(Trim(data["full_name"])) > 150 ==>
              d == Failure(ErrorResponse(400, "Full name must be 150 characters or less"))
    ensures "full_name" !in data && "email" !in data ==> d == Failure(ErrorResponse(400, "No valid fields to update"))
    ensures d.Success? <==>
              && ("full_name" in data || "email" in data)
              && ("full_name" in data ==> ByteLength(Trim(data["full_name"])) <= 150)
              && ("email" in data ==> (EmptyString(Trim(data["email"])) || emailOk(Trim(data["email"])))
                                      && ByteLength(Trim(data["email"])) <= 150)
    ensures d.Success? ==>
              && d.value.username.None? && d.value.passwordHash.None? && d.value.role.None?
              && d.value.fullName == (if "full_name" in data then Some(Trim(data["full_name"])) else None)
              && d.value.email == (if "email" in data then Some(Trim(data["email"])) else None)
  {
    var fullName := if "full_name" in data then Some(Trim(data["full_name"])) else None;
    var email := if "email" in data then Some(Trim(data["email"])) else None;
    if fullName.Some? && ByteLength(fullName.value) > 150 then
      Failure(ErrorResponse(400, "Full name must be 150 characters or less"))
    else if email.Some? && !EmptyString(email.value) && !emailOk(email.value) then
      Failure(ErrorResponse(400, "Invalid email format"))
    else if email.Some? && ByteLength(email.value) > 150 then
      Failure(ErrorResponse(400, "Email must be 150 characters or less"))
    else if fullName.None? && email.None? then
      Failure(ErrorResponse(400, "No valid fields to update"))
    else Success(U.UserPatch(None, None, None, fullName, email))
  }

  /** Because `empty("0")` holds, the e-mail "0" skips the format check and is stored. */
  lemma ZeroEmailIsAccepted(data: Body, emailOk: string -> bool)
    requires "email" in data && Trim(data["email"]) == "0" && "full_name" !in data
    ensures ProfileCheck(data, emailOk) == Success(U.UserPatch(None, None, None, None, Some("0")))
  {
  }

  /** A profile edit never touches the username, the password hash or the role. */
  lemma ProfileEditKeepsCredentials(u: U.User, data: Body, emailOk: string -> bool)
    requires ProfileCheck(data, emailOk).Success?
    ensures var v := U.Patched(u, ProfileCheck(data, emailOk).value);
            v.id == u.id && v.username == u.username && v.passwordHash == u.passwordHash && v.role == u.role
  {
  }

  /** What `handleProfileUpdate` leaves behind, from the rows `before` to the rows
      `after` with the answer `r`: a failed check changes nothing; otherwise only the
      caller's row is patched, and the answer is the patched row, or a 500 when
      there was no row or nothing changed. */
  predicate ProfileOutcome(userId: int, data: Body, emailOk: string -> bool, before: seq<U.User>, after: seq<U.User>, r: Response) {
    var check := ProfileCheck(data, emailOk);
    && (check.Failure? ==> r == check.error && after == before)
    && (check.Success? ==>
          && after == U.PatchedRows(before, userId, check.value)
          && (U.FindById(before, userId).None? ==> r == ErrorResponse(500, "Failed to update profile"))
          && (U.FindById(before, userId).Some? ==>
                var row := U.FindById(before, userId).value;
                && (U.Patched(row, check.value) == row ==> r == ErrorResponse(500, "Failed to update profile"))
                && (U.Patched(row, check.value) != row ==>
                      r == Response(200, map["success" := JBool(true), "message" := JStr("Profile updated successfully"),
                                             "user" := JObject(U.PublicFields(U.Patched(row, check.value)))]))))
  }

  /** `handleProfileUpdate`: the full name is stored as sent (trimmed, not
      escaped); an edit that changes nothing is a 500, as `update` reports no row. */
  method ProfileUpdate(userId: int, data: Body, users: U.UserTable, emailOk: string -> bool) returns (r: Response)
    requires users.Valid()
    modifies users
    ensures users.Valid() && users.nextId == old(users.nextId)
    ensures ProfileOutcome(userId, data, emailOk, old(users.rows), users.rows, r)
  {
    var check := ProfileCheck(data, emailOk);
    if check.Failure? {
      return check.error;
    }
    var p := check.value;
    var o := users.rows;
    var updated := users.Update(userId, p);
    match updated {
      case Failure(e) =>
        assert false;
      case Success(ok) =>
        PatchReportsChange(o, userId, p);
        if !ok {
          return ErrorResponse(500, "Failed to update profile");
        }
        U.FindAfterPatch(o, userId, p, userId + 1);
        var user := U.FindById(users.rows, userId);
        r := Response(200, map["success" := JBool(true), "message" := JStr("Profile updated successfully"),
                               "user" := JObject(U.PublicFields(user.value))]);
    }
  }

  /** With distinct ids, `update` reports a changed row exactly when the patch
      changes the one row with that id. */
  lemma PatchReportsChange(rows: seq<U.User>, id: int, p: U.UserPatch)
    requires U.UniqueKeys(rows)
    ensures (exists i :: 0 <= i < |rows| && rows[i].id == id && U.Patched(rows[i], p) != rows[i]) <==>
              U.FindById(rows, id).Some? && U.Patched(U.FindById(rows, id).value, p) != U.FindById(rows, id).value
  {
    if U.FindById(rows, id).Some? {
      var before := U.FindById(rows, id).value;
      var k :| 0 <= k < |rows| && rows[k] == before;
      forall i | 0 <= i < |rows| && rows[i].id == id ensures rows[i] == before {
        assert rows[i].id == rows[k].id;
      }
    }
  }

  /** The checks of `handlePasswordChange`, in order; the new password when they pass.
      `verify` stands for `password_verify`. */
  function PasswordCheck(userId: int, data: Body, rows: seq<U.User>, verify: (string, string) -> bool): (d: Result<string, Response>)
    ensures ("current_password" !in data || "new_password" !in data) ==>
              d == Failure(ErrorResponse(400, "current_password and new_password are required"))
    ensures "current_password" in data && "new_password" in data && ByteLength(data["new_password"]) < 6 ==>
              d == Failure(ErrorResponse(400, "New password must be at least 6 characters"))
    ensures ("current_password" in data && "new_password" in data && ByteLength(data["new_password"]) >= 6
             && U.FindById(rows, userId).None?) ==> d == Failure(ErrorResponse(404, "User not found"))
    ensures d.Success? <==>
              && "current_password" in data && "new_password" in data && ByteLength(data["new_password"]) >= 6
              && U.FindById(rows, userId).Some?
              && verify(data["current_password"], U.FindById(rows, userId).value.passwordHash)
    ensures d.Success? ==> d.value == data["new_password"]
  {
    if "current_password" !in data || "new_password" !in data then
      Failure(ErrorResponse(400, "current_password and new_password are required"))
    else if ByteLength(data["new_password"]) < 6 then
      Failure(ErrorResponse(400, "New password must be at least 6 characters"))
    else if U.FindById(rows, userId).None? then Failure(ErrorResponse(404, "User not found"))
    else if !verify(data["current_password"], U.FindById(rows, userId).value.passwordHash) then
      Failure(ErrorResponse(400, "Current password is incorrect"))
    else Success(data["new_password"])
  }

  /** What `handlePasswordChange` leaves behind, from the rows `before` to the rows
      `after` with the answer `r`: a failed check changes nothing; otherwise the
      caller's hash becomes the hash of the new password, and the answer is 200, or
      a 500 when the hash came out equal to the stored one. */
  predicate PasswordOutcome(userId: int, data: Body, verify: (string, string) -> bool, hash: string -> string,
                            before: seq<U.User>, after: seq<U.User>, r: Response) {
    var check := PasswordCheck(userId, data, before, verify);
    && (check.Failure? ==> r == check.error && after == before)
    && (check.Success? ==>
          var newHash := hash(check.value);
          var row := U.FindById(before, userId).value;
          && after == U.PatchedRows(before, userId, U.UserPatch(None, Some(newHash), None, None, None))
          && (newHash != row.passwordHash ==>
                r == Response(200, map["success" := JBool(true), "message" := JStr("Password changed successfully")]))
          && (newHash == row.passwordHash ==> r == ErrorResponse(500, "Failed to change password")))
  }

  /** `handlePasswordChange`: only the hash column is written. `hash` stands for
      `password_hash`; bcrypt salts make it differ from the stored hash, and when
      it does not the update reports no row and the answer is a 500. */
  method PasswordChange(userId: int, data: Body, users: U.UserTable, verify: (string, string) -> bool, hash: string -> string)
    returns (r: Response)
    requires users.Valid()
    modifies users
    ensures users.Valid() && users.nextId == old(users.nextId)
    ensures PasswordOutcome(userId, data, verify, hash, old(users.rows), users.rows, r)
  {
    var check := PasswordCheck(userId, data, users.rows, verify);
    if check.Failure? {
      return check.error;
    }
    var p := U.UserPatch(None, Some(hash(check.value)), None, None, None);
    var o := users.rows;
    var updated := users.Update(userId, p);
    match updated {
      case Failure(e) =>
        assert false;
      case Success(ok) =>
        PatchReportsChange(o, userId, p);
        if ok {
          r := Response(200, map["success" := JBool(true), "message" := JStr("Password changed successfully")]);
        } else {
          r := ErrorResponse(500, "Failed to change password");
        }
    }
  }

  /** A password change writes the hash of one account and nothing else. */
  lemma PasswordPatchTouchesOnlyHash(rows: seq<U.User>, userId: int, newHash: string)
    ensures var after := U.PatchedRows(rows, userId, U.UserPatch(None, Some(newHash), None, None, None));
            forall i :: 0 <= i < |rows| ==>
              after[i] == if rows[i].id == userId then rows[i].(passwordHash := newHash) else rows[i]
  {
  }

  /** What `handlePut` leaves behind: the content-type gate, the 500 of a body
      that is not an array, then the password change for `?action=password` and
      the profile edit otherwise. */
  predicate PutOutcome(userId: int, action: Option<string>, contentType: string, data: Option<Body>,
                       emailOk: string -> bool, verify: (string, string) -> bool, hash: string -> string,
                       before: seq<U.User>, after: seq<U.User>, r: Response) {
    && (ContentTypeGate(contentType).Some? ==> r == ContentTypeGate(contentType).value && after == before)
    && (ContentTypeGate(contentType).None? && data.None? ==> r == Response(500, map[]) && after == before)
    && (ContentTypeGate(contentType).None? && data.Some? && action == Some("password") ==>
          PasswordOutcome(userId, data.value, verify, hash, before, after, r))
    && (ContentTypeGate(contentType).None? && data.Some? && action != Some("password") ==>
          ProfileOutcome(userId, data.value, emailOk, before, after, r))
  }

  /** `handlePut`. `data` is what `json_decode` made of the body; when it is not an
      array the typed `array $data` parameter raises a `TypeError`, which the
      `catch (Exception)` does not catch, and PHP ends the request with a 500 (whose
      body is empty when `display_errors` is off). */
  method HandlePut(userId: int, action: Option<string>, contentType: string, data: Option<Body>, users: U.UserTable,
                   emailOk: string -> bool, verify: (string, string) -> bool, hash: string -> string) returns (r: Response)
    requires users.Valid()
    modifies users
    ensures users.Valid() && users.nextId == old(users.nextId)
    ensures PutOutcome(userId, action, contentType, data, emailOk, verify, hash, old(users.rows), users.rows, r)
  {
    var gate := ContentTypeGate(contentType);
    if gate.Some? {
      return gate.value;
    }
    if data.None? {
      return Response(500, map[]);
    }
    if action == Some("password") {
      r := PasswordChange(userId, data.value, users, verify, hash);
    } else {
      r := ProfileUpdate(userId, data.value, users, emailOk);
    }
  }

  /** The script: `requireAuth()`, then GET, PUT or 405, for the session's user. */
  method Handle(caller: Caller, verb: string, action: Option<string>, contentType: string, data: Option<Body>,
                users: U.UserTable, emailOk: string -> bool, verify: (string, string) -> bool, hash: string -> string)
    returns (r: Response)
    requires users.Valid()
    modifies users
    ensures users.Valid() && users.nextId == old(users.nextId)
    ensures NoUser(caller.session) ==> r == ErrorResponse(401, UnauthorisedMessage) && unchanged(users)
    ensures !NoUser(caller.session) && verb != "GET" && verb != "PUT" ==> r == MethodNotAllowed && unchanged(users)
    ensures verb != "PUT" ==> unchanged(users)
    ensures !NoUser(caller.session) && verb == "GET" && U.FindById(users.rows, caller.currentUserId).None? ==>
              r == ErrorResponse(404, "User not found")
    ensures !NoUser(caller.session) && verb == "GET" && U.FindById(users.rows, caller.currentUserId).Some? ==>
              r == Response(200, map["success" := JBool(true),
                                     "user" := JObject(U.PublicFields(U.FindById(users.rows, caller.currentUserId).value))])
    ensures !NoUser(caller.session) && verb == "PUT" ==>
              PutOutcome(caller.currentUserId, action, contentType, data, emailOk, verify, hash, old(users.rows), users.rows, r)
  {
    var gate := RequireAuth(caller.session);
    if gate.Some? {
      return gate.value;
    }
    if verb == "GET" {
      r := HandleGet(caller.currentUserId, users);
    } else if verb == "PUT" {
      r := HandlePut(caller.currentUserId, action, contentType, data, users, emailOk, verify, hash);
    } else {
      r := MethodNotAllowed;
    }
  }
}
