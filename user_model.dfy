/** `src/models/UserModel.php`: the `users` table, the account validator, the
    partial-field update and the password-free projections. */
module UserModel {
  import opened Wrappers
  import opened Text
  import opened Db
  import opened AuthConfig
  import Html
  import Seqs

  const Roles: seq<string> := ["admin", "client"]

  /** A row of `users`. */
  datatype User = User(
    id: int,
    username: string,
    passwordHash: string,
    role: string,
    fullName: string,
    email: string)

  /** A row as `findAll` projects it: no password hash. */
  datatype UserSummary = UserSummary(id: int, username: string, role: string, fullName: string, email: string)

  /** A row as `findAllClients` projects it. */
  datatype ClientEntry = ClientEntry(id: int, username: string, fullName: string, email: string)

  /** The data `validate` returns; `passwordHash` is present only when a password was given. */
  datatype UserData = UserData(
    username: string,
    role: string,
    fullName: string,
    email: string,
    passwordHash: Option<string>)

  /** The columns an `update` call sets: those present (and non-null) in its array. */
  datatype UserPatch = UserPatch(
    username: Option<string>,
    passwordHash: Option<string>,
    role: Option<string>,
    fullName: Option<string>,
    email: Option<string>)

  // ---------------------------------------------------------------------------
  // validate()
  // ---------------------------------------------------------------------------

  function UsernameErrors(username: string): (e: seq<string>)
    ensures |e| <= 1
    ensures e == [] <==> ByteLength(username) <= 64 && IsWord(username)
  {
    if username == "" then ["username is required."]
    else if ByteLength(username) > 64 then ["username must be ≤ 64 characters."]
    else if !IsWord(username) then ["username may only contain letters, digits, and underscores."]
    else []
  }

  /** A password is required only on creation; a given one needs 6 bytes. */
  function PasswordErrors(password: string, isUpdate: bool): (e: seq<string>)
    ensures |e| <= 1
    ensures e == [] <==> (password == "" ==> isUpdate) && (password != "" ==> ByteLength(password) >= 6)
  {
    if !isUpdate && password == "" then ["password is required."]
    else if password != "" && ByteLength(password) < 6 then ["password must be at least 6 characters."]
    else []
  }

  function RoleErrors(role: string): (e: seq<string>)
    ensures |e| <= 1 && (e == [] <==> role in Roles)
  {
    if role in Roles then [] else ["role must be either \"admin\" or \"client\"."]
  }

  function FullNameErrors(fullName: string): (e: seq<string>)
    ensures |e| <= 1 && (e == [] <==> ByteLength(fullName) <= 150)
  {
    if ByteLength(fullName) > 150 then ["full_name must be ≤ 150 characters."] else []
  }

  /** The length limit is looked at only when the address was not already rejected. */
  function EmailErrors(email: string, emailOk: string -> bool): (e: seq<string>)
    ensures |e| <= 1
    ensures e == [] <==> (email == "" || emailOk(email)) && ByteLength(email) <= 150
    ensures email != "" && !emailOk(email) ==> e == ["email must be a valid email address."]
  {
    if email != "" && !emailOk(email) then ["email must be a valid email address."]
    else if ByteLength(email) > 150 then ["email must be ≤ 150 characters."]
    else []
  }

  /** The values the validator reads: username, full name and email are trimmed, the
      password and the role are not; a missing role reads as 'client'. */
  function UsernameOf(input: Body): string { Trim(Get(input, "username", "")) }
  function PasswordOf(input: Body): string { Get(input, "password", "") }
  function RoleOf(input: Body): string { Get(input, "role", "client") }
  function FullNameOf(input: Body): string { Trim(Get(input, "full_name", "")) }
  function EmailOf(input: Body): string { Trim(Get(input, "email", "")) }

  /** The account rules, field by field. `emailOk` stands for
      `filter_var($email, FILTER_VALIDATE_EMAIL)`. */
  predicate IsAcceptable(input: Body, isUpdate: bool, emailOk: string -> bool) {
    var username := UsernameOf(input);
    var password := PasswordOf(input);
    var email := EmailOf(input);
    && ByteLength(username) <= 64 && IsWord(username)
    && (password == "" ==> isUpdate) && (password != "" ==> ByteLength(password) >= 6)
    && RoleOf(input) in Roles
    && ByteLength(FullNameOf(input)) <= 150
    && (email == "" || emailOk(email)) && ByteLength(email) <= 150
  }

  function Errors(input: Body, isUpdate: bool, emailOk: string -> bool): (e: seq<string>)
    ensures |e| <= 5
    ensures e == [] <==> IsAcceptable(input, isUpdate, emailOk)
  {
    UsernameErrors(UsernameOf(input))
    + PasswordErrors(PasswordOf(input), isUpdate)
    + RoleErrors(RoleOf(input))
    + FullNameErrors(FullNameOf(input))
    + EmailErrors(EmailOf(input), emailOk)
  }

  /** `UserModel::validate($input, $isUpdate)`. `hash` stands for `password_hash`. */
  function Validate(input: Body, isUpdate: bool, emailOk: string -> bool, hash: string -> string): (r: Result<UserData, string>)
    ensures r.Success? <==> IsAcceptable(input, isUpdate, emailOk)
    ensures r.Failure? ==> r.error == Join(" ", Errors(input, isUpdate, emailOk))
    ensures r.Success? ==> r.value == UserData(
      UsernameOf(input), RoleOf(input), Html.Escape(FullNameOf(input)), EmailOf(input),
      if PasswordOf(input) != "" then Some(hash(PasswordOf(input))) else None)
  {
    var errs := Errors(input, isUpdate, emailOk);
    if errs != [] then Failure(Join(" ", errs))
    else
      var password := PasswordOf(input);
      Success(UserData(
        UsernameOf(input), RoleOf(input), Html.Escape(FullNameOf(input)), EmailOf(input),
        if password != "" then Some(hash(password)) else None))
  }

  /** Creation always yields a password hash; an update yields one exactly when a
      password was sent. */
  lemma PasswordHashPresence(input: Body, isUpdate: bool, emailOk: string -> bool, hash: string -> string)
    requires Validate(input, isUpdate, emailOk, hash).Success?
    ensures !isUpdate ==> Validate(input, isUpdate, emailOk, hash).value.passwordHash.Some?
    ensures Validate(input, isUpdate, emailOk, hash).value.passwordHash.Some? <==> PasswordOf(input) != ""
  {
  }

  // ---------------------------------------------------------------------------
  // Queries
  // ---------------------------------------------------------------------------

  function FindById(rows: seq<User>, id: int): (r: Option<User>)
    ensures r.Some? ==> r.value in rows && r.value.id == id
    ensures r.None? <==> forall i :: 0 <= i < |rows| ==> rows[i].id != id
  {
    match Seqs.FirstIndex(rows, (u: User) => u.id == id)
    case None => None
    case Some(k) => Some(rows[k])
  }

  function FindByUsername(rows: seq<User>, username: string): (r: Option<User>)
    ensures r.Some? ==> r.value in rows && r.value.username == username
    ensures r.None? <==> forall i :: 0 <= i < |rows| ==> rows[i].username != username
  {
    match Seqs.FirstIndex(rows, (u: User) => u.username == username)
    case None => None
    case Some(k) => Some(rows[k])
  }

  /** `usernameExists($u, $excludeId)`. */
  function UsernameExists(rows: seq<User>, username: string, excludeId: Option<int>): (b: bool)
    ensures b <==> exists i :: 0 <= i < |rows| && rows[i].username == username
                               && (excludeId.None? || rows[i].id != excludeId.value)
  {
    Seqs.Any(rows, (u: User) => u.username == username && (excludeId.None? || u.id != excludeId.value))
  }

  function Summary(u: User): UserSummary {
    UserSummary(u.id, u.username, u.role, u.fullName, u.email)
  }

  function ToClientEntry(u: User): ClientEntry {
    ClientEntry(u.id, u.username, u.fullName, u.email)
  }

  function MapSummary(s: seq<User>): (r: seq<UserSummary>)
    ensures |r| == |s| && forall i :: 0 <= i < |s| ==> r[i] == Summary(s[i])
  {
    if s == [] then [] else [Summary(s[0])] + MapSummary(s[1..])
  }

  function MapClientEntry(s: seq<User>): (r: seq<ClientEntry>)
    ensures |r| == |s| && forall i :: 0 <= i < |s| ==> r[i] == ToClientEntry(s[i])
  {
    if s == [] then [] else [ToClientEntry(s[0])] + MapClientEntry(s[1..])
  }

  /** `findAll`: every user, newest first, without the password hash (the result
      type has no such column). */
  function FindAll(rows: seq<User>): (r: seq<UserSummary>)
    ensures |r| == |rows|
    ensures forall i :: 0 <= i < |r| ==> r[i] == Summary(rows[|rows| - 1 - i])
  {
    MapSummary(Seqs.Reverse(rows))
  }

  predicate IsClient(u: User) { u.role == "client" }

  /** The client rows ordered by username. */
  function ClientsByUsername(rows: seq<User>): (r: seq<User>)
    ensures Seqs.SortedBy(r, (u: User) => u.username)
    ensures multiset(r) == multiset(Seqs.Filter(rows, IsClient))
  {
    Seqs.SortBy(Seqs.Filter(rows, IsClient), (u: User) => u.username)
  }

  /** Projection distributes over concatenation. */
  lemma ClientEntriesAppend(a: seq<User>, b: seq<User>)
    ensures MapClientEntry(a + b) == MapClientEntry(a) + MapClientEntry(b)
  {
    assert forall i :: 0 <= i < |a + b| ==> MapClientEntry(a + b)[i] == (MapClientEntry(a) + MapClientEntry(b))[i];
  }

  /** Projecting a row put between two pieces. */
  lemma ClientEntriesSplice(left: seq<User>, x: User, right: seq<User>)
    ensures MapClientEntry(left + ([x] + right)) == MapClientEntry(left) + ([ToClientEntry(x)] + MapClientEntry(right))
  {
    ClientEntriesAppend(left, [x] + right);
    assert MapClientEntry([x] + right) == [ToClientEntry(x)] + MapClientEntry(right);
  }

  /** Projecting two orderings of the same rows gives two orderings of the same
      entries. */
  lemma {:induction false} ClientEntriesPermutation(a: seq<User>, b: seq<User>)
    requires multiset(a) == multiset(b)
    ensures multiset(MapClientEntry(a)) == multiset(MapClientEntry(b))
    decreases |a|
  {
    if a != [] {
      assert a[0] in multiset(b);
      assert a[0] in b;
      var j :| 0 <= j < |b| && b[j] == a[0];
      var left, right := b[..j], b[j + 1..];
      Seqs.MultisetTail(a);
      Seqs.MultisetRemove(b, j);
      ClientEntriesPermutation(a[1..], left + right);
      Seqs.SplitAt(b, j);
      ClientEntriesSplice(left, a[0], right);
      ClientEntriesAppend(left, right);
      Seqs.MultisetSplice(MapClientEntry(a), MapClientEntry(a[1..]), MapClientEntry(left), MapClientEntry(right), ToClientEntry(a[0]));
    } else {
      assert b == [];
    }
  }

  /** `findAllClients`: exactly the rows whose role is 'client', ascending by
      username, as id/username/full_name/email. */
  function FindAllClients(rows: seq<User>): (r: seq<ClientEntry>)
    ensures |r| == Seqs.Count(rows, IsClient)
    ensures forall i, j :: 0 <= i < j < |r| ==> Seqs.StrLe(r[i].username, r[j].username)
    ensures forall i :: 0 <= i < |r| ==> exists k :: 0 <= k < |rows| && IsClient(rows[k]) && r[i] == ToClientEntry(rows[k])
    ensures multiset(r) == multiset(MapClientEntry(Seqs.Filter(rows, IsClient)))
  {
    var sorted := ClientsByUsername(rows);
    ClientEntriesPermutation(sorted, Seqs.Filter(rows, IsClient));
    Seqs.CountIsFilterLength(rows, IsClient);
    assert |sorted| == |multiset(sorted)| == |Seqs.Filter(rows, IsClient)|;
    forall i | 0 <= i < |sorted| ensures IsClient(sorted[i]) && sorted[i] in rows {
      assert sorted[i] in multiset(Seqs.Filter(rows, IsClient));
      Seqs.FilterMembership(rows, IsClient);
    }
    MapClientEntry(sorted)
  }

  // ---------------------------------------------------------------------------
  // The table
  // ---------------------------------------------------------------------------

  /** No two rows share an id. */
  predicate DistinctIds(rows: seq<User>) {
    forall i, j :: 0 <= i < j < |rows| ==> rows[i].id != rows[j].id
  }

  /** No two rows share a username. */
  predicate DistinctUsernames(rows: seq<User>) {
    forall i, j :: 0 <= i < j < |rows| ==> rows[i].username != rows[j].username
  }

  /** Ids are distinct (primary key) and so are usernames (unique index). */
  predicate UniqueKeys(rows: seq<User>) {
    DistinctIds(rows) && DistinctUsernames(rows)
  }

  /** The row with the patch's present columns written and every other column kept. */
  function Patched(u: User, p: UserPatch): (v: User)
    ensures v.id == u.id
    ensures v.username == p.username.GetOr(u.username)
    ensures v.passwordHash == p.passwordHash.GetOr(u.passwordHash)
    ensures v.role == p.role.GetOr(u.role)
    ensures v.fullName == p.fullName.GetOr(u.fullName)
    ensures v.email == p.email.GetOr(u.email)
  {
    User(u.id, p.username.GetOr(u.username), p.passwordHash.GetOr(u.passwordHash),
         p.role.GetOr(u.role), p.fullName.GetOr(u.fullName), p.email.GetOr(u.email))
  }

  predicate IsEmptyPatch(p: UserPatch) {
    p.username.None? && p.passwordHash.None? && p.role.None? && p.fullName.None? && p.email.None?
  }

  /** An empty patch writes nothing. */
  lemma EmptyPatchIsIdentity(u: User, p: UserPatch)
    requires IsEmptyPatch(p)
    ensures Patched(u, p) == u
  {
  }

  /** Applying a patch twice is applying it once. */
  lemma PatchIdempotent(u: User, p: UserPatch)
    ensures Patched(Patched(u, p), p) == Patched(u, p)
  {
  }

  function PatchedRows(rows: seq<User>, id: int, p: UserPatch): (r: seq<User>)
    ensures |r| == |rows|
    ensures forall i :: 0 <= i < |rows| ==> r[i].id == rows[i].id
    ensures forall i :: 0 <= i < |rows| ==> r[i] == if rows[i].id == id then Patched(rows[i], p) else rows[i]
  {
    if rows == [] then []
    else [if rows[0].id == id then Patched(rows[0], p) else rows[0]] + PatchedRows(rows[1..], id, p)
  }

  function Deleted(rows: seq<User>, id: int): (r: seq<User>)
    ensures forall u :: u in r <==> u in rows && u.id != id
  {
    Seqs.FilterMembership(rows, (u: User) => u.id != id);
    Seqs.Filter(rows, (u: User) => u.id != id)
  }

  /** MySQL's affected-rows count for the patch: a row matched and a value changed. */
  predicate PatchChangesRow(rows: seq<User>, id: int, p: UserPatch) {
    exists i :: 0 <= i < |rows| && rows[i].id == id && Patched(rows[i], p) != rows[i]
  }

  /** With distinct ids the affected-rows flag is whether the patch changes the one
      row that has the id. */
  lemma PatchChangesFoundRow(rows: seq<User>, id: int, p: UserPatch)
    requires DistinctIds(rows) && FindById(rows, id).Some?
    ensures PatchChangesRow(rows, id, p) <==> Patched(FindById(rows, id).value, p) != FindById(rows, id).value
  {
    var u := FindById(rows, id).value;
    var k :| 0 <= k < |rows| && rows[k] == u;
    forall i | 0 <= i < |rows| && rows[i].id == id ensures rows[i] == u {
      assert rows[i].id == rows[k].id;
    }
  }

  /** Patching keeps ids distinct, and keeps usernames distinct unless the patch
      brings a username some other row already has. */
  lemma PatchedKeepsKeys(rows: seq<User>, id: int, p: UserPatch)
    requires UniqueKeys(rows)
    requires !(p.username.Some? && UsernameExists(rows, p.username.value, Some(id)))
    ensures UniqueKeys(PatchedRows(rows, id, p))
  {
    var r := PatchedRows(rows, id, p);
    forall i, j | 0 <= i < j < |r| ensures r[i].username != r[j].username {
      if rows[i].id == id && p.username.Some? {
        assert rows[j].id != id;
      } else if rows[j].id == id && p.username.Some? {
        assert rows[i].id != id;
      }
    }
  }

  /** The data `validate` produced, as the patch `update` receives: every column the
      array holds, including the empty strings it always holds. */
  function PatchOf(d: UserData): UserPatch {
    UserPatch(Some(d.username), d.passwordHash, Some(d.role), Some(d.fullName), Some(d.email))
  }

  /** A row as the handlers send it after `unset($user['password_hash'])`. */
  function PublicFields(u: User): (m: map<string, Json>)
    ensures "password_hash" !in m
    ensures m.Keys == {"id", "username", "role", "full_name", "email"}
    ensures m["id"] == JInt(u.id) && m["username"] == JStr(u.username)
  {
    map["id" := JInt(u.id), "username" := JStr(u.username), "role" := JStr(u.role),
        "full_name" := JStr(u.fullName), "email" := JStr(u.email)]
  }

  /** The `users` table. */
  class UserTable {
    var rows: seq<User>
    var nextId: int

    ghost predicate Valid()
      reads this
    {
      && nextId >= 1
      && (forall i :: 0 <= i < |rows| ==> 1 <= rows[i].id < nextId)
      && UniqueKeys(rows)
    }

    constructor ()
      ensures Valid() && rows == [] && nextId == 1
    {
      rows := [];
      nextId := 1;
    }

    /** `create`: inserts the account; a taken username is rejected by the unique index. */
    method Create(d: UserData, passwordHash: string) returns (r: Result<int, DbError>)
      requires Valid()
      modifies this
      ensures Valid()
      ensures UsernameExists(old(rows), d.username, None) ==>
                r == Failure(DuplicateKey("username")) && rows == old(rows) && nextId == old(nextId)
      ensures !UsernameExists(old(rows), d.username, None) ==>
                r == Success(old(nextId)) && nextId == old(nextId) + 1
                && rows == old(rows) + [User(old(nextId), d.username, passwordHash, d.role, d.fullName, d.email)]
    {
      if UsernameExists(rows, d.username, None) {
        return Failure(DuplicateKey("username"));
      }
      r := Success(nextId);
      rows := rows + [User(nextId, d.username, passwordHash, d.role, d.fullName, d.email)];
      nextId := nextId + 1;
    }

    /** `update`: builds the `SET` list column by column from the present fields.
        With none present it returns false without a query; otherwise it reports
        whether the row was matched and changed. An id no row has matches nothing:
        no unique-index error, no change, and false. */
    method Update(id: int, p: UserPatch) returns (r: Result<bool, DbError>)
      requires Valid()
      modifies this
      ensures Valid() && nextId == old(nextId)
      ensures IsEmptyPatch(p) ==> r == Success(false) && rows == old(rows)
      ensures FindById(old(rows), id).None? ==> r == Success(false) && rows == old(rows)
      ensures !IsEmptyPatch(p) && FindById(old(rows), id).Some? && p.username.Some?
              && UsernameExists(old(rows), p.username.value, Some(id)) ==>
                r == Failure(DuplicateKey("username")) && rows == old(rows)
      ensures !IsEmptyPatch(p) && FindById(old(rows), id).Some?
              && !(p.username.Some? && UsernameExists(old(rows), p.username.value, Some(id))) ==>
                rows == PatchedRows(old(rows), id, p)
                && r == Success(PatchChangesRow(old(rows), id, p))
    {
      var setParts: seq<string> := [];
      if p.username.Some? { setParts := setParts + ["username"]; }
      if p.passwordHash.Some? { setParts := setParts + ["password_hash"]; }
      if p.role.Some? { setParts := setParts + ["role"]; }
      if p.fullName.Some? { setParts := setParts + ["full_name"]; }
      if p.email.Some? { setParts := setParts + ["email"]; }
      if setParts == [] {
        return Success(false);
      }
      if FindById(rows, id).None? {
        return Success(false);
      }
      if p.username.Some? && UsernameExists(rows, p.username.value, Some(id)) {
        return Failure(DuplicateKey("username"));
      }
      r := Success(PatchChangesRow(rows, id, p));
      PatchedKeepsKeys(rows, id, p);
      rows := PatchedRows(rows, id, p);
    }

    /** `delete`: removes the account; returns whether one was removed. */
    method Delete(id: int) returns (removed: bool)
      requires Valid()
      modifies this
      ensures Valid() && nextId == old(nextId)
      ensures removed <==> FindById(old(rows), id).Some?
      ensures rows == Deleted(old(rows), id)
    {
      removed := FindById(rows, id).Some?;
      var kept := Deleted(rows, id);
      Seqs.FilterIsSubsequence(rows, (u: User) => u.id != id);
      Seqs.SubsequenceKeepsKeysDistinct(kept, rows, (u: User) => u.id);
      Seqs.SubsequenceKeepsKeysDistinct(kept, rows, (u: User) => u.username);
      rows := kept;
    }
  }

  /** Reading a patched row back: the patch's columns are written, the rest are as
      before, and other users are untouched. */
  lemma FindAfterPatch(rows: seq<User>, id: int, p: UserPatch, other: int)
    requires UniqueKeys(rows) && other != id
    requires FindById(rows, id).Some?
    ensures FindById(PatchedRows(rows, id, p), id) == Some(Patched(FindById(rows, id).value, p))
    ensures FindById(PatchedRows(rows, id, p), other) == FindById(rows, other)
  {
    PatchedKeepsIds(rows, id, p);
    FindPatchedRow(rows, id, p);
    FindOtherAfterPatch(rows, id, p, other);
  }

  lemma PatchedKeepsIds(rows: seq<User>, id: int, p: UserPatch)
    requires DistinctIds(rows)
    ensures DistinctIds(PatchedRows(rows, id, p))
  {
  }

  lemma FindPatchedRow(rows: seq<User>, id: int, p: UserPatch)
    requires FindById(rows, id).Some?
    requires DistinctIds(PatchedRows(rows, id, p))
    ensures FindById(PatchedRows(rows, id, p), id) == Some(Patched(FindById(rows, id).value, p))
  {
    var r := PatchedRows(rows, id, p);
    var k :| 0 <= k < |rows| && rows[k] == FindById(rows, id).value;
    assert r[k] == Patched(rows[k], p);
    IdsUnique(r, k);
  }

  lemma FindOtherAfterPatch(rows: seq<User>, id: int, p: UserPatch, other: int)
    requires DistinctIds(rows)
    requires DistinctIds(PatchedRows(rows, id, p))
    requires other != id
    ensures FindById(PatchedRows(rows, id, p), other) == FindById(rows, other)
  {
    var r := PatchedRows(rows, id, p);
    match FindById(rows, other) {
      case None =>
      case Some(e) =>
        var m :| 0 <= m < |rows| && rows[m] == e;
        assert r[m] == e;
        IdsUnique(rows, m);
        IdsUnique(r, m);
    }
  }

  /** With distinct ids the lookup finds the row itself. */
  lemma IdsUnique(rows: seq<User>, k: int)
    requires 0 <= k < |rows|
    requires DistinctIds(rows)
    ensures FindById(rows, rows[k].id) == Some(rows[k])
  {
  }
}
