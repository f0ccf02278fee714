/**
 * The user service: login, listing, registration, lookup, self-only update and self-only
 * delete, over the users table. New ids (`uuid()` defaults) and timestamps are parameters.
 */
module UserService {
  import opened Wrappers
  import opened Db
  import opened UserDto
  import opened RequestContext

  const UserExists: string := "User already exists"
  const CannotUpdate: string := "Cannot update another user"
  const CannotDelete: string := "Cannot delete another user"
  const Deleted: string := "User deleted successfully"

  /** The fields of a parsed `UserUpdate`: the id, and the fields to change. */
  datatype UserUpdate = UserUpdate(id: string, email: Option<string>, name: Option<string>, password: Option<string>)

  datatype DeleteResponse = DeleteResponse(success: bool, message: string)

  /** What `login` answers: the safe user when one has that email and the password verifies against its stored hash. */
  function LoginOutcome(users: seq<User>, email: string, password: string): (r: Option<SafeUser>)
    ensures r.Some? ==> exists u :: u in users && u.email == email && Verify(u.password, password) && r == ToSafe(Some(u))
    ensures (forall u :: u in users ==> u.email != email) ==> r.None?
  {
    match UserByEmail(users, email)
    case None => None
    case Some(u) => if Verify(u.password, password) then ToSafe(Some(u)) else None
  }

  /** With unique emails, login succeeds exactly when the user with that email has a stored hash of that password. */
  lemma LoginIff(t: Tables, email: string, password: string)
    requires UniqueKeys(t)
    ensures LoginOutcome(t.users, email, password).Some? <==> exists u :: u in t.users && u.email == email && Verify(u.password, password)
  {
    if u :| u in t.users && u.email == email && Verify(u.password, password) {
      LookupsFindRow(t, u, Group("", "", None));
    }
  }

  /** The row `registerUser` creates. */
  function NewUser(id: string, email: string, name: string, password: string, now: int): (u: User)
    ensures u.password == Hash(password) && u.password != password
    ensures u.id == id && u.email == email && u.name == name && u.createdAt == now && u.updatedAt == now
  {
    User(id, email, name, Hash(password), now, now)
  }

  /** A user just registered logs in with that password, and with no other. */
  lemma RegisterThenLogin(t: Tables, id: string, email: string, name: string, password: string, other: string, now: int)
    requires ValidTables(t) && CreateUser(t, NewUser(id, email, name, password, now)).Success?
    ensures LoginOutcome(CreateUser(t, NewUser(id, email, name, password, now)).value.users, email, password) == Some(SafeUser(id, name, now, now))
    ensures other != password ==> LoginOutcome(CreateUser(t, NewUser(id, email, name, password, now)).value.users, email, other).None?
  {
    var u := NewUser(id, email, name, password, now);
    var t' := CreateUser(t, u).value;
    CreateUserValid(t, u);
    assert u in t'.users;
    LookupsFindRow(t', u, Group("", "", None));
    VerifyHash(password, password);
    VerifyHash(password, other);
  }

  /** How `updateUser` as written passes the password on: unhashed. */
  function StoredPasswordAsWritten(password: Option<string>): Option<string> {
    password
  }

  /** How the update evidently means to store the password: hashed, as registration does. */
  function StoredPassword(password: Option<string>): (r: Option<string>)
    ensures password.Some? ==> r == Some(Hash(password.value))
    ensures password.None? ==> r.None?
  {
    if password.Some? then Some(Hash(password.value)) else None
  }

  /** As written, a user who changes the password can no longer log in with the new password. */
  lemma UpdatedPasswordRejectedAsWritten(t: Tables, id: string, email: Option<string>, name: Option<string>, password: string, now: int)
    requires ValidTables(t)
    requires UpdateUser(t, id, email, name, StoredPasswordAsWritten(Some(password)), now).Success?
    ensures var (t', u') := UpdateUser(t, id, email, name, StoredPasswordAsWritten(Some(password)), now).value;
      LoginOutcome(t'.users, u'.email, password).None?
  {
    var (t', u') := UpdateUser(t, id, email, name, Some(password), now).value;
    UpdateUserValid(t, id, email, name, Some(password), now);
    var u :| u in t.users && u.id == id && u' == UpdatedUser(u, email, name, Some(password), now);
    LookupsFindRow(t, u, Group("", "", None));
    ReplaceRows(t.users, UserId, u, u');
    LookupsFindRow(t', u', Group("", "", None));
    PlaintextNeverVerifies(password);
  }

  /** With the password hashed, the new password logs in, and no other does. */
  lemma UpdatedPasswordLogsIn(t: Tables, id: string, email: Option<string>, name: Option<string>, password: string, other: string, now: int)
    requires ValidTables(t)
    requires UpdateUser(t, id, email, name, StoredPassword(Some(password)), now).Success?
    ensures var (t', u') := UpdateUser(t, id, email, name, StoredPassword(Some(password)), now).value;
      && LoginOutcome(t'.users, u'.email, password) == ToSafe(Some(u'))
      && (other != password ==> LoginOutcome(t'.users, u'.email, other).None?)
  {
    var stored := StoredPassword(Some(password));
    var (t', u') := UpdateUser(t, id, email, name, stored, now).value;
    UpdateUserValid(t, id, email, name, stored, now);
    var u :| u in t.users && u.id == id && u' == UpdatedUser(u, email, name, stored, now);
    LookupsFindRow(t, u, Group("", "", None));
    ReplaceRows(t.users, UserId, u, u');
    LookupsFindRow(t', u', Group("", "", None));
    VerifyHash(password, password);
    VerifyHash(password, other);
  }

  /** Whether the context's user is the one the request is about: `ctx.user?.id === id`. */
  predicate IsSelf(ctx: Context, id: string) {
    ctx.user.Some? && ctx.user.value.id == id
  }

  class Service {
    const db: Database

    constructor (db: Database)
      ensures this.db == db
    {
      this.db := db;
    }

    /** `login`: the user by email, then the password against the stored hash. */
    method Login(email: string, password: string) returns (r: Option<SafeUser>)
      ensures r == LoginOutcome(db.tables.users, email, password)
    {
      var user := UserByEmail(db.tables.users, email);
      if user.None? {
        return None;
      }
      var isValid := Verify(user.value.password, password);
      if !isValid {
        return None;
      }
      r := ToSafe(user);
    }

    /** `fetchUsers`: one page of users, each as its safe projection. */
    method FetchUsers(ctx: Context) returns (r: Result<seq<SafeUser>, Thrown>)
      ensures var page := Page(db.tables.users, ctx.pagination.skip, ctx.pagination.take);
        && (page.Failure? ==> r == Failure(DatabaseError(page.error)))
        && (page.Success? ==>
              && r.Success? && |r.value| == |page.value|
              && forall i :: 0 <= i < |r.value| ==> Some(r.value[i]) == ToSafe(Some(page.value[i])))
    {
      var users := Page(db.tables.users, ctx.pagination.skip, ctx.pagination.take);
      if users.Failure? {
        return Failure(DatabaseError(users.error));
      }
      var rows := users.value;
      r := Success(seq(|rows|, i requires 0 <= i < |rows| => ToSafe(Some(rows[i])).value));
    }

    /** `registerUser`: refuses a taken email; otherwise stores the user with the hash of the password. */
    method RegisterUser(email: string, password: string, name: string, freshId: string, now: int) returns (r: Result<SafeUser, Thrown>)
      requires db.Valid()
      modifies db
      ensures db.Valid()
      ensures (exists u :: u in old(db.tables.users) && u.email == email) ==>
        r == Failure(PointlyError(UserExists)) && db.tables == old(db.tables)
      ensures r.Failure? ==> db.tables == old(db.tables)
      ensures r.Success? ==>
        && db.tables == old(db.tables).(users := old(db.tables.users) + [NewUser(freshId, email, name, password, now)])
        && r.value == SafeUser(freshId, name, now, now)
      ensures (forall u :: u in old(db.tables.users) ==> u.email != email) ==> (
        var res := CreateUser(old(db.tables), NewUser(freshId, email, name, password, now));
        && (res.Failure? ==> r == Failure(DatabaseError(res.error)))
        && (res.Success? ==> r == Success(SafeUser(freshId, name, now, now)) && db.tables == res.value))
      ensures (forall u :: u in old(db.tables.users) ==> u.email != email) && freshId !in UserIds(old(db.tables.users)) ==> r.Success?
    {
      var existingUser := UserByEmail(db.tables.users, email);
      if existingUser.Some? {
        return Failure(PointlyError(UserExists));
      }
      var u := NewUser(freshId, email, name, password, now);
      var created := CreateUser(db.tables, u);
      if created.Failure? {
        return Failure(DatabaseError(created.error));
      }
      CreateUserValid(db.tables, u);
      db.tables := created.value;
      r := Success(ToSafe(Some(u)).value);
    }

    /** `fetchUser`: the safe projection of the user with that id, or null. */
    method FetchUser(id: string) returns (r: Option<SafeUser>)
      ensures r.None? <==> id !in UserIds(db.tables.users)
      ensures r.Some? ==> exists u :: u in db.tables.users && u.id == id && r == ToSafe(Some(u))
    {
      var user := UserById(db.tables.users, id);
      r := ToSafe(user);
    }

    /** `updateUser` as written: self only, and the new password is stored as given. */
    method UpdateUserAsWritten(data: UserUpdate, ctx: Context, now: int) returns (r: Result<SafeUser, Thrown>)
      requires db.Valid()
      modifies db
      ensures db.Valid()
      ensures !IsSelf(ctx, data.id) ==> r == Failure(PointlyError(CannotUpdate))
      ensures r.Failure? ==> db.tables == old(db.tables)
      ensures r.Success? ==> (
        var res := Db.UpdateUser(old(db.tables), data.id, data.email, data.name, StoredPasswordAsWritten(data.password), now);
        && IsSelf(ctx, data.id)
        && res.Success? && db.tables == res.value.0 && Some(r.value) == ToSafe(Some(res.value.1)))
      ensures IsSelf(ctx, data.id) ==> (
        var res := Db.UpdateUser(old(db.tables), data.id, data.email, data.name, StoredPasswordAsWritten(data.password), now);
        && (res.Failure? ==> r == Failure(DatabaseError(res.error)))
        && (res.Success? ==> db.tables == res.value.0 && r == Success(ToSafe(Some(res.value.1)).value)))
    {
      if !IsSelf(ctx, data.id) {
        return Failure(PointlyError(CannotUpdate));
      }
      var res := Db.UpdateUser(db.tables, data.id, data.email, data.name, StoredPasswordAsWritten(data.password), now);
      if res.Failure? {
        return Failure(DatabaseError(res.error));
      }
      UpdateUserValid(db.tables, data.id, data.email, data.name, StoredPasswordAsWritten(data.password), now);
      db.tables := res.value.0;
      r := Success(ToSafe(Some(res.value.1)).value);
    }

    /** `updateUser` with the password hashed before it is stored. */
    method UpdateUser(data: UserUpdate, ctx: Context, now: int) returns (r: Result<SafeUser, Thrown>)
      requires db.Valid()
      modifies db
      ensures db.Valid()
      ensures !IsSelf(ctx, data.id) ==> r == Failure(PointlyError(CannotUpdate))
      ensures r.Failure? ==> db.tables == old(db.tables)
      ensures r.Success? ==> (
        var res := Db.UpdateUser(old(db.tables), data.id, data.email, data.name, StoredPassword(data.password), now);
        && IsSelf(ctx, data.id)
        && res.Success? && db.tables == res.value.0 && Some(r.value) == ToSafe(Some(res.value.1)))
      ensures IsSelf(ctx, data.id) ==> (
        var res := Db.UpdateUser(old(db.tables), data.id, data.email, data.name, StoredPassword(data.password), now);
        && (res.Failure? ==> r == Failure(DatabaseError(res.error)))
        && (res.Success? ==> db.tables == res.value.0 && r == Success(ToSafe(Some(res.value.1)).value)))
    {
      if !IsSelf(ctx, data.id) {
        return Failure(PointlyError(CannotUpdate));
      }
      var res := Db.UpdateUser(db.tables, data.id, data.email, data.name, StoredPassword(data.password), now);
      if res.Failure? {
        return Failure(DatabaseError(res.error));
      }
      UpdateUserValid(db.tables, data.id, data.email, data.name, StoredPassword(data.password), now);
      db.tables := res.value.0;
      r := Success(ToSafe(Some(res.value.1)).value);
    }

    /** `deleteUser`: self only; removes the user and its memberships and reports success. */
    method DeleteUser(id: string, ctx: Context) returns (r: Result<DeleteResponse, Thrown>)
      requires db.Valid()
      modifies db
      ensures db.Valid()
      ensures !IsSelf(ctx, id) ==> r == Failure(PointlyError(CannotDelete))
      ensures r.Failure? ==> db.tables == old(db.tables)
      ensures r.Success? ==> (
        && IsSelf(ctx, id) && r.value == DeleteResponse(true, Deleted)
        && Db.DeleteUser(old(db.tables), id).Success? && db.tables == Db.DeleteUser(old(db.tables), id).value)
      ensures r.Success? ==> id !in UserIds(db.tables.users)
      ensures IsSelf(ctx, id) ==> (
        var res := Db.DeleteUser(old(db.tables), id);
        && (res.Failure? ==> r == Failure(DatabaseError(res.error)))
        && (res.Success? ==> r == Success(DeleteResponse(true, Deleted)) && db.tables == res.value))
      ensures IsSelf(ctx, id) && id in UserIds(old(db.tables.users)) ==> r.Success?
    {
      if !IsSelf(ctx, id) {
        return Failure(PointlyError(CannotDelete));
      }
      var res := Db.DeleteUser(db.tables, id);
      if res.Failure? {
        return Failure(DatabaseError(res.error));
      }
      DeleteUserValid(db.tables, id);
      db.tables := res.value;
      r := Success(DeleteResponse(true, Deleted));
    }
  }
}
