/**
 * The store the server's services read and write, in place of the Prisma client: a users
 * table, a groups table and a group-membership table, each a sequence in the order `findMany`
 * returns it, with the table operations the services use. Also the password hashing the
 * services call, with a concrete stand-in for argon2.
 */
module Db {
  import opened Wrappers

  datatype Role = Owner | Admin | Member

  /** The enumeration value's name. */
  function RoleName(r: Role): string {
    match r
    case Owner => "OWNER"
    case Admin => "ADMIN"
    case Member => "MEMBER"
  }

  function RoleFromName(s: string): (r: Option<Role>)
    ensures r.Some? ==> RoleName(r.value) == s
  {
    if s == "OWNER" then Some(Owner) else if s == "ADMIN" then Some(Admin) else if s == "MEMBER" then Some(Member) else None
  }

  lemma RoleNameRoundTrip(r: Role)
    ensures RoleFromName(RoleName(r)) == Some(r)
  {
  }

  datatype User = User(id: string, email: string, name: string, password: string, createdAt: int, updatedAt: int)

  /** A group; a `None` description is the stored null. */
  datatype Group = Group(id: string, name: string, description: Option<string>)

  datatype Membership = Membership(userId: string, groupId: string, role: Role)

  /** The failures of the table operations (Prisma's not-found, unique and foreign-key errors, and a rejected argument). */
  datatype DbError = RecordNotFound | UniqueViolation | ForeignKeyViolation | InvalidArgument

  /** What a service call throws: a `PointlyError`, a plain `Error`, or a database failure passed through. */
  datatype Thrown = PointlyError(message: string) | PlainError(message: string) | DatabaseError(error: DbError)

  // ---- password hashing ----

  const HashPrefix: string := "$argon2id$"

  /** `Hasher.hash`, as a deterministic stand-in: the hash is the plaintext behind a fixed prefix. */
  function Hash(password: string): (h: string)
    ensures |h| > |password|
  {
    HashPrefix + password
  }

  /** `Hasher.compare`: whether `password` hashes to `hash`. */
  predicate Verify(hash: string, password: string) {
    hash == Hash(password)
  }

  /** A stored hash verifies exactly the password it was made from. */
  lemma VerifyHash(p: string, q: string)
    ensures Verify(Hash(p), q) <==> p == q
  {
    if Verify(Hash(p), q) {
      assert p == Hash(p)[|HashPrefix|..];
      assert q == Hash(q)[|HashPrefix|..];
    }
  }

  /** A plaintext stored in place of a hash never verifies against itself. */
  lemma PlaintextNeverVerifies(p: string)
    ensures !Verify(p, p)
  {
  }

  // ---- sequences as tables ----

  predicate Distinct<T(==)>(s: seq<T>) {
    forall i, j :: 0 <= i < j < |s| ==> s[i] != s[j]
  }

  /** The rows satisfying `keep`, in table order. */
  function Filter<T(!new)>(s: seq<T>, keep: T -> bool): (r: seq<T>)
    ensures |r| <= |s|
    ensures forall x :: x in r <==> x in s && keep(x)
  {
    if s == [] then []
    else
      assert s == [s[0]] + s[1..];
      (if keep(s[0]) then [s[0]] else []) + Filter(s[1..], keep)
  }

  lemma {:induction false} FilterDistinct<T(!new)>(s: seq<T>, keep: T -> bool)
    requires Distinct(s)
    ensures Distinct(Filter(s, keep))
  {
    if s != [] {
      FilterDistinct(s[1..], keep);
      var rest := Filter(s[1..], keep);
      assert s[0] !in s[1..];
      assert s[0] !in rest;
      var r := Filter(s, keep);
      forall i, j | 0 <= i < j < |r| ensures r[i] != r[j] {
        if keep(s[0]) {
          if i == 0 { assert r[j] == rest[j - 1]; } else { assert r[i] == rest[i - 1] && r[j] == rest[j - 1]; }
        }
      }
    }
  }

  /** Appending a row that is not in the table keeps the rows distinct. */
  lemma AppendDistinct<T>(s: seq<T>, x: T)
    requires Distinct(s) && x !in s
    ensures Distinct(s + [x])
  {
    var r := s + [x];
    forall i, j | 0 <= i < j < |r| ensures r[i] != r[j] {
      if j == |s| { assert r[i] == s[i]; }
    }
  }

  /** `skip`/`take` paging: the window of at most `take` rows from `skip` on; negative values are rejected. */
  function Page<T>(rows: seq<T>, skip: int, take: int): (r: Result<seq<T>, DbError>)
    ensures r.Failure? <==> skip < 0 || take < 0
    ensures r.Success? ==> |r.value| <= take && |r.value| == (if skip + take <= |rows| then take else if skip <= |rows| then |rows| - skip else 0)
    ensures r.Success? ==> forall i :: 0 <= i < |r.value| ==> r.value[i] == rows[skip + i]
  {
    if skip < 0 || take < 0 then Failure(InvalidArgument)
    else
      var lo := if skip <= |rows| then skip else |rows|;
      var hi := if skip + take <= |rows| then skip + take else |rows|;
      Success(rows[lo..hi])
  }

  // ---- the tables ----

  datatype Tables = Tables(users: seq<User>, groups: seq<Group>, memberships: seq<Membership>)

  function UserIds(users: seq<User>): set<string> {
    set u | u in users :: u.id
  }

  function GroupIds(groups: seq<Group>): set<string> {
    set g | g in groups :: g.id
  }

  /** Ids and emails identify users, ids identify groups, and a user holds at most one membership per group. */
  ghost predicate UniqueKeys(t: Tables) {
    && Distinct(t.users) && Distinct(t.groups) && Distinct(t.memberships)
    && (forall x, y :: x in t.users && y in t.users && x.id == y.id ==> x == y)
    && (forall x, y :: x in t.users && y in t.users && x.email == y.email ==> x == y)
    && (forall x, y :: x in t.groups && y in t.groups && x.id == y.id ==> x == y)
    && (forall x, y :: x in t.memberships && y in t.memberships && x.userId == y.userId && x.groupId == y.groupId ==> x == y)
  }

  /** Every membership refers to an existing user and an existing group. */
  ghost predicate ForeignKeys(t: Tables) {
    forall m :: m in t.memberships ==> m.userId in UserIds(t.users) && m.groupId in GroupIds(t.groups)
  }

  ghost predicate ValidTables(t: Tables) {
    UniqueKeys(t) && ForeignKeys(t)
  }

  /** `findUnique({ where: { id } })` on users. */
  function UserById(users: seq<User>, id: string): (r: Option<User>)
    ensures r.Some? ==> r.value in users && r.value.id == id
    ensures r.None? <==> id !in UserIds(users)
  {
    if users == [] then None
    else
      assert users == [users[0]] + users[1..];
      if users[0].id == id then Some(users[0]) else UserById(users[1..], id)
  }

  /** `findUnique({ where: { email } })` on users. */
  function UserByEmail(users: seq<User>, email: string): (r: Option<User>)
    ensures r.Some? ==> r.value in users && r.value.email == email
    ensures r.None? <==> forall u :: u in users ==> u.email != email
  {
    if users == [] then None
    else
      assert users == [users[0]] + users[1..];
      if users[0].email == email then Some(users[0]) else UserByEmail(users[1..], email)
  }

  /** `findUnique({ where: { id } })` on groups. */
  function GroupById(groups: seq<Group>, id: string): (r: Option<Group>)
    ensures r.Some? ==> r.value in groups && r.value.id == id
    ensures r.None? <==> id !in GroupIds(groups)
  {
    if groups == [] then None
    else
      assert groups == [groups[0]] + groups[1..];
      if groups[0].id == id then Some(groups[0]) else GroupById(groups[1..], id)
  }

  /** Whether the user holds one of `roles` in the group: the `users: { some: … }` filter. */
  predicate HasRole(memberships: seq<Membership>, userId: string, groupId: string, roles: set<Role>) {
    exists m :: m in memberships && m.userId == userId && m.groupId == groupId && m.role in roles
  }

  predicate IsMember(memberships: seq<Membership>, userId: string, groupId: string) {
    exists m :: m in memberships && m.userId == userId && m.groupId == groupId
  }

  /** With unique keys, a lookup finds the row that holds the key. */
  lemma LookupsFindRow(t: Tables, u: User, g: Group)
    requires UniqueKeys(t)
    ensures u in t.users ==> UserById(t.users, u.id) == Some(u) && UserByEmail(t.users, u.email) == Some(u)
    ensures g in t.groups ==> GroupById(t.groups, g.id) == Some(g)
  {
  }

  function UserId(u: User): string {
    u.id
  }

  function GroupId(g: Group): string {
    g.id
  }

  /** The table with the row whose key is `key(x)` replaced by `x`: what `update({ where: { id } })` writes. */
  function Replace<T>(rows: seq<T>, key: T -> string, x: T): (r: seq<T>)
    ensures |r| == |rows|
    ensures forall i :: 0 <= i < |rows| ==> r[i] == if key(rows[i]) == key(x) then x else rows[i]
  {
    seq(|rows|, i requires 0 <= i < |rows| => if key(rows[i]) == key(x) then x else rows[i])
  }

  /** Replacing the row of an existing key keeps the rows distinct and the key set, and the other rows. */
  lemma ReplaceRows<T>(rows: seq<T>, key: T -> string, x: T, x': T)
    requires Distinct(rows) && x in rows && key(x') == key(x)
    requires forall a, b :: a in rows && b in rows && key(a) == key(b) ==> a == b
    ensures forall y :: y in Replace(rows, key, x') <==> y == x' || (y in rows && key(y) != key(x))
    ensures Distinct(Replace(rows, key, x'))
    ensures (set y | y in Replace(rows, key, x') :: key(y)) == (set y | y in rows :: key(y))
  {
    var rows' := Replace(rows, key, x');
    forall y | y in rows' ensures y == x' || (y in rows && key(y) != key(x)) {
      var i :| 0 <= i < |rows'| && rows'[i] == y;
    }
    forall y | y == x' || (y in rows && key(y) != key(x)) ensures y in rows' {
      var z := if y == x' then x else y;
      var i :| 0 <= i < |rows| && rows[i] == z;
      assert rows'[i] == y;
    }
    var keys, keys' := set y | y in rows :: key(y), set y | y in rows' :: key(y);
    forall k | k in keys ensures k in keys' {
      var y :| y in rows && key(y) == k;
      if k == key(x) { assert x' in rows'; } else { assert y in rows'; }
    }
  }

  // ---- table operations ----

  /** `user.create`: fails when the id or the email is taken, otherwise appends the row. */
  function CreateUser(t: Tables, u: User): (r: Result<Tables, DbError>)
    ensures r.Failure? <==> u.id in UserIds(t.users) || exists x :: x in t.users && x.email == u.email
    ensures r.Failure? ==> r.error == UniqueViolation
    ensures r.Success? ==> r.value == t.(users := t.users + [u])
  {
    if UserById(t.users, u.id).Some? || UserByEmail(t.users, u.email).Some? then Failure(UniqueViolation)
    else Success(t.(users := t.users + [u]))
  }

  lemma CreateUserValid(t: Tables, u: User)
    requires ValidTables(t) && CreateUser(t, u).Success?
    ensures ValidTables(CreateUser(t, u).value)
  {
    var t' := CreateUser(t, u).value;
    assert u !in t.users;
    AppendDistinct(t.users, u);
    assert UserIds(t.users) <= UserIds(t'.users);
  }

  /** The row `user.update` writes: given fields replace the stored ones, and the update time is stamped. */
  function UpdatedUser(u: User, email: Option<string>, name: Option<string>, password: Option<string>, now: int): (r: User)
    ensures r.id == u.id && r.createdAt == u.createdAt && r.updatedAt == now
    ensures r.email == email.GetOr(u.email) && r.name == name.GetOr(u.name) && r.password == password.GetOr(u.password)
  {
    u.(email := email.GetOr(u.email), name := name.GetOr(u.name), password := password.GetOr(u.password), updatedAt := now)
  }

  /** `user.update({ where: { id }, data })`: fails for an unknown id or an email another user holds. */
  function UpdateUser(t: Tables, id: string, email: Option<string>, name: Option<string>, password: Option<string>, now: int): (r: Result<(Tables, User), DbError>)
    ensures id !in UserIds(t.users) ==> r == Failure(RecordNotFound)
    ensures r.Failure? && id in UserIds(t.users) ==> r.error == UniqueViolation && email.Some? && exists x :: x in t.users && x.email == email.value && x.id != id
    ensures r.Success? ==> exists u :: u in t.users && u.id == id && r.value.1 == UpdatedUser(u, email, name, password, now)
    ensures r.Success? ==> r.value.0 == t.(users := Replace(t.users, UserId, r.value.1))
  {
    match UserById(t.users, id)
    case None => Failure(RecordNotFound)
    case Some(u) =>
      var clash := if email.Some? then UserByEmail(t.users, email.value) else None;
      if clash.Some? && clash.value.id != id then Failure(UniqueViolation)
      else
        var u' := UpdatedUser(u, email, name, password, now);
        Success((t.(users := Replace(t.users, UserId, u')), u'))
  }

  lemma UpdateUserValid(t: Tables, id: string, email: Option<string>, name: Option<string>, password: Option<string>, now: int)
    requires ValidTables(t) && UpdateUser(t, id, email, name, password, now).Success?
    ensures ValidTables(UpdateUser(t, id, email, name, password, now).value.0)
  {
    var u := UserById(t.users, id).value;
    var u' := UpdatedUser(u, email, name, password, now);
    assert UpdateUser(t, id, email, name, password, now).value.0 == t.(users := Replace(t.users, UserId, u'));
    // No other user holds the new email.
    forall x | x in t.users && x.email == u'.email ensures x.id == id {
      if email.Some? {
        var clash := UserByEmail(t.users, email.value);
        assert clash.Some? ==> clash.value.id == id;
      }
    }
    ReplacedUserValid(t, u, u');
  }

  /** Replacing a user's row by one with the same id and an email no other user holds keeps the tables valid. */
  lemma ReplacedUserValid(t: Tables, u: User, u': User)
    requires ValidTables(t) && u in t.users && u'.id == u.id
    requires forall x :: x in t.users && x.email == u'.email ==> x.id == u.id
    ensures ValidTables(t.(users := Replace(t.users, UserId, u')))
  {
    var users' := Replace(t.users, UserId, u');
    ReplaceRows(t.users, UserId, u, u');
    assert UserIds(users') == UserIds(t.users);
    forall x, y | x in users' && y in users' && x.id == y.id ensures x == y {}
    forall x, y | x in users' && y in users' && x.email == y.email ensures x == y {}
  }

  /** `user.delete({ where: { id } })`: fails for an unknown id, otherwise removes the user and, by cascade, the user's memberships. */
  function DeleteUser(t: Tables, id: string): (r: Result<Tables, DbError>)
    ensures r.Failure? <==> id !in UserIds(t.users)
    ensures r.Failure? ==> r.error == RecordNotFound
    ensures r.Success? ==> r.value.groups == t.groups
    ensures r.Success? ==> forall x :: x in r.value.users <==> x in t.users && x.id != id
    ensures r.Success? ==> forall m :: m in r.value.memberships <==> m in t.memberships && m.userId != id
  {
    if UserById(t.users, id).None? then Failure(RecordNotFound)
    else Success(Tables(Filter(t.users, (x: User) => x.id != id), t.groups, Filter(t.memberships, (m: Membership) => m.userId != id)))
  }

  lemma DeleteUserValid(t: Tables, id: string)
    requires ValidTables(t) && DeleteUser(t, id).Success?
    ensures ValidTables(DeleteUser(t, id).value)
  {
    var t' := DeleteUser(t, id).value;
    FilterDistinct(t.users, (x: User) => x.id != id);
    FilterDistinct(t.memberships, (m: Membership) => m.userId != id);
    forall m | m in t'.memberships ensures m.userId in UserIds(t'.users) {
      var x :| x in t.users && x.id == m.userId;
      assert x in t'.users;
    }
  }

  /** `group.create` with a nested OWNER membership for the creator; fails unless the creator exists and the id is new. */
  function CreateGroup(t: Tables, g: Group, ownerId: string): (r: Result<Tables, DbError>)
    ensures ownerId !in UserIds(t.users) ==> r == Failure(ForeignKeyViolation)
    ensures r.Failure? && ownerId in UserIds(t.users) ==> r.error == UniqueViolation && g.id in GroupIds(t.groups)
    ensures r.Success? ==> r.value == Tables(t.users, t.groups + [g], t.memberships + [Membership(ownerId, g.id, Owner)])
  {
    if UserById(t.users, ownerId).None? then Failure(ForeignKeyViolation)
    else if GroupById(t.groups, g.id).Some? then Failure(UniqueViolation)
    else Success(Tables(t.users, t.groups + [g], t.memberships + [Membership(ownerId, g.id, Owner)]))
  }

  lemma CreateGroupValid(t: Tables, g: Group, ownerId: string)
    requires ValidTables(t) && CreateGroup(t, g, ownerId).Success?
    ensures ValidTables(CreateGroup(t, g, ownerId).value)
    ensures forall m :: m in CreateGroup(t, g, ownerId).value.memberships && m.groupId == g.id ==> m == Membership(ownerId, g.id, Owner)
  {
    var t' := CreateGroup(t, g, ownerId).value;
    var owner := Membership(ownerId, g.id, Owner);
    assert g !in t.groups;
    assert owner !in t.memberships;
    AppendDistinct(t.groups, g);
    AppendDistinct(t.memberships, owner);
    assert GroupIds(t.groups) <= GroupIds(t'.groups);
    assert g.id in GroupIds(t'.groups) by { assert g in t'.groups; }
  }

  /** The row `group.update` writes: the name if one is given, and the description as given, absent meaning null. */
  function UpdatedGroup(g: Group, name: Option<string>, description: Option<string>): (r: Group)
    ensures r.id == g.id && r.name == name.GetOr(g.name) && r.description == description
  {
    g.(name := name.GetOr(g.name), description := description)
  }

  /**
   * `group.update` filtered on the id and on the caller holding one of `roles` in the group:
   * without such a row the update fails as not found.
   */
  function UpdateGroup(t: Tables, id: string, callerId: string, roles: set<Role>, name: Option<string>, description: Option<string>): (r: Result<(Tables, Group), DbError>)
    ensures r.Failure? <==> id !in GroupIds(t.groups) || !HasRole(t.memberships, callerId, id, roles)
    ensures r.Failure? ==> r.error == RecordNotFound
    ensures r.Success? ==> exists g :: g in t.groups && g.id == id && r.value.1 == UpdatedGroup(g, name, description)
    ensures r.Success? ==> r.value.0 == t.(groups := Replace(t.groups, GroupId, r.value.1))
  {
    match GroupById(t.groups, id)
    case None => Failure(RecordNotFound)
    case Some(g) =>
      if !HasRole(t.memberships, callerId, id, roles) then Failure(RecordNotFound)
      else
        var g' := UpdatedGroup(g, name, description);
        Success((t.(groups := Replace(t.groups, GroupId, g')), g'))
  }

  lemma UpdateGroupValid(t: Tables, id: string, callerId: string, roles: set<Role>, name: Option<string>, description: Option<string>)
    requires ValidTables(t) && UpdateGroup(t, id, callerId, roles, name, description).Success?
    ensures ValidTables(UpdateGroup(t, id, callerId, roles, name, description).value.0)
  {
    var g := GroupById(t.groups, id).value;
    var g' := UpdatedGroup(g, name, description);
    var groups' := Replace(t.groups, GroupId, g');
    assert UpdateGroup(t, id, callerId, roles, name, description).value.0 == t.(groups := groups');
    ReplaceRows(t.groups, GroupId, g, g');
    forall x, y | x in groups' && y in groups' && x.id == y.id ensures x == y {}
  }

  /** `group.delete` filtered on the caller being an OWNER: removes the group and, by cascade, its memberships. */
  function DeleteGroup(t: Tables, id: string, callerId: string): (r: Result<Tables, DbError>)
    ensures r.Failure? <==> id !in GroupIds(t.groups) || !HasRole(t.memberships, callerId, id, {Owner})
    ensures r.Failure? ==> r.error == RecordNotFound
    ensures r.Success? ==> r.value.users == t.users
    ensures r.Success? ==> forall g :: g in r.value.groups <==> g in t.groups && g.id != id
    ensures r.Success? ==> forall m :: m in r.value.memberships <==> m in t.memberships && m.groupId != id
  {
    if GroupById(t.groups, id).None? || !HasRole(t.memberships, callerId, id, {Owner}) then Failure(RecordNotFound)
    else Success(Tables(t.users, Filter(t.groups, (g: Group) => g.id != id), Filter(t.memberships, (m: Membership) => m.groupId != id)))
  }

  lemma DeleteGroupValid(t: Tables, id: string, callerId: string)
    requires ValidTables(t) && DeleteGroup(t, id, callerId).Success?
    ensures ValidTables(DeleteGroup(t, id, callerId).value)
  {
    var t' := DeleteGroup(t, id, callerId).value;
    FilterDistinct(t.groups, (g: Group) => g.id != id);
    FilterDistinct(t.memberships, (m: Membership) => m.groupId != id);
    forall m | m in t'.memberships ensures m.groupId in GroupIds(t'.groups) {
      var x :| x in t.groups && x.id == m.groupId;
      assert x in t'.groups;
    }
  }

  /** `groupMembership.create`: the user and the group must exist and the pair must be new. */
  function CreateMembership(t: Tables, m: Membership): (r: Result<Tables, DbError>)
    ensures m.userId !in UserIds(t.users) || m.groupId !in GroupIds(t.groups) ==> r == Failure(ForeignKeyViolation)
    ensures r.Failure? && m.userId in UserIds(t.users) && m.groupId in GroupIds(t.groups) ==> r.error == UniqueViolation && IsMember(t.memberships, m.userId, m.groupId)
    ensures r.Success? ==> !IsMember(t.memberships, m.userId, m.groupId) && r.value == t.(memberships := t.memberships + [m])
  {
    if UserById(t.users, m.userId).None? || GroupById(t.groups, m.groupId).None? then Failure(ForeignKeyViolation)
    else if IsMember(t.memberships, m.userId, m.groupId) then Failure(UniqueViolation)
    else Success(t.(memberships := t.memberships + [m]))
  }

  lemma CreateMembershipValid(t: Tables, m: Membership)
    requires ValidTables(t) && CreateMembership(t, m).Success?
    ensures ValidTables(CreateMembership(t, m).value)
  {
    var ms := t.memberships + [m];
    assert CreateMembership(t, m).value == t.(memberships := ms);
    assert m !in t.memberships;
    AppendDistinct(t.memberships, m);
    forall x, y | x in ms && y in ms && x.userId == y.userId && x.groupId == y.groupId ensures x == y {
      assert x != m && y != m ==> x in t.memberships && y in t.memberships;
    }
    forall x | x in ms ensures x.userId in UserIds(t.users) && x.groupId in GroupIds(t.groups) {
      if x == m {
        assert UserById(t.users, m.userId).Some? && GroupById(t.groups, m.groupId).Some?;
      }
    }
  }

  /** The memberships of one group, in table order. */
  function GroupMemberships(memberships: seq<Membership>, groupId: string): (r: seq<Membership>)
    ensures forall m :: m in r <==> m in memberships && m.groupId == groupId
  {
    Filter(memberships, (m: Membership) => m.groupId == groupId)
  }

  /** The Prisma client: the three tables, updated in place by the services. */
  class Database {
    var tables: Tables

    ghost predicate Valid()
      reads this
    {
      ValidTables(tables)
    }

    constructor ()
      ensures Valid() && tables == Tables([], [], [])
    {
      tables := Tables([], [], []);
    }
  }
}
