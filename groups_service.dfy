/**
 * The group service: create (the creator becomes OWNER), fetch one or a page, update (ADMIN
 * or OWNER only), delete (OWNER only), list a group's members, and add a member (any logged-in
 * user). New group ids are parameters.
 */
module GroupsService {
  import opened Wrappers
  import opened Db
  import opened RequestContext

  const GroupNotFound: string := "Group not found"
  const Unauthorized: string := "Unauthorized"

  /** The roles that may update a group. */
  const UpdateRoles: set<Role> := {Admin, Owner}

  /** The fields of a parsed `GroupUpdate`. */
  datatype GroupUpdate = GroupUpdate(id: string, name: Option<string>, description: Option<string>)

  /** `{ id, email, name }` of a member's user. */
  function MemberRef(users: seq<User>, m: Membership): (r: UserRef)
    requires m.userId in UserIds(users)
    ensures exists u :: u in users && u.id == m.userId && r == UserRef(u.id, u.email, u.name)
  {
    var u := UserById(users, m.userId).value;
    UserRef(u.id, u.email, u.name)
  }

  /** The group a fresh create stores has the creator as its only member, as OWNER. */
  lemma CreatedGroupHasOwner(t: Tables, g: Group, ownerId: string)
    requires ValidTables(t) && CreateGroup(t, g, ownerId).Success?
    ensures HasRole(CreateGroup(t, g, ownerId).value.memberships, ownerId, g.id, {Owner})
    ensures forall m :: m in GroupMemberships(CreateGroup(t, g, ownerId).value.memberships, g.id) ==> m == Membership(ownerId, g.id, Owner)
  {
    CreateGroupValid(t, g, ownerId);
    assert Membership(ownerId, g.id, Owner) in CreateGroup(t, g, ownerId).value.memberships;
  }

  /** A MEMBER cannot update a group, and nobody but an OWNER can delete one. */
  lemma RoleGuards(t: Tables, id: string, callerId: string, name: Option<string>, description: Option<string>)
    requires ValidTables(t)
    requires forall m :: m in t.memberships && m.userId == callerId && m.groupId == id ==> m.role == Member
    ensures UpdateGroup(t, id, callerId, UpdateRoles, name, description) == Failure(RecordNotFound)
    ensures DeleteGroup(t, id, callerId) == Failure(RecordNotFound)
  {
  }

  /** The creator, as OWNER, can update and delete the group just created. */
  lemma CreatorMayManage(t: Tables, g: Group, ownerId: string, name: Option<string>, description: Option<string>)
    requires ValidTables(t) && CreateGroup(t, g, ownerId).Success?
    ensures UpdateGroup(CreateGroup(t, g, ownerId).value, g.id, ownerId, UpdateRoles, name, description).Success?
    ensures DeleteGroup(CreateGroup(t, g, ownerId).value, g.id, ownerId).Success?
  {
    var t' := CreateGroup(t, g, ownerId).value;
    assert g in t'.groups;
    assert Membership(ownerId, g.id, Owner) in t'.memberships;
  }

  /** Deleting a group leaves no membership of it behind. */
  lemma DeletedGroupHasNoMembers(t: Tables, id: string, callerId: string)
    requires ValidTables(t) && DeleteGroup(t, id, callerId).Success?
    ensures forall m :: m !in GroupMemberships(DeleteGroup(t, id, callerId).value.memberships, id)
    ensures id !in GroupIds(DeleteGroup(t, id, callerId).value.groups)
  {
  }

  class Service {
    const db: Database

    constructor (db: Database)
      ensures this.db == db
    {
      this.db := db;
    }

    /** `createGroup`: a group with the description or null, and an OWNER membership for the creator. */
    method CreateGroup(creatorId: string, name: string, description: Option<string>, freshId: string) returns (r: Result<Group, Thrown>)
      requires db.Valid()
      modifies db
      ensures db.Valid()
      ensures r.Failure? ==> db.tables == old(db.tables)
      ensures creatorId !in UserIds(old(db.tables.users)) ==> r == Failure(DatabaseError(ForeignKeyViolation))
      ensures r.Success? ==> (
        && r.value == Group(freshId, name, description)
        && db.tables == Tables(old(db.tables.users), old(db.tables.groups) + [r.value],
                               old(db.tables.memberships) + [Membership(creatorId, freshId, Owner)]))
      ensures
        var res := Db.CreateGroup(old(db.tables), Group(freshId, name, description), creatorId);
        && (res.Failure? ==> r == Failure(DatabaseError(res.error)))
        && (res.Success? ==> r == Success(Group(freshId, name, description)) && db.tables == res.value)
      ensures creatorId in UserIds(old(db.tables.users)) && freshId !in GroupIds(old(db.tables.groups)) ==> r.Success?
    {
      var g := Group(freshId, name, description);
      var res := Db.CreateGroup(db.tables, g, creatorId);
      if res.Failure? {
        return Failure(DatabaseError(res.error));
      }
      CreateGroupValid(db.tables, g, creatorId);
      db.tables := res.value;
      r := Success(g);
    }

    /** `fetchGroup`: the group, or "Group not found". */
    method FetchGroup(id: string) returns (r: Result<Group, Thrown>)
      ensures r.Failure? <==> id !in GroupIds(db.tables.groups)
      ensures r.Failure? ==> r.error == PlainError(GroupNotFound)
      ensures r.Success? ==> r.value in db.tables.groups && r.value.id == id
    {
      var group := GroupById(db.tables.groups, id);
      if group.None? {
        return Failure(PlainError(GroupNotFound));
      }
      r := Success(group.value);
    }

    /** `fetchGroups`: one page of groups. */
    method FetchGroups(ctx: Context) returns (r: Result<seq<Group>, Thrown>)
      ensures var page := Page(db.tables.groups, ctx.pagination.skip, ctx.pagination.take);
        && (page.Failure? ==> r == Failure(DatabaseError(page.error)))
        && (page.Success? ==> r == Success(page.value))
    {
      var groups := Page(db.tables.groups, ctx.pagination.skip, ctx.pagination.take);
      if groups.Failure? {
        return Failure(DatabaseError(groups.error));
      }
      r := Success(groups.value);
    }

    /**
     * `updateGroup`: "Unauthorized" without a user; otherwise the update applies only when the
     * caller is an ADMIN or OWNER of the group. An absent name is kept; an absent description becomes null.
     */
    method UpdateGroup(data: GroupUpdate, ctx: Context) returns (r: Result<Group, Thrown>)
      requires db.Valid()
      modifies db
      ensures db.Valid()
      ensures ctx.user.None? ==> r == Failure(PlainError(Unauthorized))
      ensures r.Failure? ==> db.tables == old(db.tables)
      ensures ctx.user.Some? && (data.id !in GroupIds(old(db.tables.groups)) || !HasRole(old(db.tables.memberships), ctx.user.value.id, data.id, UpdateRoles)) ==>
        r == Failure(DatabaseError(RecordNotFound))
      ensures r.Success? ==> (
        && ctx.user.Some? && HasRole(old(db.tables.memberships), ctx.user.value.id, data.id, UpdateRoles)
        && (exists g :: g in old(db.tables.groups) && g.id == data.id && r.value == UpdatedGroup(g, data.name, data.description))
        && db.tables == old(db.tables).(groups := Replace(old(db.tables.groups), GroupId, r.value)))
      ensures ctx.user.Some? ==> (
        var res := Db.UpdateGroup(old(db.tables), data.id, ctx.user.value.id, UpdateRoles, data.name, data.description);
        && (res.Failure? ==> r == Failure(DatabaseError(res.error)))
        && (res.Success? ==> r == Success(res.value.1) && db.tables == res.value.0))
      ensures ctx.user.Some? && data.id in GroupIds(old(db.tables.groups)) && HasRole(old(db.tables.memberships), ctx.user.value.id, data.id, UpdateRoles) ==>
        r.Success?
    {
      if ctx.user.None? {
        return Failure(PlainError(Unauthorized));
      }
      var res := Db.UpdateGroup(db.tables, data.id, ctx.user.value.id, UpdateRoles, data.name, data.description);
      if res.Failure? {
        return Failure(DatabaseError(res.error));
      }
      UpdateGroupValid(db.tables, data.id, ctx.user.value.id, UpdateRoles, data.name, data.description);
      db.tables := res.value.0;
      r := Success(res.value.1);
    }

    /** `deleteGroup`: "Unauthorized" without a user; otherwise only an OWNER of the group deletes it, with its memberships. */
    method DeleteGroup(id: string, ctx: Context) returns (r: Result<(), Thrown>)
      requires db.Valid()
      modifies db
      ensures db.Valid()
      ensures ctx.user.None? ==> r == Failure(PlainError(Unauthorized))
      ensures r.Failure? ==> db.tables == old(db.tables)
      ensures ctx.user.Some? && !HasRole(old(db.tables.memberships), ctx.user.value.id, id, {Owner}) ==>
        r == Failure(DatabaseError(RecordNotFound))
      ensures r.Success? ==> (
        && ctx.user.Some? && HasRole(old(db.tables.memberships), ctx.user.value.id, id, {Owner})
        && Db.DeleteGroup(old(db.tables), id, ctx.user.value.id).Success?
        && db.tables == Db.DeleteGroup(old(db.tables), id, ctx.user.value.id).value)
      ensures ctx.user.Some? ==> (
        var res := Db.DeleteGroup(old(db.tables), id, ctx.user.value.id);
        && (res.Failure? ==> r == Failure(DatabaseError(res.error)))
        && (res.Success? ==> r == Success(()) && db.tables == res.value))
      ensures ctx.user.Some? && id in GroupIds(old(db.tables.groups)) && HasRole(old(db.tables.memberships), ctx.user.value.id, id, {Owner}) ==>
        r.Success?
    {
      if ctx.user.None? {
        return Failure(PlainError(Unauthorized));
      }
      var res := Db.DeleteGroup(db.tables, id, ctx.user.value.id);
      if res.Failure? {
        return Failure(DatabaseError(res.error));
      }
      DeleteGroupValid(db.tables, id, ctx.user.value.id);
      db.tables := res.value;
      r := Success(());
    }

    /** `fetchGroupUsers`: a page of the group's memberships, each as the `{id, email, name}` of its user. */
    method FetchGroupUsers(groupId: string, ctx: Context) returns (r: Result<seq<UserRef>, Thrown>)
      requires db.Valid()
      ensures var page := Page(GroupMemberships(db.tables.memberships, groupId), ctx.pagination.skip, ctx.pagination.take);
        && (page.Failure? ==> r == Failure(DatabaseError(page.error)))
        && (page.Success? ==>
              && r.Success? && |r.value| == |page.value|
              && forall i :: 0 <= i < |r.value| ==> page.value[i].userId in UserIds(db.tables.users) && r.value[i] == MemberRef(db.tables.users, page.value[i]))
      ensures r.Success? ==> forall x :: x in r.value ==> IsMember(db.tables.memberships, x.id, groupId)
    {
      var ms := GroupMemberships(db.tables.memberships, groupId);
      var page := Page(ms, ctx.pagination.skip, ctx.pagination.take);
      if page.Failure? {
        return Failure(DatabaseError(page.error));
      }
      var rows := page.value;
      assert forall i :: 0 <= i < |rows| ==> rows[i] in db.tables.memberships && rows[i].groupId == groupId by {
        forall i | 0 <= i < |rows| ensures rows[i] in db.tables.memberships && rows[i].groupId == groupId {
          assert rows[i] == ms[ctx.pagination.skip + i];
          assert ms[ctx.pagination.skip + i] in ms;
        }
      }
      var users := db.tables.users;
      var refs := seq(|rows|, i requires 0 <= i < |rows| => MemberRef(users, rows[i]));
      forall x | x in refs ensures IsMember(db.tables.memberships, x.id, groupId) {
        var i :| 0 <= i < |refs| && refs[i] == x;
        assert rows[i].userId == x.id;
      }
      r := Success(refs);
    }

    /** `addGroupUser`: "Unauthorized" without a user; otherwise, whatever the caller's role, a membership with the given role. */
    method AddGroupUser(groupId: string, userId: string, role: Role, ctx: Context) returns (r: Result<Membership, Thrown>)
      requires db.Valid()
      modifies db
      ensures db.Valid()
      ensures ctx.user.None? ==> r == Failure(PlainError(Unauthorized))
      ensures r.Failure? ==> db.tables == old(db.tables)
      ensures ctx.user.Some? ==> (
        var res := CreateMembership(old(db.tables), Membership(userId, groupId, role));
        && (res.Failure? ==> r == Failure(DatabaseError(res.error)))
        && (res.Success? ==> r == Success(Membership(userId, groupId, role)) && db.tables == res.value))
    {
      if ctx.user.None? {
        return Failure(PlainError(Unauthorized));
      }
      var m := Membership(userId, groupId, role);
      var res := CreateMembership(db.tables, m);
      if res.Failure? {
        return Failure(DatabaseError(res.error));
      }
      CreateMembershipValid(db.tables, m);
      db.tables := res.value;
      r := Success(m);
    }
  }

  /** A logged-in creator creates a group and deletes it again as its OWNER: both calls succeed and the tables hold the same rows as before. */
  method CreateThenDelete(s: Service, ctx: Context, name: string, description: Option<string>, freshId: string)
      returns (created: Result<Group, Thrown>, deleted: Result<(), Thrown>)
    requires s.db.Valid()
    requires ctx.user.Some? && ctx.user.value.id in UserIds(s.db.tables.users)
    requires freshId !in GroupIds(s.db.tables.groups)
    modifies s.db
    ensures created == Success(Group(freshId, name, description)) && deleted == Success(())
    ensures s.db.Valid() && s.db.tables.users == old(s.db.tables.users)
    ensures forall g :: g in s.db.tables.groups <==> g in old(s.db.tables.groups)
    ensures forall m :: m in s.db.tables.memberships <==> m in old(s.db.tables.memberships)
  {
    ghost var t := s.db.tables;
    created := s.CreateGroup(ctx.user.value.id, name, description, freshId);
    assert Membership(ctx.user.value.id, freshId, Owner) in s.db.tables.memberships;
    assert freshId in GroupIds(s.db.tables.groups) by { assert Group(freshId, name, description) in s.db.tables.groups; }
    deleted := s.DeleteGroup(freshId, ctx);
    forall g | g in t.groups ensures g.id != freshId {
      assert g.id in GroupIds(t.groups);
    }
    forall m | m in t.memberships ensures m.groupId != freshId {
      assert m.groupId in GroupIds(t.groups);
    }
  }
}
