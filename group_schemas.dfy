/** The group validators: the group record's field rules, the shapes built from it, and the role default. */
module GroupSchemas {
  import opened Wrappers
  import opened Schema
  import UserSchemas

  /** The names of the `GroupRole` enumeration. */
  const RoleNames: set<string> := {"OWNER", "ADMIN", "MEMBER"}
  const DefaultRoleName: string := "MEMBER"

  /** `z.enum(GroupRole).default("MEMBER")`. */
  function RoleEntry(): Entry {
    Leaf(Field(Enum(RoleNames), Default(Str(DefaultRoleName))))
  }

  /** `GroupSchemaBase`. */
  function GroupShape(): Shape {
    map["id" := Req(Uuid), "name" := Req(MinString(1)), "description" := Leaf(Field(AnyString, Optional))]
  }

  function CreateShape(): Shape {
    Omit(GroupShape(), {"id"})
  }

  function UpdateShape(): Shape {
    Extend(Partial(GroupShape()), map["id" := Req(Uuid)])
  }

  function SelectShape(): Shape {
    Pick(GroupShape(), {"id"})
  }

  /** `UserSelectSchema.extend(GroupSelectSchema.shape).extend({role})`. */
  function MembershipShape(): Shape {
    Extend(Extend(UserSchemas.SelectShape(), SelectShape()), map["role" := RoleEntry()])
  }

  /** `GroupSelectSchema.extend({user: UserSelectSchema, role})`. */
  function AddUserShape(): Shape {
    Extend(SelectShape(), map["user" := Object(Fields(UserSchemas.SelectShape()), Required), "role" := RoleEntry()])
  }

  /** A group name is any string of at least one character (it is not trimmed). */
  lemma GroupNameRule(fm: Formats, s: string)
    ensures ParseCheck(fm, GroupShape()["name"].field.check, Str(s)) == if |s| >= 1 then Some(Str(s)) else None
  {
  }

  /** Creating takes a required name and an optional description, and no id. */
  lemma CreateFields()
    ensures CreateShape().Keys == {"name", "description"}
    ensures "id" !in CreateShape()
    ensures CreateShape()["name"].Mode() == Required && CreateShape()["description"].Mode() == Optional
  {
    assert GroupShape().Keys == {"id", "name", "description"};
  }

  /** Updating requires the id and takes the name and the description optionally. */
  lemma UpdateFields()
    ensures UpdateShape().Keys == {"id", "name", "description"}
    ensures UpdateShape()["id"] == Req(Uuid)
    ensures UpdateShape()["name"] == Leaf(Field(MinString(1), Optional))
    ensures UpdateShape()["description"] == Leaf(Field(AnyString, Optional))
  {
    assert GroupShape().Keys == {"id", "name", "description"};
  }

  /** Selecting takes only the id. */
  lemma SelectFields()
    ensures SelectShape() == map["id" := Req(Uuid)]
  {
    assert GroupShape().Keys == {"id", "name", "description"};
    assert SelectShape().Keys == {"id"};
  }

  /** The membership shape has one `id` (the group's replaces the user's) and a role. */
  lemma MembershipFields()
    ensures MembershipShape() == map["id" := Req(Uuid), "role" := RoleEntry()]
  {
    SelectFields();
    UserSchemas.UpdateFields();
    var u := UserSchemas.SelectShape();
    assert UserSchemas.UserShape().Keys == {"id", "email", "name", "createdAt", "updatedAt", "password"};
    assert u.Keys == {"id"};
  }

  /** Adding a member takes the group id, the user's `{id}` object and a role. */
  lemma AddUserFields()
    ensures AddUserShape().Keys == {"id", "user", "role"}
    ensures AddUserShape()["id"] == Req(Uuid)
    ensures AddUserShape()["user"] == Object(map["id" := Field(Uuid, Required)], Required)
    ensures AddUserShape()["role"] == RoleEntry()
  {
    SelectFields();
    var u := UserSchemas.SelectShape();
    assert UserSchemas.UserShape().Keys == {"id", "email", "name", "createdAt", "updatedAt", "password"};
    assert u.Keys == {"id"};
    assert Fields(u) == map["id" := Field(Uuid, Required)];
  }

  /** A missing role parses as MEMBER; a given role must name a `GroupRole` value and is kept. */
  lemma RoleDefault(fm: Formats, shape: Shape, input: map<string, Value>)
    requires shape == MembershipShape() || shape == AddUserShape()
    requires Parse(fm, shape, input).Success?
    ensures "role" in Parse(fm, shape, input).value
    ensures "role" !in input ==> Parse(fm, shape, input).value["role"] == Str(DefaultRoleName)
    ensures "role" in input ==> input["role"].Str? && input["role"].s in RoleNames && Parse(fm, shape, input).value["role"] == input["role"]
  {
    MembershipFields();
    AddUserFields();
    assert shape["role"] == RoleEntry();
    ParseHasRequiredKeys(fm, shape, input, "role");
  }
}
