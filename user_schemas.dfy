/**
 * The user validators: the user record's field rules and the shapes picked from it for
 * selection, registration, login and update.
 */
module UserSchemas {
  import opened Wrappers
  import Text
  import opened Schema

  const NameMin: nat := 2
  const NameMax: nat := 100
  const PasswordMin: nat := 8
  const PasswordMax: nat := 128

  /** The characters of the name pattern `^[a-zA-Z0-9_ -]+$`. */
  predicate IsNameChar(c: char) {
    ('a' <= c <= 'z') || ('A' <= c <= 'Z') || ('0' <= c <= '9') || c == '_' || c == ' ' || c == '-'
  }

  function NameChars(): (r: set<char>)
    ensures forall c :: c in r <==> IsNameChar(c)
  {
    set c: char | IsNameChar(c)
  }

  function NameCheck(): Check {
    TrimmedString(NameMin, NameMax, Some(NameChars()))
  }

  function PasswordCheck(): Check {
    TrimmedString(PasswordMin, PasswordMax, None)
  }

  /** The user record: `UserSchema`. */
  function UserShape(): Shape {
    map["id" := Req(Uuid), "email" := Req(EmailThenTrim), "name" := Req(NameCheck()),
        "createdAt" := Req(DateValue), "updatedAt" := Req(DateValue), "password" := Req(PasswordCheck())]
  }

  function SelectShape(): Shape {
    Pick(UserShape(), {"id"})
  }

  function RegistrationShape(): Shape {
    Pick(UserShape(), {"email", "password", "name"})
  }

  function LoginShape(): Shape {
    Pick(UserShape(), {"email", "password"})
  }

  /** `pick({email, name, password}).partial().extend(UserSelectSchema.shape)`, before its refinement. */
  function UpdateShape(): Shape {
    Extend(Partial(Pick(UserShape(), {"email", "name", "password"})), SelectShape())
  }

  /** `.refine(data => Object.keys(data).length > 0)`. */
  predicate UpdateRefinement(data: map<string, Value>) {
    |data.Keys| > 0
  }

  /** A name passes exactly when its trimmed form is 2 to 100 characters of letters, digits, `_`, space and `-`; the trimmed form is kept. */
  lemma NameRule(fm: Formats, s: string)
    ensures ParseCheck(fm, NameCheck(), Str(s)).Some? <==>
      var t := Text.Trim(s); NameMin <= |t| <= NameMax && forall i :: 0 <= i < |t| ==> IsNameChar(t[i])
    ensures ParseCheck(fm, NameCheck(), Str(s)).Some? ==> ParseCheck(fm, NameCheck(), Str(s)).value == Str(Text.Trim(s))
  {
  }

  /** A password passes exactly when its trimmed form is 8 to 128 characters long; the trimmed form is kept. */
  lemma PasswordRule(fm: Formats, s: string)
    ensures ParseCheck(fm, PasswordCheck(), Str(s)).Some? <==> PasswordMin <= |Text.Trim(s)| <= PasswordMax
    ensures ParseCheck(fm, PasswordCheck(), Str(s)).Some? ==> ParseCheck(fm, PasswordCheck(), Str(s)).value == Str(Text.Trim(s))
  {
  }

  /** The email format is tested on the untrimmed input, and the output is trimmed. */
  lemma EmailRule(fm: Formats, s: string)
    ensures ParseCheck(fm, EmailThenTrim, Str(s)) == if fm.isEmail(s) then Some(Str(Text.Trim(s))) else None
  {
  }

  /** Registration takes exactly email, password and name, all required. */
  lemma RegistrationFields()
    ensures RegistrationShape().Keys == {"email", "password", "name"}
    ensures forall k :: k in RegistrationShape() ==> RegistrationShape()[k].Mode() == Required
    ensures RegistrationShape()["name"] == Req(NameCheck()) && RegistrationShape()["password"] == Req(PasswordCheck())
  {
    assert UserShape().Keys == {"id", "email", "name", "createdAt", "updatedAt", "password"};
  }

  /** Login takes exactly email and password, both required. */
  lemma LoginFields()
    ensures LoginShape().Keys == {"email", "password"}
    ensures forall k :: k in LoginShape() ==> LoginShape()[k].Mode() == Required
  {
    assert UserShape().Keys == {"id", "email", "name", "createdAt", "updatedAt", "password"};
  }

  /** Update requires the id and takes email, name and password optionally, with their usual rules. */
  lemma UpdateFields()
    ensures UpdateShape().Keys == {"id", "email", "name", "password"}
    ensures UpdateShape()["id"] == Req(Uuid)
    ensures UpdateShape()["email"] == Leaf(Field(EmailThenTrim, Optional))
    ensures UpdateShape()["name"] == Leaf(Field(NameCheck(), Optional))
    ensures UpdateShape()["password"] == Leaf(Field(PasswordCheck(), Optional))
  {
    assert UserShape().Keys == {"id", "email", "name", "createdAt", "updatedAt", "password"};
  }

  /** A successful registration parse holds exactly email, password and name. */
  lemma RegistrationParseKeys(fm: Formats, input: map<string, Value>)
    requires Parse(fm, RegistrationShape(), input).Success?
    ensures Parse(fm, RegistrationShape(), input).value.Keys == {"email", "password", "name"}
  {
    RegistrationFields();
    ParseHasRequiredKeys(fm, RegistrationShape(), input, "email");
    ParseHasRequiredKeys(fm, RegistrationShape(), input, "password");
    ParseHasRequiredKeys(fm, RegistrationShape(), input, "name");
  }

  /** The update refinement can never fail: every successful parse of the update shape holds the id. */
  lemma UpdateRefinementHolds(fm: Formats, input: map<string, Value>)
    requires Parse(fm, UpdateShape(), input).Success?
    ensures "id" in Parse(fm, UpdateShape(), input).value
    ensures UpdateRefinement(Parse(fm, UpdateShape(), input).value)
  {
    UpdateFields();
    ParseHasRequiredKeys(fm, UpdateShape(), input, "id");
  }

  /** A parse of the update shape fails on a missing id, whatever else the input holds. */
  lemma UpdateNeedsId(fm: Formats, input: map<string, Value>)
    requires "id" !in input
    ensures Parse(fm, UpdateShape(), input).Failure?
  {
    UpdateFields();
    assert EntryOutcome(fm, UpdateShape()["id"], input, "id").Issue?;
  }
}
