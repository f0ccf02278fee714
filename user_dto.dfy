/** The user record as the server sends it: everything but the email and the password. */
module UserDto {
  import opened Wrappers
  import Db

  datatype SafeUser = SafeUser(id: string, name: string, createdAt: int, updatedAt: int)

  /** `userDto.toSafe`: null for null, otherwise the user without its password and email. */
  function ToSafe(u: Option<Db.User>): (r: Option<SafeUser>)
    ensures r.None? <==> u.None?
    ensures r.Some? ==> r.value.id == u.value.id && r.value.name == u.value.name
    ensures r.Some? ==> r.value.createdAt == u.value.createdAt && r.value.updatedAt == u.value.updatedAt
  {
    match u
    case None => None
    case Some(user) => Some(SafeUser(user.id, user.name, user.createdAt, user.updatedAt))
  }

  /** The user a projection came from, given the two fields it dropped. */
  function Restore(s: SafeUser, email: string, password: string): Db.User {
    Db.User(s.id, email, s.name, password, s.createdAt, s.updatedAt)
  }

  /** The projection drops only the email and the password: with them, the user is restored exactly. */
  lemma ToSafeKeepsTheRest(u: Db.User)
    ensures Restore(ToSafe(Some(u)).value, u.email, u.password) == u
  {
  }

  /** The projection tells nothing about the email or the password: users differing only there project alike. */
  lemma ToSafeHidesSecrets(u: Db.User, email: string, password: string)
    ensures ToSafe(Some(u.(email := email, password := password))) == ToSafe(Some(u))
  {
  }
}
