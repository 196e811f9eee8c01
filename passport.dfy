/**
 * The local authentication strategy: the user is looked up by `name` and the
 * submitted password is checked against that user. Password hashing is not
 * part of this model: the check is the parameter `validPassword`.
 */
module Passport {
  import opened Wrappers
  import opened DbModels

  /** What `setPassword` stores: a random salt and the derived hash. */
  datatype Credential = Credential(salt: string, hash: string)

  datatype User = User(id: Id, name: string, email: string, credential: Credential)

  /** The request fields the strategy reads the username and password from. */
  const UsernameField := "name"
  const PasswordField := "password"

  const IncorrectUsername := "Incorrect username."
  const IncorrectPassword := "Incorrect password."

  /** How the strategy ends: a store error, a failure with a message, or the authenticated user. */
  datatype Verdict = Error(error: string) | Fail(message: string) | Success(user: User)

  /** `User.findOne({ name })`: the first user with that name, if any. */
  function FindByName(users: seq<User>, name: string): (r: Option<User>)
    ensures r.Some? ==> r.value in users && r.value.name == name
    ensures r.None? <==> forall u :: u in users ==> u.name != name
  {
    if users == [] then None
    else if users[0].name == name then Some(users[0])
    else FindByName(users[1..], name)
  }

  /**
   * The verify callback. A failing lookup (`lookupError`) is passed on as it
   * is, before anything else is checked; an unknown name and a wrong password
   * fail with distinct messages; otherwise the user found is the result.
   */
  function Verify(users: seq<User>, lookupError: Option<string>, username: string, password: string,
                  validPassword: (User, string) -> bool): (r: Verdict)
    ensures lookupError.Some? ==> r == Error(lookupError.value)
    ensures r == Fail(IncorrectUsername) <==> lookupError.None? && forall u :: u in users ==> u.name != username
    ensures r == Fail(IncorrectPassword) <==>
      (lookupError.None? && FindByName(users, username).Some? &&
       !validPassword(FindByName(users, username).value, password))
    ensures r.Success? ==> r.user in users && r.user.name == username && validPassword(r.user, password)
    ensures r.Success? <==>
      (lookupError.None? && FindByName(users, username).Some? &&
       validPassword(FindByName(users, username).value, password))
  {
    if lookupError.Some? then Error(lookupError.value)
    else match FindByName(users, username)
      case None => Fail(IncorrectUsername)
      case Some(user) =>
        if !validPassword(user, password) then Fail(IncorrectPassword)
        else Success(user)
  }
}
