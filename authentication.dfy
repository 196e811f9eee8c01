/**
 * Registration and login. Registration is gated by a trailing `;` on the
 * submitted name, which is stripped before the user is stored; login defers
 * to the local strategy and maps its verdict to a reply.
 *
 * Token signing and its expiry are not part of this model: a token is the
 * payload it carries. Deriving the credential from the password is the
 * parameter `setPassword`; the outcome of saving the user is `saveError`.
 */
module Authentication {
  import opened Wrappers
  import opened DbModels
  import opened Passport

  /** The request body; an absent or empty field is missing. */
  datatype Body = Body(name: Option<string>, email: Option<string>, password: Option<string>)

  /** The payload `generateJwt` signs. */
  datatype Token = Token(id: Id, email: string, name: string)

  datatype Payload = Message(text: string) | Issued(token: Token)

  datatype Reply = Reply(status: int, payload: Payload)

  const AllFieldsRequired := "All fields required."
  const ContactAdmin := "Contact admin to register"
  const Sentinel: char := ';'

  function TokenFor(u: User): Token
  {
    Token(u.id, u.email, u.name)
  }

  /** The name that is stored: the submitted one without its last character. */
  function StripSentinel(name: string): (r: string)
    requires name != []
    ensures r + [name[|name| - 1]] == name
  {
    name[..|name| - 1]
  }

  /** The reply, and the user saved if any. */
  datatype Registration = Registration(reply: Reply, saved: Option<User>)

  /**
   * `POST /register`. Missing fields are checked first, then the trailing
   * `;`; only then is a user built and saved.
   */
  function Register(body: Body, newId: Id, setPassword: string -> Credential, saveError: Option<string>): (r: Registration)
    ensures !(Present(body.name) && Present(body.email) && Present(body.password)) ==>
      r == Registration(Reply(400, Message(AllFieldsRequired)), None)
    ensures (Present(body.name) && Present(body.email) && Present(body.password) &&
             body.name.value[|body.name.value| - 1] != Sentinel) ==>
      r == Registration(Reply(400, Message(ContactAdmin)), None)
    ensures r.saved.Some? <==>
      (Present(body.name) && Present(body.email) && Present(body.password) &&
       body.name.value[|body.name.value| - 1] == Sentinel && saveError.None?)
    ensures r.saved.Some? ==>
      (r.saved.value.name + [Sentinel] == body.name.value && r.saved.value.email == body.email.value &&
       r.saved.value.id == newId &&
       r.saved.value.credential == setPassword(body.password.value) &&
       r.reply == Reply(200, Issued(TokenFor(r.saved.value))))
    ensures r.reply.status == 500 <==>
      (Present(body.name) && Present(body.email) && Present(body.password) &&
       body.name.value[|body.name.value| - 1] == Sentinel && saveError.Some?)
    ensures r.reply.status == 500 ==> saveError.Some? && r.reply == Reply(500, Message(saveError.value))
  {
    if !Present(body.name) || !Present(body.email) || !Present(body.password) then
      Registration(Reply(400, Message(AllFieldsRequired)), None)
    else if body.name.value[|body.name.value| - 1] != Sentinel then
      Registration(Reply(400, Message(ContactAdmin)), None)
    else
      var user := User(newId, StripSentinel(body.name.value), body.email.value, setPassword(body.password.value));
      if saveError.Some? then Registration(Reply(500, Message(saveError.value)), None)
      else Registration(Reply(200, Issued(TokenFor(user))), Some(user))
  }

  /** A name typed with the trailing `;` registers under the name without it. */
  lemma RegisterStoresNameWithoutSentinel(name: string, email: string, password: string, newId: Id,
                                          setPassword: string -> Credential)
    requires name != "" && email != "" && password != ""
    ensures var r := Register(Body(Some(name + [Sentinel]), Some(email), Some(password)), newId, setPassword, None);
      r.saved.Some? && r.saved.value.name == name && r.reply.status == 200
  {
    var full := name + [Sentinel];
    assert full[|full| - 1] == Sentinel;
    assert StripSentinel(full) == name;
  }

  /** The login body. */
  datatype Credentials = Credentials(name: Option<string>, password: Option<string>)

  /**
   * `POST /login`: with a missing field the strategy is not consulted;
   * otherwise a store error is a 500, a user a 200 with that user's token,
   * and a failure a 401 carrying the strategy's message.
   */
  function Login(body: Credentials, users: seq<User>, lookupError: Option<string>,
                 validPassword: (User, string) -> bool): (r: Reply)
    ensures !(Present(body.name) && Present(body.password)) ==> r == Reply(400, Message(AllFieldsRequired))
    ensures Present(body.name) && Present(body.password) && lookupError.Some? ==>
      r == Reply(500, Message(lookupError.value))
    ensures r == Reply(401, Message(IncorrectUsername)) <==>
      (Present(body.name) && Present(body.password) && lookupError.None? &&
       forall u :: u in users ==> u.name != body.name.value)
    ensures r == Reply(401, Message(IncorrectPassword)) <==>
      (Present(body.name) && Present(body.password) && lookupError.None? &&
       FindByName(users, body.name.value).Some? &&
       !validPassword(FindByName(users, body.name.value).value, body.password.value))
    ensures r.status == 200 <==>
      (Present(body.name) && Present(body.password) && lookupError.None? &&
       FindByName(users, body.name.value).Some? &&
       validPassword(FindByName(users, body.name.value).value, body.password.value))
    ensures r.status == 200 ==>
      (r.payload == Issued(TokenFor(FindByName(users, body.name.value).value)) &&
       r.payload.token.name == body.name.value &&
       FindByName(users, body.name.value).value in users)
  {
    if !Present(body.name) || !Present(body.password) then Reply(400, Message(AllFieldsRequired))
    else
      match Verify(users, lookupError, body.name.value, body.password.value, validPassword)
      case Error(e) => Reply(500, Message(e))
      case Success(u) => Reply(200, Issued(TokenFor(u)))
      case Fail(m) => Reply(401, Message(m))
  }

  /**
   * Login answers 401 "Incorrect username." for an unknown name and 401
   * "Incorrect password." for a known name with a wrong password, and issues
   * the token of the named user otherwise.
   */
  lemma LoginOutcomes(name: string, password: string, users: seq<User>, validPassword: (User, string) -> bool)
    requires name != "" && password != ""
    ensures var r := Login(Credentials(Some(name), Some(password)), users, None, validPassword);
      && ((forall u :: u in users ==> u.name != name) ==> r == Reply(401, Message(IncorrectUsername)))
      && (FindByName(users, name).Some? && !validPassword(FindByName(users, name).value, password) ==>
            r == Reply(401, Message(IncorrectPassword)))
      && (FindByName(users, name).Some? && validPassword(FindByName(users, name).value, password) ==>
            r == Reply(200, Issued(TokenFor(FindByName(users, name).value))))
      && (r.status == 200 ==> r.payload.Issued? && r.payload.token.name == name)
  {
  }
}
