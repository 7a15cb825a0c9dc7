/** The credentials sign-in of lib/auth.ts: `authorize` looks the user up by
    email and checks the password against the stored hash; the `jwt` and
    `session` callbacks copy the signed-in user's fields onward. */
module Auth {
  import opened Common
  import opened Store

  datatype Credentials = Credentials(email: Option<string>, password: Option<string>)

  /** The user object `authorize` returns. */
  datatype User = User(id: nat, name: Option<Value>, email: Value, profileCompleted: Value)

  /** How `authorize` ends: it throws with a message, or signs the user in. */
  datatype Outcome = Threw(message: string) | SignedIn(user: User)

  /** `_id.toString()`: the model keeps ids as numbers. */
  function IdOf(d: Doc): nat {
    if "_id" in d && d["_id"].Id? then d["_id"].n else 0
  }

  /** `credentials?.email && credentials?.password`: both given and non-empty. */
  predicate HasCredentials(credentials: Option<Credentials>) {
    credentials.Some? && Truthy(credentials.value.email) && Truthy(credentials.value.password)
  }

  /** `user.profileCompleted || false`. */
  function CompletedFlag(u: Doc): (v: Value)
    ensures "profileCompleted" in u && IsTruthy(u["profileCompleted"]) ==> v == u["profileCompleted"]
    ensures !("profileCompleted" in u && IsTruthy(u["profileCompleted"])) ==> v == Bool(false)
  {
    if "profileCompleted" in u && IsTruthy(u["profileCompleted"]) then u["profileCompleted"] else Bool(false)
  }

  /** `authorize(credentials)` over the users collection. `compare` is
      `bcrypt.compare`; a stored password that is not a string makes it
      throw. Every way through is stated: the missing-credentials check,
      the database, the look-up, the hash, and the signed-in user. */
  function Authorize(users: seq<Doc>, online: bool, credentials: Option<Credentials>,
                     compare: (string, string) -> bool): (r: Outcome)
    ensures !HasCredentials(credentials) ==> r == Threw("Missing email or password.")
    ensures HasCredentials(credentials) && !online ==> r == Threw("Database unavailable")
    ensures HasCredentials(credentials) && online && FindByEmail(users, credentials.value.email.value).None? ==>
              r == Threw("No user found with this email.")
    ensures HasCredentials(credentials) && online && FindByEmail(users, credentials.value.email.value).Some? ==>
              var u := users[FindByEmail(users, credentials.value.email.value).value];
              && (!("password" in u && u["password"].Str?) ==> r == Threw("Illegal arguments"))
              && ("password" in u && u["password"].Str? && !compare(credentials.value.password.value, u["password"].s) ==>
                    r == Threw("Invalid password."))
              && ("password" in u && u["password"].Str? && compare(credentials.value.password.value, u["password"].s) ==>
                    r == SignedIn(User(IdOf(u), Lookup(u, "name"), u["email"], CompletedFlag(u))))
    ensures r.SignedIn? ==>
              && HasCredentials(credentials) && online
              && var i := FindByEmail(users, credentials.value.email.value);
              && i.Some?
              && r.user.email == Str(credentials.value.email.value)
    ensures r.SignedIn? ==> IsTruthy(r.user.profileCompleted) || r.user.profileCompleted == Bool(false)
  {
    if !HasCredentials(credentials) then
      Threw("Missing email or password.")
    else if !online then Threw("Database unavailable")
    else
      var email := credentials.value.email.value;
      match FindByEmail(users, email)
      case None => Threw("No user found with this email.")
      case Some(i) =>
        var u := users[i];
        if !("password" in u && u["password"].Str?) then Threw("Illegal arguments")
        else if !compare(credentials.value.password.value, u["password"].s) then Threw("Invalid password.")
        else SignedIn(User(IdOf(u), Lookup(u, "name"), u["email"], CompletedFlag(u)))
  }

  /** Sign-in succeeds exactly when the credentials are given, the
      database answers, a user has that email, and `compare` accepts the
      password against that user's stored hash. */
  lemma SignInIffAccepted(users: seq<Doc>, online: bool, credentials: Option<Credentials>,
                          compare: (string, string) -> bool)
    ensures Authorize(users, online, credentials, compare).SignedIn? <==>
              && HasCredentials(credentials) && online
              && FindByEmail(users, credentials.value.email.value).Some?
              && var u := users[FindByEmail(users, credentials.value.email.value).value];
              && "password" in u && u["password"].Str?
              && compare(credentials.value.password.value, u["password"].s)
  {
  }

  /** An unknown email, or a password the hash does not accept, is refused. */
  lemma UnknownOrWrongIsRefused(users: seq<Doc>, email: string, password: string, compare: (string, string) -> bool)
    requires email != "" && password != ""
    requires || FindByEmail(users, email).None?
             || (var u := users[FindByEmail(users, email).value];
                 "password" in u && u["password"].Str? && !compare(password, u["password"].s))
    ensures Authorize(users, true, Some(Credentials(Some(email), Some(password))), compare).Threw?
    ensures FindByEmail(users, email).None? ==>
              Authorize(users, true, Some(Credentials(Some(email), Some(password))), compare)
                == Threw("No user found with this email.")
  {
  }

  /** The session token of next-auth, with the fields the callbacks set. */
  class Token {
    var id: Option<nat>
    var name: Option<Value>
    var email: Option<Value>
    var profileCompleted: Option<Value>

    constructor()
      ensures id.None? && name.None? && email.None? && profileCompleted.None?
    {
      id, name, email, profileCompleted := None, None, None, None;
    }

    /** The `jwt` callback: on sign-in the user's fields are copied in;
        on later calls the token is left as it is. */
    method Jwt(user: Option<User>)
      modifies this
      ensures user.None? ==>
                id == old(id) && name == old(name) && email == old(email) && profileCompleted == old(profileCompleted)
      ensures user.Some? ==>
                && id == Some(user.value.id) && name == user.value.name
                && email == Some(user.value.email) && profileCompleted == Some(user.value.profileCompleted)
    {
      if user.Some? {
        id := Some(user.value.id);
        name := user.value.name;
        email := Some(user.value.email);
        profileCompleted := Some(user.value.profileCompleted);
      }
    }
  }

  /** `session.user` */
  class SessionUser {
    var id: Option<nat>
    var name: Option<Value>
    var email: Option<Value>
    var profileCompleted: Option<Value>

    constructor()
      ensures id.None? && name.None? && email.None? && profileCompleted.None?
    {
      id, name, email, profileCompleted := None, None, None, None;
    }
  }

  /** The `session` callback: with both a token and a session user, the
      four fields are copied from the token; otherwise nothing changes. */
  method SessionCallback(user: Option<SessionUser>, token: Option<Token>)
    modifies if user.Some? then {user.value} else {}
    ensures user.Some? && token.Some? ==>
              && user.value.id == token.value.id && user.value.email == token.value.email
              && user.value.name == token.value.name && user.value.profileCompleted == token.value.profileCompleted
    ensures user.Some? && token.None? ==>
              && user.value.id == old(user.value.id) && user.value.email == old(user.value.email)
              && user.value.name == old(user.value.name) && user.value.profileCompleted == old(user.value.profileCompleted)
  {
    if token.Some? && user.Some? {
      var u := user.value;
      var t := token.value;
      u.id := t.id;
      u.email := t.email;
      u.name := t.name;
      u.profileCompleted := t.profileCompleted;
    }
  }
}
