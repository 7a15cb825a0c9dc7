/** `POST /api/auth/signup` (app/api/auth/signup/route.ts): validate the
    body, refuse a taken email, store the new user with a hashed password. */
module Signup {
  import opened Common
  import opened Http
  import opened Store

  /** The request body: unreadable JSON, or its three fields. */
  datatype Body = Unreadable | Fields(name: Option<string>, email: Option<string>, password: Option<string>)

  predicate Complete(b: Body) {
    b.Fields? && Truthy(b.name) && Truthy(b.email) && Truthy(b.password)
  }

  /** The stored record of a new user: `_id`, name, email, the password's
      hash, not yet completed, both timestamps the time of insertion. */
  function NewUser(id: nat, name: string, email: string, hashed: string, now: int): (d: Doc)
    ensures d.Keys == {"_id", "name", "email", "password", "profileCompleted", "createdAt", "updatedAt"}
    ensures EmailOf(d) == Some(email)
    ensures d["_id"] == Id(id) && d["name"] == Str(name) && d["password"] == Str(hashed)
    ensures d["profileCompleted"] == Bool(false) && d["createdAt"] == Date(now) && d["updatedAt"] == Date(now)
  {
    map["_id" := Id(id), "name" := Str(name), "email" := Str(email), "password" := Str(hashed),
        "profileCompleted" := Bool(false), "createdAt" := Date(now), "updatedAt" := Date(now)]
  }

  /** Adding a user whose email is not taken keeps emails unique. */
  lemma InsertKeepsEmailsUnique(users: seq<Doc>, d: Doc)
    requires EmailsUnique(users)
    requires EmailOf(d).Some? && FindByEmail(users, EmailOf(d).value).None?
    ensures EmailsUnique(users + [d])
  {
    var u := users + [d];
    forall i, j | 0 <= i < j < |u| && EmailOf(u[i]).Some?
      ensures EmailOf(u[i]) != EmailOf(u[j])
    {
      if j == |users| {
        assert EmailOf(users[i]) != Some(EmailOf(d).value);
      } else {
        assert u[i] == users[i] && u[j] == users[j];
      }
    }
  }

  /** The handler. `hashed` is what `bcrypt.hash(password, 12)` yields and
      `now` the clock; the reply's payload is the new user's id. */
  method Post(db: Db, body: Body, hashed: string, now: int) returns (reply: Reply<nat>)
    modifies db
    ensures db.online == old(db.online) && db.tokens == old(db.tokens) && db.hospitals == old(db.hospitals)
    ensures body.Unreadable? ==> reply == Fail(500, "Internal server error") && db.users == old(db.users)
    ensures body.Fields? && !Complete(body) ==>
              reply == Fail(400, "Name, email, and password are required") && db.users == old(db.users)
    ensures Complete(body) && !old(db.online) ==>
              reply == Fail(500, "Internal server error") && db.users == old(db.users)
    ensures Complete(body) && old(db.online) && FindByEmail(old(db.users), body.email.value).Some? ==>
              reply == Fail(400, "User already exists with this email") && db.users == old(db.users)
    ensures Complete(body) && old(db.online) && FindByEmail(old(db.users), body.email.value).None? ==>
              && reply == Reply(201, Payload(|old(db.users)|))
              && db.users == old(db.users) + [NewUser(|old(db.users)|, body.name.value, body.email.value, hashed, now)]
    ensures EmailsUnique(old(db.users)) ==> EmailsUnique(db.users)
  {
    if body.Unreadable? {
      return Fail(500, "Internal server error");
    }
    if !Complete(body) {
      return Fail(400, "Name, email, and password are required");
    }
    if !db.online {
      return Fail(500, "Internal server error");
    }
    var email := body.email.value;
    if FindByEmail(db.users, email).Some? {
      return Fail(400, "User already exists with this email");
    }
    var id := |db.users|;
    var user := NewUser(id, body.name.value, email, hashed, now);
    if EmailsUnique(db.users) {
      InsertKeepsEmailsUnique(db.users, user);
    }
    db.users := db.users + [user];
    reply := Reply(201, Payload(id));
  }
}
