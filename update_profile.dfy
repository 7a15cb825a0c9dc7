/** `POST /api/user/update-profile` (app/api/user/update-profile/route.ts):
    every field of the body is `$set` on the signed-in user's record, with
    a server timestamp, and the record is returned without its password. */
module UpdateProfile {
  import opened Common
  import opened Http
  import opened Store

  /** The request body: unreadable JSON, or the fields to set. */
  datatype Body = Unreadable | Updates(fields: Doc)

  /** `{ ...updates, updatedAt: new Date() }`: the body's fields, whatever
      they are, with `updatedAt` always the server's time. */
  function Changes(updates: Doc, now: int): (c: Doc)
    ensures c.Keys == updates.Keys + {"updatedAt"}
    ensures c["updatedAt"] == Date(now)
    ensures forall k :: k in updates && k != "updatedAt" ==> c[k] == updates[k]
  {
    updates["updatedAt" := Date(now)]
  }

  /** The handler, for the signed-in user's email. A matching record whose
      `_id` the body tries to change makes the database refuse (500). */
  method Post(db: Db, sessionEmail: Option<string>, body: Body, now: int) returns (reply: Reply<Doc>)
    modifies db
    ensures db.online == old(db.online) && db.tokens == old(db.tokens) && db.hospitals == old(db.hospitals)
    ensures !Truthy(sessionEmail) ==> reply == Fail(401, "Unauthorized") && db.users == old(db.users)
    ensures Truthy(sessionEmail) && (body.Unreadable? || !old(db.online)) ==>
              reply == Fail(500, "Internal server error") && db.users == old(db.users)
    ensures Truthy(sessionEmail) && body.Updates? && old(db.online) ==>
              var i := FindByEmail(old(db.users), sessionEmail.value);
              && (i.None? ==> reply == Fail(404, "User not found") && db.users == old(db.users))
              && (i.Some? && "_id" in body.fields ==>
                    reply == Fail(500, "Internal server error") && db.users == old(db.users))
              && (i.Some? && "_id" !in body.fields ==>
                    && db.users == UpdateByEmail(old(db.users), sessionEmail.value, Changes(body.fields, now))
                    && reply == Ok(WithoutPassword(db.users[i.value])))
  {
    if !Truthy(sessionEmail) {
      return Fail(401, "Unauthorized");
    }
    if body.Unreadable? || !db.online {
      return Fail(500, "Internal server error");
    }
    var i := FindByEmail(db.users, sessionEmail.value);
    if i.None? {
      return Fail(404, "User not found");
    }
    if "_id" in body.fields {
      return Fail(500, "Internal server error");
    }
    db.users := UpdateByEmail(db.users, sessionEmail.value, Changes(body.fields, now));
    reply := Ok(WithoutPassword(db.users[i.value]));
  }

  /** Fields the body leaves out keep their stored values. */
  lemma AbsentFieldsKept(d: Doc, updates: Doc, now: int, k: string)
    requires k in d && k !in updates && k != "updatedAt"
    ensures SetFields(d, Changes(updates, now))[k] == d[k]
  {
  }

  /** Nothing stops the body from taking another user's email: two users
      with distinct emails can end up sharing one. */
  lemma EmailCanBeTaken()
    ensures var users := [map["email" := Str("a")], map["email" := Str("b")]];
            && EmailsUnique(users)
            && !EmailsUnique(UpdateByEmail(users, "b", Changes(map["email" := Str("a")], 0)))
  {
    var users: seq<Doc> := [map["email" := Str("a")], map["email" := Str("b")]];
    assert EmailOf(users[0]) == Some("a") && EmailOf(users[1]) == Some("b");
    assert FindByEmail(users, "b") == Some(1);
    var after := UpdateByEmail(users, "b", Changes(map["email" := Str("a")], 0));
    assert EmailOf(after[0]) == EmailOf(after[1]) == Some("a");
  }
}
