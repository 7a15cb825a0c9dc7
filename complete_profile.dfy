/** `POST /api/user/complete-profile` (app/api/user/complete-profile/route.ts):
    mark the signed-in user's profile as completed. */
module CompleteProfile {
  import opened Common
  import opened Http
  import opened Store
  import Profile

  /** `$set: { profileCompleted: true, updatedAt: new Date() }` */
  function Completion(now: int): (c: Doc)
    ensures c.Keys == {"profileCompleted", "updatedAt"}
    ensures c["profileCompleted"] == Bool(true) && c["updatedAt"] == Date(now)
  {
    map["profileCompleted" := Bool(true), "updatedAt" := Date(now)]
  }

  /** The handler. The reply is the same whether or not a user matched. */
  method Post(db: Db, sessionEmail: Option<string>, now: int) returns (reply: Reply<string>)
    modifies db
    ensures db.online == old(db.online) && db.tokens == old(db.tokens) && db.hospitals == old(db.hospitals)
    ensures !Truthy(sessionEmail) ==> reply == Fail(401, "Unauthorized") && db.users == old(db.users)
    ensures Truthy(sessionEmail) && !old(db.online) ==>
              reply == Fail(500, "Internal server error") && db.users == old(db.users)
    ensures Truthy(sessionEmail) && old(db.online) ==>
              && reply == Ok("Profile completed")
              && db.users == UpdateByEmail(old(db.users), sessionEmail.value, Completion(now))
  {
    if !Truthy(sessionEmail) {
      return Fail(401, "Unauthorized");
    }
    if !db.online {
      return Fail(500, "Internal server error");
    }
    db.users := UpdateByEmail(db.users, sessionEmail.value, Completion(now));
    reply := Ok("Profile completed");
  }

  /** Completing twice leaves the flag as completing once did, on the same
      record, and changes no other record. */
  lemma CompletionIdempotent(users: seq<Doc>, email: string, t1: int, t2: int)
    ensures var once := UpdateByEmail(users, email, Completion(t1));
            var twice := UpdateByEmail(once, email, Completion(t2));
            && FindByEmail(once, email) == FindByEmail(users, email)
            && (FindByEmail(users, email).Some? ==>
                  var i := FindByEmail(users, email).value;
                  twice[i]["profileCompleted"] == once[i]["profileCompleted"] == Bool(true))
            && forall j :: 0 <= j < |users| && Some(j) != FindByEmail(users, email) ==> twice[j] == users[j]
  {
    UpdateKeepsLookup(users, email, Completion(t1));
  }

  /** After completing the profile, reading it shows it completed. */
  lemma ReadAfterComplete(users: seq<Doc>, email: string, now: int)
    requires email != "" && FindByEmail(users, email).Some?
    ensures var after := UpdateByEmail(users, email, Completion(now));
            var r := Profile.Get(after, true, Some(email));
            r.status == 200 && r.body.Payload? && r.body.value["profileCompleted"] == Bool(true)
  {
    var i := FindByEmail(users, email).value;
    var after := UpdateByEmail(users, email, Completion(now));
    UpdateKeepsLookup(users, email, Completion(now));
    assert FindByEmail(after, email) == Some(i);
    var d := SetFields(users[i], Completion(now));
    assert after[i] == d;
    assert d["profileCompleted"] == Bool(true);
    assert Profile.Get(after, true, Some(email)) == Ok(WithoutPassword(d));
  }
}
