/** `POST /api/book-token` (app/api/book-token/route.ts): append a token
    `{ userId, hospital, city, createdAt }` to the tokens collection. */
module BookToken {
  import opened Common
  import opened Http
  import opened Store

  /** The request body: unreadable JSON, or a value that is an object
      (`Some`) or is not one (`None`: `null`, a number, ...). */
  datatype Body = Unreadable | Json(fields: Option<Doc>)

  /** The three required fields, each present and truthy. */
  predicate HasFields(d: Doc) {
    && "userId" in d && IsTruthy(d["userId"])
    && "hospital" in d && IsTruthy(d["hospital"])
    && "city" in d && IsTruthy(d["city"])
  }

  /** The stored token. */
  function NewToken(id: nat, d: Doc, now: int): (t: Doc)
    requires HasFields(d)
    ensures t.Keys == {"_id", "userId", "hospital", "city", "createdAt"}
    ensures t["_id"] == Id(id) && t["createdAt"] == Date(now)
    ensures t["userId"] == d["userId"] && t["hospital"] == d["hospital"] && t["city"] == d["city"]
  {
    map["_id" := Id(id), "userId" := d["userId"], "hospital" := d["hospital"], "city" := d["city"],
        "createdAt" := Date(now)]
  }

  /** The handler; the reply's payload is the new token's id. A body that
      is not an object counts as `{}`. */
  method Post(db: Db, body: Body, now: int) returns (reply: Reply<nat>)
    modifies db
    ensures db.online == old(db.online) && db.users == old(db.users) && db.hospitals == old(db.hospitals)
    ensures body.Unreadable? ==> reply == Fail(500, "Unexpected error") && db.tokens == old(db.tokens)
    ensures body.Json? && !HasFields(body.fields.GetOr(map[])) ==>
              reply == Fail(400, "Missing fields") && db.tokens == old(db.tokens)
    ensures body.Json? && HasFields(body.fields.GetOr(map[])) && !old(db.online) ==>
              reply == Fail(500, "Unexpected error") && db.tokens == old(db.tokens)
    ensures body.Json? && HasFields(body.fields.GetOr(map[])) && old(db.online) ==>
              && reply == Ok(|old(db.tokens)|)
              && db.tokens == old(db.tokens) + [NewToken(|old(db.tokens)|, body.fields.value, now)]
  {
    if body.Unreadable? {
      return Fail(500, "Unexpected error");
    }
    var fields := body.fields.GetOr(map[]);
    if !HasFields(fields) {
      return Fail(400, "Missing fields");
    }
    if !db.online {
      return Fail(500, "Unexpected error");
    }
    var id := |db.tokens|;
    db.tokens := db.tokens + [NewToken(id, fields, now)];
    reply := Ok(id);
  }

  /** A `null` body is treated as an empty object and so is refused. */
  lemma NullBodyRefused()
    ensures !HasFields(Json(None).fields.GetOr(map[]))
  {
  }
}
