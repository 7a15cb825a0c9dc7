/** `GET /api/user/profile` (app/api/user/profile/route.ts): the signed-in
    user's record without its password. Read-only. */
module Profile {
  import opened Common
  import opened Http
  import opened Store

  function Get(users: seq<Doc>, online: bool, sessionEmail: Option<string>): (r: Reply<Doc>)
    ensures !Truthy(sessionEmail) ==> r == Fail(401, "Unauthorized")
    ensures Truthy(sessionEmail) && !online ==> r == Fail(500, "Internal server error")
    ensures Truthy(sessionEmail) && online && FindByEmail(users, sessionEmail.value).None? ==>
              r == Fail(404, "User not found")
    ensures Truthy(sessionEmail) && online && FindByEmail(users, sessionEmail.value).Some? ==>
              r == Ok(WithoutPassword(users[FindByEmail(users, sessionEmail.value).value]))
    ensures r.status == 200 ==>
              && Truthy(sessionEmail) && online && FindByEmail(users, sessionEmail.value).Some?
              && r.body.Payload? && "password" !in r.body.value
              && var d := users[FindByEmail(users, sessionEmail.value).value];
              && (forall k :: k in d && k != "password" <==> k in r.body.value)
              && (forall k :: k in r.body.value ==> r.body.value[k] == d[k])
  {
    if !Truthy(sessionEmail) then Fail(401, "Unauthorized")
    else if !online then Fail(500, "Internal server error")
    else match FindByEmail(users, sessionEmail.value)
      case None => Fail(404, "User not found")
      case Some(i) => Ok(WithoutPassword(users[i]))
  }
}
