/** server/middleware/isAdmin.js: the gate in front of every admin route. It looks the
    requester up and answers 404 when there is no such user, 403 when the user is not an
    admin, and lets the request through otherwise. It changes nothing. */
module AdminGate {
  import opened Common
  import opened Users

  function Gate(users: map<UserId, User>, requester: UserId): (r: Outcome<()>)
    ensures r == Err(NotFound) <==> requester !in users
    ensures r == Err(Forbidden) <==> requester in users && !users[requester].isAdmin
    ensures r == Ok(()) <==> requester in users && users[requester].isAdmin
  {
    if requester !in users then Err(NotFound)
    else if !users[requester].isAdmin then Err(Forbidden)
    else Ok(())
  }

  /** The gate depends on nothing but the requester's own record: changing or removing any
      other user never changes its answer. */
  lemma GateLooksOnlyAtRequester(users: map<UserId, User>, requester: UserId, other: UserId, u: User)
    requires other != requester
    ensures Gate(users[other := u], requester) == Gate(users, requester)
    ensures Gate(users - {other}, requester) == Gate(users, requester)
  {
  }
}
