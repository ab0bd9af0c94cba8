/** The admin routes of server/routes/admin.js. Every route runs behind the admin gate
    (server/routes/admin.js:10-11); a route with an `:id` then checks it with express-validator's
    `isMongoId` and answers 400 for a malformed id, before any lookup. The user routes load
    the target, refuse the transition that would change nothing (400), and otherwise set one
    flag; the delete routes remove whatever exists, with no check of owner, self or role. */
module Admin {
  import opened Common
  import opened Users
  import opened AdminGate
  import opened Stories

  // ---------------------------------------------------------------------------
  // The id guard
  // ---------------------------------------------------------------------------

  predicate IsHexDigit(c: char) {
    '0' <= c <= '9' || 'a' <= c <= 'f' || 'A' <= c <= 'F'
  }

  predicate AllHex(t: string) {
    forall k :: 0 <= k < |t| ==> IsHexDigit(t[k])
  }

  /** validator.js `isHexadecimal`: an optional `0x` or `0h` prefix (either case), then one
      or more hex digits. */
  predicate IsHexadecimal(s: string) {
    var body := if |s| >= 2 && s[0] == '0' && IsHexPrefixLetter(s[1]) then s[2..] else s;
    |body| > 0 && AllHex(body)
  }

  predicate IsHexPrefixLetter(c: char) {
    c == 'x' || c == 'X' || c == 'h' || c == 'H'
  }

  /** validator.js `isMongoId`: a hexadecimal string of length 24. Every 24-digit hex string
      passes, and nothing of another length does. A passing string is hex digits throughout,
      except that its second character may be the letter of a `0x` or `0h` prefix. */
  function IsMongoId(s: string): (b: bool)
    ensures b ==> |s| == 24
    ensures |s| == 24 && (forall k :: 0 <= k < |s| ==> IsHexDigit(s[k])) ==> b
    ensures b <==> (|s| == 24 && IsHexDigit(s[0])
      && (IsHexDigit(s[1]) || (s[0] == '0' && IsHexPrefixLetter(s[1])))
      && forall k :: 2 <= k < |s| ==> IsHexDigit(s[k]))
  {
    HexadecimalCharacters(s);
    IsHexadecimal(s) && |s| == 24
  }

  /** `IsHexadecimal` character by character, for strings of more than two characters. */
  lemma HexadecimalCharacters(s: string)
    ensures |s| > 2 ==> (IsHexadecimal(s) <==> (IsHexDigit(s[0])
      && (IsHexDigit(s[1]) || (s[0] == '0' && IsHexPrefixLetter(s[1])))
      && forall k :: 2 <= k < |s| ==> IsHexDigit(s[k])))
  {
    if |s| > 2 {
      var prefixed := s[0] == '0' && IsHexPrefixLetter(s[1]);
      var body := if prefixed then s[2..] else s;
      assert IsHexadecimal(s) == AllHex(body);
      if prefixed {
        if AllHex(body) {
          forall k | 2 <= k < |s| ensures IsHexDigit(s[k]) {
            assert s[k] == body[k - 2];
          }
        }
      } else {
        assert body == s;
      }
    }
  }

  /** A 24-character id with a character that is no hex digit, outside a `0x` or `0h`
      prefix, is refused. */
  lemma NonHexIdRejected()
    ensures !IsMongoId("0123456789abcdef0123456g")
    ensures !IsMongoId("x123456789abcdef01234567")
  {
    assert "0123456789abcdef0123456g"[23] == 'g';
  }

  /** The guard also lets through a `0x` prefix with 22 hex digits after it. */
  lemma MongoIdAcceptsHexPrefix()
    ensures IsMongoId("0x0123456789abcdef012345")
  {
    var s := "0x0123456789abcdef012345";
    var body := s[2..];
    assert forall k :: 0 <= k < |body| ==> IsHexDigit(body[k]);
  }

  /** The checks every `:id` route makes before it touches a table: the gate first, then the
      id guard. */
  function Authorize(users: map<UserId, User>, requester: UserId, id: string): (r: Outcome<()>)
    ensures r == Err(NotFound) <==> requester !in users
    ensures r == Err(Forbidden) <==> requester in users && !users[requester].isAdmin
    ensures r == Err(BadRequest) <==> requester in users && users[requester].isAdmin && !IsMongoId(id)
    ensures r == Ok(()) <==> Gate(users, requester) == Ok(()) && IsMongoId(id)
  {
    match Gate(users, requester)
    case Err(e) => Err(e)
    case Ok(_) => if IsMongoId(id) then Ok(()) else Err(BadRequest)
  }

  // ---------------------------------------------------------------------------
  // The routes
  // ---------------------------------------------------------------------------

  /** `GET /admin/users` */
  method ListUsers(db: UserCollection, requester: UserId) returns (r: Outcome<map<UserId, User>>)
    ensures Gate(db.users, requester).Err? ==> r == Err(Gate(db.users, requester).error)
    ensures Gate(db.users, requester).Ok? ==> r == Ok(db.users)
  {
    var gate := Gate(db.users, requester);
    if gate.Err? {
      return Err(gate.error);
    }
    r := Ok(db.users);
  }

  /** `DELETE /admin/users/:id`: removes any existing user, the requester and other admins
      included. */
  method DeleteUser(db: UserCollection, requester: UserId, id: string) returns (r: Outcome<()>)
    modifies db
    ensures Authorize(old(db.users), requester, id).Err? ==>
      r == Err(Authorize(old(db.users), requester, id).error) && db.users == old(db.users)
    ensures Authorize(old(db.users), requester, id).Ok? && id !in old(db.users) ==>
      r == Err(NotFound) && db.users == old(db.users)
    ensures Authorize(old(db.users), requester, id).Ok? && id in old(db.users) ==>
      r == Ok(()) && db.users == old(db.users) - {id}
  {
    var auth := Authorize(db.users, requester, id);
    if auth.Err? {
      return Err(auth.error);
    }
    if id !in db.users {
      return Err(NotFound);
    }
    db.users := db.users - {id};
    r := Ok(());
  }

  /** `PUT /admin/users/:id/promote` */
  method Promote(db: UserCollection, requester: UserId, id: string) returns (r: Outcome<()>)
    modifies db
    ensures Authorize(old(db.users), requester, id).Err? ==>
      r == Err(Authorize(old(db.users), requester, id).error) && db.users == old(db.users)
    ensures Authorize(old(db.users), requester, id).Ok? && id !in old(db.users) ==>
      r == Err(NotFound) && db.users == old(db.users)
    ensures Authorize(old(db.users), requester, id).Ok? && id in old(db.users) && old(db.users)[id].isAdmin ==>
      r == Err(BadRequest) && db.users == old(db.users)
    ensures Authorize(old(db.users), requester, id).Ok? && id in old(db.users) && !old(db.users)[id].isAdmin ==>
      r == Ok(()) && db.users == old(db.users)[id := old(db.users)[id].(isAdmin := true)]
  {
    var auth := Authorize(db.users, requester, id);
    if auth.Err? {
      return Err(auth.error);
    }
    if id !in db.users {
      return Err(NotFound);
    }
    var user := db.users[id];
    if user.isAdmin {
      return Err(BadRequest);
    }
    user := user.(isAdmin := true);
    db.users := db.users[id := user];
    r := Ok(());
  }

  /** `PUT /admin/users/:id/demote` */
  method Demote(db: UserCollection, requester: UserId, id: string) returns (r: Outcome<()>)
    modifies db
    ensures Authorize(old(db.users), requester, id).Err? ==>
      r == Err(Authorize(old(db.users), requester, id).error) && db.users == old(db.users)
    ensures Authorize(old(db.users), requester, id).Ok? && id !in old(db.users) ==>
      r == Err(NotFound) && db.users == old(db.users)
    ensures Authorize(old(db.users), requester, id).Ok? && id in old(db.users) && !old(db.users)[id].isAdmin ==>
      r == Err(BadRequest) && db.users == old(db.users)
    ensures Authorize(old(db.users), requester, id).Ok? && id in old(db.users) && old(db.users)[id].isAdmin ==>
      r == Ok(()) && db.users == old(db.users)[id := old(db.users)[id].(isAdmin := false)]
  {
    var auth := Authorize(db.users, requester, id);
    if auth.Err? {
      return Err(auth.error);
    }
    if id !in db.users {
      return Err(NotFound);
    }
    var user := db.users[id];
    if !user.isAdmin {
      return Err(BadRequest);
    }
    user := user.(isAdmin := false);
    db.users := db.users[id := user];
    r := Ok(());
  }

  /** `PUT /admin/users/:id/ban` */
  method Ban(db: UserCollection, requester: UserId, id: string) returns (r: Outcome<()>)
    modifies db
    ensures Authorize(old(db.users), requester, id).Err? ==>
      r == Err(Authorize(old(db.users), requester, id).error) && db.users == old(db.users)
    ensures Authorize(old(db.users), requester, id).Ok? && id !in old(db.users) ==>
      r == Err(NotFound) && db.users == old(db.users)
    ensures Authorize(old(db.users), requester, id).Ok? && id in old(db.users) && old(db.users)[id].isBanned ==>
      r == Err(BadRequest) && db.users == old(db.users)
    ensures Authorize(old(db.users), requester, id).Ok? && id in old(db.users) && !old(db.users)[id].isBanned ==>
      r == Ok(()) && db.users == old(db.users)[id := old(db.users)[id].(isBanned := true)]
  {
    var auth := Authorize(db.users, requester, id);
    if auth.Err? {
      return Err(auth.error);
    }
    if id !in db.users {
      return Err(NotFound);
    }
    var user := db.users[id];
    if user.isBanned {
      return Err(BadRequest);
    }
    user := user.(isBanned := true);
    db.users := db.users[id := user];
    r := Ok(());
  }

  /** `PUT /admin/users/:id/unban` */
  method Unban(db: UserCollection, requester: UserId, id: string) returns (r: Outcome<()>)
    modifies db
    ensures Authorize(old(db.users), requester, id).Err? ==>
      r == Err(Authorize(old(db.users), requester, id).error) && db.users == old(db.users)
    ensures Authorize(old(db.users), requester, id).Ok? && id !in old(db.users) ==>
      r == Err(NotFound) && db.users == old(db.users)
    ensures Authorize(old(db.users), requester, id).Ok? && id in old(db.users) && !old(db.users)[id].isBanned ==>
      r == Err(BadRequest) && db.users == old(db.users)
    ensures Authorize(old(db.users), requester, id).Ok? && id in old(db.users) && old(db.users)[id].isBanned ==>
      r == Ok(()) && db.users == old(db.users)[id := old(db.users)[id].(isBanned := false)]
  {
    var auth := Authorize(db.users, requester, id);
    if auth.Err? {
      return Err(auth.error);
    }
    if id !in db.users {
      return Err(NotFound);
    }
    var user := db.users[id];
    if !user.isBanned {
      return Err(BadRequest);
    }
    user := user.(isBanned := false);
    db.users := db.users[id := user];
    r := Ok(());
  }

  /** `GET /admin/stories`: every story, newest first. */
  method ListStories(db: UserCollection, table: StoryCollection, requester: UserId)
    returns (r: Outcome<seq<Story>>)
    requires table.Valid()
    ensures Gate(db.users, requester).Err? ==> r == Err(Gate(db.users, requester).error)
    ensures Gate(db.users, requester).Ok? ==>
      r.Ok? && NewestFirst(r.value) && multiset(r.value) == multiset(table.stories.Values)
  {
    var gate := Gate(db.users, requester);
    if gate.Err? {
      return Err(gate.error);
    }
    var list := table.AllNewestFirst();
    r := Ok(list);
  }

  /** `DELETE /admin/stories/:id`: removes any existing story, whoever wrote it. */
  method DeleteStory(db: UserCollection, table: StoryCollection, requester: UserId, id: string)
    returns (r: Outcome<()>)
    requires table.Valid()
    modifies table
    ensures table.Valid()
    ensures Authorize(db.users, requester, id).Err? ==>
      r == Err(Authorize(db.users, requester, id).error) && table.stories == old(table.stories)
    ensures Authorize(db.users, requester, id).Ok? && id !in old(table.stories) ==>
      r == Err(NotFound) && table.stories == old(table.stories)
    ensures Authorize(db.users, requester, id).Ok? && id in old(table.stories) ==>
      r == Ok(()) && table.stories == old(table.stories) - {id}
  {
    var auth := Authorize(db.users, requester, id);
    if auth.Err? {
      return Err(auth.error);
    }
    var found := table.FindByIdAndDelete(id);
    if found.None? {
      return Err(NotFound);
    }
    r := Ok(());
  }
}
