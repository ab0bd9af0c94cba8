/** Request sequences against the handlers, proved from their contracts alone. */
module Scenarios {
  import opened Common
  import opened Sequences
  import opened Likes
  import opened Stories
  import opened Users
  import opened AdminGate
  import opened Admin

  /** U1 writes a story, U2 likes it and likes it again, U1 deletes it: the likes go
      `[U2]` then `[]`, and afterwards the story, and a like on it, are not found. */
  method LikeUnlikeDelete() returns (first: seq<UserId>, second: seq<UserId>, afterDelete: Outcome<Story>, lateLike: Outcome<Story>)
    ensures first == ["u2"] && second == []
    ensures afterDelete == Err(NotFound) && lateLike == Err(NotFound)
  {
    var table := new StoryCollection();
    var created := table.Create("s1", "A", "B", "u1", 0);
    var liked := table.LikeStory("s1", "u2");
    first := liked.value.likes;
    var unliked := table.LikeStory("s1", "u2");
    second := unliked.value.likes;
    assert IndexOf(first, "u2") == 0;
    var deleted := table.Delete("s1", "u1");
    assert deleted == Ok(());
    afterDelete := table.Get("s1");
    lateLike := table.LikeStory("s1", "u2");
  }

  /** Another user can neither edit nor delete a story, and the story stays as it was. */
  method OnlyTheAuthorEdits() returns (edit: Outcome<Story>, delete: Outcome<()>, kept: Outcome<Story>)
    ensures edit == Err(Forbidden) && delete == Err(Forbidden)
    ensures kept == Ok(Story("s1", "A", "B", "u1", [], [], 0))
  {
    var table := new StoryCollection();
    var created := table.Create("s1", "A", "B", "u1", 0);
    edit := table.Update("s1", "u2", Some("hijacked"), None);
    delete := table.Delete("s1", "u2");
    kept := table.Get("s1");
  }

  /** A like and a second like by the same user who had not liked leave the table as it was. */
  method LikeTwiceRestores(table: StoryCollection, id: StoryId, u: UserId)
    requires table.Valid() && id in table.stories && u !in table.stories[id].likes
    modifies table
    ensures table.stories == old(table.stories)
  {
    var _ := table.LikeStory(id, u);
    ToggleTwiceFromAbsent(old(table.stories)[id].likes, u);
    var _ := table.LikeStory(id, u);
  }

  /** A contribution that its author deletes right away leaves the table as it was. */
  method ContributeThenDelete(table: StoryCollection, id: StoryId, u: UserId, cid: ContributionId, content: string)
    requires table.Valid() && id in table.stories
    requires forall k :: 0 <= k < |table.stories[id].contributions| ==> table.stories[id].contributions[k].id != cid
    modifies table
    ensures table.stories == old(table.stories)
  {
    var _ := table.Contribute(id, u, cid, content);
    ContributeThenDeleteRestores(old(table.stories)[id].contributions, Contribution(cid, content, u, []));
    var _ := table.DeleteContribution(id, cid, u);
  }

  /** Promoting a user and demoting them again leaves the user table as it was. */
  method PromoteThenDemote(db: UserCollection, requester: UserId, id: string)
    requires Gate(db.users, requester) == Ok(()) && IsMongoId(id)
    requires id in db.users && !db.users[id].isAdmin && id != requester
    modifies db
    ensures db.users == old(db.users)
  {
    var promoted := Promote(db, requester, id);
    GateLooksOnlyAtRequester(old(db.users), requester, id, old(db.users)[id].(isAdmin := true));
    var demoted := Demote(db, requester, id);
  }

  /** Banning a user and lifting the ban again leaves the user table as it was. */
  method BanThenUnban(db: UserCollection, requester: UserId, id: string)
    requires Gate(db.users, requester) == Ok(()) && IsMongoId(id)
    requires id in db.users && !db.users[id].isBanned
    modifies db
    ensures db.users == old(db.users)
  {
    var banned := Ban(db, requester, id);
    var unbanned := Unban(db, requester, id);
  }

  /** Nothing stops an admin from demoting themselves, after which the gate shuts them out. */
  method SelfDemotionLocksOut(db: UserCollection, requester: UserId)
    requires Gate(db.users, requester) == Ok(()) && IsMongoId(requester)
    modifies db
    ensures Gate(db.users, requester) == Err(Forbidden)
  {
    var demoted := Demote(db, requester, requester);
  }

  /** Nothing stops an admin from deleting their own account, after which the gate answers 404. */
  method SelfDeletionAllowed(db: UserCollection, requester: UserId)
    requires Gate(db.users, requester) == Ok(()) && IsMongoId(requester)
    modifies db
    ensures Gate(db.users, requester) == Err(NotFound)
  {
    var deleted := DeleteUser(db, requester, requester);
  }
}
