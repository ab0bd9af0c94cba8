/** The like toggle of server/routes/stories.js, shared by the story route
    (`POST /:id/like`) and the contribution route (`POST /:id/contributions/:cid/like`):
    find the requester with `indexOf`; if found, `splice` that entry out, otherwise
    `push` the requester. */
module Likes {
  import opened Common
  import opened Sequences

  /** The like array after `u` toggles its like. */
  function Toggle(likes: seq<UserId>, u: UserId): (r: seq<UserId>)
    ensures u in likes ==> |r| == |likes| - 1 && multiset(r) == multiset(likes) - multiset{u}
    ensures u !in likes ==> |r| == |likes| + 1 && multiset(r) == multiset(likes) + multiset{u}
  {
    var index := IndexOf(likes, u);
    if index > -1 then RemoveAt(likes, index) else likes + [u]
  }

  /** A requester who has not liked yet is appended at the end. */
  lemma ToggleAbsent(likes: seq<UserId>, u: UserId)
    requires u !in likes
    ensures Toggle(likes, u) == likes + [u]
  {
  }

  /** A requester who has liked loses exactly the first occurrence; every other entry keeps
      its relative order. */
  lemma TogglePresent(likes: seq<UserId>, u: UserId)
    requires u in likes
    ensures var i := IndexOf(likes, u);
      && 0 <= i < |likes| && likes[i] == u && u !in likes[..i]
      && Toggle(likes, u) == likes[..i] + likes[i + 1..]
  {
  }

  /** Liking, then unliking, gives back exactly the original like array. */
  lemma {:induction false} ToggleTwiceFromAbsent(likes: seq<UserId>, u: UserId)
    requires u !in likes
    ensures Toggle(Toggle(likes, u), u) == likes
  {
    var once := likes + [u];
    assert forall k :: 0 <= k < |likes| ==> once[k] == likes[k];
    assert IndexOf(once, u) == |likes|;
    assert once[..|likes|] == likes;
  }

  /** Unliking, then liking again, restores who has liked but moves `u` to the end. */
  lemma {:induction false} ToggleTwiceFromPresent(likes: seq<UserId>, u: UserId)
    requires NoDuplicates(likes) && u in likes
    ensures Toggle(Toggle(likes, u), u) == RemoveAt(likes, IndexOf(likes, u)) + [u]
    ensures multiset(Toggle(Toggle(likes, u), u)) == multiset(likes)
    ensures Toggle(Toggle(likes, u), u)[|likes| - 1] == u
  {
    var i := IndexOf(likes, u);
    RemoveAtKeepsNoDuplicates(likes, i);
    assert u !in Toggle(likes, u);
  }

  /** Toggling twice from the liked state is not the identity on the array: order changes. */
  lemma ToggleTwiceReorders()
    ensures Toggle(Toggle(["a", "b"], "a"), "a") == ["b", "a"]
  {
    assert IndexOf(["a", "b"], "a") == 0;
    assert Toggle(["a", "b"], "a") == ["b"];
    assert IndexOf(["b"], "a") == -1;
  }

  /** A like array never holds the same user twice, and after the toggle the requester is
      present exactly when it was absent before. */
  lemma ToggleKeepsNoDuplicates(likes: seq<UserId>, u: UserId)
    requires NoDuplicates(likes)
    ensures NoDuplicates(Toggle(likes, u))
    ensures u in Toggle(likes, u) <==> u !in likes
  {
    if u in likes {
      RemoveAtKeepsNoDuplicates(likes, IndexOf(likes, u));
    } else {
      AppendFreshKeepsNoDuplicates(likes, u);
    }
  }
}
