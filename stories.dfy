/** The story routes of server/routes/stories.js over an in-memory story table.
    Each handler loads one story, checks it, changes it and stores it back, as the
    route does with `findById`, in-place edits of the document and `save`. */
module Stories {
  import opened Common
  import opened Sequences
  import opened Likes

  /** `createdAt`, used only to order stories. */
  type Timestamp = int

  /** An entry of a story's `contributions` array. */
  datatype Contribution = Contribution(
    id: ContributionId,
    content: string,
    author: UserId,
    likes: seq<UserId>)

  datatype Story = Story(
    id: StoryId,
    title: string,
    content: string,
    author: UserId,
    likes: seq<UserId>,
    contributions: seq<Contribution>,
    createdAt: Timestamp)

  // ---------------------------------------------------------------------------
  // The contribution ledger
  // ---------------------------------------------------------------------------

  function ContributionIds(cs: seq<Contribution>): (ids: seq<ContributionId>)
    ensures |ids| == |cs|
    ensures forall k :: 0 <= k < |cs| ==> ids[k] == cs[k].id
  {
    seq(|cs|, k requires 0 <= k < |cs| => cs[k].id)
  }

  /** `contributions.findIndex(c => c._id.toString() === cid)`, which is also the entry
      `contributions.id(cid)` returns: the first contribution with that id, or -1. */
  function FindContribution(cs: seq<Contribution>, cid: ContributionId): (i: int)
    ensures -1 <= i < |cs|
    ensures i == -1 <==> forall k :: 0 <= k < |cs| ==> cs[k].id != cid
    ensures 0 <= i ==> cs[i].id == cid && forall k :: 0 <= k < i ==> cs[k].id != cid
  {
    var ids := ContributionIds(cs);
    var i := IndexOf(ids, cid);
    assert i == -1 <==> cid !in ids;
    assert 0 <= i ==> forall k :: 0 <= k < i ==> ids[..i][k] == cs[k].id;
    i
  }

  /** The shape every stored story keeps: no user likes a story or a contribution twice,
      and no two contributions of a story share an id. */
  predicate WellFormed(s: Story) {
    && NoDuplicates(s.likes)
    && NoDuplicates(ContributionIds(s.contributions))
    && forall k :: 0 <= k < |s.contributions| ==> NoDuplicates(s.contributions[k].likes)
  }

  lemma ContributionIdsAppend(cs: seq<Contribution>, c: Contribution)
    ensures ContributionIds(cs + [c]) == ContributionIds(cs) + [c.id]
  {
  }

  lemma ContributionIdsRemoveAt(cs: seq<Contribution>, i: nat)
    requires i < |cs|
    ensures ContributionIds(RemoveAt(cs, i)) == RemoveAt(ContributionIds(cs), i)
  {
  }

  lemma ContributionIdsUpdate(cs: seq<Contribution>, i: nat, c: Contribution)
    requires i < |cs| && c.id == cs[i].id
    ensures ContributionIds(cs[i := c]) == ContributionIds(cs)
  {
  }

  /** Deleting the contribution that was just added gives back the ledger as it was. */
  lemma {:induction false} ContributeThenDeleteRestores(cs: seq<Contribution>, c: Contribution)
    requires forall k :: 0 <= k < |cs| ==> cs[k].id != c.id
    ensures FindContribution(cs + [c], c.id) == |cs|
    ensures RemoveAt(cs + [c], |cs|) == cs
  {
    var grown := cs + [c];
    assert forall k :: 0 <= k < |cs| ==> grown[k].id != c.id;
    assert grown[|cs|].id == c.id;
    assert grown[..|cs|] == cs;
  }

  /** Since contribution ids are unique, a deleted contribution is gone: deleting or liking
      it again finds nothing. */
  lemma {:induction false} DeleteRemovesContribution(cs: seq<Contribution>, cid: ContributionId)
    requires NoDuplicates(ContributionIds(cs))
    requires FindContribution(cs, cid) >= 0
    ensures FindContribution(RemoveAt(cs, FindContribution(cs, cid)), cid) == -1
    ensures NoDuplicates(ContributionIds(RemoveAt(cs, FindContribution(cs, cid))))
  {
    var i := FindContribution(cs, cid);
    ContributionIdsRemoveAt(cs, i);
    RemoveAtKeepsNoDuplicates(ContributionIds(cs), i);
    var rest := RemoveAt(cs, i);
    forall k | 0 <= k < |rest| ensures rest[k].id != cid {
      assert ContributionIds(rest)[k] == rest[k].id;
    }
  }

  // ---------------------------------------------------------------------------
  // Editing a story
  // ---------------------------------------------------------------------------

  /** An update replaces the title when the request gives one, and likewise the content;
      a field the request leaves out keeps its old value. */
  function Edited(s: Story, title: Option<string>, content: Option<string>): (r: Story)
    ensures title.Some? ==> r.title == title.value
    ensures title.None? ==> r.title == s.title
    ensures content.Some? ==> r.content == content.value
    ensures content.None? ==> r.content == s.content
    ensures r.id == s.id && r.author == s.author && r.createdAt == s.createdAt
    ensures r.likes == s.likes && r.contributions == s.contributions
  {
    var s' := if title.Some? then s.(title := title.value) else s;
    if content.Some? then s'.(content := content.value) else s'
  }

  /** Repeating an update changes nothing more. */
  lemma EditIdempotent(s: Story, title: Option<string>, content: Option<string>)
    ensures Edited(Edited(s, title, content), title, content) == Edited(s, title, content)
  {
  }

  // ---------------------------------------------------------------------------
  // The admin listing order
  // ---------------------------------------------------------------------------

  /** `sort({ createdAt: -1 })`: newest first. */
  predicate NewestFirst(ss: seq<Story>) {
    forall i, j :: 0 <= i < j < |ss| ==> ss[i].createdAt >= ss[j].createdAt
  }

  /** Puts `s` into a newest-first list in front of the first story that is not newer. */
  function InsertNewestFirst(ss: seq<Story>, s: Story): (r: seq<Story>)
    ensures multiset(r) == multiset(ss) + multiset{s}
    ensures |r| == |ss| + 1 && (r[0] == s || (|ss| > 0 && r[0] == ss[0]))
  {
    if |ss| == 0 || s.createdAt >= ss[0].createdAt then [s] + ss
    else
      assert ss == [ss[0]] + ss[1..];
      [ss[0]] + InsertNewestFirst(ss[1..], s)
  }

  /** A story in front of a newest-first list that is not older than its head. */
  lemma ConsNewestFirst(x: Story, ss: seq<Story>)
    requires NewestFirst(ss) && (|ss| > 0 ==> x.createdAt >= ss[0].createdAt)
    ensures NewestFirst([x] + ss)
  {
    var r := [x] + ss;
    forall i, j | 0 <= i < j < |r| ensures r[i].createdAt >= r[j].createdAt {
      if i > 0 {
        assert r[i] == ss[i - 1] && r[j] == ss[j - 1];
      } else if j > 1 {
        assert ss[0].createdAt >= ss[j - 1].createdAt;
      }
    }
  }

  lemma {:induction false} InsertKeepsNewestFirst(ss: seq<Story>, s: Story)
    requires NewestFirst(ss)
    ensures NewestFirst(InsertNewestFirst(ss, s))
  {
    if |ss| == 0 || s.createdAt >= ss[0].createdAt {
      ConsNewestFirst(s, ss);
    } else {
      var tail := ss[1..];
      assert NewestFirst(tail) by {
        forall i, j | 0 <= i < j < |tail| ensures tail[i].createdAt >= tail[j].createdAt {
          assert tail[i] == ss[i + 1] && tail[j] == ss[j + 1];
        }
      }
      InsertKeepsNewestFirst(tail, s);
      var rest := InsertNewestFirst(tail, s);
      assert |tail| > 0 ==> ss[0].createdAt >= tail[0].createdAt;
      ConsNewestFirst(ss[0], rest);
    }
  }

  /** The stories held in `table` under the keys `keys`. */
  ghost function StoriesAt(table: map<StoryId, Story>, keys: set<StoryId>): set<Story>
    requires keys <= table.Keys
  {
    set id | id in keys :: table[id]
  }

  /** Every story is stored under its own id and is well formed. */
  ghost predicate ValidTable(table: map<StoryId, Story>) {
    forall id :: id in table ==> table[id].id == id && WellFormed(table[id])
  }

  lemma StoriesAtAdd(table: map<StoryId, Story>, keys: set<StoryId>, id: StoryId)
    requires ValidTable(table) && keys <= table.Keys && id in table && id !in keys
    ensures table[id] !in StoriesAt(table, keys)
    ensures StoriesAt(table, keys + {id}) == StoriesAt(table, keys) + {table[id]}
  {
  }

  lemma MultisetOfFreshAdd<T>(a: set<T>, x: T)
    requires x !in a
    ensures multiset(a + {x}) == multiset(a) + multiset{x}
  {
  }

  lemma StoriesAtAll(table: map<StoryId, Story>)
    ensures StoriesAt(table, table.Keys) == table.Values
  {
  }

  lemma StoreKeepsValid(table: map<StoryId, Story>, s: Story)
    requires ValidTable(table) && WellFormed(s)
    ensures ValidTable(table[s.id := s])
  {
  }

  lemma WellFormedWithLikes(s: Story, likes: seq<UserId>)
    requires WellFormed(s) && NoDuplicates(likes)
    ensures WellFormed(s.(likes := likes))
  {
  }

  lemma WellFormedWithContribution(s: Story, i: nat, c: Contribution)
    requires WellFormed(s) && i < |s.contributions|
    requires c.id == s.contributions[i].id && NoDuplicates(c.likes)
    ensures WellFormed(s.(contributions := s.contributions[i := c]))
  {
    ContributionIdsUpdate(s.contributions, i, c);
  }

  // ---------------------------------------------------------------------------
  // The story table and the route handlers
  // ---------------------------------------------------------------------------

  class StoryCollection {
    var stories: map<StoryId, Story>

    ghost predicate Valid()
      reads this
    {
      ValidTable(stories)
    }

    constructor ()
      ensures Valid() && stories == map[]
    {
      stories := map[];
    }

    /** `POST /stories`: a new story by the requester, with no likes and no contributions.
        The id is the one the database generates, so it is new. */
    method Create(id: StoryId, title: string, content: string, requester: UserId, now: Timestamp)
      returns (r: Outcome<Story>)
      requires Valid() && id !in stories
      modifies this
      ensures Valid()
      ensures r == Ok(Story(id, title, content, requester, [], [], now))
      ensures stories == old(stories)[id := r.value]
    {
      var story := Story(id, title, content, requester, [], [], now);
      stories := stories[id := story];
      r := Ok(story);
    }

    /** `GET /stories/:id` */
    method Get(id: StoryId) returns (r: Outcome<Story>)
      ensures id in stories ==> r == Ok(stories[id])
      ensures id !in stories ==> r == Err(NotFound)
    {
      if id !in stories {
        return Err(NotFound);
      }
      r := Ok(stories[id]);
    }

    /** `findByIdAndDelete`: removes the story if there is one and returns it. */
    method FindByIdAndDelete(id: StoryId) returns (found: Option<Story>)
      requires Valid()
      modifies this
      ensures Valid()
      ensures id in old(stories) ==> found == Some(old(stories)[id])
      ensures id !in old(stories) ==> found == None
      ensures stories == old(stories) - {id}
    {
      if id in stories {
        found := Some(stories[id]);
      } else {
        found := None;
      }
      stories := stories - {id};
    }

    /** `PUT /stories/:id`: only the author may edit, and only the fields the request
        carries change. */
    method Update(id: StoryId, requester: UserId, title: Option<string>, content: Option<string>)
      returns (r: Outcome<Story>)
      requires Valid()
      modifies this
      ensures Valid()
      ensures id !in old(stories) ==> r == Err(NotFound) && stories == old(stories)
      ensures id in old(stories) && old(stories)[id].author != requester ==>
        r == Err(Forbidden) && stories == old(stories)
      ensures id in old(stories) && old(stories)[id].author == requester ==>
        r == Ok(Edited(old(stories)[id], title, content)) && stories == old(stories)[id := r.value]
    {
      if id !in stories {
        return Err(NotFound);
      }
      var story := stories[id];
      if story.author != requester {
        return Err(Forbidden);
      }
      if title.Some? {
        story := story.(title := title.value);
      }
      if content.Some? {
        story := story.(content := content.value);
      }
      stories := stories[id := story];
      r := Ok(story);
    }

    /** `DELETE /stories/:id`: only the author may delete. */
    method Delete(id: StoryId, requester: UserId) returns (r: Outcome<()>)
      requires Valid()
      modifies this
      ensures Valid()
      ensures id !in old(stories) ==> r == Err(NotFound) && stories == old(stories)
      ensures id in old(stories) && old(stories)[id].author != requester ==>
        r == Err(Forbidden) && stories == old(stories)
      ensures id in old(stories) && old(stories)[id].author == requester ==>
        r == Ok(()) && stories == old(stories) - {id}
    {
      if id !in stories {
        return Err(NotFound);
      }
      if stories[id].author != requester {
        return Err(Forbidden);
      }
      var _ := FindByIdAndDelete(id);
      r := Ok(());
    }

    /** `POST /stories/:id/contribute`: anyone may append a contribution; its content is
        not checked. The id is the one the database generates for the new entry. */
    method Contribute(id: StoryId, requester: UserId, cid: ContributionId, content: string)
      returns (r: Outcome<Story>)
      requires Valid()
      requires id in stories ==> forall k :: 0 <= k < |stories[id].contributions| ==>
        stories[id].contributions[k].id != cid
      modifies this
      ensures Valid()
      ensures id !in old(stories) ==> r == Err(NotFound) && stories == old(stories)
      ensures id in old(stories) ==>
        var s := old(stories)[id];
        && r == Ok(s.(contributions := s.contributions + [Contribution(cid, content, requester, [])]))
        && stories == old(stories)[id := r.value]
    {
      if id !in stories {
        return Err(NotFound);
      }
      var story := stories[id];
      var contributions := story.contributions + [Contribution(cid, content, requester, [])];
      ContributionIdsAppend(story.contributions, contributions[|contributions| - 1]);
      AppendFreshKeepsNoDuplicates(ContributionIds(story.contributions), cid);
      story := story.(contributions := contributions);
      stories := stories[id := story];
      r := Ok(story);
    }

    /** `DELETE /stories/:storyId/contributions/:contributionId`: only the contribution's
        author may delete it; the first entry with that id is spliced out. */
    method DeleteContribution(id: StoryId, cid: ContributionId, requester: UserId)
      returns (r: Outcome<Story>)
      requires Valid()
      modifies this
      ensures Valid()
      ensures id !in old(stories) ==> r == Err(NotFound) && stories == old(stories)
      ensures id in old(stories) && FindContribution(old(stories)[id].contributions, cid) == -1 ==>
        r == Err(NotFound) && stories == old(stories)
      ensures id in old(stories) && FindContribution(old(stories)[id].contributions, cid) >= 0 ==>
        var s := old(stories)[id];
        var i := FindContribution(s.contributions, cid);
        if s.contributions[i].author != requester then
          r == Err(Forbidden) && stories == old(stories)
        else
          && r == Ok(s.(contributions := RemoveAt(s.contributions, i)))
          && stories == old(stories)[id := r.value]
    {
      if id !in stories {
        return Err(NotFound);
      }
      var story := stories[id];
      var index := FindContribution(story.contributions, cid);
      if index == -1 {
        return Err(NotFound);
      }
      if story.contributions[index].author != requester {
        return Err(Forbidden);
      }
      DeleteRemovesContribution(story.contributions, cid);
      var rest := RemoveAt(story.contributions, index);
      story := story.(contributions := rest);
      stories := stories[id := story];
      r := Ok(story);
    }

    /** `POST /stories/:id/like`: toggles the requester's like on the story. */
    method LikeStory(id: StoryId, requester: UserId) returns (r: Outcome<Story>)
      requires Valid()
      modifies this
      ensures Valid()
      ensures id !in old(stories) ==> r == Err(NotFound) && stories == old(stories)
      ensures id in old(stories) ==>
        var s := old(stories)[id];
        && r == Ok(s.(likes := Toggle(s.likes, requester)))
        && stories == old(stories)[id := r.value]
    {
      if id !in stories {
        return Err(NotFound);
      }
      var story := stories[id];
      var likes := story.likes;
      var index := IndexOf(likes, requester);
      if index > -1 {
        likes := RemoveAt(likes, index);
      } else {
        likes := likes + [requester];
      }
      assert likes == Toggle(story.likes, requester);
      ToggleKeepsNoDuplicates(story.likes, requester);
      WellFormedWithLikes(story, likes);
      story := story.(likes := likes);
      StoreKeepsValid(stories, story);
      stories := stories[id := story];
      r := Ok(story);
    }

    /** `POST /stories/:id/contributions/:contributionId/like`: toggles the requester's like
        on that one contribution. */
    method LikeContribution(id: StoryId, cid: ContributionId, requester: UserId)
      returns (r: Outcome<Story>)
      requires Valid()
      modifies this
      ensures Valid()
      ensures id !in old(stories) ==> r == Err(NotFound) && stories == old(stories)
      ensures id in old(stories) && FindContribution(old(stories)[id].contributions, cid) == -1 ==>
        r == Err(NotFound) && stories == old(stories)
      ensures id in old(stories) && FindContribution(old(stories)[id].contributions, cid) >= 0 ==>
        var s := old(stories)[id];
        var i := FindContribution(s.contributions, cid);
        var c := s.contributions[i];
        && r == Ok(s.(contributions := s.contributions[i := c.(likes := Toggle(c.likes, requester))]))
        && stories == old(stories)[id := r.value]
    {
      if id !in stories {
        return Err(NotFound);
      }
      var story := stories[id];
      var i := FindContribution(story.contributions, cid);
      if i == -1 {
        return Err(NotFound);
      }
      var contribution := story.contributions[i];
      var likes := contribution.likes;
      var index := IndexOf(likes, requester);
      if index > -1 {
        likes := RemoveAt(likes, index);
      } else {
        likes := likes + [requester];
      }
      assert likes == Toggle(contribution.likes, requester);
      ToggleKeepsNoDuplicates(contribution.likes, requester);
      contribution := contribution.(likes := likes);
      WellFormedWithContribution(story, i, contribution);
      story := story.(contributions := story.contributions[i := contribution]);
      StoreKeepsValid(stories, story);
      stories := stories[id := story];
      r := Ok(story);
    }

    /** `Story.find().sort({ createdAt: -1 })`: every stored story once, newest first. */
    method AllNewestFirst() returns (list: seq<Story>)
      requires Valid()
      ensures NewestFirst(list)
      ensures multiset(list) == multiset(stories.Values)
    {
      list := [];
      var remaining := stories.Keys;
      ghost var done: set<StoryId> := {};
      while remaining != {}
        invariant remaining !! done && remaining + done == stories.Keys
        invariant NewestFirst(list)
        invariant multiset(list) == multiset(StoriesAt(stories, done))
        decreases remaining
      {
        var id :| id in remaining;
        var story := stories[id];
        StoriesAtAdd(stories, done, id);
        MultisetOfFreshAdd(StoriesAt(stories, done), story);
        InsertKeepsNewestFirst(list, story);
        list := InsertNewestFirst(list, story);
        remaining := remaining - {id};
        done := done + {id};
      }
      StoriesAtAll(stories);
    }
  }
}
