// The feeds over the tables that runs of the group and post services reach.
module FeedRuns {
  import opened Base
  import opened HashtagUtil
  import opened HashtagIndex
  import opened SocialState
  import opened GroupInvariants
  import opened GroupExceptions
  import opened Privacy
  import opened HashtagFeed

  // ----- The tag query -----

  /** The rows of a slug, row `i` being created at the time `at(i)`. */
  function HitsOf(rows: seq<TagRow>, slug: string, at: nat -> int): seq<TagHit> {
    if rows == [] then []
    else
      var n := |rows| - 1;
      var rest, r := HitsOf(rows[..n], slug, at), rows[n];
      if r.tagType == HASHTAG && r.targetId == slug then rest + [TagHit(r.postId, at(n))] else rest
  }

  ghost predicate HasHit(hits: seq<TagHit>, p: PostId) {
    exists h :: h in hits && h.post == p
  }

  lemma HasHitSnoc(hits: seq<TagHit>, h: TagHit, p: PostId)
    ensures HasHit(hits + [h], p) <==> HasHit(hits, p) || h.post == p
  {
    assert forall x :: x in hits + [h] <==> x in hits || x == h;
  }

  /** The query returns a row of a post if and only if the index holds the slug for it. */
  lemma {:induction false} HitsMatchIndex(rows: seq<TagRow>, slug: string, at: nat -> int, p: PostId)
    ensures HasHit(HitsOf(rows, slug, at), p) <==> slug in HashtagsOf(rows, p)
  {
    if rows == [] {
    } else {
      var n := |rows| - 1;
      HitsMatchIndex(rows[..n], slug, at, p);
      HasHitSnoc(HitsOf(rows[..n], slug, at), TagHit(rows[n].postId, at(n)), p);
    }
  }

  /** The query in whatever order, cut nowhere, with positive times. */
  ghost predicate Queried(hits: seq<TagHit>, rows: seq<TagRow>, slug: string, at: nat -> int) {
    && (forall h :: h in hits <==> h in HitsOf(rows, slug, at))
    && (forall h :: h in hits ==> h.at > 0)
  }

  lemma RankedIffHit(hits: seq<TagHit>, p: PostId)
    requires forall h :: h in hits ==> h.at > 0
    ensures p in Ranked(hits) <==> HasHit(hits, p)
  {
    RankedIsByLatest(hits);
    if HasHit(hits, p) {
      var h :| h in hits && h.post == p;
      assert h.at <= Latest(hits, p);
    }
    if Latest(hits, p) > 0 {
      assert TagHit(p, Latest(hits, p)) in hits;
    }
  }

  // ----- The listing, end to end -----

  /** In every run the listing of a slug, all its pages together, is exactly the posts whose
      expected hashtags hold the slug and that the viewer may see. */
  lemma ListingIsExact(a: Alphabet, ops: seq<Op>, slug: string, at: nat -> int, hits: seq<TagHit>,
                       connections: seq<Connection>, viewer: Option<UserId>, p: PostId)
    requires Queried(hits, Run(a, EMPTY, ops).tags, slug, at)
    ensures
      var s := Run(a, EMPTY, ops);
      p in Filtered(s.posts, connections, viewer, Ranked(hits)) <==>
        && p < |s.posts| && |s.createdWith| == |s.posts|
        && slug in ExpectedHashtags(a, s, p) && VisibleTo(connections, viewer, s.posts[p])
  {
    var s := Run(a, EMPTY, ops);
    EveryRunKeepsInv(a, ops);
    assert IndexedRight(a, s, p);
    FilteredHolds(s.posts, connections, viewer, Ranked(hits));
    RankedIffHit(hits, p);
    assert HasHit(hits, p) <==> HasHit(HitsOf(s.tags, slug, at), p);
    HitsMatchIndex(s.tags, slug, at, p);
  }

  // ----- Moderation -----

  /** The feed and the post page serve group posts whatever moderation says, the listing only
      those without a group or approved: exactly there the three agree. */
  lemma FeedsAgreeIff(a: Alphabet, ops: seq<Op>, connections: seq<Connection>, viewer: UserId, p: PostId)
    requires viewer != "" && p < |Run(a, EMPTY, ops).posts|
    requires InFeed(connections, viewer, Run(a, EMPTY, ops).posts[p])
    ensures
      var posts := Run(a, EMPTY, ops).posts;
      && p in Feed(posts, connections, viewer)
      && OpenPost(posts, connections, p, viewer) == Found(posts[p])
      && (Listed(posts, connections, Some(viewer), p) <==>
            posts[p].groupId.None? || posts[p].approval == Some(APPROVED))
  {
    EveryRunKeepsInv(a, ops);
    FeedHoldsExactly(Run(a, EMPTY, ops).posts, connections, viewer);
  }

  /** A post that awaits approval, and a friend of its author who may not be in the group. */
  lemma AwaitingPostIsServed(a: Alphabet, u: UserId, v: UserId, name: string, manual: seq<TagLike>)
    requires Trim(a, name) != "" && v != ""
    ensures
      var posts := Run(a, EMPTY, TaggedRun(u, name, manual, true)[..2]).posts;
      var connections := [Connection(u, v, FRIEND, ACCEPTED)];
      && posts == [GroupPost(u, 0, None, AWAITING)]
      && 0 in Feed(posts, connections, v)
      && OpenPost(posts, connections, 0, v) == Found(posts[0])
      && !Listed(posts, connections, Some(v), 0)
  {
    var create, submit := CreateCommunity(u, name, None, Some(true)), CreateGroupPost(u, 0, None, manual);
    var connections := [Connection(u, v, FRIEND, ACCEPTED)];
    assert TaggedRun(u, name, manual, true)[..2] == [create] + [submit];
    RunSnoc(a, EMPTY, [], create);
    RunSnoc(a, EMPTY, [create], submit);
    assert [] + [create] == [create];
    assert Step(a, EMPTY, create) == AddGroup(EMPTY, NewCommunity(a, EMPTY, u, name, None, Some(true)));
    assert connections[0] == Connection(u, v, FRIEND, ACCEPTED);
    FeedsAgreeIff(a, [create] + [submit], connections, v, 0);
  }
}
