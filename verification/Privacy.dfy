// One privacy rule, three implementations: opening a post, filtering the hashtag
// listing, and the query of the news feed.
module Privacy {
  import opened Base
  import opened HashtagIndex
  import opened SocialState

  datatype ConnectionType = FOLLOW | FRIEND | BLOCK
  datatype ConnectionStatus = REQUESTED | ACCEPTED | DECLINED | IN_FORCE

  datatype Connection = Connection(requester: UserId, addressee: UserId, kind: ConnectionType, status: ConnectionStatus)

  // ----- The rule -----

  predicate AreFriends(connections: seq<Connection>, u: UserId, v: UserId) {
    Connection(u, v, FRIEND, ACCEPTED) in connections || Connection(v, u, FRIEND, ACCEPTED) in connections
  }

  predicate Follows(connections: seq<Connection>, u: UserId, v: UserId) {
    Connection(u, v, FOLLOW, IN_FORCE) in connections
  }

  /** Authors see their posts; others see what is public, or shared with a relation they have. */
  predicate MaySee(connections: seq<Connection>, viewer: UserId, post: Post) {
    || post.author == viewer
    || post.privacy == PUBLIC
    || (post.privacy == FRIENDS && AreFriends(connections, viewer, post.author))
    || (post.privacy == FOLLOWERS && Follows(connections, viewer, post.author))
  }

  // ----- Opening a post -----

  datatype Opened = Found(post: Post) | Missing | OnlyMe | FriendsOnly | FollowersOnly

  /** What opening a post answers, by the rule. */
  function OpenPost(posts: seq<Post>, connections: seq<Connection>, id: PostId, viewer: UserId): (r: Opened)
    ensures r.Missing? <==> id >= |posts| || posts[id].isDeleted
    ensures r.Found? <==> id < |posts| && !posts[id].isDeleted && MaySee(connections, viewer, posts[id])
  {
    if id >= |posts| || posts[id].isDeleted then Missing
    else if MaySee(connections, viewer, posts[id]) then Found(posts[id])
    else
      match posts[id].privacy
      case FRIENDS => FriendsOnly
      case FOLLOWERS => FollowersOnly
      case _ => OnlyMe
  }

  method GetPostById(posts: seq<Post>, connections: seq<Connection>, id: PostId, viewer: UserId) returns (r: Opened)
    ensures r == OpenPost(posts, connections, id, viewer)
    ensures r.Missing? <==> id >= |posts| || posts[id].isDeleted
    ensures r.Found? <==> id < |posts| && !posts[id].isDeleted && MaySee(connections, viewer, posts[id])
    ensures r.Found? ==> r.post == posts[id]
    ensures r.OnlyMe? ==> posts[id].privacy == ONLY_ME
    ensures r.FriendsOnly? ==> posts[id].privacy == FRIENDS
    ensures r.FollowersOnly? ==> posts[id].privacy == FOLLOWERS
  {
    if id >= |posts| || posts[id].isDeleted {
      return Missing;
    }
    var post := posts[id];
    if post.author != viewer {
      if post.privacy == ONLY_ME {
        return OnlyMe;
      }
      if post.privacy == FRIENDS {
        if !AreFriends(connections, viewer, post.author) {
          return FriendsOnly;
        }
      }
      if post.privacy == FOLLOWERS {
        if !Follows(connections, viewer, post.author) {
          return FollowersOnly;
        }
      }
    }
    return Found(post);
  }

  /** Opening, spelt out by the post's setting and the rows of the connection table. */
  lemma OpensIff(posts: seq<Post>, connections: seq<Connection>, id: PostId, viewer: UserId)
    requires id < |posts| && !posts[id].isDeleted
    ensures
      var post, r := posts[id], OpenPost(posts, connections, id, viewer);
      var friends := Connection(viewer, post.author, FRIEND, ACCEPTED) in connections
                     || Connection(post.author, viewer, FRIEND, ACCEPTED) in connections;
      var follows := Connection(viewer, post.author, FOLLOW, IN_FORCE) in connections;
      && (post.author == viewer || post.privacy == PUBLIC ==> r == Found(post))
      && (post.author != viewer && post.privacy == ONLY_ME ==> r == OnlyMe)
      && (post.author != viewer && post.privacy == FRIENDS ==> r == if friends then Found(post) else FriendsOnly)
      && (post.author != viewer && post.privacy == FOLLOWERS ==> r == if follows then Found(post) else FollowersOnly)
  {
  }

  // ----- The check of the hashtag listing -----

  function ViewerMaySeePost(connections: seq<Connection>, post: Post, viewer: UserId): (may: bool)
    ensures may <==> MaySee(connections, viewer, post)
  {
    if post.author == viewer then true
    else if post.privacy == PUBLIC then true
    else if post.privacy == ONLY_ME then false
    else if post.privacy == FRIENDS then
      || Connection(viewer, post.author, FRIEND, ACCEPTED) in connections
      || Connection(post.author, viewer, FRIEND, ACCEPTED) in connections
    else if post.privacy == FOLLOWERS then Connection(viewer, post.author, FOLLOW, IN_FORCE) in connections
    else false
  }

  // ----- The news feed -----

  predicate InFeed(connections: seq<Connection>, user: UserId, post: Post) {
    && !post.isDeleted
    && MaySee(connections, user, post)
    && (post.author == user || AreFriends(connections, user, post.author) || Follows(connections, user, post.author))
  }

  /** The feed before paging: latest post first. */
  function Feed(posts: seq<Post>, connections: seq<Connection>, user: UserId): seq<PostId> {
    if posts == [] then []
    else
      var older := Feed(posts[..|posts| - 1], connections, user);
      if InFeed(connections, user, posts[|posts| - 1]) then [|posts| - 1] + older else older
  }

  /** Latest first, and exactly the posts the rule accepts by the user and by those the
      user is a friend of or follows. */
  lemma {:induction false} FeedHoldsExactly(posts: seq<Post>, connections: seq<Connection>, user: UserId)
    ensures forall p: PostId :: p in Feed(posts, connections, user) <==>
      p < |posts| && InFeed(connections, user, posts[p])
    ensures forall i, j :: 0 <= i < j < |Feed(posts, connections, user)| ==>
      Feed(posts, connections, user)[i] > Feed(posts, connections, user)[j]
  {
    if posts == [] {
    } else {
      FeedHoldsExactly(posts[..|posts| - 1], connections, user);
      var older, all := Feed(posts[..|posts| - 1], connections, user), Feed(posts, connections, user);
      forall i, j | 0 <= i < j < |all|
        ensures all[i] > all[j]
      {
        if all != older {
          assert all[j] == older[j - 1] && older[j - 1] in older;
          assert i > 0 ==> all[i] == older[i - 1];
        }
      }
    }
  }

  /** What the feed serves is what opens, by the viewer, a friend, or somebody the viewer
      follows: no stranger's post, and no post that would then be refused. */
  lemma FeedServesIff(posts: seq<Post>, connections: seq<Connection>, user: UserId, p: PostId)
    ensures p in Feed(posts, connections, user) <==>
      && OpenPost(posts, connections, p, user).Found?
      && (|| posts[p].author == user
          || Connection(user, posts[p].author, FRIEND, ACCEPTED) in connections
          || Connection(posts[p].author, user, FRIEND, ACCEPTED) in connections
          || Connection(user, posts[p].author, FOLLOW, IN_FORCE) in connections)
  {
    FeedHoldsExactly(posts, connections, user);
  }

  predicate RelevantTo(c: Connection, user: UserId) {
    || (c.requester == user && c.kind == FOLLOW && c.status == IN_FORCE)
    || (c.requester == user && c.kind == FRIEND && c.status == ACCEPTED)
    || (c.addressee == user && c.kind == FRIEND && c.status == ACCEPTED)
  }

  /** The loop that sorts the user's connections into friends and followed users. */
  method CollectConnections(connections: seq<Connection>, user: UserId)
    returns (friends: set<UserId>, following: set<UserId>)
    ensures forall v :: v in friends <==> AreFriends(connections, user, v)
    ensures forall v :: v in following <==> Follows(connections, user, v)
  {
    friends, following := {}, {};
    for i := 0 to |connections|
      invariant forall v :: v in friends <==> AreFriends(connections[..i], user, v)
      invariant forall v :: v in following <==> Follows(connections[..i], user, v)
    {
      var conn := connections[i];
      assert connections[..i + 1] == connections[..i] + [conn];
      if RelevantTo(conn, user) {
        var target := if conn.requester == user then conn.addressee else conn.requester;
        if conn.kind == FRIEND {
          friends := friends + {target};
        }
        if conn.kind == FOLLOW {
          following := following + {target};
        }
      }
    }
    assert connections[..|connections|] == connections;
  }

  /** The WHERE clause that the query builder puts together. */
  predicate Selected(post: Post, user: UserId, friends: set<UserId>, following: set<UserId>) {
    && !post.isDeleted
    && post.author in {user} + friends + following
    && (|| post.author == user
        || post.privacy == PUBLIC
        || (friends != {} && post.privacy == FRIENDS && post.author in friends)
        || (following != {} && post.privacy == FOLLOWERS && post.author in following))
  }

  /** The database refuses a negative OFFSET or LIMIT. */
  datatype FeedReply = DatabaseError | FeedPage(data: seq<PostId>, total: nat)

  method GetNewsfeed(posts: seq<Post>, connections: seq<Connection>, user: UserId, page: int, limit: int)
    returns (r: FeedReply)
    ensures r.DatabaseError? <==> (page - 1) * limit < 0 || limit < 0
    ensures r.FeedPage? ==> r.total == |Feed(posts, connections, user)|
    ensures r.FeedPage? ==> r.data == Slice(Feed(posts, connections, user), (page - 1) * limit, limit)
  {
    var friends, following := CollectConnections(connections, user);
    var all := [];
    for i := 0 to |posts|
      invariant all == Feed(posts[..i], connections, user)
    {
      assert posts[..i + 1][..i] == posts[..i];
      if Selected(posts[i], user, friends, following) {
        all := [i] + all;
      }
    }
    assert posts[..|posts|] == posts;
    var skip := (page - 1) * limit;
    if skip < 0 || limit < 0 {
      return DatabaseError;
    }
    return FeedPage(Slice(all, skip, limit), |all|);
  }

  // ----- Paging -----

  /** `skip(start).take(count)`, or `slice(start, start + count)`. */
  function Slice<T>(s: seq<T>, start: nat, count: nat): seq<T> {
    var from := if start <= |s| then start else |s|;
    var to := if start + count <= |s| then start + count else |s|;
    s[from..to]
  }

  lemma SliceIsPart<T>(s: seq<T>, start: nat, count: nat, x: T)
    requires x in Slice(s, start, count)
    ensures x in s
  {
  }

  function Pages<T>(s: seq<T>, limit: nat, n: nat): seq<T> {
    if n == 0 then [] else Pages(s, limit, n - 1) + Slice(s, (n - 1) * limit, limit)
  }

  /** The first n pages together are the first n * limit elements: nothing twice, nothing
      skipped, nothing out of order. */
  lemma {:induction false} PagesAreAPrefix<T>(s: seq<T>, limit: nat, n: nat)
    ensures Pages(s, limit, n) == Slice(s, 0, n * limit)
  {
    if n == 0 {
    } else {
      PagesAreAPrefix(s, limit, n - 1);
      assert n * limit == (n - 1) * limit + limit;
    }
  }
}
