// listPostsForHashtag: the posts under a hashtag, ranked by latest tag time, filtered
// in chunks of forty and paged.
module HashtagFeed {
  import opened Base
  import opened HashtagUtil
  import opened HashtagIndex
  import opened SocialState
  import opened Privacy

  /** A row the tag query returns: a post and the time of its tag. */
  datatype TagHit = TagHit(post: PostId, at: int)

  const MAX_TAG_ROWS := 6000
  const CHUNK_SIZE := 40
  const MAX_PAGE := 10000
  const MAX_LIMIT := 50
  const DEFAULT_LIMIT := 20

  // ----- Latest activity -----

  /** The latest time of a post, at least 0: the loop compares with `?? 0`. */
  function Latest(hits: seq<TagHit>, post: PostId): (t: int)
    ensures t >= 0
    ensures forall h :: h in hits && h.post == post ==> h.at <= t
    ensures t > 0 ==> TagHit(post, t) in hits
  {
    if hits == [] then 0
    else
      var before, h := Latest(hits[..|hits| - 1], post), hits[|hits| - 1];
      assert hits == hits[..|hits| - 1] + [h];
      if h.post == post && h.at > before then h.at else before
  }

  ghost predicate DistinctPosts(entries: seq<TagHit>) {
    forall i, j :: 0 <= i < j < |entries| ==> entries[i].post != entries[j].post
  }

  /** One entry per post with a positive latest time, carrying that time. */
  ghost predicate Summarises(entries: seq<TagHit>, hits: seq<TagHit>) {
    && DistinctPosts(entries)
    && (forall e :: e in entries ==> e.at == Latest(hits, e.post) > 0)
    && (forall p: PostId :: Latest(hits, p) > 0 ==> TagHit(p, Latest(hits, p)) in entries)
  }

  function IndexOf(entries: seq<TagHit>, post: PostId): (at: Option<nat>)
    ensures at.Some? ==> at.value < |entries| && entries[at.value].post == post
    ensures at.None? ==> forall e :: e in entries ==> e.post != post
  {
    FirstWhere(entries, (e: TagHit) => e.post == post)
  }

  /** The Map in insertion order: a newer hit updates its entry in place. */
  function Recorded(entries: seq<TagHit>, h: TagHit): seq<TagHit> {
    var known := IndexOf(entries, h.post);
    if h.at <= (if known.Some? then entries[known.value].at else 0) then entries
    else if known.Some? then entries[known.value := h]
    else entries + [h]
  }

  function Summary(hits: seq<TagHit>): seq<TagHit> {
    if hits == [] then [] else Recorded(Summary(hits[..|hits| - 1]), hits[|hits| - 1])
  }

  lemma RecordedHolds(entries: seq<TagHit>, hits: seq<TagHit>, h: TagHit)
    requires Summarises(entries, hits)
    ensures Summarises(Recorded(entries, h), hits + [h])
  {
    var known := IndexOf(entries, h.post);
    RecordedTime(entries, hits, h.post);
    if h.at <= Latest(hits, h.post) {
      OldHit(entries, hits, h);
    } else if known.Some? {
      NewerHit(entries, hits, h, known.value);
    } else {
      FirstHit(entries, hits, h);
    }
  }

  /** The map holds each post with a positive tag time once, with its latest time. */
  lemma {:induction false} SummaryHolds(hits: seq<TagHit>)
    ensures Summarises(Summary(hits), hits)
  {
    if hits == [] {
      NoHits();
    } else {
      var front, h := hits[..|hits| - 1], hits[|hits| - 1];
      SummaryHolds(front);
      RecordedHolds(Summary(front), front, h);
      assert front + [h] == hits;
      assert Summary(hits) == Recorded(Summary(front), h);
    }
  }

  lemma NoHits()
    ensures Summarises([], [])
  {
  }

  lemma {:induction false} SummaryIsShort(hits: seq<TagHit>)
    ensures |Summary(hits)| <= |hits|
  {
    if hits == [] {
    } else {
      SummaryIsShort(hits[..|hits| - 1]);
    }
  }

  method LastActivity(hits: seq<TagHit>) returns (entries: seq<TagHit>)
    ensures entries == Summary(hits)
  {
    entries := [];
    for i := 0 to |hits|
      invariant entries == Summary(hits[..i])
    {
      var h := hits[i];
      assert hits[..i + 1][..i] == hits[..i];
      var known := IndexOf(entries, h.post);
      var cur := if known.Some? then entries[known.value].at else 0;
      if h.at > cur {
        entries := if known.Some? then entries[known.value := h] else entries + [h];
      }
    }
    assert hits[..|hits|] == hits;
  }

  lemma RecordedTime(entries: seq<TagHit>, hits: seq<TagHit>, post: PostId)
    requires Summarises(entries, hits)
    ensures Latest(hits, post) ==
      if IndexOf(entries, post).Some? then entries[IndexOf(entries, post).value].at else 0
  {
    var known := IndexOf(entries, post);
    if known.Some? {
      assert entries[known.value] in entries;
    }
  }

  lemma LatestAfter(hits: seq<TagHit>, h: TagHit, p: PostId)
    ensures Latest(hits + [h], p) == if p == h.post && h.at > Latest(hits, p) then h.at else Latest(hits, p)
  {
    assert (hits + [h])[..|hits|] == hits;
  }

  lemma OldHit(entries: seq<TagHit>, hits: seq<TagHit>, h: TagHit)
    requires Summarises(entries, hits) && h.at <= Latest(hits, h.post)
    ensures Summarises(entries, hits + [h])
  {
    forall p: PostId
      ensures Latest(hits + [h], p) == Latest(hits, p)
    {
      LatestAfter(hits, h, p);
    }
  }

  lemma FirstHit(entries: seq<TagHit>, hits: seq<TagHit>, h: TagHit)
    requires Summarises(entries, hits) && h.at > Latest(hits, h.post)
    requires forall e :: e in entries ==> e.post != h.post
    ensures Summarises(entries + [h], hits + [h])
  {
    forall p: PostId
      ensures Latest(hits + [h], p) == if p == h.post then h.at else Latest(hits, p)
    {
      LatestAfter(hits, h, p);
    }
    assert forall e :: e in entries + [h] <==> e in entries || e == h;
  }

  lemma UpdatedEntries(entries: seq<TagHit>, h: TagHit, n: nat)
    requires DistinctPosts(entries) && n < |entries| && entries[n].post == h.post
    ensures DistinctPosts(entries[n := h])
    ensures forall e :: e in entries[n := h] <==> e == h || (e in entries && e.post != h.post)
  {
    var entries' := entries[n := h];
    forall e | e in entries'
      ensures e == h || (e in entries && e.post != h.post)
    {
      var i :| 0 <= i < |entries'| && entries'[i] == e;
      assert i != n ==> entries[i] in entries;
    }
    forall e | e in entries && e.post != h.post
      ensures e in entries'
    {
      var i :| 0 <= i < |entries| && entries[i] == e;
      assert entries'[i] == e;
    }
    assert entries'[n] == h;
  }

  lemma NewerHit(entries: seq<TagHit>, hits: seq<TagHit>, h: TagHit, n: nat)
    requires Summarises(entries, hits) && h.at > Latest(hits, h.post)
    requires n < |entries| && entries[n].post == h.post
    ensures Summarises(entries[n := h], hits + [h])
  {
    forall p: PostId
      ensures Latest(hits + [h], p) == if p == h.post then h.at else Latest(hits, p)
    {
      LatestAfter(hits, h, p);
    }
    UpdatedEntries(entries, h, n);
  }

  // ----- Ranking -----

  ghost predicate Descending(entries: seq<TagHit>) {
    forall i, j :: 0 <= i < j < |entries| ==> entries[i].at >= entries[j].at
  }

  /** Behind everything at least as recent: the insertion of a stable descending sort. */
  function Insert(sorted: seq<TagHit>, e: TagHit): seq<TagHit> {
    if sorted == [] || sorted[|sorted| - 1].at >= e.at then sorted + [e]
    else Insert(sorted[..|sorted| - 1], e) + [sorted[|sorted| - 1]]
  }

  /** `sort((a, b) => b[1] - a[1])`, which is stable. */
  function SortDescending(entries: seq<TagHit>): seq<TagHit> {
    if entries == [] then [] else Insert(SortDescending(entries[..|entries| - 1]), entries[|entries| - 1])
  }

  lemma {:induction false} InsertHolds(sorted: seq<TagHit>, e: TagHit)
    ensures multiset(Insert(sorted, e)) == multiset(sorted) + multiset{e}
    ensures forall x :: x in Insert(sorted, e) <==> x in sorted || x == e
  {
    if sorted == [] || sorted[|sorted| - 1].at >= e.at {
    } else {
      var front, last := sorted[..|sorted| - 1], sorted[|sorted| - 1];
      InsertHolds(front, e);
      assert sorted == front + [last];
    }
  }

  lemma {:induction false} InsertSorts(sorted: seq<TagHit>, e: TagHit)
    requires Descending(sorted)
    ensures Descending(Insert(sorted, e))
    ensures multiset(Insert(sorted, e)) == multiset(sorted) + multiset{e}
  {
    InsertHolds(sorted, e);
    if sorted == [] || sorted[|sorted| - 1].at >= e.at {
    } else {
      var front, last := sorted[..|sorted| - 1], sorted[|sorted| - 1];
      InsertSorts(front, e);
      InsertHolds(front, e);
      forall i | 0 <= i < |Insert(front, e)|
        ensures Insert(front, e)[i].at >= last.at
      {
        assert Insert(front, e)[i] in Insert(front, e);
      }
    }
  }

  lemma {:induction false} SortSorts(entries: seq<TagHit>)
    ensures Descending(SortDescending(entries))
    ensures multiset(SortDescending(entries)) == multiset(entries)
  {
    if entries == [] {
    } else {
      var front := entries[..|entries| - 1];
      assert entries == front + [entries[|entries| - 1]];
      SortSorts(front);
      InsertSorts(SortDescending(front), entries[|entries| - 1]);
    }
  }

  /** Entries of equal time keep the order they came in. */
  function WithTime(entries: seq<TagHit>, t: int): seq<TagHit> {
    if entries == [] then []
    else
      var rest, e := WithTime(entries[..|entries| - 1], t), entries[|entries| - 1];
      if e.at == t then rest + [e] else rest
  }

  lemma {:induction false} InsertIsStable(sorted: seq<TagHit>, e: TagHit, t: int)
    requires Descending(sorted)
    ensures WithTime(Insert(sorted, e), t) == WithTime(sorted, t) + if e.at == t then [e] else []
  {
    if sorted == [] || sorted[|sorted| - 1].at >= e.at {
      assert (sorted + [e])[..|sorted|] == sorted;
    } else {
      var front, last := sorted[..|sorted| - 1], sorted[|sorted| - 1];
      InsertIsStable(front, e, t);
      assert Insert(sorted, e)[..|Insert(sorted, e)| - 1] == Insert(front, e);
      if e.at == t {
        assert last.at != t;
      }
    }
  }

  lemma {:induction false} SortIsStable(entries: seq<TagHit>, t: int)
    ensures WithTime(SortDescending(entries), t) == WithTime(entries, t)
  {
    if entries == [] {
    } else {
      var front := entries[..|entries| - 1];
      SortIsStable(front, t);
      SortSorts(front);
      InsertIsStable(SortDescending(front), entries[|entries| - 1], t);
    }
  }

  function PostsOf(entries: seq<TagHit>): seq<PostId> {
    seq(|entries|, i requires 0 <= i < |entries| => entries[i].post)
  }

  /** Each post with a positive tag time once, latest first. */
  ghost predicate RankedByLatest(ranked: seq<PostId>, hits: seq<TagHit>) {
    && NoDuplicates(ranked)
    && (forall p: PostId :: p in ranked <==> Latest(hits, p) > 0)
    && (forall i, j :: 0 <= i < j < |ranked| ==> Latest(hits, ranked[i]) >= Latest(hits, ranked[j]))
  }

  lemma SortKeepsDistinct(entries: seq<TagHit>)
    requires DistinctPosts(entries)
    ensures |SortDescending(entries)| == |entries|
    ensures forall e :: e in SortDescending(entries) <==> e in entries
    ensures NoDuplicates(SortDescending(entries))
  {
    var sorted := SortDescending(entries);
    SortSorts(entries);
    assert |multiset(sorted)| == |multiset(entries)|;
    PermutationKeepsElements(sorted, entries);
  }

  lemma SortedPostsDiffer(entries: seq<TagHit>)
    requires DistinctPosts(entries)
    ensures DistinctPosts(SortDescending(entries))
  {
    var sorted := SortDescending(entries);
    SortKeepsDistinct(entries);
    forall i, j | 0 <= i < j < |sorted|
      ensures sorted[i].post != sorted[j].post
    {
      assert sorted[i] in entries && sorted[j] in entries;
      var m :| 0 <= m < |entries| && entries[m] == sorted[i];
      var n :| 0 <= n < |entries| && entries[n] == sorted[j];
      assert m != n;
    }
  }

  lemma SortRanks(entries: seq<TagHit>, hits: seq<TagHit>)
    requires Summarises(entries, hits)
    ensures RankedByLatest(PostsOf(SortDescending(entries)), hits)
    ensures |SortDescending(entries)| == |entries|
  {
    var sorted := SortDescending(entries);
    SortSorts(entries);
    SortKeepsDistinct(entries);
    SortedPostsDiffer(entries);
    RanksOf(sorted, hits);
  }

  lemma RankedIff(sorted: seq<TagHit>, hits: seq<TagHit>, p: PostId)
    requires Summarises(sorted, hits)
    ensures p in PostsOf(sorted) <==> Latest(hits, p) > 0
  {
    if p in PostsOf(sorted) {
      var i :| 0 <= i < |sorted| && PostsOf(sorted)[i] == p;
      assert sorted[i] in sorted;
    }
    if Latest(hits, p) > 0 {
      var i :| 0 <= i < |sorted| && sorted[i] == TagHit(p, Latest(hits, p));
      assert PostsOf(sorted)[i] == p;
    }
  }

  lemma RankedTimes(sorted: seq<TagHit>, hits: seq<TagHit>, i: nat)
    requires Summarises(sorted, hits) && i < |sorted|
    ensures Latest(hits, PostsOf(sorted)[i]) == sorted[i].at
  {
    assert sorted[i] in sorted;
  }

  lemma RanksOf(sorted: seq<TagHit>, hits: seq<TagHit>)
    requires Summarises(sorted, hits) && Descending(sorted)
    ensures RankedByLatest(PostsOf(sorted), hits)
  {
    var ranked := PostsOf(sorted);
    forall p: PostId
      ensures p in ranked <==> Latest(hits, p) > 0
    {
      RankedIff(sorted, hits, p);
    }
    forall i, j | 0 <= i < j < |ranked|
      ensures Latest(hits, ranked[i]) >= Latest(hits, ranked[j])
      ensures ranked[i] != ranked[j]
    {
      RankedTimes(sorted, hits, i);
      RankedTimes(sorted, hits, j);
    }
  }

  // ----- Filtering -----

  predicate EligibleForHashtagFeed(post: Post) {
    if post.groupId.Some? then post.approval == Some(APPROVED) || post.approval == None else true
  }

  /** A signed-in viewer falls under the privacy rule, an anonymous one sees public posts. */
  predicate VisibleTo(connections: seq<Connection>, viewer: Option<UserId>, post: Post) {
    if viewer.GetOr("") != "" then MaySee(connections, viewer.value, post) else post.privacy == PUBLIC
  }

  predicate Listed(posts: seq<Post>, connections: seq<Connection>, viewer: Option<UserId>, p: PostId) {
    p < |posts| && !posts[p].isDeleted && EligibleForHashtagFeed(posts[p]) && VisibleTo(connections, viewer, posts[p])
  }

  /** The simple form: filter the ranked posts one by one. */
  function Filtered(posts: seq<Post>, connections: seq<Connection>, viewer: Option<UserId>,
                    ranked: seq<PostId>): seq<PostId>
  {
    if ranked == [] then []
    else
      var rest, p := Filtered(posts, connections, viewer, ranked[..|ranked| - 1]), ranked[|ranked| - 1];
      if Listed(posts, connections, viewer, p) then rest + [p] else rest
  }

  lemma {:induction false} FilteredHolds(posts: seq<Post>, connections: seq<Connection>, viewer: Option<UserId>,
                                         ranked: seq<PostId>)
    ensures
      var kept := Filtered(posts, connections, viewer, ranked);
      && |kept| <= |ranked|
      && (forall p :: p in kept <==> p in ranked && Listed(posts, connections, viewer, p))
      && (NoDuplicates(ranked) ==> NoDuplicates(kept))
  {
    if ranked == [] {
    } else {
      FilteredHolds(posts, connections, viewer, ranked[..|ranked| - 1]);
      assert ranked == ranked[..|ranked| - 1] + [ranked[|ranked| - 1]];
    }
  }

  /** Whoever is not signed in is shown the public posts, and no others. */
  lemma AnonymousSeesPublic(posts: seq<Post>, connections: seq<Connection>, viewer: Option<UserId>,
                            ranked: seq<PostId>, p: PostId)
    requires viewer == None || viewer == Some("")
    ensures p in Filtered(posts, connections, viewer, ranked) <==>
      && p in ranked && p < |posts| && !posts[p].isDeleted && posts[p].privacy == PUBLIC
      && (posts[p].groupId == None || posts[p].approval == None || posts[p].approval == Some(APPROVED))
  {
    FilteredHolds(posts, connections, viewer, ranked);
  }

  /** Whoever is signed in is shown what opens for them. */
  lemma SignedInSeesWhatOpens(posts: seq<Post>, connections: seq<Connection>, viewer: UserId, ranked: seq<PostId>,
                              p: PostId)
    requires viewer != ""
    ensures p in Filtered(posts, connections, Some(viewer), ranked) <==>
      && p in ranked && OpenPost(posts, connections, p, viewer).Found?
      && (posts[p].groupId == None || posts[p].approval == None || posts[p].approval == Some(APPROVED))
  {
    FilteredHolds(posts, connections, Some(viewer), ranked);
  }

  lemma FilteredOneMore(posts: seq<Post>, connections: seq<Connection>, viewer: Option<UserId>, ranked: seq<PostId>,
                        k: nat)
    requires k < |ranked|
    ensures Filtered(posts, connections, viewer, ranked[..k + 1]) ==
      Filtered(posts, connections, viewer, ranked[..k]) +
      if Listed(posts, connections, viewer, ranked[k]) then [ranked[k]] else []
  {
    assert ranked[..k + 1][..k] == ranked[..k];
  }

  /** The loop over chunks of ids, each fetched by one query. */
  method FilterInChunks(posts: seq<Post>, connections: seq<Connection>, viewer: Option<UserId>, ranked: seq<PostId>)
    returns (visible: seq<PostId>)
    requires NoDuplicates(ranked)
    ensures visible == Filtered(posts, connections, viewer, ranked)
  {
    visible := [];
    var seenPost := {};
    var i := 0;
    while i < |ranked|
      invariant 0 <= i <= |ranked|
      invariant visible == Filtered(posts, connections, viewer, ranked[..i])
      invariant seenPost <= Elements(ranked[..i])
      decreases |ranked| - i
    {
      var next := if i + CHUNK_SIZE <= |ranked| then i + CHUNK_SIZE else |ranked|;
      visible, seenPost := FilterChunk(posts, connections, viewer, ranked, i, next, visible, seenPost);
      i := next;
    }
    assert ranked[..|ranked|] == ranked;
  }

  /** The posts of one chunk that the query found, by id. */
  function PostsById(posts: seq<Post>, chunk: seq<PostId>): map<PostId, Post> {
    map p | p in chunk && p < |posts| && !posts[p].isDeleted :: posts[p]
  }

  lemma PostsByIdHold(posts: seq<Post>, chunk: seq<PostId>, p: PostId)
    requires p in chunk
    ensures p in PostsById(posts, chunk) <==> p < |posts| && !posts[p].isDeleted
    ensures p in PostsById(posts, chunk) ==> PostsById(posts, chunk)[p] == posts[p]
  {
  }

  lemma NotSeenBefore(ranked: seq<PostId>, k: nat, seen: set<PostId>)
    requires k < |ranked| && NoDuplicates(ranked) && seen <= Elements(ranked[..k])
    ensures ranked[k] !in seen
    ensures seen <= Elements(ranked[..k + 1]) && ranked[k] in Elements(ranked[..k + 1])
  {
    assert ranked[..k + 1] == ranked[..k] + [ranked[k]];
  }

  method FilterChunk(posts: seq<Post>, connections: seq<Connection>, viewer: Option<UserId>, ranked: seq<PostId>,
                     from: nat, to: nat, visible: seq<PostId>, seenPost: set<PostId>)
    returns (visible': seq<PostId>, seenPost': set<PostId>)
    requires from <= to <= |ranked| && NoDuplicates(ranked)
    requires visible == Filtered(posts, connections, viewer, ranked[..from])
    requires seenPost <= Elements(ranked[..from])
    ensures visible' == Filtered(posts, connections, viewer, ranked[..to])
    ensures seenPost' <= Elements(ranked[..to])
  {
    var chunk := ranked[from..to];
    var byId := PostsById(posts, chunk);
    visible', seenPost' := visible, seenPost;
    for k := from to to
      invariant visible' == Filtered(posts, connections, viewer, ranked[..k])
      invariant seenPost' <= Elements(ranked[..k])
    {
      var id := ranked[k];
      FilteredOneMore(posts, connections, viewer, ranked, k);
      NotSeenBefore(ranked, k, seenPost');
      assert id == chunk[k - from];
      PostsByIdHold(posts, chunk, id);
      if id !in seenPost' && id in byId && EligibleForHashtagFeed(byId[id]) {
        var see := if viewer.GetOr("") != "" then ViewerMaySeePost(connections, byId[id], viewer.value)
                   else byId[id].privacy == PUBLIC;
        if see {
          seenPost' := seenPost' + {id};
          visible' := visible' + [id];
        }
      }
    }
  }

  // ----- The listing -----

  /** `Math.min(Math.max(Number(page) || 1, 1), 10_000)` */
  function SafePage(page: int): nat {
    if page < 1 then 1 else if page > MAX_PAGE then MAX_PAGE else page
  }

  /** `Math.min(Math.max(Number(limit) || 20, 1), 50)` */
  function SafeLimit(limit: int): nat {
    if limit == 0 then DEFAULT_LIMIT else if limit < 1 then 1 else if limit > MAX_LIMIT then MAX_LIMIT else limit
  }

  /** Pages from 1 to 10000 and limits from 1 to 50 are taken as they are; what lies outside
      is moved to the nearer end, but for a limit of 0, which is none given: 20. */
  lemma PagingIsClamped(page: int, limit: int)
    ensures 1 <= SafePage(page) <= 10000 && 1 <= SafeLimit(limit) <= 50
    ensures 1 <= page <= 10000 ==> SafePage(page) == page
    ensures page < 1 ==> SafePage(page) == 1
    ensures page > 10000 ==> SafePage(page) == 10000
    ensures 1 <= limit <= 50 ==> SafeLimit(limit) == limit
    ensures limit < 0 ==> SafeLimit(limit) == 1
    ensures limit > 50 ==> SafeLimit(limit) == 50
    ensures SafeLimit(0) == 20
  {
  }

  datatype Listing = InvalidHashtag | Listing(data: seq<PostId>, total: nat, page: nat, limit: nat)

  function PageOf(kept: seq<PostId>, page: int, limit: int): Listing {
    var start := (SafePage(page) - 1) * SafeLimit(limit);
    Listing(Slice(kept, start, SafeLimit(limit)), |kept|, SafePage(page), SafeLimit(limit))
  }

  /** The ranking: the map's posts, latest first, ties in the order they were met. */
  function Ranked(hits: seq<TagHit>): seq<PostId> {
    PostsOf(SortDescending(Summary(hits)))
  }

  lemma RankedIsByLatest(hits: seq<TagHit>)
    ensures RankedByLatest(Ranked(hits), hits) && |Ranked(hits)| <= |hits|
  {
    SummaryHolds(hits);
    SummaryIsShort(hits);
    SortRanks(Summary(hits), hits);
  }

  /** Whatever page an anonymous visitor asks for, every post on it is public. */
  lemma AnonymousPagesArePublic(posts: seq<Post>, connections: seq<Connection>, viewer: Option<UserId>,
                                hits: seq<TagHit>, page: int, limit: int, p: PostId)
    requires viewer == None || viewer == Some("")
    requires p in PageOf(Filtered(posts, connections, viewer, Ranked(hits)), page, limit).data
    ensures p < |posts| && !posts[p].isDeleted && posts[p].privacy == PUBLIC
  {
    var kept := Filtered(posts, connections, viewer, Ranked(hits));
    SliceIsPart(kept, (SafePage(page) - 1) * SafeLimit(limit), SafeLimit(limit), p);
    AnonymousSeesPublic(posts, connections, viewer, Ranked(hits), p);
  }

  /** The listing is one slice of the ranked and filtered posts. */
  method ListPostsForHashtag(a: Alphabet, slug: string, viewer: Option<UserId>, posts: seq<Post>,
                             connections: seq<Connection>, hits: seq<TagHit>, page: int, limit: int)
    returns (r: Listing)
    ensures r == if NormalizeHashtagSlug(a, slug) == "" then InvalidHashtag
                 else PageOf(Filtered(posts, connections, viewer, Ranked(hits)), page, limit)
    ensures r.Listing? && viewer.GetOr("") == "" ==>
      forall p :: p in r.data ==> p < |posts| && !posts[p].isDeleted && posts[p].privacy == PUBLIC
  {
    if NormalizeHashtagSlug(a, slug) == "" {
      return InvalidHashtag;
    }
    var entries := LastActivity(hits);
    var rankedIds := PostsOf(SortDescending(entries));
    if rankedIds == [] {
      return Listing([], 0, SafePage(page), SafeLimit(limit));
    }
    RankedIsByLatest(hits);
    var visible := FilterInChunks(posts, connections, viewer, rankedIds);
    r := PageOf(visible, page, limit);
    if viewer.GetOr("") == "" {
      forall p | p in r.data
        ensures p < |posts| && !posts[p].isDeleted && posts[p].privacy == PUBLIC
      {
        AnonymousPagesArePublic(posts, connections, viewer, hits, page, limit, p);
      }
    }
  }

  function PageCount(total: nat, limit: nat): nat
    requires limit > 0
  {
    (total + limit - 1) / limit
  }

  /** The first n pages of the listing, one behind the other. */
  function FirstPages(kept: seq<PostId>, limit: int, n: nat): seq<PostId> {
    if n == 0 then [] else FirstPages(kept, limit, n - 1) + PageOf(kept, n, limit).data
  }

  lemma {:induction false} FirstPagesAreSlices(kept: seq<PostId>, limit: int, n: nat)
    requires n <= MAX_PAGE
    ensures FirstPages(kept, limit, n) == Pages(kept, SafeLimit(limit), n)
  {
    if n == 0 {
    } else {
      FirstPagesAreSlices(kept, limit, n - 1);
    }
  }

  /** All pages together are the whole filtered ranking, each post once; and every page is
      within reach of the page cap, because the tag query is capped too. */
  lemma PagesCoverTheListing(posts: seq<Post>, connections: seq<Connection>, viewer: Option<UserId>,
                             hits: seq<TagHit>, limit: int)
    requires |hits| <= MAX_TAG_ROWS
    ensures
      var kept := Filtered(posts, connections, viewer, Ranked(hits));
      var n := PageCount(|kept|, SafeLimit(limit));
      && FirstPages(kept, limit, n) == kept
      && NoDuplicates(kept)
      && (forall page :: 1 <= page <= n ==> PageOf(kept, page, limit).page == page)
      && (forall page :: PageOf(kept, page, limit).total == |kept|)
  {
    var kept := Filtered(posts, connections, viewer, Ranked(hits));
    var size := SafeLimit(limit);
    var n := PageCount(|kept|, size);
    RankedIsByLatest(hits);
    FilteredHolds(posts, connections, viewer, Ranked(hits));
    CeilingCovers(|kept|, size);
    FirstPagesAreSlices(kept, limit, n);
    PagesAreAPrefix(kept, size, n);
  }

  lemma CeilingCovers(total: nat, size: nat)
    requires size > 0
    ensures PageCount(total, size) * size >= total
    ensures PageCount(total, size) <= total
  {
    var n, m := PageCount(total, size), total + size - 1;
    DivisionBounds(m, size);
    if n > total {
      Product(n, total + 1, size);
      Product(size, 1, total);
    }
  }

  lemma DivisionBounds(m: nat, size: nat)
    requires size > 0
    ensures m - size < (m / size) * size <= m
  {
    assert m == (m / size) * size + m % size;
  }

  lemma Product(x: nat, y: nat, z: nat)
    requires x >= y
    ensures x * z >= y * z
  {
  }

  /** Whatever a signed-in viewer is shown on a page of the listing, opening the post shows too. */
  lemma ListedPostsOpen(posts: seq<Post>, connections: seq<Connection>, viewer: UserId, hits: seq<TagHit>,
                        page: int, limit: int, p: PostId)
    requires viewer != ""
    requires p in PageOf(Filtered(posts, connections, Some(viewer), Ranked(hits)), page, limit).data
    ensures p < |posts| && OpenPost(posts, connections, p, viewer) == Found(posts[p])
  {
    var kept := Filtered(posts, connections, Some(viewer), Ranked(hits));
    SliceIsPart(kept, (SafePage(page) - 1) * SafeLimit(limit), SafeLimit(limit), p);
    FilteredHolds(posts, connections, Some(viewer), Ranked(hits));
  }
}
