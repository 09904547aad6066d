// What becomes of a post, and who gets to open it, after any request to the group and post
// services.
module PostEffects {
  import opened Base
  import opened HashtagUtil
  import opened HashtagIndex
  import opened SocialState
  import opened GroupInvariants
  import opened MembershipEffects
  import opened Privacy

  // ----- The requests that concern one post -----

  /** A moderator's decision on a waiting post of the group. */
  predicate Decides(s: State, actor: UserId, g: GroupId, p: PostId) {
    && MayModerate(s, g, actor)
    && p < |s.posts| && s.posts[p].groupId == Some(g) && s.posts[p].approval == Some(AWAITING) && !s.posts[p].isDeleted
  }

  predicate Admits(s: State, op: Op, p: PostId) {
    op.ApproveGroupPost? && op.post == p && Decides(s, op.actor, op.group, p)
  }

  predicate Refuses(s: State, op: Op, p: PostId) {
    op.RejectGroupPost? && op.post == p && Decides(s, op.actor, op.group, p)
  }

  predicate Deletes(s: State, op: Op, p: PostId) {
    op.DeletePost? && op.post == p && p < |s.posts| && s.posts[p].author == op.author
  }

  predicate Shares(s: State, op: Op, p: PostId) {
    op.Repost? && op.post == p && p < |s.posts| && !s.posts[p].isDeleted
  }

  /** An active member posts in an open group. */
  predicate Submits(s: State, op: Op) {
    && op.CreateGroupPost? && op.group < |s.groups| && !s.groups[op.group].isArchived
    && HasStatus(s, (op.group, op.author), ACTIVE)
  }

  // ----- One post after one request -----

  /** A post keeps its author, content, privacy, group and original for ever. Moderators
      decide on it while it waits, its author alone deletes it, and reposts count. */
  ghost predicate PostAfter(s: State, op: Op, p: PostId, q: Post)
    requires p < |s.posts|
  {
    q == s.posts[p].(
      approval := if Admits(s, op, p) then Some(APPROVED)
                  else if Refuses(s, op, p) then Some(REJECTED) else s.posts[p].approval,
      isDeleted := s.posts[p].isDeleted || Deletes(s, op, p),
      shareCount := s.posts[p].shareCount + if Shares(s, op, p) then 1 else 0)
  }

  lemma PostAfterSubmission(a: Alphabet, s: State, op: Op, p: PostId)
    requires op.CreateGroupPost? && p < |s.posts|
    ensures
      var s' := SubmitGroupPost(a, s, op.author, op.group, op.content, op.manual).0;
      p < |s'.posts| && PostAfter(s, op, p, s'.posts[p])
  {
  }

  lemma PostAfterApproval(a: Alphabet, s: State, op: Op, p: PostId)
    requires op.ApproveGroupPost? && p < |s.posts|
    ensures
      var s' := Accept(a, s, op.actor, op.group, op.post).0;
      p < |s'.posts| && PostAfter(s, op, p, s'.posts[p])
  {
  }

  lemma PostAfterRejection(s: State, op: Op, p: PostId)
    requires op.RejectGroupPost? && p < |s.posts|
    ensures
      var s' := Reject(s, op.actor, op.group, op.post).0;
      p < |s'.posts| && PostAfter(s, op, p, s'.posts[p])
  {
  }

  lemma PostAfterDeletion(s: State, op: Op, p: PostId)
    requires op.DeletePost? && p < |s.posts|
    ensures
      var s' := Delete(s, op.post, op.author).0;
      p < |s'.posts| && PostAfter(s, op, p, s'.posts[p])
  {
  }

  lemma PostAfterRepost(s: State, op: Op, p: PostId)
    requires op.Repost? && p < |s.posts|
    ensures
      var s' := Share(s, op.post, op.author).0;
      p < |s'.posts| && PostAfter(s, op, p, s'.posts[p])
  {
  }

  lemma StepLeavesPost(a: Alphabet, s: State, op: Op, p: PostId)
    requires p < |s.posts|
    ensures p < |Step(a, s, op).posts| && PostAfter(s, op, p, Step(a, s, op).posts[p])
  {
    if IsMembershipOp(op) {
      MembershipKeepsPosts(a, s, op);
    } else {
      match op
      case CreateGroupPost(_, _, _, _) => PostAfterSubmission(a, s, op, p);
      case ApproveGroupPost(_, _, _) => PostAfterApproval(a, s, op, p);
      case RejectGroupPost(_, _, _) => PostAfterRejection(s, op, p);
      case CreatePost(_, _, _, _) =>
      case DeletePost(_, _) => PostAfterDeletion(s, op, p);
      case Repost(_, _) => PostAfterRepost(s, op, p);
    }
  }

  // ----- New posts -----

  predicate Posts(s: State, op: Op) {
    op.CreatePost? || Submits(s, op) || (op.Repost? && Shares(s, op, op.post))
  }

  /** The new post is its author's, with the content sent, in the group it was sent to, where
      it waits if that group moderates; a repost has no content but its original. */
  ghost predicate NewPost(s: State, op: Op, q: Post)
    requires Posts(s, op)
  {
    && q.author == op.author && !q.isDeleted && q.shareCount == 0
    && q.content == (if op.Repost? then None else op.content)
    && q.originalPost == (if op.Repost? then Some(op.post) else None)
    && q.groupId == (if op.CreateGroupPost? then Some(op.group) else None)
    && q.approval == (if !op.CreateGroupPost? then None
                      else if s.groups[op.group].requiresPostApproval then Some(AWAITING) else Some(APPROVED))
  }

  lemma SubmissionAddsIff(a: Alphabet, s: State, op: Op)
    requires op.CreateGroupPost?
    ensures
      var posts := SubmitGroupPost(a, s, op.author, op.group, op.content, op.manual).0.posts;
      if Submits(s, op) then |posts| == |s.posts| + 1 && NewPost(s, op, posts[|s.posts|]) else posts == s.posts
  {
  }

  lemma RepostAddsIff(s: State, op: Op)
    requires op.Repost?
    ensures
      var posts := Share(s, op.post, op.author).0.posts;
      if Shares(s, op, op.post) then |posts| == |s.posts| + 1 && NewPost(s, op, posts[|s.posts|]) else posts == s.posts
  {
  }

  lemma StepAddsPostIff(a: Alphabet, s: State, op: Op)
    ensures |Step(a, s, op).posts| == |s.posts| + if Posts(s, op) then 1 else 0
    ensures Posts(s, op) ==> NewPost(s, op, Step(a, s, op).posts[|s.posts|])
  {
    if IsMembershipOp(op) {
      MembershipKeepsPosts(a, s, op);
    } else if op.CreateGroupPost? {
      SubmissionAddsIff(a, s, op);
    } else if op.Repost? {
      RepostAddsIff(s, op);
    }
  }

  // ----- Who opens it -----

  /** A new post opens for its author, and for others as the request asked: everybody if it
      asked for PUBLIC or nothing, friends for FRIENDS, followers for FOLLOWERS. Group posts
      and reposts open for everybody. */
  lemma NewPostOpensIff(a: Alphabet, s: State, op: Op, connections: seq<Connection>, viewer: UserId)
    requires Posts(s, op)
    ensures
      var privacy := if op.CreatePost? then op.postPrivacy else None;
      OpenPost(Step(a, s, op).posts, connections, |s.posts|, viewer).Found? <==>
      || viewer == op.author
      || privacy == None || privacy == Some(PUBLIC)
      || (privacy == Some(FRIENDS) &&
            (Connection(viewer, op.author, FRIEND, ACCEPTED) in connections
             || Connection(op.author, viewer, FRIEND, ACCEPTED) in connections))
      || (privacy == Some(FOLLOWERS) && Connection(viewer, op.author, FOLLOW, IN_FORCE) in connections)
  {
    StepAddsPostIff(a, s, op);
    NewPostPrivacy(a, s, op);
  }

  lemma NewPostPrivacy(a: Alphabet, s: State, op: Op)
    requires Posts(s, op)
    ensures |s.posts| < |Step(a, s, op).posts|
    ensures Step(a, s, op).posts[|s.posts|].privacy == if op.CreatePost? then op.postPrivacy.GetOr(PUBLIC) else PUBLIC
  {
    StepAddsPostIff(a, s, op);
    match op
    case CreateGroupPost(_, _, _, _) =>
    case CreatePost(_, _, _, _) =>
    case Repost(_, _) =>
  }

  /** A post goes on opening for whom it did, until its author deletes it: then for nobody. */
  lemma OpeningAfter(a: Alphabet, s: State, op: Op, connections: seq<Connection>, viewer: UserId, p: PostId)
    requires p < |s.posts|
    ensures OpenPost(Step(a, s, op).posts, connections, p, viewer).Found? <==>
      OpenPost(s.posts, connections, p, viewer).Found? && !Deletes(s, op, p)
    ensures Deletes(s, op, p) ==> OpenPost(Step(a, s, op).posts, connections, p, viewer) == Missing
  {
    StepLeavesPost(a, s, op, p);
  }

  // ----- What the answer says -----

  lemma SubmissionAnswers(a: Alphabet, s: State, op: Op)
    requires op.CreateGroupPost?
    ensures
      var reply := SubmitGroupPost(a, s, op.author, op.group, op.content, op.manual).1;
      && (reply == Done <==> Submits(s, op))
      && (reply == NotFound <==> op.group >= |s.groups| || s.groups[op.group].isArchived)
      && (reply == Done || reply == NotFound || reply == Forbidden)
  {
  }

  lemma DecisionAnswers(a: Alphabet, s: State, actor: UserId, g: GroupId, p: PostId)
    ensures Accept(a, s, actor, g, p).1 == Reject(s, actor, g, p).1 ==
      if !MayModerate(s, g, actor) then Forbidden else if Decides(s, actor, g, p) then Done else NotFound
  {
  }

  lemma OwnPostAnswers(s: State, p: PostId, author: UserId)
    ensures Delete(s, p, author).1 == if Deletes(s, DeletePost(p, author), p) then Done else NotFound
    ensures Share(s, p, author).1 == if Shares(s, Repost(p, author), p) then Done else NotFound
  {
  }

  // ----- Tagged users and places -----

  lemma {:induction false} RowsKept(rows: seq<TagRow>, post: PostId, r: TagRow)
    ensures r in WithoutHashtags(rows, post) <==> r in rows && !(r.postId == post && r.tagType == HASHTAG)
    ensures r in WithoutPost(rows, post) <==> r in rows && r.postId != post
  {
    if rows == [] {
    } else {
      RowsKept(rows[..|rows| - 1], post, r);
      assert rows == rows[..|rows| - 1] + [rows[|rows| - 1]];
    }
  }

  /** The row that a tag of the request becomes. */
  ghost predicate RowOfTag(r: TagRow, post: PostId, t: TagLike) {
    && r.postId == post && r.tagType == t.tagType
    && r.targetId == (if t.targetId.Some? then t.targetId.value else "")
    && r.targetName == (if t.targetName.Some? then t.targetName.value else "")
  }

  lemma {:induction false} OtherRowsHold(post: PostId, manual: seq<TagLike>, r: TagRow)
    requires r.tagType != HASHTAG
    ensures r in OtherTagRows(post, manual) <==> exists t :: t in manual && RowOfTag(r, post, t)
  {
    if manual == [] {
    } else {
      var front, last := manual[..|manual| - 1], manual[|manual| - 1];
      OtherRowsHold(post, front, r);
      assert manual == front + [last];
      assert RowOfTag(r, post, last) <==>
        r == TagRow(post, last.tagType, last.targetId.GetOr(""), last.targetName.GetOr(""));
      assert (exists t :: t in manual && RowOfTag(r, post, t)) <==>
        (exists t :: t in front && RowOfTag(r, post, t)) || RowOfTag(r, post, last);
    }
  }

  lemma ReindexKeepsOthers(a: Alphabet, rows: seq<TagRow>, post: PostId, content: Option<string>, manual: seq<TagLike>,
                           r: TagRow)
    requires r.tagType != HASHTAG
    ensures r in Reindexed(a, rows, post, content, manual) <==> r in rows
  {
    RowsKept(rows, post, r);
  }

  lemma OtherTagsAfterGroupPost(a: Alphabet, s: State, op: Op, r: TagRow)
    requires r.tagType != HASHTAG && (op.CreateGroupPost? || op.ApproveGroupPost?)
    ensures r in Step(a, s, op).tags <==> r in s.tags
  {
    if op.CreateGroupPost? {
      ReindexKeepsOthers(a, s.tags, |s.posts|, op.content, op.manual, r);
    } else if op.post < |s.posts| {
      ReindexKeepsOthers(a, s.tags, op.post, s.posts[op.post].content, [], r);
    }
  }

  /** The rows of tagged users and places: those of the tags that createPost is given, kept
      until the author deletes the post, and changed by no other request. */
  lemma OtherTagsAfter(a: Alphabet, s: State, op: Op, r: TagRow)
    requires r.tagType != HASHTAG
    ensures r in Step(a, s, op).tags <==>
      || (r in s.tags && !Deletes(s, op, r.postId))
      || (op.CreatePost? && exists t :: t in op.manual && RowOfTag(r, |s.posts|, t))
  {
    if IsMembershipOp(op) {
      MembershipKeepsPosts(a, s, op);
    } else {
      match op
      case CreateGroupPost(_, _, _, _) => OtherTagsAfterGroupPost(a, s, op, r);
      case ApproveGroupPost(_, _, _) => OtherTagsAfterGroupPost(a, s, op, r);
      case RejectGroupPost(_, _, _) =>
      case CreatePost(_, content, _, manual) =>
        OtherRowsHold(|s.posts|, manual, r);
        ReindexKeepsOthers(a, s.tags + OtherTagRows(|s.posts|, manual), |s.posts|, content, manual, r);
      case DeletePost(p, _) => RowsKept(s.tags, p, r);
      case Repost(_, _) =>
    }
  }
}
