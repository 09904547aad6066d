// Where the group service does less, or more, than its answers and documentation suggest:
// the refusal that is not atomic, the removal of oneself, and the tags that moderation loses.
module GroupExceptions {
  import opened Base
  import opened HashtagUtil
  import opened HashtagIndex
  import opened SocialState
  import opened GroupInvariants

  lemma RunSnoc(a: Alphabet, s: State, ops: seq<Op>, op: Op)
    ensures Run(a, s, ops + [op]) == Step(a, Run(a, s, ops), op)
  {
    assert (ops + [op])[..|ops|] == ops;
  }

  // ----- Refusals -----

  predicate IsRefusal(r: Reply) {
    r == BadRequest || r == Forbidden || r == NotFound
  }

  /** The approval has passed its own guards, and writes. */
  predicate AdmitsPending(s: State, op: Op) {
    && op.ApproveMember?
    && ActiveModerator(s, op.group, op.actor)
    && (op.group, op.target) in s.members && s.members[(op.group, op.target)].status == PENDING
  }

  /** A refused request has changed nothing, except exactly for a moderator's approval of a
      pending row. */
  lemma RefusalIsAtomicIff(a: Alphabet, s: State, op: Op)
    requires IsRefusal(Apply(a, s, op).1)
    ensures Step(a, s, op) == s <==> !AdmitsPending(s, op)
  {
    if AdmitsPending(s, op) {
      var k := (op.group, op.target);
      assert Step(a, s, op).members[k].status == ACTIVE;
    }
  }

  /** Such an approval is refused, with its writes done, exactly when the group is archived. */
  lemma ApprovalThrowsIff(a: Alphabet, s: State, op: Op)
    requires OneOwner(s) && AdmitsPending(s, op)
    ensures op.group < |s.groups|
    ensures IsRefusal(Apply(a, s, op).1) <==> s.groups[op.group].isArchived
    ensures IsActive(Step(a, s, op), (op.group, op.target))
  {
  }

  /** A private group that is archived while a request to join waits. */
  function ArchivedRun(u: UserId, v: UserId, name: string): seq<Op> {
    [CreateCommunity(u, name, Some(PRIVATE_GROUP), None)] + [JoinGroup(0, v)] + [SetArchived(0, true)]
  }

  lemma JoinedAndArchived(a: Alphabet, u: UserId, v: UserId, name: string)
    requires Trim(a, name) != "" && u != v
    ensures
      var s := Run(a, EMPTY, ArchivedRun(u, v, name));
      && s.members == map[(0, u) := Member(OWNER, ACTIVE), (0, v) := Member(MEMBER, PENDING)]
      && |s.groups| == 1 && s.groups[0].isArchived
  {
    var create := CreateCommunity(u, name, Some(PRIVATE_GROUP), None);
    var s1 := AddGroup(EMPTY, NewCommunity(a, EMPTY, u, name, Some(PRIVATE_GROUP), None));
    var s2 := SetMember(s1, 0, v, Member(MEMBER, PENDING));
    RunSnoc(a, EMPTY, [], create);
    RunSnoc(a, EMPTY, [create], JoinGroup(0, v));
    RunSnoc(a, EMPTY, [create] + [JoinGroup(0, v)], SetArchived(0, true));
    assert [] + [create] == [create];
    assert Step(a, EMPTY, create) == s1;
    assert Step(a, s1, JoinGroup(0, v)) == s2;
    assert Step(a, s2, SetArchived(0, true)) == Archive(s2, 0, true);
  }

  /** The exception is reachable: the answer is NotFound, and the row has become active. */
  lemma ArchivedApprovalWrites(a: Alphabet, u: UserId, v: UserId, name: string)
    requires Trim(a, name) != "" && u != v
    ensures
      var s, op := Run(a, EMPTY, ArchivedRun(u, v, name)), ApproveMember(u, 0, v);
      && Apply(a, s, op).1 == NotFound
      && !IsActive(s, (0, v)) && IsActive(Step(a, s, op), (0, v))
      && |s.groups| == |Step(a, s, op).groups| == 1
      && Step(a, s, op).groups[0].memberCount == s.groups[0].memberCount + 1
  {
    JoinedAndArchived(a, u, v, name);
  }

  // ----- Removing oneself -----

  /** Whoever has a row, and is not the owner, may remove themselves: that bans them, and
      whatever happens later no request to join, and no approval, lets them in again. */
  lemma SelfRemovalBans(a: Alphabet, s: State, g: GroupId, u: UserId, later: seq<Op>, moderator: UserId)
    requires OneOwner(s) && (g, u) in s.members && s.members[(g, u)].role != OWNER
    ensures Apply(a, s, RemoveMember(u, g, u)).1 == Done
    ensures
      var s' := Run(a, Step(a, s, RemoveMember(u, g, u)), later);
      && g < |s'.groups|
      && Apply(a, s', JoinGroup(g, u)) == (s', if s'.groups[g].isArchived then NotFound else Forbidden)
      && Apply(a, s', ApproveMember(moderator, g, u)) ==
        (s', if ActiveModerator(s', g, moderator) then NotFound else Forbidden)
  {
    BannedIsTerminal(a, Step(a, s, RemoveMember(u, g, u)), later, (g, u));
  }

  // ----- Manual tags -----

  /** The step that makes a waiting post public. */
  predicate Approves(s: State, op: Op, p: PostId) {
    && op.ApproveGroupPost? && op.post == p
    && ActiveModerator(s, op.group, op.actor) && PendingPost(s, op.group, p)
  }

  lemma ApprovedLaterAfter(a: Alphabet, s: State, op: Op, p: PostId)
    ensures p in Step(a, s, op).approvedLater <==> p in s.approvedLater || Approves(s, op, p)
  {
    if IsMembershipOp(op) {
      MembershipKeepsPosts(a, s, op);
    }
  }

  /** Some step of the run approved the post. */
  ghost predicate WasApproved(a: Alphabet, ops: seq<Op>, p: PostId) {
    exists i :: 0 <= i < |ops| && Approves(Run(a, EMPTY, ops[..i]), ops[i], p)
  }

  lemma {:induction false} ApprovedLaterIff(a: Alphabet, ops: seq<Op>, p: PostId)
    ensures p in Run(a, EMPTY, ops).approvedLater <==> WasApproved(a, ops, p)
  {
    if ops == [] {
    } else {
      var n := |ops| - 1;
      var front := ops[..n];
      ApprovedLaterIff(a, front, p);
      ApprovedLaterAfter(a, Run(a, EMPTY, front), ops[n], p);
      forall i | 0 <= i < n
        ensures front[..i] == ops[..i]
      {
      }
      if WasApproved(a, front, p) {
        var i :| 0 <= i < n && Approves(Run(a, EMPTY, front[..i]), front[i], p);
        assert Approves(Run(a, EMPTY, ops[..i]), ops[i], p);
      }
      if WasApproved(a, ops, p) {
        var i :| 0 <= i <= n && Approves(Run(a, EMPTY, ops[..i]), ops[i], p);
        if i < n {
          assert Approves(Run(a, EMPTY, front[..i]), front[i], p);
        }
      }
    }
  }

  /** A manual tag of a public post is indexed if and only if no moderator had to approve
      the post, or the content yields the same slug. */
  lemma ManualTagKeptIff(a: Alphabet, ops: seq<Op>, p: PostId, slug: string)
    requires p < |Run(a, EMPTY, ops).posts| && p < |Run(a, EMPTY, ops).createdWith|
    requires Indexable(Run(a, EMPTY, ops).posts[p])
    requires slug in ManualHashtags(a, Run(a, EMPTY, ops).createdWith[p])
    ensures
      var s := Run(a, EMPTY, ops);
      slug in HashtagsOf(s.tags, p) <==>
        !WasApproved(a, ops, p) || slug in ContentHashtags(a, s.posts[p].content.GetOr(""))
  {
    var s := Run(a, EMPTY, ops);
    EveryRunKeepsInv(a, ops);
    assert IndexedRight(a, s, p);
    ApprovedLaterIff(a, ops, p);
    MergedHashtagsHold(a, s.posts[p].content, s.createdWith[p], slug);
    MergedHashtagsHold(a, s.posts[p].content, [], slug);
    assert ManualWords(a, []) == [];
  }

  /** One post with tags and no content, in a group with or without moderation. */
  function TaggedRun(u: UserId, name: string, manual: seq<TagLike>, moderated: bool): seq<Op> {
    [CreateCommunity(u, name, None, Some(moderated))] + [CreateGroupPost(u, 0, None, manual)]
    + [ApproveGroupPost(u, 0, 0)]
  }

  lemma TaggedPost(a: Alphabet, u: UserId, name: string, manual: seq<TagLike>, moderated: bool)
    requires Trim(a, name) != ""
    ensures
      var s := Run(a, EMPTY, TaggedRun(u, name, manual, moderated));
      && s.posts == [GroupPost(u, 0, None, APPROVED)] && s.createdWith == [manual]
      && (0 in s.approvedLater <==> moderated)
  {
    var create, submit := CreateCommunity(u, name, None, Some(moderated)), CreateGroupPost(u, 0, None, manual);
    var s1 := AddGroup(EMPTY, NewCommunity(a, EMPTY, u, name, None, Some(moderated)));
    RunSnoc(a, EMPTY, [], create);
    RunSnoc(a, EMPTY, [create], submit);
    RunSnoc(a, EMPTY, [create] + [submit], ApproveGroupPost(u, 0, 0));
    assert [] + [create] == [create];
    assert Step(a, EMPTY, create) == s1;
    TaggedSteps(a, s1, u, manual, moderated);
  }

  lemma TaggedSteps(a: Alphabet, s1: State, u: UserId, manual: seq<TagLike>, moderated: bool)
    requires s1.posts == [] && s1.createdWith == [] && s1.approvedLater == {}
    requires |s1.groups| == 1 && !s1.groups[0].isArchived && s1.groups[0].requiresPostApproval == moderated
    requires s1.members == map[(0, u) := Member(OWNER, ACTIVE)]
    ensures
      var s2 := Step(a, s1, CreateGroupPost(u, 0, None, manual));
      var s3 := Step(a, s2, ApproveGroupPost(u, 0, 0));
      && s3.posts == [GroupPost(u, 0, None, APPROVED)] && s3.createdWith == [manual]
      && (0 in s3.approvedLater <==> moderated)
  {
  }

  /** The same post and tag: indexed in a group without moderation, lost in one with it. */
  lemma ModerationLosesTags(a: Alphabet, u: UserId, name: string, manual: seq<TagLike>, slug: string)
    requires Trim(a, name) != "" && slug in ManualHashtags(a, manual)
    ensures slug in HashtagsOf(Run(a, EMPTY, TaggedRun(u, name, manual, false)).tags, 0)
    ensures slug !in HashtagsOf(Run(a, EMPTY, TaggedRun(u, name, manual, true)).tags, 0)
  {
    TaggedPost(a, u, name, manual, false);
    TaggedPost(a, u, name, manual, true);
    ApprovedLaterIff(a, TaggedRun(u, name, manual, false), 0);
    ApprovedLaterIff(a, TaggedRun(u, name, manual, true), 0);
    ManualTagKeptIff(a, TaggedRun(u, name, manual, false), 0, slug);
    ManualTagKeptIff(a, TaggedRun(u, name, manual, true), 0, slug);
    assert TagWords(a, "", 0) == [];
    assert ContentHashtags(a, "") == [];
  }

  /** Letters of one case, a blank, and nothing to fold. */
  function PlainAlphabet(): Alphabet {
    Alphabet((c: char) => 'a' <= c <= 'z', (c: char) => c == ' ', (s: string) => s, (s: string) => s)
  }

  lemma PlainLetter(c: char)
    requires 'a' <= c <= 'z'
    ensures Trim(PlainAlphabet(), [c]) == [c]
    ensures NormalizeHashtagSlug(PlainAlphabet(), [c]) == [c]
  {
  }

  /** Such tags exist: over plain letters every letter is the slug of the tag that it makes. */
  lemma TagHasSlug(c: char)
    requires 'a' <= c <= 'z'
    ensures Proper(PlainAlphabet()) && Trim(PlainAlphabet(), [c]) != ""
    ensures [c] in ManualHashtags(PlainAlphabet(), [TagLike(Some([c]), None, HASHTAG)])
  {
    var tag := TagLike(Some([c]), None, HASHTAG);
    PlainLetter(c);
    assert tag in [tag] && ManualRaw(PlainAlphabet(), tag) == [c];
    ManualHashtagFoundIff(PlainAlphabet(), [tag], [c]);
  }
}
