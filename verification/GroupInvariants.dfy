// What every run of the group and post services keeps.
module GroupInvariants {
  import opened Base
  import opened HashtagUtil
  import opened HashtagIndex
  import opened SocialState

  // ----- Members -----

  ghost function ActiveRows(members: map<(GroupId, UserId), Member>, g: GroupId): set<(GroupId, UserId)> {
    set k | k in members && k.0 == g && members[k].status == ACTIVE
  }

  ghost predicate MembersCounted(s: State) {
    forall g :: 0 <= g < |s.groups| ==> s.groups[g].memberCount == |ActiveRows(s.members, g)|
  }

  /** Exactly one OWNER row per group: the creator's, and it is active. */
  ghost predicate OneOwner(s: State) {
    && (forall k :: k in s.members ==> k.0 < |s.groups|)
    && (forall g: GroupId :: g < |s.groups| ==>
          (g, s.groups[g].createdBy) in s.members && s.members[(g, s.groups[g].createdBy)] == Member(OWNER, ACTIVE))
    && (forall k :: k in s.members && s.members[k].role == OWNER ==> k.1 == s.groups[k.0].createdBy)
  }

  lemma SettingActive(members: map<(GroupId, UserId), Member>, k: (GroupId, UserId), m: Member)
    requires m.status == ACTIVE
    ensures ActiveRows(members[k := m], k.0) == ActiveRows(members, k.0) + {k}
  {
  }

  lemma SettingOther(members: map<(GroupId, UserId), Member>, k: (GroupId, UserId), m: Member, g: GroupId)
    requires k.0 != g || m.status != ACTIVE
    ensures ActiveRows(members[k := m], g) == ActiveRows(members, g) - {k}
  {
  }

  lemma ActiveRowsAfterSet(members: map<(GroupId, UserId), Member>, k: (GroupId, UserId), m: Member, g: GroupId)
    ensures
      var was := k in members && members[k].status == ACTIVE;
      |ActiveRows(members[k := m], g)| == |ActiveRows(members, g)|
        + (if k.0 == g && m.status == ACTIVE && !was then 1 else 0)
        - (if k.0 == g && m.status != ACTIVE && was then 1 else 0)
  {
    if k.0 == g && m.status == ACTIVE {
      SettingActive(members, k, m);
    } else {
      SettingOther(members, k, m, g);
    }
  }

  lemma ActiveRowsAfterRemoval(members: map<(GroupId, UserId), Member>, k: (GroupId, UserId), g: GroupId)
    requires k in members && members[k].status == ACTIVE
    ensures |ActiveRows(members - {k}, g)| == |ActiveRows(members, g)| - if k.0 == g then 1 else 0
  {
    assert ActiveRows(members - {k}, g) == ActiveRows(members, g) - {k};
  }

  lemma StepKeepsMembersCounted(a: Alphabet, s: State, op: Op)
    requires MembersCounted(s) && OneOwner(s)
    ensures MembersCounted(Step(a, s, op))
  {
    if IsMembershipOp(op) {
      MembershipCounts(a, s, op);
    } else {
      PostingKeepsMembers(a, s, op);
    }
  }

  /** Equal but for post_count. */
  predicate SameButPosts(g: Group, g': Group) {
    g'.(postCount := g.postCount) == g
  }

  ghost predicate LeavesMembers(s: State, s': State) {
    && s'.members == s.members && |s'.groups| == |s.groups|
    && forall g: GroupId :: g < |s.groups| ==> SameButPosts(s.groups[g], s'.groups[g])
  }

  lemma SubmitKeepsMembers(a: Alphabet, s: State, author: UserId, g: GroupId, content: Option<string>,
                           manual: seq<TagLike>)
    ensures LeavesMembers(s, SubmitGroupPost(a, s, author, g, content, manual).0)
  {
  }

  lemma AcceptKeepsMembers(a: Alphabet, s: State, actor: UserId, g: GroupId, p: PostId)
    ensures LeavesMembers(s, Accept(a, s, actor, g, p).0)
  {
  }

  lemma PostingKeepsMembers(a: Alphabet, s: State, op: Op)
    requires !IsMembershipOp(op)
    ensures LeavesMembers(s, Step(a, s, op))
  {
    match op
    case CreateGroupPost(author, g, content, manual) => SubmitKeepsMembers(a, s, author, g, content, manual);
    case ApproveGroupPost(actor, g, p) => AcceptKeepsMembers(a, s, actor, g, p);
    case RejectGroupPost(actor, g, p) =>
    case CreatePost(author, content, privacy, manual) =>
    case DeletePost(p, author) =>
    case Repost(p, author) =>
  }

  /** Equal but for the two columns that membership operations and archiving write. */
  predicate SameButCount(g: Group, g': Group) {
    g'.(memberCount := g.memberCount, isArchived := g.isArchived) == g
  }

  /** No post changes, and no group but by those columns; there may be one group more. */
  ghost predicate LeavesPosts(s: State, s': State) {
    && s'.posts == s.posts && s'.tags == s.tags
    && s'.createdWith == s.createdWith && s'.approvedLater == s.approvedLater
    && |s.groups| <= |s'.groups| <= |s.groups| + 1
    && (forall g: GroupId :: g < |s.groups| ==> SameButCount(s.groups[g], s'.groups[g]))
    && (|s'.groups| > |s.groups| ==> s'.groups[|s.groups|].postCount == 0)
  }

  lemma MembershipKeepsPosts(a: Alphabet, s: State, op: Op)
    requires IsMembershipOp(op)
    ensures LeavesPosts(s, Step(a, s, op))
  {
    match op
    case CreateCommunity(user, name, privacy, requiresApproval) =>
      AddGroupKeepsPosts(s, NewCommunity(a, s, user, name, privacy, requiresApproval));
    case CreateFanpage(user, name) => AddGroupKeepsPosts(s, NewFanpage(a, s, user, name));
    case JoinGroup(g, user) => JoinKeepsPosts(s, g, user);
    case LeaveGroup(g, user) => LeaveKeepsPosts(s, g, user);
    case ApproveMember(actor, g, target) => AdmitKeepsPosts(s, actor, g, target);
    case UpdateMemberRole(actor, g, target, role) =>
    case RemoveMember(actor, g, target) => BanKeepsPosts(s, actor, g, target);
    case SetArchived(g, archived) =>
  }

  lemma AddGroupKeepsPosts(s: State, g: Group)
    requires g.postCount == 0
    ensures LeavesPosts(s, AddGroup(s, g))
  {
  }

  lemma JoinKeepsPosts(s: State, g: GroupId, user: UserId)
    ensures LeavesPosts(s, Join(s, g, user).0)
  {
  }

  lemma LeaveKeepsPosts(s: State, g: GroupId, user: UserId)
    ensures LeavesPosts(s, Leave(s, g, user).0)
  {
  }

  lemma AdmitKeepsPosts(s: State, actor: UserId, g: GroupId, target: UserId)
    ensures LeavesPosts(s, Admit(s, actor, g, target).0)
  {
  }

  lemma BanKeepsPosts(s: State, actor: UserId, g: GroupId, target: UserId)
    ensures LeavesPosts(s, Ban(s, actor, g, target).0)
  {
  }

  lemma MembershipCounts(a: Alphabet, s: State, op: Op)
    requires MembersCounted(s) && OneOwner(s) && IsMembershipOp(op)
    ensures MembersCounted(Step(a, s, op))
  {
    match op
    case CreateCommunity(user, name, privacy, requiresApproval) =>
      AddGroupCounts(s, NewCommunity(a, s, user, name, privacy, requiresApproval));
    case CreateFanpage(user, name) => AddGroupCounts(s, NewFanpage(a, s, user, name));
    case JoinGroup(g, user) => JoinCounts(s, g, user);
    case LeaveGroup(g, user) => LeaveCounts(s, g, user);
    case ApproveMember(actor, g, target) => AdmitCounts(s, actor, g, target);
    case UpdateMemberRole(actor, g, target, role) => ChangeRoleCounts(s, actor, g, target, role);
    case RemoveMember(actor, g, target) => BanCounts(s, actor, g, target);
    case SetArchived(g, archived) => ArchiveCounts(s, g, archived);
  }

  /** Writing one row, and the counter by what that adds or takes. */
  lemma SetCounts(s: State, g: GroupId, u: UserId, m: Member, n: int)
    requires MembersCounted(s)
    requires n == (if m.status == ACTIVE then 1 else 0) - if ActiveMember(s, g, u) then 1 else 0
    ensures MembersCounted(AddMembers(SetMember(s, g, u, m), g, n))
    ensures n == 0 ==> MembersCounted(SetMember(s, g, u, m))
  {
    forall h: GroupId | h < |s.groups|
      ensures |ActiveRows(s.members[(g, u) := m], h)| == |ActiveRows(s.members, h)| + if h == g then n else 0
    {
      ActiveRowsAfterSet(s.members, (g, u), m, h);
    }
  }

  lemma JoinCounts(s: State, g: GroupId, u: UserId)
    requires MembersCounted(s)
    ensures MembersCounted(Join(s, g, u).0)
  {
    if (g, u) !in s.members {
      SetCounts(s, g, u, Member(MEMBER, ACTIVE), 1);
      SetCounts(s, g, u, Member(MEMBER, PENDING), 0);
    }
  }

  lemma LeaveCounts(s: State, g: GroupId, u: UserId)
    requires MembersCounted(s)
    ensures MembersCounted(Leave(s, g, u).0)
  {
    if ActiveMember(s, g, u) {
      forall h: GroupId | h < |s.groups|
        ensures |ActiveRows(s.members - {(g, u)}, h)| == |ActiveRows(s.members, h)| - if h == g then 1 else 0
      {
        ActiveRowsAfterRemoval(s.members, (g, u), h);
      }
    }
  }

  lemma AdmitCounts(s: State, actor: UserId, g: GroupId, target: UserId)
    requires MembersCounted(s)
    ensures MembersCounted(Admit(s, actor, g, target).0)
  {
    if (g, target) in s.members && s.members[(g, target)].status == PENDING {
      SetCounts(s, g, target, s.members[(g, target)].(status := ACTIVE), 1);
    }
  }

  lemma ChangeRoleCounts(s: State, actor: UserId, g: GroupId, target: UserId, role: AssignableRole)
    requires MembersCounted(s)
    ensures MembersCounted(ChangeRole(s, actor, g, target, role).0)
  {
    if (g, target) in s.members {
      SetCounts(s, g, target, s.members[(g, target)].(role := role), 0);
    }
  }

  lemma BanCounts(s: State, actor: UserId, g: GroupId, target: UserId)
    requires MembersCounted(s)
    ensures MembersCounted(Ban(s, actor, g, target).0)
  {
    if (g, target) in s.members {
      var m := s.members[(g, target)];
      SetCounts(s, g, target, m.(status := BANNED), if m.status == ACTIVE then -1 else 0);
    }
  }

  lemma ArchiveCounts(s: State, g: GroupId, archived: bool)
    requires MembersCounted(s)
    ensures MembersCounted(Archive(s, g, archived))
  {
  }

  lemma AddGroupCounts(s: State, group: Group)
    requires MembersCounted(s) && OneOwner(s) && group.memberCount == 1
    ensures MembersCounted(AddGroup(s, group))
  {
    forall g: GroupId | g <= |s.groups|
      ensures AddGroup(s, group).groups[g].memberCount == |ActiveRows(AddGroup(s, group).members, g)|
    {
      NewGroupCount(s, group.createdBy, g);
    }
  }

  lemma NewGroupCount(s: State, user: UserId, g: GroupId)
    requires MembersCounted(s) && OneOwner(s) && g <= |s.groups|
    ensures |ActiveRows(s.members[(|s.groups|, user) := Member(OWNER, ACTIVE)], g)|
         == if g == |s.groups| then 1 else s.groups[g].memberCount
  {
    ActiveRowsAfterSet(s.members, (|s.groups|, user), Member(OWNER, ACTIVE), g);
    if g == |s.groups| {
      assert ActiveRows(s.members, g) == {};
    }
  }

  lemma StepKeepsOneOwner(a: Alphabet, s: State, op: Op)
    requires OneOwner(s)
    ensures OneOwner(Step(a, s, op))
  {
    if IsMembershipOp(op) {
      MembershipKeepsOneOwner(a, s, op);
    } else {
      PostingKeepsMembers(a, s, op);
    }
  }

  /** A row may be written if the creator's stays the active owner row and no other becomes one. */
  lemma SetKeepsOneOwner(s: State, g: GroupId, u: UserId, m: Member, n: int)
    requires OneOwner(s) && g < |s.groups|
    requires if u == s.groups[g].createdBy then m == Member(OWNER, ACTIVE) else m.role != OWNER
    ensures OneOwner(SetMember(s, g, u, m))
    ensures OneOwner(AddMembers(SetMember(s, g, u, m), g, n))
  {
  }

  lemma LeaveKeepsOneOwner(s: State, g: GroupId, u: UserId)
    requires OneOwner(s)
    ensures OneOwner(Leave(s, g, u).0)
  {
  }

  lemma AddGroupKeepsOneOwner(s: State, g: Group)
    requires OneOwner(s)
    ensures OneOwner(AddGroup(s, g))
  {
  }

  lemma JoinKeepsOneOwner(s: State, g: GroupId, u: UserId)
    requires OneOwner(s)
    ensures OneOwner(Join(s, g, u).0)
  {
    if ActiveGroup(s, g) && (g, u) !in s.members {
      // The creator has a row, so the newcomer is someone else.
      assert u != s.groups[g].createdBy;
      if s.groups[g].groupType == COMMUNITY && s.groups[g].privacy == PRIVATE_GROUP {
        SetKeepsOneOwner(s, g, u, Member(MEMBER, PENDING), 0);
      } else {
        SetKeepsOneOwner(s, g, u, Member(MEMBER, ACTIVE), 1);
      }
    }
  }

  lemma AdmitKeepsOneOwner(s: State, actor: UserId, g: GroupId, target: UserId)
    requires OneOwner(s)
    ensures OneOwner(Admit(s, actor, g, target).0)
  {
    if Admit(s, actor, g, target).0 != s {
      SetKeepsOneOwner(s, g, target, s.members[(g, target)].(status := ACTIVE), 1);
    }
  }

  lemma ChangeRoleKeepsOneOwner(s: State, actor: UserId, g: GroupId, target: UserId, role: AssignableRole)
    requires OneOwner(s)
    ensures OneOwner(ChangeRole(s, actor, g, target, role).0)
  {
    if ChangeRole(s, actor, g, target, role).0 != s {
      SetKeepsOneOwner(s, g, target, s.members[(g, target)].(role := role), 0);
    }
  }

  lemma BanKeepsOneOwner(s: State, actor: UserId, g: GroupId, target: UserId)
    requires OneOwner(s)
    ensures OneOwner(Ban(s, actor, g, target).0)
  {
    if Ban(s, actor, g, target).0 != s {
      SetKeepsOneOwner(s, g, target, s.members[(g, target)].(status := BANNED), -1);
    }
  }

  lemma ArchiveKeepsOneOwner(s: State, g: GroupId, archived: bool)
    requires OneOwner(s)
    ensures OneOwner(Archive(s, g, archived))
  {
  }

  /** Every membership operation writes or removes one row at most, never an owner's. */
  lemma MembershipKeepsOneOwner(a: Alphabet, s: State, op: Op)
    requires OneOwner(s) && IsMembershipOp(op)
    ensures OneOwner(Step(a, s, op))
  {
    match op
    case CreateCommunity(user, name, privacy, requiresApproval) =>
      AddGroupKeepsOneOwner(s, NewCommunity(a, s, user, name, privacy, requiresApproval));
    case CreateFanpage(user, name) =>
      AddGroupKeepsOneOwner(s, NewFanpage(a, s, user, name));
    case JoinGroup(g, user) => JoinKeepsOneOwner(s, g, user);
    case LeaveGroup(g, user) => LeaveKeepsOneOwner(s, g, user);
    case ApproveMember(actor, g, target) => AdmitKeepsOneOwner(s, actor, g, target);
    case UpdateMemberRole(actor, g, target, role) => ChangeRoleKeepsOneOwner(s, actor, g, target, role);
    case RemoveMember(actor, g, target) => BanKeepsOneOwner(s, actor, g, target);
    case SetArchived(g, archived) => ArchiveKeepsOneOwner(s, g, archived);
  }

  // ----- Slugs -----

  ghost predicate UniqueSlugs(groups: seq<Group>) {
    forall i, j :: 0 <= i < j < |groups| ==> groups[i].slug != groups[j].slug
  }

  lemma NewSlugIsUnique(groups: seq<Group>, g: Group)
    requires UniqueSlugs(groups) && g.slug !in SlugsInUse(groups)
    ensures UniqueSlugs(groups + [g])
  {
    forall i | 0 <= i < |groups|
      ensures groups[i].slug != g.slug
    {
      assert groups[i] in groups;
    }
  }

  /** A group keeps its slug, and a new group gets one that no group has. */
  lemma StepKeepsUniqueSlugs(a: Alphabet, s: State, op: Op)
    requires UniqueSlugs(s.groups)
    ensures UniqueSlugs(Step(a, s, op).groups)
  {
    var s' := Step(a, s, op);
    if !IsMembershipOp(op) {
      PostingKeepsMembers(a, s, op);
      SameSlugs(s.groups, s'.groups);
    } else if |s'.groups| == |s.groups| {
      MembershipKeepsPosts(a, s, op);
      SameSlugs(s.groups, s'.groups);
    } else {
      NewSlugIsUnique(s.groups, s'.groups[|s.groups|]);
      assert s'.groups == s.groups + [s'.groups[|s.groups|]];
    }
  }

  lemma SameSlugs(groups: seq<Group>, groups': seq<Group>)
    requires UniqueSlugs(groups) && |groups| == |groups'|
    requires forall g :: 0 <= g < |groups| ==> groups'[g].slug == groups[g].slug
    ensures UniqueSlugs(groups')
  {
  }

  /** What no operation changes about a group. */
  lemma GroupIdentityIsFixed(a: Alphabet, s: State, op: Op, g: GroupId)
    requires g < |s.groups|
    ensures
      var s' := Step(a, s, op);
      && g < |s'.groups|
      && s'.groups[g].groupType == s.groups[g].groupType
      && s'.groups[g].privacy == s.groups[g].privacy
      && s'.groups[g].createdBy == s.groups[g].createdBy
      && s'.groups[g].slug == s.groups[g].slug
  {
    if IsMembershipOp(op) {
      MembershipKeepsPosts(a, s, op);
      assert SameButCount(s.groups[g], Step(a, s, op).groups[g]);
    } else {
      PostingKeepsMembers(a, s, op);
      assert SameButPosts(s.groups[g], Step(a, s, op).groups[g]);
    }
  }

  // ----- Posts -----

  function ApprovedIn(g: GroupId): Post -> int {
    (p: Post) => if p.groupId == Some(g) && p.approval == Some(APPROVED) then 1 else 0
  }

  /** post_count counts the approved posts, soft-deleted ones included. */
  ghost predicate PostsCounted(s: State) {
    forall g: GroupId :: g < |s.groups| ==> s.groups[g].postCount == Sum(s.posts, ApprovedIn(g))
  }

  ghost predicate PostsWellFormed(s: State) {
    && |s.createdWith| == |s.posts|
    && (forall p :: 0 <= p < |s.posts| ==>
          && (s.posts[p].groupId.Some? <==> s.posts[p].approval.Some?)
          && (s.posts[p].groupId.Some? ==> s.posts[p].groupId.value < |s.groups|)
          && (p in s.approvedLater ==> s.posts[p].approval == Some(APPROVED)))
    && (forall p :: p in s.approvedLater ==> p < |s.posts|)
  }

  lemma StepKeepsPostsWellFormed(a: Alphabet, s: State, op: Op)
    requires PostsWellFormed(s)
    ensures PostsWellFormed(Step(a, s, op))
  {
    if IsMembershipOp(op) {
      MembershipKeepsPosts(a, s, op);
    } else {
      PostingKeepsMembers(a, s, op);
      PostingKeepsPosts(a, s, op);
    }
  }

  lemma PostingKeepsPosts(a: Alphabet, s: State, op: Op)
    requires PostsWellFormed(s) && !IsMembershipOp(op)
    ensures PostsWellFormed(Step(a, s, op))
  {
    match op
    case CreateGroupPost(author, group, content, manual) => SubmitKeepsPosts(a, s, author, group, content, manual);
    case ApproveGroupPost(actor, group, p) => AcceptKeepsPosts(a, s, actor, group, p);
    case RejectGroupPost(actor, group, p) => RejectKeepsPosts(s, actor, group, p);
    case CreatePost(author, content, privacy, manual) =>
    case DeletePost(p, author) =>
    case Repost(p, author) => ShareKeepsPosts(s, p, author);
  }

  lemma SubmitKeepsPosts(a: Alphabet, s: State, author: UserId, g: GroupId, content: Option<string>,
                         manual: seq<TagLike>)
    requires PostsWellFormed(s)
    ensures PostsWellFormed(SubmitGroupPost(a, s, author, g, content, manual).0)
  {
  }

  lemma AcceptKeepsPosts(a: Alphabet, s: State, actor: UserId, g: GroupId, p: PostId)
    requires PostsWellFormed(s)
    ensures PostsWellFormed(Accept(a, s, actor, g, p).0)
  {
  }

  lemma RejectKeepsPosts(s: State, actor: UserId, g: GroupId, p: PostId)
    requires PostsWellFormed(s)
    ensures PostsWellFormed(Reject(s, actor, g, p).0)
  {
  }

  lemma ShareKeepsPosts(s: State, p: PostId, author: UserId)
    requires PostsWellFormed(s)
    ensures PostsWellFormed(Share(s, p, author).0)
  {
  }

  lemma StepKeepsPostsCounted(a: Alphabet, s: State, op: Op)
    requires PostsCounted(s) && PostsWellFormed(s)
    ensures PostsCounted(Step(a, s, op))
  {
    var s' := Step(a, s, op);
    forall g: GroupId | g < |s'.groups|
      ensures s'.groups[g].postCount == Sum(s'.posts, ApprovedIn(g))
    {
      PostCountAfter(a, s, op, g);
    }
  }

  lemma PostCountAfter(a: Alphabet, s: State, op: Op, g: GroupId)
    requires PostsCounted(s) && PostsWellFormed(s) && g < |Step(a, s, op).groups|
    ensures Step(a, s, op).groups[g].postCount == Sum(Step(a, s, op).posts, ApprovedIn(g))
  {
    if IsMembershipOp(op) {
      MembershipKeepsPosts(a, s, op);
      if g == |s.groups| {
        NoPostsYet(s, s.posts, g);
      }
    } else {
      PostingCounts(a, s, op, g);
    }
  }

  lemma PostingCounts(a: Alphabet, s: State, op: Op, g: GroupId)
    requires PostsCounted(s) && g < |s.groups| && !IsMembershipOp(op)
    ensures |Step(a, s, op).groups| == |s.groups|
    ensures Step(a, s, op).groups[g].postCount == Sum(Step(a, s, op).posts, ApprovedIn(g))
  {
    PostingKeepsMembers(a, s, op);
    match op
    case CreateGroupPost(author, group, content, manual) => SubmitCounts(a, s, author, group, content, manual, g);
    case ApproveGroupPost(actor, group, p) => AcceptCounts(a, s, actor, group, p, g);
    case RejectGroupPost(actor, group, p) => RejectCounts(s, actor, group, p, g);
    case CreatePost(author, content, privacy, manual) =>
      SumAppend(s.posts, Post(author, content, privacy.GetOr(PUBLIC), None, None, None, 0, false), ApprovedIn(g));
    case DeletePost(p, author) =>
      if p < |s.posts| {
        SumUpdate(s.posts, p, s.posts[p].(isDeleted := true), ApprovedIn(g));
      }
    case Repost(p, author) => ShareCounts(s, p, author, g);
  }

  lemma SubmitCounts(a: Alphabet, s: State, author: UserId, group: GroupId, content: Option<string>,
                     manual: seq<TagLike>, g: GroupId)
    requires PostsCounted(s) && g < |s.groups|
    ensures
      var s' := SubmitGroupPost(a, s, author, group, content, manual).0;
      |s'.groups| == |s.groups| && s'.groups[g].postCount == Sum(s'.posts, ApprovedIn(g))
  {
    var s' := SubmitGroupPost(a, s, author, group, content, manual).0;
    if s' != s {
      var approval := if s.groups[group].requiresPostApproval then AWAITING else APPROVED;
      SumAppend(s.posts, GroupPost(author, group, content, approval), ApprovedIn(g));
      assert s'.posts == s.posts + [GroupPost(author, group, content, approval)];
    }
  }

  lemma AcceptCounts(a: Alphabet, s: State, actor: UserId, group: GroupId, p: PostId, g: GroupId)
    requires PostsCounted(s) && g < |s.groups|
    ensures
      var s' := Accept(a, s, actor, group, p).0;
      |s'.groups| == |s.groups| && s'.groups[g].postCount == Sum(s'.posts, ApprovedIn(g))
  {
    if p < |s.posts| {
      SumUpdate(s.posts, p, s.posts[p].(approval := Some(APPROVED)), ApprovedIn(g));
    }
  }

  lemma RejectCounts(s: State, actor: UserId, group: GroupId, p: PostId, g: GroupId)
    requires PostsCounted(s) && g < |s.groups|
    ensures
      var s' := Reject(s, actor, group, p).0;
      s'.groups == s.groups && s'.groups[g].postCount == Sum(s'.posts, ApprovedIn(g))
  {
    if p < |s.posts| {
      SumUpdate(s.posts, p, s.posts[p].(approval := Some(REJECTED)), ApprovedIn(g));
    }
  }

  lemma ShareCounts(s: State, p: PostId, author: UserId, g: GroupId)
    requires g < |s.groups|
    ensures Share(s, p, author).0.groups == s.groups
    ensures Sum(Share(s, p, author).0.posts, ApprovedIn(g)) == Sum(s.posts, ApprovedIn(g))
  {
    if p < |s.posts| {
      var repost := Post(author, None, PUBLIC, None, None, Some(p), 0, false);
      var posts := s.posts + [repost];
      SumAppend(s.posts, repost, ApprovedIn(g));
      SumUpdate(posts, p, posts[p].(shareCount := posts[p].shareCount + 1), ApprovedIn(g));
    }
  }

  lemma {:induction false} NoPostsYet(s: State, posts: seq<Post>, g: GroupId)
    requires PostsWellFormed(s) && posts <= s.posts && g >= |s.groups|
    ensures Sum(posts, ApprovedIn(g)) == 0
  {
    if posts == [] {
    } else {
      var n := |posts| - 1;
      assert posts[n] == s.posts[n];
      NoPostsYet(s, posts[..n], g);
    }
  }

  // ----- Shares -----

  function RepostsOf(p: PostId): Post -> int {
    (q: Post) => if q.originalPost == Some(p) then 1 else 0
  }

  /** share_count is the number of posts that name the post as their original. */
  ghost predicate SharesCounted(s: State) {
    forall p: PostId :: p < |s.posts| ==> s.posts[p].shareCount == Sum(s.posts, RepostsOf(p))
  }

  /** A repost names an earlier post. */
  ghost predicate OriginalsAreEarlier(posts: seq<Post>) {
    forall n: PostId :: n < |posts| && posts[n].originalPost.Some? ==> posts[n].originalPost.value < n
  }

  lemma {:induction false} NotSharedYet(posts: seq<Post>, p: PostId)
    requires OriginalsAreEarlier(posts) && |posts| <= p
    ensures Sum(posts, RepostsOf(p)) == 0
  {
    if posts == [] {
    } else {
      NotSharedYet(posts[..|posts| - 1], p);
    }
  }

  /** The fields that sharing counts by; every other change of a post leaves them alone. */
  predicate SameSharing(p: Post, q: Post) {
    p.originalPost == q.originalPost && p.shareCount == q.shareCount
  }

  lemma SharesAfterChange(s: State, s': State, n: PostId, p: PostId)
    requires SharesCounted(s) && n < |s.posts| == |s'.posts| && p < |s.posts|
    requires s'.posts == s.posts[n := s'.posts[n]] && SameSharing(s.posts[n], s'.posts[n])
    ensures s'.posts[p].shareCount == Sum(s'.posts, RepostsOf(p))
  {
    SumUpdate(s.posts, n, s'.posts[n], RepostsOf(p));
  }

  lemma SharesAfterAdding(s: State, post: Post, p: PostId)
    requires SharesCounted(s) && OriginalsAreEarlier(s.posts) && p <= |s.posts|
    requires post.originalPost == None && post.shareCount == 0
    ensures (s.posts + [post])[p].shareCount == Sum(s.posts + [post], RepostsOf(p))
  {
    SumAppend(s.posts, post, RepostsOf(p));
    if p == |s.posts| {
      NotSharedYet(s.posts, p);
    }
  }

  lemma SharesAfterRepost(s: State, n: PostId, author: UserId, p: PostId)
    requires SharesCounted(s) && OriginalsAreEarlier(s.posts) && p < |Share(s, n, author).0.posts|
    ensures Share(s, n, author).0.posts[p].shareCount == Sum(Share(s, n, author).0.posts, RepostsOf(p))
  {
    if n < |s.posts| && !s.posts[n].isDeleted {
      var repost := Post(author, None, PUBLIC, None, None, Some(n), 0, false);
      var posts := s.posts + [repost];
      SumAppend(s.posts, repost, RepostsOf(p));
      SumUpdate(posts, n, posts[n].(shareCount := posts[n].shareCount + 1), RepostsOf(p));
      if p == |s.posts| {
        NotSharedYet(s.posts, p);
      }
    }
  }

  lemma SharesAfter(a: Alphabet, s: State, op: Op, p: PostId)
    requires SharesCounted(s) && OriginalsAreEarlier(s.posts) && p < |Step(a, s, op).posts| && !IsMembershipOp(op)
    ensures Step(a, s, op).posts[p].shareCount == Sum(Step(a, s, op).posts, RepostsOf(p))
  {
    var s' := Step(a, s, op);
    if op.Repost? {
      SharesAfterRepost(s, op.post, op.author, p);
    } else if s'.posts != s.posts {
      if op.CreateGroupPost? || op.CreatePost? {
        SharesAfterAdding(s, s'.posts[|s.posts|], p);
      } else {
        SharesAfterChange(s, s', op.post, p);
      }
    }
  }

  lemma OriginalsAfter(a: Alphabet, s: State, op: Op)
    requires OriginalsAreEarlier(s.posts) && !IsMembershipOp(op)
    ensures OriginalsAreEarlier(Step(a, s, op).posts)
  {
    match op
    case CreateGroupPost(author, group, content, manual) =>
    case ApproveGroupPost(actor, group, p) =>
    case RejectGroupPost(actor, group, p) =>
    case CreatePost(author, content, privacy, manual) =>
    case DeletePost(p, author) =>
    case Repost(p, author) =>
  }

  lemma StepKeepsSharesCounted(a: Alphabet, s: State, op: Op)
    requires SharesCounted(s) && OriginalsAreEarlier(s.posts)
    ensures SharesCounted(Step(a, s, op)) && OriginalsAreEarlier(Step(a, s, op).posts)
  {
    if IsMembershipOp(op) {
      MembershipKeepsPosts(a, s, op);
    } else {
      OriginalsAfter(a, s, op);
      forall p: PostId | p < |Step(a, s, op).posts|
        ensures Step(a, s, op).posts[p].shareCount == Sum(Step(a, s, op).posts, RepostsOf(p))
      {
        SharesAfter(a, s, op, p);
      }
    }
  }

  // ----- The hashtag index -----

  /** Whether moderation lets the post be indexed. */
  predicate Indexable(p: Post) {
    !p.isDeleted && (p.groupId.None? || p.approval == Some(APPROVED))
  }

  /** The slugs the index must hold for a post: those of its content and, unless it was
      approved after creation, of the tags it was created with. */
  function ExpectedHashtags(a: Alphabet, s: State, p: PostId): seq<string>
    requires p < |s.posts| && |s.createdWith| == |s.posts|
  {
    if !Indexable(s.posts[p]) then []
    else MergedHashtags(a, s.posts[p].content, if p in s.approvedLater then [] else s.createdWith[p])
  }

  lemma SameExpected(a: Alphabet, s: State, s': State, p: PostId)
    requires |s.createdWith| == |s.posts| && |s'.createdWith| == |s'.posts| && p < |s.posts| && p < |s'.posts|
    requires s.posts[p] == s'.posts[p] && s.createdWith[p] == s'.createdWith[p]
    requires p in s.approvedLater <==> p in s'.approvedLater
    ensures ExpectedHashtags(a, s, p) == ExpectedHashtags(a, s', p)
  {
  }

  ghost predicate IndexedRight(a: Alphabet, s: State, p: PostId)
    requires |s.createdWith| == |s.posts|
  {
    HashtagsOf(s.tags, p) == if p < |s.posts| then ExpectedHashtags(a, s, p) else []
  }

  ghost predicate IndexExact(a: Alphabet, s: State)
    requires |s.createdWith| == |s.posts|
  {
    forall p: PostId :: IndexedRight(a, s, p)
  }

  lemma {:induction false} OtherRowsHoldNoHashtag(owner: PostId, manual: seq<TagLike>, p: PostId)
    ensures HashtagsOf(OtherTagRows(owner, manual), p) == []
  {
    if manual == [] {
    } else {
      OtherRowsHoldNoHashtag(owner, manual[..|manual| - 1], p);
    }
  }

  lemma NothingToIndex(a: Alphabet)
    ensures MergedHashtags(a, None, []) == []
  {
    assert TagWords(a, "", 0) == [];
  }

  lemma StepKeepsIndexExact(a: Alphabet, s: State, op: Op)
    requires PostsWellFormed(s) && IndexExact(a, s) && PostsWellFormed(Step(a, s, op))
    ensures IndexExact(a, Step(a, s, op))
  {
    forall p: PostId
      ensures IndexedRight(a, Step(a, s, op), p)
    {
      assert IndexedRight(a, s, p);
      if IsMembershipOp(op) {
        MembershipKeepsPosts(a, s, op);
      } else {
        IndexAfterPosting(a, s, op, p);
      }
    }
  }

  lemma IndexAfterPosting(a: Alphabet, s: State, op: Op, p: PostId)
    requires !IsMembershipOp(op)
    requires |s.createdWith| == |s.posts| && IndexedRight(a, s, p)
    requires forall q :: q in s.approvedLater ==> q < |s.posts|
    ensures |Step(a, s, op).createdWith| == |Step(a, s, op).posts| && IndexedRight(a, Step(a, s, op), p)
  {
    match op
    case CreateGroupPost(author, g, content, manual) => IndexAfterSubmit(a, s, author, g, content, manual, p);
    case ApproveGroupPost(actor, g, post) => IndexAfterAccept(a, s, actor, g, post, p);
    case RejectGroupPost(actor, g, post) => IndexAfterReject(a, s, actor, g, post, p);
    case CreatePost(author, content, privacy, manual) => IndexAfterPublish(a, s, author, content, privacy, manual, p);
    case DeletePost(post, author) => IndexAfterDelete(a, s, post, author, p);
    case Repost(post, author) => IndexAfterShare(a, s, post, author, p);
  }

  lemma IndexAfterReject(a: Alphabet, s: State, actor: UserId, g: GroupId, post: PostId, p: PostId)
    requires |s.createdWith| == |s.posts| && IndexedRight(a, s, p)
    ensures
      var s' := Reject(s, actor, g, post).0;
      |s'.createdWith| == |s'.posts| && IndexedRight(a, s', p)
  {
  }

  lemma IndexAfterDelete(a: Alphabet, s: State, post: PostId, author: UserId, p: PostId)
    requires |s.createdWith| == |s.posts| && IndexedRight(a, s, p)
    ensures
      var s' := Delete(s, post, author).0;
      |s'.createdWith| == |s'.posts| && IndexedRight(a, s', p)
  {
    HashtagsWithout(s.tags, post, p);
  }

  lemma IndexAfterSubmit(a: Alphabet, s: State, author: UserId, g: GroupId, content: Option<string>,
                         manual: seq<TagLike>, p: PostId)
    requires |s.createdWith| == |s.posts| && IndexedRight(a, s, p)
    requires forall q :: q in s.approvedLater ==> q < |s.posts|
    ensures
      var s' := SubmitGroupPost(a, s, author, g, content, manual).0;
      |s'.createdWith| == |s'.posts| && IndexedRight(a, s', p)
  {
    var s', n := SubmitGroupPost(a, s, author, g, content, manual).0, |s.posts|;
    if s' != s {
      assert p < n ==> s'.posts[p] == s.posts[p] && s'.createdWith[p] == s.createdWith[p];
      if s'.posts[n].approval == Some(APPROVED) {
        ReindexedHashtags(a, s.tags, n, content, manual, p);
      }
    }
  }

  lemma AcceptedIsIndexed(a: Alphabet, s: State, actor: UserId, g: GroupId, post: PostId)
    requires |s.createdWith| == |s.posts| && ActiveModerator(s, g, actor) && PendingPost(s, g, post)
    ensures IndexedRight(a, Accept(a, s, actor, g, post).0, post)
  {
    ReindexedHashtags(a, s.tags, post, s.posts[post].content, [], post);
  }

  lemma AcceptLeavesOthers(a: Alphabet, s: State, actor: UserId, g: GroupId, post: PostId, p: PostId)
    requires |s.createdWith| == |s.posts| && IndexedRight(a, s, p) && p != post
    requires ActiveModerator(s, g, actor) && PendingPost(s, g, post)
    ensures IndexedRight(a, Accept(a, s, actor, g, post).0, p)
  {
    AcceptKeepsOtherRows(a, s, actor, g, post, p);
    if p < |s.posts| {
      SameExpected(a, s, Accept(a, s, actor, g, post).0, p);
    }
  }

  lemma AcceptKeepsOtherRows(a: Alphabet, s: State, actor: UserId, g: GroupId, post: PostId, p: PostId)
    requires p != post
    ensures HashtagsOf(Accept(a, s, actor, g, post).0.tags, p) == HashtagsOf(s.tags, p)
  {
    if PendingPost(s, g, post) {
      ReindexedHashtags(a, s.tags, post, s.posts[post].content, [], p);
    }
  }

  lemma IndexAfterAccept(a: Alphabet, s: State, actor: UserId, g: GroupId, post: PostId, p: PostId)
    requires |s.createdWith| == |s.posts| && IndexedRight(a, s, p)
    ensures
      var s' := Accept(a, s, actor, g, post).0;
      |s'.createdWith| == |s'.posts| && IndexedRight(a, s', p)
  {
    if ActiveModerator(s, g, actor) && PendingPost(s, g, post) {
      if p == post {
        AcceptedIsIndexed(a, s, actor, g, post);
      } else {
        AcceptLeavesOthers(a, s, actor, g, post, p);
      }
    }
  }

  lemma HashtagsAfterPublish(a: Alphabet, s: State, author: UserId, content: Option<string>, privacy: Option<Privacy>,
                             manual: seq<TagLike>, p: PostId)
    ensures HashtagsOf(Publish(a, s, author, content, privacy, manual).0.tags, p) ==
      if p == |s.posts| then MergedHashtags(a, content, manual) else HashtagsOf(s.tags, p)
  {
    var n := |s.posts|;
    HashtagsOfConcat(s.tags, OtherTagRows(n, manual), p);
    OtherRowsHoldNoHashtag(n, manual, p);
    ReindexedHashtags(a, s.tags + OtherTagRows(n, manual), n, content, manual, p);
  }

  lemma IndexAfterPublish(a: Alphabet, s: State, author: UserId, content: Option<string>, privacy: Option<Privacy>,
                          manual: seq<TagLike>, p: PostId)
    requires |s.createdWith| == |s.posts| && IndexedRight(a, s, p)
    requires forall q :: q in s.approvedLater ==> q < |s.posts|
    ensures
      var s' := Publish(a, s, author, content, privacy, manual).0;
      |s'.createdWith| == |s'.posts| && IndexedRight(a, s', p)
  {
    HashtagsAfterPublish(a, s, author, content, privacy, manual, p);
    if p < |s.posts| {
      SameExpected(a, s, Publish(a, s, author, content, privacy, manual).0, p);
    }
  }

  lemma IndexAfterShare(a: Alphabet, s: State, post: PostId, author: UserId, p: PostId)
    requires |s.createdWith| == |s.posts| && IndexedRight(a, s, p)
    requires forall q :: q in s.approvedLater ==> q < |s.posts|
    ensures
      var s' := Share(s, post, author).0;
      |s'.createdWith| == |s'.posts| && IndexedRight(a, s', p)
  {
    NothingToIndex(a);
  }

  // ----- All together, over every run -----

  ghost predicate Inv(a: Alphabet, s: State) {
    && OneOwner(s) && MembersCounted(s) && UniqueSlugs(s.groups)
    && PostsWellFormed(s) && PostsCounted(s) && IndexExact(a, s)
    && SharesCounted(s) && OriginalsAreEarlier(s.posts)
  }

  lemma StepKeepsInv(a: Alphabet, s: State, op: Op)
    requires Inv(a, s)
    ensures Inv(a, Step(a, s, op))
  {
    StepKeepsOneOwner(a, s, op);
    StepKeepsMembersCounted(a, s, op);
    StepKeepsUniqueSlugs(a, s, op);
    StepKeepsPostsWellFormed(a, s, op);
    StepKeepsPostsCounted(a, s, op);
    StepKeepsIndexExact(a, s, op);
    StepKeepsSharesCounted(a, s, op);
  }

  lemma {:induction false} EveryRunKeepsInv(a: Alphabet, ops: seq<Op>)
    ensures Inv(a, Run(a, EMPTY, ops))
  {
    if ops == [] {
    } else {
      EveryRunKeepsInv(a, ops[..|ops| - 1]);
      StepKeepsInv(a, Run(a, EMPTY, ops[..|ops| - 1]), ops[|ops| - 1]);
    }
  }

  /** A post has HASHTAG rows only if it is not deleted and is no group post or an
      approved one; and what rows it has are those of its content and its tags. */
  lemma IndexFollowsModeration(a: Alphabet, ops: seq<Op>, p: PostId)
    requires HashtagsOf(Run(a, EMPTY, ops).tags, p) != []
    ensures
      var s := Run(a, EMPTY, ops);
      && p < |s.posts| == |s.createdWith| && Indexable(s.posts[p])
      && HashtagsOf(s.tags, p) ==
        MergedHashtags(a, s.posts[p].content, if p in s.approvedLater then [] else s.createdWith[p])
  {
    EveryRunKeepsInv(a, ops);
    assert IndexedRight(a, Run(a, EMPTY, ops), p);
  }

  // ----- Histories of one membership -----

  /** BANNED is terminal: no continuation of any run lifts it. */
  lemma {:induction false} BannedIsTerminal(a: Alphabet, s: State, ops: seq<Op>, k: (GroupId, UserId))
    requires k in s.members && s.members[k].status == BANNED && k.0 < |s.groups|
    ensures k.0 < |Run(a, s, ops).groups|
    ensures k in Run(a, s, ops).members && Run(a, s, ops).members[k] == s.members[k]
  {
    if ops == [] {
    } else {
      BannedIsTerminal(a, s, ops[..|ops| - 1], k);
      BannedStays(a, Run(a, s, ops[..|ops| - 1]), ops[|ops| - 1], k);
    }
  }

  lemma BannedStays(a: Alphabet, s: State, op: Op, k: (GroupId, UserId))
    requires k in s.members && s.members[k].status == BANNED && k.0 < |s.groups|
    ensures k.0 < |Step(a, s, op).groups|
    ensures k in Step(a, s, op).members && Step(a, s, op).members[k] == s.members[k]
  {
  }

  /** Whoever has a row before and after has it in the same role. */
  ghost predicate SameRoles(s: State, s': State) {
    forall k :: k in s.members && k in s'.members ==> s'.members[k].role == s.members[k].role
  }

  lemma OthersKeepRoles(a: Alphabet, s: State, op: Op)
    requires OneOwner(s) && IsMembershipOp(op) && !op.UpdateMemberRole?
    ensures SameRoles(s, Step(a, s, op))
  {
    match op
    case CreateCommunity(user, name, privacy, requiresApproval) =>
      AddGroupKeepsRoles(s, NewCommunity(a, s, user, name, privacy, requiresApproval));
    case CreateFanpage(user, name) => AddGroupKeepsRoles(s, NewFanpage(a, s, user, name));
    case JoinGroup(g, user) => JoinKeepsRoles(s, g, user);
    case LeaveGroup(g, user) => LeaveKeepsRoles(s, g, user);
    case ApproveMember(actor, g, target) => AdmitKeepsRoles(s, actor, g, target);
    case RemoveMember(actor, g, target) => BanKeepsRoles(s, actor, g, target);
    case SetArchived(g, archived) =>
  }

  lemma AddGroupKeepsRoles(s: State, g: Group)
    requires OneOwner(s)
    ensures SameRoles(s, AddGroup(s, g))
  {
  }

  lemma JoinKeepsRoles(s: State, g: GroupId, user: UserId)
    ensures SameRoles(s, Join(s, g, user).0)
  {
  }

  lemma LeaveKeepsRoles(s: State, g: GroupId, user: UserId)
    ensures SameRoles(s, Leave(s, g, user).0)
  {
  }

  lemma AdmitKeepsRoles(s: State, actor: UserId, g: GroupId, target: UserId)
    ensures SameRoles(s, Admit(s, actor, g, target).0)
  {
  }

  lemma BanKeepsRoles(s: State, actor: UserId, g: GroupId, target: UserId)
    ensures SameRoles(s, Ban(s, actor, g, target).0)
  {
  }

  /** A role changes only because the creator asked for it, and to the role asked for. */
  lemma RolesFollowTheOwner(a: Alphabet, s: State, op: Op, k: (GroupId, UserId))
    requires OneOwner(s) && k in s.members && k in Step(a, s, op).members
    requires s.members[k].role != Step(a, s, op).members[k].role
    ensures op.UpdateMemberRole? && op.group == k.0 && op.target == k.1
    ensures k.0 < |s.groups| && op.actor == s.groups[k.0].createdBy && s.members[k].role != OWNER
    ensures Step(a, s, op).members[k].role == op.role
  {
    if !IsMembershipOp(op) {
      PostingKeepsMembers(a, s, op);
    } else if !op.UpdateMemberRole? {
      OthersKeepRoles(a, s, op);
    }
  }

  /** The group is a private community and the row is not its creator's. */
  predicate NeedsApproval(s: State, k: (GroupId, UserId)) {
    && k.0 < |s.groups|
    && s.groups[k.0].groupType == COMMUNITY && s.groups[k.0].privacy == PRIVATE_GROUP
    && s.groups[k.0].createdBy != k.1
  }

  predicate IsActive(s: State, k: (GroupId, UserId)) {
    ActiveMember(s, k.0, k.1)
  }

  /** Step `i` approved the pending row, by a then-active moderator, and it has been
      active in every state since. */
  ghost predicate ApprovedAt(a: Alphabet, ops: seq<Op>, i: nat, k: (GroupId, UserId)) {
    && i < |ops|
    && ops[i].ApproveMember? && ops[i].group == k.0 && ops[i].target == k.1
    && ActiveModerator(Run(a, EMPTY, ops[..i]), k.0, ops[i].actor)
    && k in Run(a, EMPTY, ops[..i]).members && Run(a, EMPTY, ops[..i]).members[k].status == PENDING
    && forall j :: i < j <= |ops| ==> IsActive(Run(a, EMPTY, ops[..j]), k)
  }

  /** The only way into a private community, for anyone but its creator. */
  lemma ActivationIsApproval(a: Alphabet, s: State, op: Op, k: (GroupId, UserId))
    requires OneOwner(s)
    requires NeedsApproval(Step(a, s, op), k) && IsActive(Step(a, s, op), k) && !IsActive(s, k)
    ensures op.ApproveMember? && op.group == k.0 && op.target == k.1
    ensures ActiveModerator(s, k.0, op.actor) && k in s.members && s.members[k].status == PENDING
  {
    if !IsMembershipOp(op) {
      PostingKeepsMembers(a, s, op);
    } else if op.JoinGroup? {
      JoinNeverActivates(s, op.group, op.user, k);
    }
  }

  /** Joining a private community leaves anybody but its creator pending. */
  lemma JoinNeverActivates(s: State, g: GroupId, u: UserId, k: (GroupId, UserId))
    requires NeedsApproval(Join(s, g, u).0, k) && IsActive(Join(s, g, u).0, k)
    ensures IsActive(s, k)
  {
  }

  lemma {:induction false} PrivateMembersWereApproved(a: Alphabet, ops: seq<Op>, k: (GroupId, UserId))
    requires NeedsApproval(Run(a, EMPTY, ops), k) && IsActive(Run(a, EMPTY, ops), k)
    ensures exists i: nat :: ApprovedAt(a, ops, i, k)
  {
    assert ops != [];
    var n := |ops| - 1;
    var s := Run(a, EMPTY, ops[..n]);
    EveryRunKeepsInv(a, ops[..n]);
    assert ops[..|ops|] == ops;
    if IsActive(s, k) {
      GroupIdentityIsFixed(a, s, ops[n], k.0);
      PrivateMembersWereApproved(a, ops[..n], k);
      var i: nat :| ApprovedAt(a, ops[..n], i, k);
      ApprovalExtends(a, ops, i, k);
    } else {
      ActivationIsApproval(a, s, ops[n], k);
      assert ApprovedAt(a, ops, n, k);
    }
  }

  lemma ApprovalExtends(a: Alphabet, ops: seq<Op>, i: nat, k: (GroupId, UserId))
    requires ops != [] && ApprovedAt(a, ops[..|ops| - 1], i, k) && IsActive(Run(a, EMPTY, ops), k)
    ensures ApprovedAt(a, ops, i, k)
  {
    var before := ops[..|ops| - 1];
    assert before[..i] == ops[..i];
    forall j | i < j <= |ops|
      ensures IsActive(Run(a, EMPTY, ops[..j]), k)
    {
      if j < |ops| {
        assert before[..j] == ops[..j];
      } else {
        assert ops[..j] == ops;
      }
    }
  }
}
