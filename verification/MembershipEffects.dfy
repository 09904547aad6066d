// Who is in a group, and in which role, after any request to the group service.
module MembershipEffects {
  import opened Base
  import opened HashtagUtil
  import opened SocialState
  import opened GroupInvariants
  import SlugGenerator

  function RowOf(s: State, k: (GroupId, UserId)): Option<Member> {
    if k in s.members then Some(s.members[k]) else None
  }

  predicate HasStatus(s: State, k: (GroupId, UserId), status: MemberStatus) {
    k in s.members && s.members[k].status == status
  }

  predicate HasRole(s: State, k: (GroupId, UserId), role: Role) {
    k in s.members && s.members[k].role == role
  }

  predicate MayModerate(s: State, g: GroupId, u: UserId) {
    HasStatus(s, (g, u), ACTIVE) && !HasRole(s, (g, u), MEMBER)
  }

  // ----- The requests that concern one row -----

  /** A first request to join an open group; it waits if the group is a private community
      and the user not its creator. */
  predicate Asks(s: State, op: Op, k: (GroupId, UserId)) {
    op == JoinGroup(k.0, k.1) && k !in s.members && k.0 < |s.groups| && !s.groups[k.0].isArchived
  }

  predicate MustWait(s: State, k: (GroupId, UserId)) {
    && k.0 < |s.groups| && s.groups[k.0].createdBy != k.1
    && s.groups[k.0].groupType == COMMUNITY && s.groups[k.0].privacy == PRIVATE_GROUP
  }

  predicate Founds(a: Alphabet, s: State, op: Op, k: (GroupId, UserId)) {
    (op.CreateCommunity? || op.CreateFanpage?) && op.user == k.1 && k.0 == |s.groups| && Trim(a, op.name) != ""
  }

  predicate Lets(s: State, op: Op, k: (GroupId, UserId)) {
    op.ApproveMember? && (op.group, op.target) == k && MayModerate(s, k.0, op.actor) && HasStatus(s, k, PENDING)
  }

  predicate Quits(s: State, op: Op, k: (GroupId, UserId)) {
    op == LeaveGroup(k.0, k.1) && HasStatus(s, k, ACTIVE) && !HasRole(s, k, OWNER)
  }

  predicate Expels(s: State, op: Op, k: (GroupId, UserId)) {
    && op.RemoveMember? && (op.group, op.target) == k && k in s.members && !HasRole(s, k, OWNER)
    && (op.actor == k.1 || MayModerate(s, k.0, op.actor))
  }

  predicate Assigns(s: State, op: Op, k: (GroupId, UserId)) {
    && op.UpdateMemberRole? && (op.group, op.target) == k && HasStatus(s, k, ACTIVE) && !HasRole(s, k, OWNER)
    && HasStatus(s, (k.0, op.actor), ACTIVE) && HasRole(s, (k.0, op.actor), OWNER)
  }

  // ----- One row after one request -----

  lemma RowAfterFounding(a: Alphabet, s: State, op: Op, k: (GroupId, UserId))
    requires op.CreateCommunity? || op.CreateFanpage?
    ensures RowOf(Step(a, s, op), k) == if Founds(a, s, op, k) then Some(Member(OWNER, ACTIVE)) else RowOf(s, k)
  {
  }

  lemma RowAfterJoin(s: State, op: Op, k: (GroupId, UserId))
    requires op.JoinGroup?
    ensures RowOf(Join(s, op.group, op.user).0, k) ==
      if Asks(s, op, k) then Some(Member(MEMBER, if MustWait(s, k) then PENDING else ACTIVE)) else RowOf(s, k)
  {
  }

  lemma RowAfterLeave(s: State, op: Op, k: (GroupId, UserId))
    requires op.LeaveGroup?
    ensures RowOf(Leave(s, op.group, op.user).0, k) == if Quits(s, op, k) then None else RowOf(s, k)
  {
  }

  lemma RowAfterApproval(s: State, op: Op, k: (GroupId, UserId))
    requires op.ApproveMember?
    ensures RowOf(Admit(s, op.actor, op.group, op.target).0, k) ==
      if Lets(s, op, k) then Some(s.members[k].(status := ACTIVE)) else RowOf(s, k)
  {
  }

  lemma RowAfterRoleChange(s: State, op: Op, k: (GroupId, UserId))
    requires op.UpdateMemberRole?
    ensures RowOf(ChangeRole(s, op.actor, op.group, op.target, op.role).0, k) ==
      if Assigns(s, op, k) then Some(s.members[k].(role := op.role)) else RowOf(s, k)
  {
  }

  lemma RowAfterRemoval(s: State, op: Op, k: (GroupId, UserId))
    requires op.RemoveMember?
    ensures RowOf(Ban(s, op.actor, op.group, op.target).0, k) ==
      if Expels(s, op, k) then Some(s.members[k].(status := BANNED)) else RowOf(s, k)
  {
  }

  /** What a row is after any request, by the requests that concern it. */
  function RowAfter(a: Alphabet, s: State, op: Op, k: (GroupId, UserId)): Option<Member> {
    if Founds(a, s, op, k) then Some(Member(OWNER, ACTIVE))
    else if Asks(s, op, k) then Some(Member(MEMBER, if MustWait(s, k) then PENDING else ACTIVE))
    else if Quits(s, op, k) then None
    else if Lets(s, op, k) then Some(s.members[k].(status := ACTIVE))
    else if Assigns(s, op, k) then Some(s.members[k].(role := op.role))
    else if Expels(s, op, k) then Some(s.members[k].(status := BANNED))
    else RowOf(s, k)
  }

  lemma StepLeavesRow(a: Alphabet, s: State, op: Op, k: (GroupId, UserId))
    ensures RowOf(Step(a, s, op), k) == RowAfter(a, s, op, k)
  {
    if op.CreateCommunity? || op.CreateFanpage? {
      RowAfterFounding(a, s, op, k);
    } else if IsMembershipOp(op) {
      match op
      case JoinGroup(_, _) => RowAfterJoin(s, op, k);
      case LeaveGroup(_, _) => RowAfterLeave(s, op, k);
      case ApproveMember(_, _, _) => RowAfterApproval(s, op, k);
      case UpdateMemberRole(_, _, _, _) => RowAfterRoleChange(s, op, k);
      case RemoveMember(_, _, _) => RowAfterRemoval(s, op, k);
      case SetArchived(_, _) =>
    } else {
      PostingKeepsMembers(a, s, op);
    }
  }

  // ----- What the answer says -----

  lemma JoinAnswers(s: State, g: GroupId, u: UserId)
    ensures
      var (s', reply) := Join(s, g, u);
      && (reply == NotFound <==> g >= |s.groups| || s.groups[g].isArchived)
      && (reply != NotFound ==>
            && (reply == Forbidden <==> HasStatus(s, (g, u), BANNED))
            && (reply == AlreadyMember <==> HasStatus(s, (g, u), ACTIVE))
            && (reply == JoinPending <==> HasStatus(s', (g, u), PENDING))
            && (reply == Done <==> (g, u) !in s.members && HasStatus(s', (g, u), ACTIVE)))
  {
  }

  lemma LeaveAnswers(s: State, g: GroupId, u: UserId)
    ensures
      var reply := Leave(s, g, u).1;
      && (reply == Done <==> Quits(s, LeaveGroup(g, u), (g, u)))
      && (reply == BadRequest <==> HasStatus(s, (g, u), ACTIVE) && HasRole(s, (g, u), OWNER))
      && (reply == NotFound <==> !HasStatus(s, (g, u), ACTIVE))
  {
  }

  lemma ApprovalAnswers(s: State, actor: UserId, g: GroupId, target: UserId)
    ensures
      var reply := Admit(s, actor, g, target).1;
      && (reply == Forbidden <==> !MayModerate(s, g, actor))
      && (reply == Done <==> && Lets(s, ApproveMember(actor, g, target), (g, target))
                             && g < |s.groups| && !s.groups[g].isArchived)
      && (reply == Forbidden || reply == Done || reply == NotFound)
  {
  }

  lemma RoleAnswers(s: State, actor: UserId, g: GroupId, target: UserId, role: AssignableRole)
    ensures
      var reply := ChangeRole(s, actor, g, target, role).1;
      && (reply == Forbidden <==> !(HasStatus(s, (g, actor), ACTIVE) && HasRole(s, (g, actor), OWNER)))
      && (reply == Done <==> Assigns(s, UpdateMemberRole(actor, g, target, role), (g, target)))
      && (reply == NotFound ==> !HasStatus(s, (g, target), ACTIVE))
      && (reply == BadRequest ==> HasRole(s, (g, target), OWNER))
      && (reply == Forbidden || reply == Done || reply == NotFound || reply == BadRequest)
  {
  }

  lemma RemovalAnswers(s: State, actor: UserId, g: GroupId, target: UserId)
    ensures
      var reply := Ban(s, actor, g, target).1;
      && (reply == Forbidden <==> actor != target && !MayModerate(s, g, actor))
      && (reply == Done <==> Expels(s, RemoveMember(actor, g, target), (g, target)))
      && (reply == NotFound ==> (g, target) !in s.members)
      && (reply == BadRequest ==> HasRole(s, (g, target), OWNER))
      && (reply == Forbidden || reply == Done || reply == NotFound || reply == BadRequest)
  {
  }

  // ----- A new group -----

  /** A name that is not blank founds one group, the last, under a slug that no group had; a
      fanpage is public, a community what was asked for, and open unless asked otherwise. */
  lemma FoundingAddsGroup(a: Alphabet, s: State, op: Op)
    requires op.CreateCommunity? || op.CreateFanpage?
    ensures
      var (s', reply) := Apply(a, s, op);
      && s'.posts == s.posts && s'.tags == s.tags
      && (if Trim(a, op.name) == "" then reply == BadRequest && s' == s
          else
            && reply == Done && |s'.groups| == |s.groups| + 1 && s'.groups[..|s.groups|] == s.groups
            && var g := s'.groups[|s.groups|];
               && g.createdBy == op.user && g.memberCount == 1 && g.postCount == 0 && !g.isArchived
               && (forall h :: h in s.groups ==> h.slug != g.slug)
               && g.slug == SlugGenerator.UniqueSlug(a.lower(Trim(a, op.name)), SlugsInUse(s.groups))
               && (g.groupType == FANPAGE <==> op.CreateFanpage?)
               && (g.privacy == PRIVATE_GROUP <==> op.CreateCommunity? && op.privacy == Some(PRIVATE_GROUP))
               && (g.requiresPostApproval <==> op.CreateCommunity? && op.requiresApproval == Some(true)))
  {
    if Trim(a, op.name) != "" {
      var s' := Apply(a, s, op).0;
      assert s'.groups[|s.groups|].slug !in SlugsInUse(s.groups);
    }
  }
}
