// Who takes part in a conversation, and in which role, after any messaging request.
module ParticipantEffects {
  import opened Base
  import opened MessagingState

  function RowOf(ps: Participants, k: (ConversationId, UserId)): Option<Participant> {
    if k in ps then Some(ps[k]) else None
  }

  predicate TakesPart(s: State, k: (ConversationId, UserId)) {
    k in s.participants && !s.participants[k].left
  }

  predicate PresentAs(s: State, k: (ConversationId, UserId), role: Role) {
    TakesPart(s, k) && s.participants[k].role == role
  }

  predicate GroupAt(s: State, c: ConversationId) {
    c < |s.conversations| && s.conversations[c].kind == GROUP
  }

  // ----- Removal and roles -----

  /** Admins and the owner remove others, anyone leaves, but nobody removes the owner. */
  predicate Removes(s: State, op: Op, k: (ConversationId, UserId)) {
    && op.RemoveParticipant? && (op.conversation, op.target) == k && GroupAt(s, k.0)
    && TakesPart(s, k) && !PresentAs(s, k, OWNER)
    && (op.actor == k.1 || PresentAs(s, (k.0, op.actor), ADMIN) || PresentAs(s, (k.0, op.actor), OWNER))
  }

  /** The owner alone assigns roles, to whoever else takes part. */
  predicate Assigns(s: State, op: Op, k: (ConversationId, UserId)) {
    && op.UpdateRole? && (op.conversation, op.target) == k && GroupAt(s, k.0)
    && TakesPart(s, k) && !PresentAs(s, k, OWNER) && PresentAs(s, (k.0, op.actor), OWNER)
  }

  lemma RowAfterRemoval(s: State, op: Op, k: (ConversationId, UserId))
    requires op.RemoveParticipant?
    ensures
      var (s', reply) := Apply(s, op);
      && RowOf(s'.participants, k) ==
        (if Removes(s, op, k) then Some(s.participants[k].(left := true)) else RowOf(s.participants, k))
      && s'.conversations == s.conversations
      && (reply == Done <==> Removes(s, op, (op.conversation, op.target)))
  {
  }

  lemma RemovalAnswers(s: State, actor: UserId, c: ConversationId, target: UserId)
    ensures
      var reply := Remove(s, actor, c, target).1;
      var may := actor == target || PresentAs(s, (c, actor), ADMIN) || PresentAs(s, (c, actor), OWNER);
      && (reply == NotFound <==> GroupAt(s, c) && may && !TakesPart(s, (c, target)))
      && (reply == Forbidden <==> GroupAt(s, c) && (!may || (actor != target && PresentAs(s, (c, target), OWNER))))
      && (reply == BadRequest <==> !GroupAt(s, c) || (actor == target && PresentAs(s, (c, target), OWNER)))
  {
  }

  lemma RowAfterRoleChange(s: State, op: Op, k: (ConversationId, UserId))
    requires op.UpdateRole?
    ensures
      var (s', reply) := Apply(s, op);
      && RowOf(s'.participants, k) ==
        (if Assigns(s, op, k) then Some(s.participants[k].(role := op.role)) else RowOf(s.participants, k))
      && s'.conversations == s.conversations
      && (reply == Done <==> Assigns(s, op, (op.conversation, op.target)))
  {
  }

  lemma RoleAnswers(s: State, actor: UserId, c: ConversationId, target: UserId, role: AssignableRole)
    ensures
      var reply, owner := ChangeRole(s, actor, c, target, role).1, PresentAs(s, (c, actor), OWNER);
      && (reply == Forbidden <==> GroupAt(s, c) && !owner)
      && (reply == NotFound <==> GroupAt(s, c) && owner && !TakesPart(s, (c, target)))
      && (reply == BadRequest <==> !GroupAt(s, c) || (owner && PresentAs(s, (c, target), OWNER)))
  {
  }

  // ----- Invitations -----

  /** How many ids the add loop passes: all before the first blocked one. */
  function BeforeBlocked(s: State, user: UserId, ids: seq<UserId>): (n: nat)
    ensures n <= |ids| && forall i :: 0 <= i < n ==> (user, ids[i]) !in s.blocks && (ids[i], user) !in s.blocks
    ensures n < |ids| ==> (user, ids[n]) in s.blocks || (ids[n], user) in s.blocks
  {
    if ids == [] || Blocked(s, user, ids[0]) then 0 else 1 + BeforeBlocked(s, user, ids[1..])
  }

  lemma FirstBlockedIs(s: State, user: UserId, ids: seq<UserId>, n: nat)
    requires n <= |ids| && forall i :: 0 <= i < n ==> !Blocked(s, user, ids[i])
    requires n < |ids| ==> Blocked(s, user, ids[n])
    ensures BeforeBlocked(s, user, ids) == n
  {
  }

  /** Exactly the ids before the first blocked one take part, and the loop tells whether that
      was all of them. */
  lemma {:induction false} AddEachReaches(s: State, ps: Participants, c: ConversationId, user: UserId, ids: seq<UserId>,
                                          k: (ConversationId, UserId))
    ensures
      var (ps', reply), n := AddEach(s, ps, c, user, ids), BeforeBlocked(s, user, ids);
      && reply == (if n == |ids| then Done else Forbidden)
      && RowOf(ps', k) ==
        (if k.0 == c && k.1 in ids[..n] && (k !in ps || ps[k].left) then Some(Participant(MEMBER, false))
         else RowOf(ps, k))
  {
    if ids == [] {
    } else {
      var m := |ids| - 1;
      AddEachReaches(s, ps, c, user, ids[..m], k);
      var n := BeforeBlocked(s, user, ids[..m]);
      FirstBlockedIs(s, user, ids, if n == m && !Blocked(s, user, ids[m]) then m + 1 else n);
      assert ids[..m + 1] == ids[..m] + [ids[m]];
      assert n <= m ==> ids[..m][..n] == ids[..n];
    }
  }

  lemma {:induction false} ExceptHolds(ids: seq<UserId>, user: UserId)
    requires NoDuplicates(ids)
    ensures NoDuplicates(Except(ids, user))
    ensures forall id :: id in Except(ids, user) <==> id in ids && id != user
  {
    if ids == [] {
    } else {
      LastIsNew(ids);
      ExceptHolds(ids[..|ids| - 1], user);
      assert ids[|ids| - 1] !in Except(ids[..|ids| - 1], user);
    }
  }

  /** The distinct ids of the request but the sender's. */
  lemma InvitedIds(user: UserId, memberIds: seq<UserId>)
    ensures
      var ids := Except(FirstOccurrences(memberIds), user);
      NoDuplicates(ids) && forall id :: id in ids <==> id in memberIds && id != user
  {
    FirstOccurrencesInOrder(memberIds);
    ExceptHolds(FirstOccurrences(memberIds), user);
  }

  /** An admin or the owner invites known users into a group, up to 256 present. They come in
      one after the other, as members, up to the first one blocked. */
  lemma RowAfterInvitation(s: State, user: UserId, c: ConversationId, memberIds: seq<UserId>,
                           k: (ConversationId, UserId))
    ensures
      var (s', reply), ids := Invite(s, user, c, memberIds), Except(FirstOccurrences(memberIds), user);
      var may := PresentAs(s, (c, user), ADMIN) || PresentAs(s, (c, user), OWNER);
      var n := BeforeBlocked(s, user, ids);
      && s'.conversations == s.conversations
      && (if GroupAt(s, c) && may && ids != [] && |PresentRows(s.participants, c)| + |ids| <= 256
             && forall id :: id in ids ==> id in s.users
          then
            && reply == (if n == |ids| then Done else Forbidden)
            && RowOf(s'.participants, k) ==
              if k.0 == c && k.1 in ids[..n] && !TakesPart(s, k) then Some(Participant(MEMBER, false))
              else RowOf(s.participants, k)
          else s' == s && reply == if GroupAt(s, c) && !may then Forbidden else BadRequest)
  {
    AddEachReaches(s, s.participants, c, user, Except(FirstOccurrences(memberIds), user), k);
  }

  // ----- New conversations -----

  /** Enough known users, none of them blocked: a group of exactly these, all present, with
      the sender as its owner. */
  lemma RowAfterOpeningGroup(s: State, user: UserId, title: string, memberIds: seq<UserId>,
                             k: (ConversationId, UserId))
    ensures
      var (s', reply), all := OpenGroup(s, user, title, memberIds), {user} + Elements(memberIds);
      var ok := title != "" && 2 <= |all| <= 256 && all <= s.users;
      var blocked := exists v :: v in all && v != user && ((user, v) in s.blocks || (v, user) in s.blocks);
      && (reply == BadRequest <==> !ok)
      && (reply == Forbidden <==> ok && blocked)
      && (if ok && !blocked then
            && reply == Opened(|s.conversations|)
            && s'.conversations == s.conversations + [Conversation(GROUP, user, None)]
            && RowOf(s'.participants, k) ==
              if k.0 == |s.conversations| && k.1 in all
              then Some(Participant(if k.1 == user then OWNER else MEMBER, false))
              else RowOf(s.participants, k)
          else s' == s)
  {
    var ids, all := GroupMemberIds(user, memberIds), {user} + Elements(memberIds);
    FirstOccurrencesInOrder([user] + memberIds);
    DistinctElements(ids);
    assert Elements(ids) == all;
    WithMembersHolds(s.participants, |s.conversations|, user, ids);
    assert (exists id :: id in ids && id !in s.users) <==> !(all <= s.users);
    assert forall v :: v in ids <==> v in all;
  }

  /** A direct conversation is refused to oneself, with nobody, and across a block; else it is
      the one there was, untouched, or a new one of exactly these two. */
  lemma RowAfterOpeningDirect(s: State, user: UserId, peer: UserId, k: (ConversationId, UserId))
    requires Inv(s)
    ensures
      var (s', reply), n := OpenDirect(s, user, peer), |s.conversations|;
      && (reply == BadRequest <==> user == peer)
      && (reply == NotFound <==> user != peer && peer !in s.users)
      && (reply == Forbidden <==>
            user != peer && peer in s.users && ((user, peer) in s.blocks || (peer, user) in s.blocks))
      && (s' == s ||
            (&& reply == Opened(n) && |s'.conversations| == n + 1 && s'.conversations[..n] == s.conversations
             && s'.conversations[n].kind == DIRECT
             && RowOf(s'.participants, k) ==
               if k == (n, user) || k == (n, peer) then Some(Participant(MEMBER, false)) else RowOf(s.participants, k)))
  {
    if user != peer && peer in s.users && !Blocked(s, user, peer) {
      OpensOwnConversation(s, user, peer);
    }
  }
}
