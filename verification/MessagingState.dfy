// Conversations and their participants: one direct conversation per pair of users, and
// group conversations with a size limit and one owner.
module MessagingState {
  import opened Base

  // ----- The key of a pair -----

  /** `a <= b` by code units, as `sort()` compares. */
  predicate LexLeq(a: string, b: string) {
    if a == "" then true
    else if b == "" then false
    else if a[0] == b[0] then LexLeq(a[1..], b[1..])
    else a[0] < b[0]
  }

  /** `[userA, userB].sort().join(':')` */
  function BuildDirectPairKey(a: string, b: string): string {
    if LexLeq(a, b) then a + ":" + b else b + ":" + a
  }

  lemma {:induction false} LexLeqIsTotalOrder(a: string, b: string)
    ensures LexLeq(a, b) || LexLeq(b, a)
    ensures LexLeq(a, b) && LexLeq(b, a) ==> a == b
  {
    if a == "" || b == "" {
    } else if a[0] == b[0] {
      LexLeqIsTotalOrder(a[1..], b[1..]);
      assert a == [a[0]] + a[1..] && b == [b[0]] + b[1..];
    }
  }

  /** Symmetric, and injective on unordered pairs of ids without a colon. */
  lemma PairKeyNamesThePair(a: string, b: string, c: string, d: string)
    requires ':' !in a && ':' !in b && ':' !in c && ':' !in d
    ensures BuildDirectPairKey(a, b) == BuildDirectPairKey(c, d) <==> {a, b} == {c, d}
  {
    var (p, q) := if LexLeq(a, b) then (a, b) else (b, a);
    var (r, s) := if LexLeq(c, d) then (c, d) else (d, c);
    if BuildDirectPairKey(a, b) == BuildDirectPairKey(c, d) {
      SplitAtColon(p, q, r, s);
    }
    if {a, b} == {c, d} {
      PairKeyIsSymmetric(a, b);
      assert a in {c, d} && b in {c, d} && c in {a, b} && d in {a, b};
    }
  }

  lemma PairKeyIsSymmetric(a: string, b: string)
    ensures BuildDirectPairKey(a, b) == BuildDirectPairKey(b, a)
  {
    LexLeqIsTotalOrder(a, b);
  }

  /** With a colon in an id, two different pairs can share a key. */
  lemma ColonsCollide()
    ensures BuildDirectPairKey("a", "b:c") == BuildDirectPairKey("a:b", "c")
    ensures {"a", "b:c"} != {"a:b", "c"}
  {
    assert BuildDirectPairKey("a", "b:c") == "a:b:c";
    assert BuildDirectPairKey("a:b", "c") == "a:b:c";
    assert "a" !in {"a:b", "c"} by {
      assert |"a"| != |"a:b"|;
      assert "a"[0] != "c"[0];
    }
  }

  // ----- State -----

  /** User ids are uuids. */
  type UserId = u: string | ':' !in u witness ""
  type ConversationId = nat

  datatype Kind = DIRECT | GROUP
  datatype Role = MEMBER | ADMIN | OWNER
  type AssignableRole = r: Role | r != OWNER witness MEMBER

  datatype Conversation = Conversation(kind: Kind, createdBy: UserId, pairKey: Option<string>)

  datatype Participant = Participant(role: Role, left: bool)

  type Participants = map<(ConversationId, UserId), Participant>

  /** `users` and `blocks` belong to other services. */
  datatype State = State(conversations: seq<Conversation>, participants: Participants,
                         users: set<UserId>, blocks: set<(UserId, UserId)>)

  const EMPTY := State([], map[], {}, {})
  const MAX_GROUP_MEMBERS := 256

  datatype Op =
    | CreateDirect(user: UserId, peer: UserId)
    | CreateGroup(user: UserId, trimmedTitle: string, memberIds: seq<UserId>)
    | AddMembers(user: UserId, conversation: ConversationId, memberIds: seq<UserId>)
    | RemoveParticipant(actor: UserId, conversation: ConversationId, target: UserId)
    | UpdateRole(actor: UserId, conversation: ConversationId, target: UserId, role: AssignableRole)
    | Environment(users: set<UserId>, blocks: set<(UserId, UserId)>)

  datatype Reply = Done | Opened(id: ConversationId) | BadRequest | Forbidden | NotFound

  predicate Blocked(s: State, u: UserId, v: UserId) {
    (u, v) in s.blocks || (v, u) in s.blocks
  }

  predicate Present(ps: Participants, c: ConversationId, u: UserId) {
    (c, u) in ps && !ps[(c, u)].left
  }

  predicate AdminOrOwner(ps: Participants, c: ConversationId, u: UserId) {
    Present(ps, c, u) && ps[(c, u)].role != MEMBER
  }

  function PresentRows(ps: Participants, c: ConversationId): set<(ConversationId, UserId)> {
    set k | k in ps && k.0 == c && !ps[k].left
  }

  function FindDirect(cs: seq<Conversation>, key: string): (at: Option<ConversationId>)
    ensures at.Some? ==> at.value < |cs| && cs[at.value].kind == DIRECT && cs[at.value].pairKey == Some(key)
    ensures at.None? ==> forall c :: c in cs ==> !(c.kind == DIRECT && c.pairKey == Some(key))
  {
    FirstWhere(cs, (c: Conversation) => c.kind == DIRECT && c.pairKey == Some(key))
  }

  // ----- Operations -----

  function OpenDirect(s: State, user: UserId, peer: UserId): (State, Reply) {
    if user == peer then (s, BadRequest)
    else if peer !in s.users then (s, NotFound)
    else if Blocked(s, user, peer) then (s, Forbidden)
    else
      var key, n := BuildDirectPairKey(user, peer), |s.conversations|;
      var existing := FindDirect(s.conversations, key);
      if existing.Some? then
        // getConversation refuses whoever does not take part
        (s, if Present(s.participants, existing.value, user) then Opened(existing.value) else Forbidden)
      else
        (s.(conversations := s.conversations + [Conversation(DIRECT, user, Some(key))],
            participants := s.participants[(n, user) := Participant(MEMBER, false)]
                                          [(n, peer) := Participant(MEMBER, false)]),
         Opened(n))
  }

  function GroupMemberIds(user: UserId, memberIds: seq<UserId>): seq<UserId> {
    FirstOccurrences([user] + memberIds)
  }

  function WithMembers(ps: Participants, c: ConversationId, owner: UserId, ids: seq<UserId>): Participants {
    if ids == [] then ps
    else
      var id := ids[|ids| - 1];
      WithMembers(ps, c, owner, ids[..|ids| - 1])[(c, id) := Participant(if id == owner then OWNER else MEMBER, false)]
  }

  function OpenGroup(s: State, user: UserId, trimmedTitle: string, memberIds: seq<UserId>): (State, Reply) {
    var ids, n := GroupMemberIds(user, memberIds), |s.conversations|;
    if trimmedTitle == "" then (s, BadRequest)
    else if |ids| < 2 || |ids| > MAX_GROUP_MEMBERS then (s, BadRequest)
    else if exists id :: id in ids && id !in s.users then (s, BadRequest)
    else if exists id :: id in ids && id != user && Blocked(s, user, id) then (s, Forbidden)
    else
      (s.(conversations := s.conversations + [Conversation(GROUP, user, None)],
          participants := WithMembers(s.participants, n, user, ids)),
       Opened(n))
  }

  function Except(ids: seq<UserId>, user: UserId): seq<UserId> {
    if ids == [] then []
    else
      var rest, id := Except(ids[..|ids| - 1], user), ids[|ids| - 1];
      if id == user then rest else rest + [id]
  }

  /** The add loop: it stops at the first blocked id, and what it saved stays saved. */
  function AddEach(s: State, ps: Participants, c: ConversationId, user: UserId, ids: seq<UserId>): (Participants, Reply)
  {
    if ids == [] then (ps, Done)
    else
      var (ps', r) := AddEach(s, ps, c, user, ids[..|ids| - 1]);
      var id := ids[|ids| - 1];
      if r != Done then (ps', r)
      else if Blocked(s, user, id) then (ps', Forbidden)
      else if Present(ps', c, id) then (ps', Done)
      else (ps'[(c, id) := Participant(MEMBER, false)], Done)
  }

  predicate IsGroup(s: State, c: ConversationId) {
    c < |s.conversations| && s.conversations[c].kind == GROUP
  }

  function Invite(s: State, user: UserId, c: ConversationId, memberIds: seq<UserId>): (State, Reply) {
    var ids := Except(FirstOccurrences(memberIds), user);
    if !IsGroup(s, c) then (s, BadRequest)
    else if !AdminOrOwner(s.participants, c, user) then (s, Forbidden)
    else if ids == [] then (s, BadRequest)
    else if |PresentRows(s.participants, c)| + |ids| > MAX_GROUP_MEMBERS then (s, BadRequest)
    else if exists id :: id in ids && id !in s.users then (s, BadRequest)
    else
      var (ps, r) := AddEach(s, s.participants, c, user, ids);
      (s.(participants := ps), r)
  }

  function Remove(s: State, actor: UserId, c: ConversationId, target: UserId): (State, Reply) {
    if !IsGroup(s, c) then (s, BadRequest)
    else if actor != target && !AdminOrOwner(s.participants, c, actor) then (s, Forbidden)
    else if !Present(s.participants, c, target) then (s, NotFound)
    else if s.participants[(c, target)].role == OWNER then (s, if actor != target then Forbidden else BadRequest)
    else (s.(participants := s.participants[(c, target) := s.participants[(c, target)].(left := true)]), Done)
  }

  function ChangeRole(s: State, actor: UserId, c: ConversationId, target: UserId, role: AssignableRole): (State, Reply)
  {
    if !IsGroup(s, c) then (s, BadRequest)
    else if !AdminOrOwner(s.participants, c, actor) then (s, Forbidden)
    else if s.participants[(c, actor)].role != OWNER then (s, Forbidden)
    else if !Present(s.participants, c, target) then (s, NotFound)
    else if s.participants[(c, target)].role == OWNER then (s, BadRequest)
    else (s.(participants := s.participants[(c, target) := s.participants[(c, target)].(role := role)]), Done)
  }

  function Apply(s: State, op: Op): (State, Reply) {
    match op
    case CreateDirect(user, peer) => OpenDirect(s, user, peer)
    case CreateGroup(user, title, memberIds) => OpenGroup(s, user, title, memberIds)
    case AddMembers(user, c, memberIds) => Invite(s, user, c, memberIds)
    case RemoveParticipant(actor, c, target) => Remove(s, actor, c, target)
    case UpdateRole(actor, c, target, role) => ChangeRole(s, actor, c, target, role)
    case Environment(users, blocks) => (s.(users := users, blocks := blocks), Done)
  }

  function Run(s: State, ops: seq<Op>): State {
    if ops == [] then s else Apply(Run(s, ops[..|ops| - 1]), ops[|ops| - 1]).0
  }

  // ----- What every run keeps -----

  /** At most 256 present, and exactly one OWNER row: the creator's, who has not left. */
  ghost predicate GroupOk(ps: Participants, c: ConversationId, creator: UserId) {
    && |PresentRows(ps, c)| <= MAX_GROUP_MEMBERS
    && (c, creator) in ps && ps[(c, creator)] == Participant(OWNER, false)
    && forall u :: (c, u) in ps && ps[(c, u)].role == OWNER ==> u == creator
  }

  /** Two users take part, neither has left, and the key is theirs. */
  ghost predicate DirectOk(ps: Participants, c: ConversationId, key: Option<string>) {
    exists u: UserId, v: UserId ::
      && u != v && key == Some(BuildDirectPairKey(u, v))
      && forall w: UserId :: (c, w) in ps <==> w == u || w == v
  }

  ghost predicate NobodyLeft(ps: Participants, c: ConversationId) {
    forall w :: (c, w) in ps ==> !ps[(c, w)].left
  }

  ghost predicate ConversationOk(s: State, c: ConversationId)
    requires c < |s.conversations|
  {
    var conv := s.conversations[c];
    if conv.kind == GROUP then GroupOk(s.participants, c, conv.createdBy)
    else DirectOk(s.participants, c, conv.pairKey) && NobodyLeft(s.participants, c)
  }

  ghost predicate UniquePairKeys(s: State) {
    forall i, j :: 0 <= i < j < |s.conversations| && s.conversations[i].kind == s.conversations[j].kind == DIRECT ==>
      s.conversations[i].pairKey != s.conversations[j].pairKey
  }

  ghost predicate Inv(s: State) {
    && (forall k :: k in s.participants ==> k.0 < |s.conversations|)
    && (forall c :: 0 <= c < |s.conversations| ==> ConversationOk(s, c))
    && UniquePairKeys(s)
  }

  ghost predicate SameRows(ps: Participants, ps': Participants, c: ConversationId) {
    forall u: UserId :: ((c, u) in ps <==> (c, u) in ps') && ((c, u) in ps ==> ps'[(c, u)] == ps[(c, u)])
  }

  /** The rows of other conversations keep a conversation as it was. */
  lemma OtherRowsDoNotMatter(ps: Participants, ps': Participants, c: ConversationId, conv: Conversation)
    requires SameRows(ps, ps', c)
    ensures GroupOk(ps, c, conv.createdBy) ==> GroupOk(ps', c, conv.createdBy)
    ensures DirectOk(ps, c, conv.pairKey) ==> DirectOk(ps', c, conv.pairKey)
    ensures NobodyLeft(ps, c) ==> NobodyLeft(ps', c)
  {
    assert PresentRows(ps, c) == PresentRows(ps', c);
    if DirectOk(ps, c, conv.pairKey) {
      var u: UserId, v: UserId :| u != v && conv.pairKey == Some(BuildDirectPairKey(u, v))
        && forall w: UserId :: (c, w) in ps <==> w == u || w == v;
      assert forall w: UserId :: (c, w) in ps' <==> w == u || w == v;
    }
  }

  /** A step that writes rows of one group only, and keeps that group right. */
  lemma OneGroupChanged(s: State, ps': Participants, c: ConversationId)
    requires Inv(s) && IsGroup(s, c)
    requires forall d :: d != c ==> SameRows(s.participants, ps', d)
    requires forall k :: k in ps' ==> k in s.participants || k.0 == c
    requires GroupOk(ps', c, s.conversations[c].createdBy)
    ensures Inv(s.(participants := ps'))
  {
    var s' := s.(participants := ps');
    forall d | 0 <= d < |s.conversations|
      ensures ConversationOk(s', d)
    {
      assert ConversationOk(s, d);
      if d != c {
        OtherRowsDoNotMatter(s.participants, ps', d, s.conversations[d]);
      }
    }
  }

  lemma RowWritten(ps: Participants, c: ConversationId, u: UserId, p: Participant)
    ensures PresentRows(ps[(c, u) := p], c) ==
      if p.left then PresentRows(ps, c) - {(c, u)} else PresentRows(ps, c) + {(c, u)}
  {
  }

  /** However far the add loop gets: it adds at most one present row per id, and no owner. */
  lemma {:induction false} AddEachAdds(s: State, ps: Participants, c: ConversationId, user: UserId, ids: seq<UserId>,
                                       owner: UserId)
    requires Present(ps, c, owner)
    ensures
      var ps' := AddEach(s, ps, c, user, ids).0;
      && |PresentRows(ps', c)| <= |PresentRows(ps, c)| + |ids|
      && (forall d :: d != c ==> SameRows(ps, ps', d))
      && (forall k :: k in ps' ==> k in ps || k.0 == c)
      && (c, owner) in ps' && ps'[(c, owner)] == ps[(c, owner)]
      && (forall u :: (c, u) in ps' && ps'[(c, u)].role == OWNER ==> (c, u) in ps && ps[(c, u)].role == OWNER)
  {
    if ids == [] {
    } else {
      var before, after := AddEach(s, ps, c, user, ids[..|ids| - 1]).0, AddEach(s, ps, c, user, ids).0;
      AddEachAdds(s, ps, c, user, ids[..|ids| - 1], owner);
      RowWritten(before, c, ids[|ids| - 1], Participant(MEMBER, false));
      forall d | d != c
        ensures SameRows(ps, after, d)
      {
        assert SameRows(ps, before, d);
      }
    }
  }

  lemma InviteKeepsInv(s: State, user: UserId, c: ConversationId, memberIds: seq<UserId>)
    requires Inv(s)
    ensures Inv(Invite(s, user, c, memberIds).0)
  {
    if Invite(s, user, c, memberIds).0 != s {
      assert ConversationOk(s, c);
      var ids := Except(FirstOccurrences(memberIds), user);
      AddEachAdds(s, s.participants, c, user, ids, s.conversations[c].createdBy);
      OneGroupChanged(s, AddEach(s, s.participants, c, user, ids).0, c);
    }
  }

  lemma RemoveKeepsInv(s: State, actor: UserId, c: ConversationId, target: UserId)
    requires Inv(s)
    ensures Inv(Remove(s, actor, c, target).0)
  {
    var s' := Remove(s, actor, c, target).0;
    if s' != s {
      assert ConversationOk(s, c);
      RowWritten(s.participants, c, target, s'.participants[(c, target)]);
      OneGroupChanged(s, s'.participants, c);
    }
  }

  lemma ChangeRoleKeepsInv(s: State, actor: UserId, c: ConversationId, target: UserId, role: AssignableRole)
    requires Inv(s)
    ensures Inv(ChangeRole(s, actor, c, target, role).0)
  {
    var s' := ChangeRole(s, actor, c, target, role).0;
    if s' != s {
      assert ConversationOk(s, c);
      RowWritten(s.participants, c, target, s'.participants[(c, target)]);
      assert PresentRows(s'.participants, c) == PresentRows(s.participants, c);
      OneGroupChanged(s, s'.participants, c);
    }
  }

  /** Appending a conversation whose rows are all new. */
  lemma ConversationAdded(s: State, conv: Conversation, ps': Participants)
    requires Inv(s)
    requires forall k :: k in ps' ==> k.0 <= |s.conversations|
    requires forall d :: d != |s.conversations| ==> SameRows(s.participants, ps', d)
    requires if conv.kind == GROUP then GroupOk(ps', |s.conversations|, conv.createdBy)
             else DirectOk(ps', |s.conversations|, conv.pairKey) && NobodyLeft(ps', |s.conversations|)
    requires conv.kind == DIRECT ==> forall c :: c in s.conversations ==>
      !(c.kind == DIRECT && c.pairKey == conv.pairKey)
    ensures Inv(s.(conversations := s.conversations + [conv], participants := ps'))
  {
    var s' := s.(conversations := s.conversations + [conv], participants := ps');
    forall d | 0 <= d < |s'.conversations|
      ensures ConversationOk(s', d)
    {
      if d < |s.conversations| {
        assert ConversationOk(s, d);
        OtherRowsDoNotMatter(s.participants, ps', d, s.conversations[d]);
      }
    }
  }

  lemma OpenDirectKeepsInv(s: State, user: UserId, peer: UserId)
    requires Inv(s)
    ensures Inv(OpenDirect(s, user, peer).0)
  {
    var s', n := OpenDirect(s, user, peer).0, |s.conversations|;
    if s' != s {
      assert forall w: UserId :: (n, w) in s'.participants <==> w == user || w == peer;
      ConversationAdded(s, s'.conversations[n], s'.participants);
    }
  }

  lemma {:induction false} WithMembersHolds(ps: Participants, c: ConversationId, owner: UserId, ids: seq<UserId>)
    ensures
      var ps' := WithMembers(ps, c, owner, ids);
      && (forall k :: k in ps' <==> k in ps || (k.0 == c && k.1 in ids))
      && (forall k :: k in ps' && k.0 == c && k.1 in ids ==>
        ps'[k] == Participant(if k.1 == owner then OWNER else MEMBER, false))
      && (forall k :: k in ps' && !(k.0 == c && k.1 in ids) ==> ps'[k] == ps[k])
  {
    if ids == [] {
    } else {
      WithMembersHolds(ps, c, owner, ids[..|ids| - 1]);
      assert ids == ids[..|ids| - 1] + [ids[|ids| - 1]];
    }
  }

  lemma {:induction false} AtMostOneRowPerId(ps: Participants, c: ConversationId, owner: UserId, ids: seq<UserId>)
    ensures |PresentRows(WithMembers(ps, c, owner, ids), c)| <= |PresentRows(ps, c)| + |ids|
  {
    if ids == [] {
    } else {
      var id := ids[|ids| - 1];
      AtMostOneRowPerId(ps, c, owner, ids[..|ids| - 1]);
      var added := Participant(if id == owner then OWNER else MEMBER, false);
      RowWritten(WithMembers(ps, c, owner, ids[..|ids| - 1]), c, id, added);
    }
  }

  lemma OpenGroupKeepsInv(s: State, user: UserId, title: string, memberIds: seq<UserId>)
    requires Inv(s)
    ensures Inv(OpenGroup(s, user, title, memberIds).0)
  {
    var s', n, ids := OpenGroup(s, user, title, memberIds).0, |s.conversations|, GroupMemberIds(user, memberIds);
    if s' != s {
      FirstOccurrencesInOrder([user] + memberIds);
      assert user in [user] + memberIds;
      WithMembersHolds(s.participants, n, user, ids);
      AtMostOneRowPerId(s.participants, n, user, ids);
      assert PresentRows(s.participants, n) == {};
      ConversationAdded(s, Conversation(GROUP, user, None), s'.participants);
    }
  }

  lemma ApplyKeepsInv(s: State, op: Op)
    requires Inv(s)
    ensures Inv(Apply(s, op).0)
  {
    match op
    case CreateDirect(user, peer) => OpenDirectKeepsInv(s, user, peer);
    case CreateGroup(user, title, memberIds) => OpenGroupKeepsInv(s, user, title, memberIds);
    case AddMembers(user, c, memberIds) => InviteKeepsInv(s, user, c, memberIds);
    case RemoveParticipant(actor, c, target) => RemoveKeepsInv(s, actor, c, target);
    case UpdateRole(actor, c, target, role) => ChangeRoleKeepsInv(s, actor, c, target, role);
    case Environment(users, blocks) =>
      forall c | 0 <= c < |s.conversations|
        ensures ConversationOk(s.(users := users, blocks := blocks), c)
      {
        assert ConversationOk(s, c);
      }
  }

  lemma {:induction false} EveryRunKeepsInv(ops: seq<Op>)
    ensures Inv(Run(EMPTY, ops))
  {
    if ops == [] {
    } else {
      EveryRunKeepsInv(ops[..|ops| - 1]);
      ApplyKeepsInv(Run(EMPTY, ops[..|ops| - 1]), ops[|ops| - 1]);
    }
  }

  /** In every run, add loops cut short included: a group conversation has at most 256
      present participants, and exactly one owner, who is present. */
  lemma GroupsStayBounded(ops: seq<Op>, c: ConversationId)
    requires IsGroup(Run(EMPTY, ops), c)
    ensures GroupOk(Run(EMPTY, ops).participants, c, Run(EMPTY, ops).conversations[c].createdBy)
  {
    EveryRunKeepsInv(ops);
    assert ConversationOk(Run(EMPTY, ops), c);
  }

  lemma {:induction false} AddEachRoles(s: State, ps: Participants, c: ConversationId, user: UserId, ids: seq<UserId>,
                                        k: (ConversationId, UserId))
    requires k in ps
    ensures
      var after := AddEach(s, ps, c, user, ids).0;
      && k in after
      && (after[k] == ps[k] || (k.0 == c && k.1 in ids && ps[k].left && after[k] == Participant(MEMBER, false)))
  {
    if ids == [] {
    } else {
      AddEachRoles(s, ps, c, user, ids[..|ids| - 1], k);
    }
  }

  /** A role changes only because the creator asked for it, and to the role asked for, or
      because somebody who had left was added again, as a member. */
  lemma RolesFollowTheOwner(s: State, op: Op, k: (ConversationId, UserId))
    requires Inv(s) && k in s.participants
    requires k in Apply(s, op).0.participants && Apply(s, op).0.participants[k].role != s.participants[k].role
    ensures
      var p, p' := s.participants[k], Apply(s, op).0.participants[k];
      || (op.UpdateRole? && op.conversation == k.0 && op.target == k.1 && k.0 < |s.conversations|
          && op.actor == s.conversations[k.0].createdBy && p' == p.(role := op.role))
      || (op.AddMembers? && op.conversation == k.0 && k.1 in op.memberIds && p.left && p' == Participant(MEMBER, false))
  {
    match op
    case CreateGroup(user, title, memberIds) =>
      WithMembersHolds(s.participants, |s.conversations|, user, GroupMemberIds(user, memberIds));
    case AddMembers(user, c, memberIds) =>
      AddEachRoles(s, s.participants, c, user, Except(FirstOccurrences(memberIds), user), k);
      ExceptIsPart(FirstOccurrences(memberIds), user);
      FirstOccurrencesInOrder(memberIds);
    case UpdateRole(actor, c, target, role) =>
      if c < |s.conversations| {
        assert ConversationOk(s, c);
      }
    case _ =>
  }

  lemma {:induction false} ExceptIsPart(ids: seq<UserId>, user: UserId)
    ensures forall id :: id in Except(ids, user) ==> id in ids
  {
    if ids == [] {
    } else {
      ExceptIsPart(ids[..|ids| - 1], user);
    }
  }

  /** In every run at most one direct conversation holds a given unordered pair. */
  lemma OneDirectConversationPerPair(ops: seq<Op>, c: ConversationId, d: ConversationId, u: UserId, v: UserId)
    requires c < |Run(EMPTY, ops).conversations| && d < |Run(EMPTY, ops).conversations| && u != v
    requires Run(EMPTY, ops).conversations[c].kind == DIRECT && Run(EMPTY, ops).conversations[d].kind == DIRECT
    requires (c, u) in Run(EMPTY, ops).participants && (c, v) in Run(EMPTY, ops).participants
    requires (d, u) in Run(EMPTY, ops).participants && (d, v) in Run(EMPTY, ops).participants
    ensures c == d
  {
    var s := Run(EMPTY, ops);
    EveryRunKeepsInv(ops);
    DirectKeyIsOf(s, c, u, v);
    DirectKeyIsOf(s, d, u, v);
  }

  lemma DirectKeyIsOf(s: State, c: ConversationId, u: UserId, v: UserId)
    requires Inv(s) && c < |s.conversations| && s.conversations[c].kind == DIRECT
    requires (c, u) in s.participants && (c, v) in s.participants && u != v
    ensures s.conversations[c].pairKey == Some(BuildDirectPairKey(u, v))
    ensures forall w: UserId :: (c, w) in s.participants <==> w == u || w == v
  {
    assert ConversationOk(s, c);
    var x: UserId, y: UserId :| x != y && s.conversations[c].pairKey == Some(BuildDirectPairKey(x, y))
      && forall w: UserId :: (c, w) in s.participants <==> w == x || w == y;
    PairKeyIsSymmetric(x, y);
  }

  /** Opening a direct conversation never lands in somebody else's: whenever the guards
      pass, the answer is the conversation of exactly these two users, and both are in it. */
  lemma OpensOwnConversation(s: State, user: UserId, peer: UserId)
    requires Inv(s) && user != peer && peer in s.users && !Blocked(s, user, peer)
    ensures
      var (s', r) := OpenDirect(s, user, peer);
      && r.Opened? && r.id < |s'.conversations| && s'.conversations[r.id].kind == DIRECT
      && Present(s'.participants, r.id, user) && Present(s'.participants, r.id, peer)
      && forall w: UserId :: (r.id, w) in s'.participants <==> w == user || w == peer
  {
    var existing := FindDirect(s.conversations, BuildDirectPairKey(user, peer));
    if existing.Some? {
      var c := existing.value;
      assert ConversationOk(s, c);
      var x: UserId, y: UserId :| x != y && s.conversations[c].pairKey == Some(BuildDirectPairKey(x, y))
        && forall w: UserId :: (c, w) in s.participants <==> w == x || w == y;
      PairKeyNamesThePair(user, peer, x, y);
      assert user in {x, y} && peer in {x, y};
    }
  }
}
