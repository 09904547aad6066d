// The messaging service over its tables, one request at a time.
module MessagingService {
  import opened Base
  import opened MessagingState

  class Service {
    var conversations: seq<Conversation>
    var participants: Participants
    var users: set<UserId>
    var blocks: set<(UserId, UserId)>

    ghost function Contents(): State
      reads this
    {
      State(conversations, participants, users, blocks)
    }

    ghost predicate Valid()
      reads this
    {
      Inv(Contents())
    }

    constructor ()
      ensures Valid() && Contents() == EMPTY
    {
      conversations, participants, users, blocks := [], map[], {}, {};
      new;
      EveryRunKeepsInv([]);
    }

    method IsBlocked(u: UserId, v: UserId) returns (yes: bool)
      ensures yes == Blocked(Contents(), u, v)
    {
      return (u, v) in blocks || (v, u) in blocks;
    }

    method CreateDirectConversation(user: UserId, peer: UserId) returns (reply: Reply)
      requires Valid()
      modifies this
      ensures Valid()
      ensures (Contents(), reply) == Apply(old(Contents()), CreateDirect(user, peer))
    {
      ApplyKeepsInv(Contents(), CreateDirect(user, peer));
      if user == peer {
        return BadRequest;
      }
      if peer !in users {
        return NotFound;
      }
      var blocked := IsBlocked(user, peer);
      if blocked {
        return Forbidden;
      }
      var directPairKey := BuildDirectPairKey(user, peer);
      var existing := FindDirect(conversations, directPairKey);
      if existing.Some? {
        return if Present(participants, existing.value, user) then Opened(existing.value) else Forbidden;
      }
      var id := |conversations|;
      conversations := conversations + [Conversation(DIRECT, user, Some(directPairKey))];
      participants := participants[(id, user) := Participant(MEMBER, false)];
      participants := participants[(id, peer) := Participant(MEMBER, false)];
      return Opened(id);
    }

    method CreateGroupConversation(user: UserId, trimmedTitle: string, memberIds: seq<UserId>) returns (reply: Reply)
      requires Valid()
      modifies this
      ensures Valid()
      ensures (Contents(), reply) == Apply(old(Contents()), CreateGroup(user, trimmedTitle, memberIds))
    {
      ghost var s := Contents();
      ApplyKeepsInv(s, CreateGroup(user, trimmedTitle, memberIds));
      if trimmedTitle == "" {
        return BadRequest;
      }
      var ids := GroupMemberIds(user, memberIds);
      if |ids| < 2 || |ids| > MAX_GROUP_MEMBERS {
        return BadRequest;
      }
      if exists id :: id in ids && id !in users {
        return BadRequest;
      }
      var blocked := AnyBlocked(user, ids);
      if blocked {
        return Forbidden;
      }
      var id := |conversations|;
      conversations := conversations + [Conversation(GROUP, user, None)];
      SaveMembers(id, user, ids);
      return Opened(id);
    }

    method AnyBlocked(user: UserId, ids: seq<UserId>) returns (yes: bool)
      ensures yes <==> exists id :: id in ids && id != user && Blocked(Contents(), user, id)
    {
      for i := 0 to |ids|
        invariant forall j :: 0 <= j < i ==> ids[j] == user || !Blocked(Contents(), user, ids[j])
      {
        if ids[i] != user {
          var blocked := IsBlocked(user, ids[i]);
          if blocked {
            return true;
          }
        }
      }
      return false;
    }

    method SaveMembers(c: ConversationId, user: UserId, ids: seq<UserId>)
      modifies this`participants
      ensures participants == WithMembers(old(participants), c, user, ids)
    {
      for i := 0 to |ids|
        invariant participants == WithMembers(old(participants), c, user, ids[..i])
      {
        assert ids[..i + 1][..i] == ids[..i];
        participants := participants[(c, ids[i]) := Participant(if ids[i] == user then OWNER else MEMBER, false)];
      }
      assert ids[..|ids|] == ids;
    }

    method AddGroupMembers(user: UserId, c: ConversationId, memberIds: seq<UserId>) returns (reply: Reply)
      requires Valid()
      modifies this
      ensures Valid()
      ensures (Contents(), reply) == Apply(old(Contents()), AddMembers(user, c, memberIds))
    {
      ghost var s := Contents();
      ApplyKeepsInv(s, AddMembers(user, c, memberIds));
      if c >= |conversations| || conversations[c].kind != GROUP {
        return BadRequest;
      }
      if !AdminOrOwner(participants, c, user) {
        return Forbidden;
      }
      var ids := Except(FirstOccurrences(memberIds), user);
      if ids == [] {
        return BadRequest;
      }
      if |PresentRows(participants, c)| + |ids| > MAX_GROUP_MEMBERS {
        return BadRequest;
      }
      if exists id :: id in ids && id !in users {
        return BadRequest;
      }
      reply := AddLoop(user, c, ids);
    }

    /** The loop that may throw midway, leaving what it saved. */
    method AddLoop(user: UserId, c: ConversationId, ids: seq<UserId>) returns (reply: Reply)
      modifies this`participants
      ensures (participants, reply) == AddEach(old(Contents()), old(participants), c, user, ids)
    {
      ghost var s := Contents();
      for i := 0 to |ids|
        invariant (participants, Done) == AddEach(s, s.participants, c, user, ids[..i])
        invariant blocks == s.blocks
      {
        assert ids[..i + 1][..i] == ids[..i];
        var blocked := IsBlocked(user, ids[i]);
        if blocked {
          ThrowStops(s, s.participants, c, user, ids, i + 1);
          return Forbidden;
        }
        if !Present(participants, c, ids[i]) {
          participants := participants[(c, ids[i]) := Participant(MEMBER, false)];
        }
      }
      assert ids[..|ids|] == ids;
      return Done;
    }

    method RemoveParticipant(actor: UserId, c: ConversationId, target: UserId) returns (reply: Reply)
      requires Valid()
      modifies this
      ensures Valid()
      ensures (Contents(), reply) == Apply(old(Contents()), Op.RemoveParticipant(actor, c, target))
    {
      ApplyKeepsInv(Contents(), Op.RemoveParticipant(actor, c, target));
      if c >= |conversations| || conversations[c].kind != GROUP {
        return BadRequest;
      }
      if actor != target && !AdminOrOwner(participants, c, actor) {
        return Forbidden;
      }
      if !Present(participants, c, target) {
        return NotFound;
      }
      if participants[(c, target)].role == OWNER && actor != target {
        return Forbidden;
      }
      if participants[(c, target)].role == OWNER && actor == target {
        return BadRequest;
      }
      participants := participants[(c, target) := participants[(c, target)].(left := true)];
      return Done;
    }

    method UpdateParticipantRole(actor: UserId, c: ConversationId, target: UserId, role: AssignableRole)
      returns (reply: Reply)
      requires Valid()
      modifies this
      ensures Valid()
      ensures (Contents(), reply) == Apply(old(Contents()), UpdateRole(actor, c, target, role))
    {
      ApplyKeepsInv(Contents(), UpdateRole(actor, c, target, role));
      if c >= |conversations| || conversations[c].kind != GROUP {
        return BadRequest;
      }
      if !AdminOrOwner(participants, c, actor) || participants[(c, actor)].role != OWNER {
        return Forbidden;
      }
      if !Present(participants, c, target) {
        return NotFound;
      }
      if participants[(c, target)].role == OWNER {
        return BadRequest;
      }
      participants := participants[(c, target) := participants[(c, target)].(role := role)];
      return Done;
    }
  }

  /** Once the loop has thrown, the ids behind change nothing. */
  lemma {:induction false} ThrowStops(s: State, ps: Participants, c: ConversationId, user: UserId, ids: seq<UserId>,
                                      n: nat)
    requires n <= |ids| && AddEach(s, ps, c, user, ids[..n]).1 != Done
    ensures AddEach(s, ps, c, user, ids) == AddEach(s, ps, c, user, ids[..n])
  {
    if n == |ids| {
      assert ids[..n] == ids;
    } else {
      var front := ids[..|ids| - 1];
      assert front[..n] == ids[..n];
      ThrowStops(s, ps, c, user, front, n);
    }
  }
}
