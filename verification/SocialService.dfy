// The group and post services over their tables, one request at a time.
module SocialService {
  import opened Base
  import opened HashtagUtil
  import opened HashtagIndex
  import opened SocialState
  import opened GroupInvariants
  import SlugGenerator

  class Service {
    const alphabet: Alphabet
    const hashtagIndex: Index
    var groups: seq<Group>
    var members: map<(GroupId, UserId), Member>
    var posts: seq<Post>
    ghost var createdWith: seq<seq<TagLike>>
    ghost var approvedLater: set<PostId>

    ghost function Contents(): State
      reads this, hashtagIndex
    {
      State(groups, members, posts, hashtagIndex.rows, createdWith, approvedLater)
    }

    ghost predicate Valid()
      reads this, hashtagIndex
    {
      Proper(alphabet) && Inv(alphabet, Contents())
    }

    constructor (a: Alphabet)
      requires Proper(a)
      ensures alphabet == a && fresh(hashtagIndex)
      ensures Valid() && Contents() == EMPTY
    {
      alphabet := a;
      hashtagIndex := new Index();
      groups, members, posts, createdWith, approvedLater := [], map[], [], [], {};
      new;
      EveryRunKeepsInv(a, []);
    }

    method CreateCommunity(user: UserId, name: string, privacy: Option<GroupPrivacy>, requiresApproval: Option<bool>)
      returns (reply: Reply)
      requires Valid()
      modifies this
      ensures Valid()
      ensures (Contents(), reply) ==
        Apply(alphabet, old(Contents()), Op.CreateCommunity(user, name, privacy, requiresApproval))
    {
      StepKeepsInv(alphabet, Contents(), Op.CreateCommunity(user, name, privacy, requiresApproval));
      if Trim(alphabet, name) == "" {
        return BadRequest;
      }
      var slug, _ := SlugGenerator.GenerateUniqueSlug(alphabet.lower(Trim(alphabet, name)), SlugsInUse(groups));
      SaveGroup(Group(slug, COMMUNITY, privacy.GetOr(PUBLIC_GROUP), requiresApproval.GetOr(false), user, 1, 0, false));
      return Done;
    }

    method CreateFanpage(user: UserId, name: string) returns (reply: Reply)
      requires Valid()
      modifies this
      ensures Valid()
      ensures (Contents(), reply) == Apply(alphabet, old(Contents()), Op.CreateFanpage(user, name))
    {
      StepKeepsInv(alphabet, Contents(), Op.CreateFanpage(user, name));
      if Trim(alphabet, name) == "" {
        return BadRequest;
      }
      var slug, _ := SlugGenerator.GenerateUniqueSlug(alphabet.lower(Trim(alphabet, name)), SlugsInUse(groups));
      SaveGroup(Group(slug, FANPAGE, PUBLIC_GROUP, false, user, 1, 0, false));
      return Done;
    }

    /** The group row and its creator's OWNER row. */
    method SaveGroup(g: Group)
      modifies this`groups, this`members
      ensures Contents() == AddGroup(old(Contents()), g)
    {
      groups := groups + [g];
      members := members[(|groups| - 1, g.createdBy) := Member(OWNER, ACTIVE)];
    }

    /** `groupRepo.increment({ id }, 'member_count', n)` */
    method IncrementMembers(g: GroupId, n: int)
      modifies this`groups
      ensures Contents() == AddMembers(old(Contents()), g, n)
    {
      if g < |groups| {
        groups := groups[g := groups[g].(memberCount := groups[g].memberCount + n)];
      }
    }

    /** `groupRepo.increment({ id }, 'post_count', n)` */
    method IncrementPosts(g: GroupId, n: int)
      modifies this`groups
      ensures Contents() == AddPosts(old(Contents()), g, n)
    {
      if g < |groups| {
        groups := groups[g := groups[g].(postCount := groups[g].postCount + n)];
      }
    }

    method JoinGroup(g: GroupId, user: UserId) returns (reply: Reply)
      requires Valid()
      modifies this
      ensures Valid()
      ensures (Contents(), reply) == Apply(alphabet, old(Contents()), Op.JoinGroup(g, user))
    {
      StepKeepsInv(alphabet, Contents(), Op.JoinGroup(g, user));
      if g >= |groups| || groups[g].isArchived {
        return NotFound;
      }
      if (g, user) in members {
        match members[(g, user)].status
        case BANNED => return Forbidden;
        case ACTIVE => return AlreadyMember;
        case PENDING => return JoinPending;
      }
      var isPrivateCommunity := groups[g].groupType == COMMUNITY && groups[g].privacy == PRIVATE_GROUP;
      var status := if isPrivateCommunity && groups[g].createdBy != user then PENDING else ACTIVE;
      members := members[(g, user) := Member(MEMBER, status)];
      if status == ACTIVE {
        IncrementMembers(g, 1);
        return Done;
      }
      return JoinPending;
    }

    method LeaveGroup(g: GroupId, user: UserId) returns (reply: Reply)
      requires Valid()
      modifies this
      ensures Valid()
      ensures (Contents(), reply) == Apply(alphabet, old(Contents()), Op.LeaveGroup(g, user))
    {
      StepKeepsInv(alphabet, Contents(), Op.LeaveGroup(g, user));
      if !((g, user) in members && members[(g, user)].status == ACTIVE) {
        return NotFound;
      }
      if members[(g, user)].role == OWNER {
        return BadRequest;
      }
      members := members - {(g, user)};
      IncrementMembers(g, -1);
      return Done;
    }

    method HasModerator(g: GroupId, user: UserId) returns (yes: bool)
      ensures yes == ActiveModerator(Contents(), g, user)
    {
      return (g, user) in members && members[(g, user)].status == ACTIVE && CanModerate(members[(g, user)].role);
    }

    method ApproveMember(actor: UserId, g: GroupId, target: UserId) returns (reply: Reply)
      requires Valid()
      modifies this
      ensures Valid()
      ensures (Contents(), reply) == Apply(alphabet, old(Contents()), Op.ApproveMember(actor, g, target))
    {
      StepKeepsInv(alphabet, Contents(), Op.ApproveMember(actor, g, target));
      var moderator := HasModerator(g, actor);
      if !moderator {
        return Forbidden;
      }
      if (g, target) !in members || members[(g, target)].status != PENDING {
        return NotFound;
      }
      members := members[(g, target) := members[(g, target)].(status := ACTIVE)];
      IncrementMembers(g, 1);
      if g >= |groups| || groups[g].isArchived {
        return NotFound;
      }
      return Done;
    }

    method UpdateMemberRole(actor: UserId, g: GroupId, target: UserId, role: AssignableRole) returns (reply: Reply)
      requires Valid()
      modifies this
      ensures Valid()
      ensures (Contents(), reply) == Apply(alphabet, old(Contents()), Op.UpdateMemberRole(actor, g, target, role))
    {
      StepKeepsInv(alphabet, Contents(), Op.UpdateMemberRole(actor, g, target, role));
      if !((g, actor) in members && members[(g, actor)].status == ACTIVE && members[(g, actor)].role == OWNER) {
        return Forbidden;
      }
      if !((g, target) in members && members[(g, target)].status == ACTIVE) {
        return NotFound;
      }
      if members[(g, target)].role == OWNER {
        return BadRequest;
      }
      members := members[(g, target) := members[(g, target)].(role := role)];
      return Done;
    }

    method RemoveMember(actor: UserId, g: GroupId, target: UserId) returns (reply: Reply)
      requires Valid()
      modifies this
      ensures Valid()
      ensures (Contents(), reply) == Apply(alphabet, old(Contents()), Op.RemoveMember(actor, g, target))
    {
      StepKeepsInv(alphabet, Contents(), Op.RemoveMember(actor, g, target));
      if actor != target {
        var moderator := HasModerator(g, actor);
        if !moderator {
          return Forbidden;
        }
      }
      if (g, target) !in members {
        return NotFound;
      }
      if members[(g, target)].role == OWNER {
        return BadRequest;
      }
      var wasActive := members[(g, target)].status == ACTIVE;
      members := members[(g, target) := members[(g, target)].(status := BANNED)];
      if wasActive {
        IncrementMembers(g, -1);
      }
      return Done;
    }

    method SavePost(post: Post, manual: seq<TagLike>) returns (id: PostId)
      modifies this`posts, this`createdWith
      ensures id == |old(posts)|
      ensures Contents() == AddPost(old(Contents()), post, manual)
    {
      id := |posts|;
      posts, createdWith := posts + [post], createdWith + [manual];
    }

    method CreateGroupPost(author: UserId, g: GroupId, content: Option<string>, manual: seq<TagLike>)
      returns (reply: Reply)
      requires Valid()
      modifies this, hashtagIndex
      ensures Valid()
      ensures (Contents(), reply) == Apply(alphabet, old(Contents()), Op.CreateGroupPost(author, g, content, manual))
    {
      StepKeepsInv(alphabet, Contents(), Op.CreateGroupPost(author, g, content, manual));
      if g >= |groups| || groups[g].isArchived {
        return NotFound;
      }
      if !((g, author) in members && members[(g, author)].status == ACTIVE) {
        return Forbidden;
      }
      var approvalStatus := if groups[g].requiresPostApproval then AWAITING else APPROVED;
      var id := SavePost(GroupPost(author, g, content, approvalStatus), manual);
      if approvalStatus == APPROVED {
        IncrementPosts(g, 1);
        hashtagIndex.ReindexPostHashtags(alphabet, id, posts[id].content, manual);
      }
      return Done;
    }

    method ApproveGroupPost(actor: UserId, g: GroupId, p: PostId) returns (reply: Reply)
      requires Valid()
      modifies this, hashtagIndex
      ensures Valid()
      ensures (Contents(), reply) == Apply(alphabet, old(Contents()), Op.ApproveGroupPost(actor, g, p))
    {
      StepKeepsInv(alphabet, Contents(), Op.ApproveGroupPost(actor, g, p));
      var moderator := HasModerator(g, actor);
      if !moderator {
        return Forbidden;
      }
      if !(p < |posts| && posts[p].groupId == Some(g) && posts[p].approval == Some(AWAITING) && !posts[p].isDeleted) {
        return NotFound;
      }
      Admit(g, p);
      return Done;
    }

    /** approveGroupPost behind its guards: approve, count, index the content. */
    method Admit(g: GroupId, p: PostId)
      requires Proper(alphabet) && p < |posts|
      modifies this, hashtagIndex
      ensures
        var s := old(Contents());
        var s' := AddPosts(SetPost(s, p, s.posts[p].(approval := Some(APPROVED))), g, 1);
        Contents() == IndexPost(alphabet, s'.(approvedLater := s.approvedLater + {p}), p, [])
    {
      posts := posts[p := posts[p].(approval := Some(APPROVED))];
      approvedLater := approvedLater + {p};
      IncrementPosts(g, 1);
      hashtagIndex.ReindexPostHashtags(alphabet, p, posts[p].content, []);
    }

    method RejectGroupPost(actor: UserId, g: GroupId, p: PostId) returns (reply: Reply)
      requires Valid()
      modifies this
      ensures Valid()
      ensures (Contents(), reply) == Apply(alphabet, old(Contents()), Op.RejectGroupPost(actor, g, p))
    {
      StepKeepsInv(alphabet, Contents(), Op.RejectGroupPost(actor, g, p));
      var moderator := HasModerator(g, actor);
      if !moderator {
        return Forbidden;
      }
      if !(p < |posts| && posts[p].groupId == Some(g) && posts[p].approval == Some(AWAITING) && !posts[p].isDeleted) {
        return NotFound;
      }
      posts := posts[p := posts[p].(approval := Some(REJECTED))];
      return Done;
    }

    method CreatePost(author: UserId, content: Option<string>, privacy: Option<Privacy>, manual: seq<TagLike>)
      returns (reply: Reply)
      requires Valid()
      modifies this, hashtagIndex
      ensures Valid()
      ensures (Contents(), reply) == Apply(alphabet, old(Contents()), Op.CreatePost(author, content, privacy, manual))
      ensures |posts| == |old(posts)| + 1 && posts[..|old(posts)|] == old(posts)
      ensures posts[|old(posts)|].privacy == if privacy.Some? then privacy.value else PUBLIC
    {
      StepKeepsInv(alphabet, Contents(), Op.CreatePost(author, content, privacy, manual));
      var id := SavePost(Post(author, content, privacy.GetOr(PUBLIC), None, None, None, 0, false), manual);
      hashtagIndex.SaveRows(OtherTagRows(id, manual));
      hashtagIndex.ReindexPostHashtags(alphabet, id, posts[id].content, manual);
      return Done;
    }

    method DeletePost(p: PostId, author: UserId) returns (reply: Reply)
      requires Valid()
      modifies this, hashtagIndex
      ensures Valid()
      ensures (Contents(), reply) == Apply(alphabet, old(Contents()), Op.DeletePost(p, author))
    {
      StepKeepsInv(alphabet, Contents(), Op.DeletePost(p, author));
      if p >= |posts| || posts[p].author != author {
        return NotFound;
      }
      posts := posts[p := posts[p].(isDeleted := true)];
      hashtagIndex.DeletePostTags(p);
      return Done;
    }

    method Repost(p: PostId, author: UserId) returns (reply: Reply)
      requires Valid()
      modifies this
      ensures Valid()
      ensures (Contents(), reply) == Apply(alphabet, old(Contents()), Op.Repost(p, author))
    {
      StepKeepsInv(alphabet, Contents(), Op.Repost(p, author));
      if p >= |posts| || posts[p].isDeleted {
        return NotFound;
      }
      SaveRepost(p, author);
      return Done;
    }

    method SaveRepost(p: PostId, author: UserId)
      requires p < |posts| && !posts[p].isDeleted
      modifies this`posts, this`createdWith
      ensures Contents() == Share(old(Contents()), p, author).0
    {
      var id := SavePost(Post(author, None, PUBLIC, None, None, Some(p), 0, false), []);
      IncrementShares(p);
    }

    /** `postRepo.increment({ id }, 'share_count', 1)` */
    method IncrementShares(p: PostId)
      requires p < |posts|
      modifies this`posts
      ensures Contents() == SetPost(old(Contents()), p, old(posts[p]).(shareCount := old(posts[p]).shareCount + 1))
    {
      posts := posts[p := posts[p].(shareCount := posts[p].shareCount + 1)];
    }
  }
}
