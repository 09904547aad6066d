// Groups, memberships and posts of one tenant, and what each operation of the group
// and post services does to them and to the hashtag index.
module SocialState {
  import opened Base
  import opened HashtagUtil
  import opened HashtagIndex
  import SlugGenerator

  type UserId = string
  type GroupId = nat

  datatype GroupType = COMMUNITY | FANPAGE
  datatype GroupPrivacy = PUBLIC_GROUP | PRIVATE_GROUP
  datatype Role = MEMBER | MODERATOR | ADMIN | OWNER

  /** The roles a request may assign: every role but OWNER. */
  type AssignableRole = r: Role | r != OWNER witness MEMBER

  datatype MemberStatus = PENDING | ACTIVE | BANNED
  datatype Approval = AWAITING | APPROVED | REJECTED
  datatype Privacy = PUBLIC | FRIENDS | FOLLOWERS | ONLY_ME

  datatype Group = Group(slug: string, groupType: GroupType, privacy: GroupPrivacy,
                         requiresPostApproval: bool, createdBy: UserId, memberCount: int, postCount: int,
                         isArchived: bool)

  datatype Member = Member(role: Role, status: MemberStatus)

  datatype Post = Post(author: UserId, content: Option<string>, privacy: Privacy, groupId: Option<GroupId>,
                       approval: Option<Approval>, originalPost: Option<PostId>, shareCount: int, isDeleted: bool)

  /** Ids are positions: groups and posts are never removed from their tables. The keys of
      `members` are the unique index. `createdWith` and `approvedLater` are history: the
      tags each post was created with, and the posts a moderator approved afterwards. */
  datatype State = State(
    groups: seq<Group>,
    members: map<(GroupId, UserId), Member>,
    posts: seq<Post>,
    tags: seq<TagRow>,
    createdWith: seq<seq<TagLike>>,
    approvedLater: set<PostId>)

  const EMPTY := State([], map[], [], [], [], {})

  datatype Op =
    | CreateCommunity(user: UserId, name: string, privacy: Option<GroupPrivacy>, requiresApproval: Option<bool>)
    | CreateFanpage(user: UserId, name: string)
    | JoinGroup(group: GroupId, user: UserId)
    | LeaveGroup(group: GroupId, user: UserId)
    | ApproveMember(actor: UserId, group: GroupId, target: UserId)
    | UpdateMemberRole(actor: UserId, group: GroupId, target: UserId, role: AssignableRole)
    | RemoveMember(actor: UserId, group: GroupId, target: UserId)
    | SetArchived(group: GroupId, archived: bool)   // from outside: no method of the service writes the column
    | CreateGroupPost(author: UserId, group: GroupId, content: Option<string>, manual: seq<TagLike>)
    | ApproveGroupPost(actor: UserId, group: GroupId, post: PostId)
    | RejectGroupPost(actor: UserId, group: GroupId, post: PostId)
    | CreatePost(author: UserId, content: Option<string>, postPrivacy: Option<Privacy>, manual: seq<TagLike>)
    | DeletePost(post: PostId, author: UserId)
    | Repost(post: PostId, author: UserId)

  datatype Reply =
    | Done
    | AlreadyMember
    | JoinPending
    | BadRequest
    | Forbidden
    | NotFound

  // ----- Guards -----

  predicate ActiveGroup(s: State, g: GroupId) {
    g < |s.groups| && !s.groups[g].isArchived
  }

  predicate ActiveMember(s: State, g: GroupId, u: UserId) {
    (g, u) in s.members && s.members[(g, u)].status == ACTIVE
  }

  predicate CanModerate(r: Role) {
    r == MODERATOR || r == ADMIN || r == OWNER
  }

  predicate ActiveModerator(s: State, g: GroupId, u: UserId) {
    ActiveMember(s, g, u) && CanModerate(s.members[(g, u)].role)
  }

  predicate PendingPost(s: State, g: GroupId, p: PostId) {
    p < |s.posts| && s.posts[p].groupId == Some(g) && s.posts[p].approval == Some(AWAITING) && !s.posts[p].isDeleted
  }

  // ----- Table updates -----

  function SetMember(s: State, g: GroupId, u: UserId, m: Member): State {
    s.(members := s.members[(g, u) := m])
  }

  function AddMembers(s: State, g: GroupId, n: int): State {
    if g < |s.groups| then s.(groups := s.groups[g := s.groups[g].(memberCount := s.groups[g].memberCount + n)]) else s
  }

  function AddPosts(s: State, g: GroupId, n: int): State {
    if g < |s.groups| then s.(groups := s.groups[g := s.groups[g].(postCount := s.groups[g].postCount + n)]) else s
  }

  function SetPost(s: State, p: PostId, post: Post): State
    requires p < |s.posts|
  {
    s.(posts := s.posts[p := post])
  }

  function AddPost(s: State, post: Post, manual: seq<TagLike>): State {
    s.(posts := s.posts + [post], createdWith := s.createdWith + [manual])
  }

  function SlugsInUse(groups: seq<Group>): set<string> {
    set g | g in groups :: g.slug
  }

  /** The slug of a new group, from its trimmed and lower-cased name. */
  function NewSlug(a: Alphabet, groups: seq<Group>, name: string): string {
    SlugGenerator.UniqueSlug(a.lower(Trim(a, name)), SlugsInUse(groups))
  }

  function NewCommunity(a: Alphabet, s: State, user: UserId, name: string,
                        privacy: Option<GroupPrivacy>, requiresApproval: Option<bool>): Group
  {
    Group(NewSlug(a, s.groups, name), COMMUNITY, privacy.GetOr(PUBLIC_GROUP), requiresApproval.GetOr(false),
          user, 1, 0, false)
  }

  function NewFanpage(a: Alphabet, s: State, user: UserId, name: string): Group {
    Group(NewSlug(a, s.groups, name), FANPAGE, PUBLIC_GROUP, false, user, 1, 0, false)
  }

  function AddGroup(s: State, g: Group): State {
    SetMember(s.(groups := s.groups + [g]), |s.groups|, g.createdBy, Member(OWNER, ACTIVE))
  }

  function IndexPost(a: Alphabet, s: State, p: PostId, manual: seq<TagLike>): State
    requires p < |s.posts|
  {
    s.(tags := Reindexed(a, s.tags, p, s.posts[p].content, manual))
  }

  /** The USER and LOCATION rows that createPost saves before it indexes the hashtags. */
  function OtherTagRows(p: PostId, manual: seq<TagLike>): seq<TagRow> {
    if manual == [] then []
    else
      var rest, t := OtherTagRows(p, manual[..|manual| - 1]), manual[|manual| - 1];
      if t.tagType == HASHTAG then rest
      else rest + [TagRow(p, t.tagType, t.targetId.GetOr(""), t.targetName.GetOr(""))]
  }

  function GroupPost(author: UserId, g: GroupId, content: Option<string>, approval: Approval): Post {
    Post(author, content, PUBLIC, Some(g), Some(approval), None, 0, false)
  }

  // ----- Membership -----

  function Join(s: State, g: GroupId, u: UserId): (State, Reply) {
    if !ActiveGroup(s, g) then (s, NotFound)
    else if (g, u) in s.members then
      match s.members[(g, u)].status
      case BANNED => (s, Forbidden)
      case ACTIVE => (s, AlreadyMember)
      case PENDING => (s, JoinPending)
    else
      var group := s.groups[g];
      if group.groupType == COMMUNITY && group.privacy == PRIVATE_GROUP && group.createdBy != u
      then (SetMember(s, g, u, Member(MEMBER, PENDING)), JoinPending)
      else (AddMembers(SetMember(s, g, u, Member(MEMBER, ACTIVE)), g, 1), Done)
  }

  function Leave(s: State, g: GroupId, u: UserId): (State, Reply) {
    if !ActiveMember(s, g, u) then (s, NotFound)
    else if s.members[(g, u)].role == OWNER then (s, BadRequest)
    else (AddMembers(s.(members := s.members - {(g, u)}), g, -1), Done)
  }

  function Admit(s: State, actor: UserId, g: GroupId, target: UserId): (State, Reply) {
    if !ActiveModerator(s, g, actor) then (s, Forbidden)
    else if (g, target) !in s.members || s.members[(g, target)].status != PENDING then (s, NotFound)
    else
      var s' := AddMembers(SetMember(s, g, target, s.members[(g, target)].(status := ACTIVE)), g, 1);
      // The group is looked up for the notice only after both writes.
      (s', if ActiveGroup(s, g) then Done else NotFound)
  }

  function ChangeRole(s: State, actor: UserId, g: GroupId, target: UserId, role: AssignableRole): (State, Reply) {
    if !ActiveMember(s, g, actor) || s.members[(g, actor)].role != OWNER then (s, Forbidden)
    else if !ActiveMember(s, g, target) then (s, NotFound)
    else if s.members[(g, target)].role == OWNER then (s, BadRequest)
    else (SetMember(s, g, target, s.members[(g, target)].(role := role)), Done)
  }

  function Ban(s: State, actor: UserId, g: GroupId, target: UserId): (State, Reply) {
    if actor != target && !ActiveModerator(s, g, actor) then (s, Forbidden)
    else if (g, target) !in s.members then (s, NotFound)
    else if s.members[(g, target)].role == OWNER then (s, BadRequest)
    else
      var m := s.members[(g, target)];
      var s' := SetMember(s, g, target, m.(status := BANNED));
      (if m.status == ACTIVE then AddMembers(s', g, -1) else s', Done)
  }

  function Archive(s: State, g: GroupId, archived: bool): State {
    if g < |s.groups| then s.(groups := s.groups[g := s.groups[g].(isArchived := archived)]) else s
  }

  predicate IsMembershipOp(op: Op) {
    op.CreateCommunity? || op.CreateFanpage? || op.JoinGroup? || op.LeaveGroup? || op.ApproveMember?
    || op.UpdateMemberRole? || op.RemoveMember? || op.SetArchived?
  }

  function ApplyMembership(a: Alphabet, s: State, op: Op): (State, Reply)
    requires IsMembershipOp(op)
  {
    match op
    case CreateCommunity(user, name, privacy, requiresApproval) =>
      if Trim(a, name) == "" then (s, BadRequest)
      else (AddGroup(s, NewCommunity(a, s, user, name, privacy, requiresApproval)), Done)
    case CreateFanpage(user, name) =>
      if Trim(a, name) == "" then (s, BadRequest)
      else (AddGroup(s, NewFanpage(a, s, user, name)), Done)
    case JoinGroup(g, u) => Join(s, g, u)
    case LeaveGroup(g, u) => Leave(s, g, u)
    case ApproveMember(actor, g, target) => Admit(s, actor, g, target)
    case UpdateMemberRole(actor, g, target, role) => ChangeRole(s, actor, g, target, role)
    case RemoveMember(actor, g, target) => Ban(s, actor, g, target)
    case SetArchived(g, archived) => (Archive(s, g, archived), Done)
  }

  // ----- Posts -----

  function SubmitGroupPost(a: Alphabet, s: State, author: UserId, g: GroupId, content: Option<string>,
                           manual: seq<TagLike>): (State, Reply)
  {
    if !ActiveGroup(s, g) then (s, NotFound)
    else if !ActiveMember(s, g, author) then (s, Forbidden)
    else if s.groups[g].requiresPostApproval then (AddPost(s, GroupPost(author, g, content, AWAITING), manual), Done)
    else
      var s' := AddPosts(AddPost(s, GroupPost(author, g, content, APPROVED), manual), g, 1);
      (IndexPost(a, s', |s.posts|, manual), Done)
  }

  function Accept(a: Alphabet, s: State, actor: UserId, g: GroupId, p: PostId): (State, Reply) {
    if !ActiveModerator(s, g, actor) then (s, Forbidden)
    else if !PendingPost(s, g, p) then (s, NotFound)
    else
      var s' := AddPosts(SetPost(s, p, s.posts[p].(approval := Some(APPROVED))), g, 1);
      (IndexPost(a, s'.(approvedLater := s.approvedLater + {p}), p, []), Done)
  }

  function Reject(s: State, actor: UserId, g: GroupId, p: PostId): (State, Reply) {
    if !ActiveModerator(s, g, actor) then (s, Forbidden)
    else if !PendingPost(s, g, p) then (s, NotFound)
    else (SetPost(s, p, s.posts[p].(approval := Some(REJECTED))), Done)
  }

  function Publish(a: Alphabet, s: State, author: UserId, content: Option<string>, privacy: Option<Privacy>,
                   manual: seq<TagLike>): (State, Reply)
  {
    var post := Post(author, content, privacy.GetOr(PUBLIC), None, None, None, 0, false);
    var s' := AddPost(s, post, manual).(tags := s.tags + OtherTagRows(|s.posts|, manual));
    (IndexPost(a, s', |s.posts|, manual), Done)
  }

  function Delete(s: State, p: PostId, author: UserId): (State, Reply) {
    if p >= |s.posts| || s.posts[p].author != author then (s, NotFound)
    else (SetPost(s, p, s.posts[p].(isDeleted := true)).(tags := WithoutPost(s.tags, p)), Done)
  }

  function Share(s: State, p: PostId, author: UserId): (State, Reply) {
    if p >= |s.posts| || s.posts[p].isDeleted then (s, NotFound)
    else
      var repost := Post(author, None, PUBLIC, None, None, Some(p), 0, false);
      var s' := AddPost(s, repost, []);
      (SetPost(s', p, s'.posts[p].(shareCount := s'.posts[p].shareCount + 1)), Done)
  }

  function ApplyPosting(a: Alphabet, s: State, op: Op): (State, Reply)
    requires !IsMembershipOp(op)
  {
    match op
    case CreateGroupPost(author, g, content, manual) => SubmitGroupPost(a, s, author, g, content, manual)
    case ApproveGroupPost(actor, g, p) => Accept(a, s, actor, g, p)
    case RejectGroupPost(actor, g, p) => Reject(s, actor, g, p)
    case CreatePost(author, content, privacy, manual) => Publish(a, s, author, content, privacy, manual)
    case DeletePost(p, author) => Delete(s, p, author)
    case Repost(p, author) => Share(s, p, author)
  }

  // ----- Runs -----

  function Apply(a: Alphabet, s: State, op: Op): (State, Reply) {
    if IsMembershipOp(op) then ApplyMembership(a, s, op) else ApplyPosting(a, s, op)
  }

  function Step(a: Alphabet, s: State, op: Op): State {
    Apply(a, s, op).0
  }

  function Run(a: Alphabet, s: State, ops: seq<Op>): State {
    if ops == [] then s else Step(a, Run(a, s, ops[..|ops| - 1]), ops[|ops| - 1])
  }
}
