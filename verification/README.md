# A model of the Kasma backend's stateful core

The Kasma backend is a NestJS application whose services keep their state in tables, caches and
counters. This project models the services where that state has to agree with itself and proves, in
Dafny 4.11, what every operation and every run keeps.

Each service is modelled twice over. Its tables are a value, and each public method is a function on
that value, so that properties of all runs can be stated and proved by induction. Beside it stands a
class that keeps the tables in fields and does what the method does, step by step and in the same
order; its methods are proved equal to the functions, replies included. What each function does is then
stated a second time, by what can be observed afterwards: which balance moved, who may enter, what opens
for whom. The two protocols that
interleave, stock adjustment and wallet credit, are transition systems over unboundedly many callers, and
the creation of an order is one over its awaits, any of which may throw.

| files | what they model |
|---|---|
| `ModuleGraph`, `RegistryService` | the module dependency graph, the two walks over it, and gated registration per tenant |
| `Accounts` | a table of one amount per key, shared by the next two |
| `InventoryService` | stock adjustment under a lock, interleaved |
| `WalletCredit`, `WalletService` | wallet credit under a lock, interleaved, with ledger, commit and rollback; gift cards |
| `HashtagUtil`, `HashtagIndex` | the hashtag scanner and the index of tag rows |
| `SocialState`, `GroupInvariants`, `GroupExceptions`, `MembershipEffects`, `PostEffects`, `SocialService`, `SlugGenerator` | groups, memberships, posts, moderation, counters, slugs |
| `Privacy`, `HashtagFeed`, `FeedRuns` | the privacy rule in its three implementations, the newsfeed, the hashtag listing |
| `ShoppingCart`, `OrderManagement`, `OrderProtocol`, `OrderService` | the cart, its split into orders, and the awaits of the request that makes them |
| `MessagingState`, `ParticipantEffects`, `MessagingService` | conversations and their participants |
| `AuthSessions` | opaque tokens and session rows |
| `CouponCache` | coupons and their cached copies |
| `CaseText` | the word splitter as a parser, the eleven cases as printers |
| `Base` | options, sums, duplicates, first occurrences |

`dafny verify dfyconfig.toml` checks everything.

## What the proofs show about the code

Where the code does not do what its documentation or a reader would expect, the model follows the code.

- Reactivating a registry row is not guarded (`src/modules/registry/registry.service.ts:129` tests
  deactivation only). `StepKeepsActiveClosedIff` says exactly when that matters, and
  `ReactivationBreaksClosure` is a run in which it does.
- `creditUser` connects and starts its transaction before its `try`
  (`src/modules/ecommerce/finance/wallet/wallet.service.ts:110-112`), so a failure there leaves the lock
  to time out. The protocol has that state; it costs progress, not money.
- `createOrderFromCart` saves the emptied cart to its own database before it commits the orders:
  `LinesSurviveIff` says at which awaits a throw loses lines, `EveryRequestMayLoseLines` that it can.
- `src/modules/social/trending/README.md` says that manual HASHTAG tags are merged into the index.
  `approveGroupPost` re-indexes without them (`src/modules/social/group/group.service.ts:476`), so a post
  that waited for approval loses them: `ManualTagKeptIff` and `ModerationLosesTags`.
- `approveMember` writes before it looks the group up: on an archived group it activates the member and
  then throws, the one refusal that is not atomic (`RefusalIsAtomicIff`, `ArchivedApprovalWrites`).
  `removeMember` lets members remove, and thereby ban, themselves, for good (`SelfRemovalBans`).
- `create` and `update` of a coupon cache the dates as the text of the request, and the configured store
  (`src/database/database.module.ts:73-75`) turns every other date into its ISO text. Comparing a clock
  with text compares it with the number the text reads as: false on both sides when it reads as none, as
  a full date does, and a moment of 1970 when it is a year alone, such as "2099". `VerdictIsUncachedIff`,
  `SerialisedVerdictIff` and `IsoVerdictIff` say exactly when that shows; `FreshCouponIgnoresItsStart`
  and `NumericEndExpiresAtOnce` show it both ways.
- A logout that is given the tokens of two sessions orphans a token, and so does a login or refresh whose
  session row is not saved after its tokens (`src/modules/auth/auth.service.ts:296-298`). Only these let a
  token survive `logoutAll` (`LogoutAllSparesIff`, `PartialLogoutSurvives`, `UnsavedSessionSurvives`).
- The newsfeed and the post page serve group posts that await approval or were rejected; only the hashtag
  listing looks at moderation (`FeedsAgreeIff`).
- The hashtag listing drops posts whose latest tag time is not positive (line 162 of
  `src/modules/social/trending/trending.service.ts` compares with 0), and its page cap of 10000 never
  binds, because the tag query returns 6000 rows at most.

## Model

Requests whose effect depends on the clock, on random tokens, on other services or on a failure take that
as a parameter (`now`, fresh tokens, `users` and `blocks`, `Fault`, the number of the await that throws).

| member | source | states |
|---|---|---|
| ModuleGraph.GetTransitiveDependencies | src/modules/registry/registry.service.ts:45-64 | The worklist terminates on every graph, cycles and dangling names included, and answers each key reachable in one or more edges, once, and no other |
| ModuleGraph.VisitRow | src/modules/registry/registry.service.ts:54-60 | The inner loop adds only reachable keys, appends the same new keys to the set and to the queue, and leaves the row's key fully expanded; if it adds any, fewer named keys are left unseen |
| ModuleGraph.GetTransitiveDependents | src/modules/registry/registry.service.ts:66-85 | The repeated passes terminate and answer exactly the keys that depend on the target, each once, whatever the order of the rows |
| ModuleGraph.DependentsPass | src/modules/registry/registry.service.ts:72-82 | A pass that adds nothing has reached a fixed point; any other pass leaves fewer keys out |
| ModuleGraph.Duality | src/modules/registry/registry.service.ts:45-85 | On any two listings of the same rows, a is among the dependents of b if and only if b is among the dependencies of a |
| ModuleGraph.DependenciesAreLeastClosed | src/modules/registry/registry.service.ts:45-64 | The dependencies are the least set that holds the direct ones and is closed under direct dependency |
| ModuleGraph.NewRowKeepsDependencies | src/modules/registry/registry.service.ts:31-34 | Adding a module changes the dependencies of no module that does not reach its key |
| RegistryService.StepKeepsConsistent | src/modules/registry/registry.service.ts:87-154 | Every operation keeps both unique indexes, the existence of every registered module, and that creation order is a topological order per tenant |
| RegistryService.EveryRunIsConsistent | src/modules/registry/registry.service.ts:87-154 | The same after every run, reactivation included |
| RegistryService.RegisteredKeysAreClosedAndAcyclic | src/modules/registry/registry.service.ts:87-121 | In every run the keys a tenant has registered, active or not, are closed under dependency, and none depends on itself |
| RegistryService.StepKeepsActiveClosedIff | src/modules/registry/registry.service.ts:87-154 | An operation keeps "every dependency of an active module is active" if and only if it does not reactivate a row whose dependencies are not all active |
| RegistryService.GuardedRunsStayActiveClosed | src/modules/registry/registry.service.ts:87-154 | Every run whose reactivations find their dependencies active keeps that closure |
| RegistryService.AccessIsClosed | src/modules/registry/registry.service.ts:156-182 | After such a run, access to a module implies access to a dependency of it if and only if the dependency's key is not empty |
| RegistryService.ReactivationBreaksClosure | src/modules/registry/registry.service.ts:129-153 | A run of seven requests that reactivates a module whose dependency is off: closed before the last request, open after it |
| RegistryService.RegistrationAnswers | src/modules/registry/registry.service.ts:87-121 | When each answer of createRegistry is given, by the graph and the tenant's active modules: not found, the exact missing dependencies, a taken pair, or saved; a refusal changes nothing |
| RegistryService.RegistrationGrants | src/modules/registry/registry.service.ts:119-120 | A saved registration grants access to its own tenant's module alone, unless asked for switched off, and in the version asked for |
| RegistryService.UpdateAnswers | src/modules/registry/registry.service.ts:123-150 | When each answer of updateRegistry is given, with the exact active dependents |
| RegistryService.UpdateGrants | src/modules/registry/registry.service.ts:152-153 | A saved update switches its own row's module on or off and sets its version, each only if given, and changes access to nothing else |
| RegistryService.ModuleIsSavedIff | src/modules/registry/registry.service.ts:31-34 | A module is saved exactly under a new key, beside all others |
| RegistryService.Service.CreateModule | src/modules/registry/registry.service.ts:31-34 | Saves the module, or refuses a key that has one |
| RegistryService.Service.CreateRegistry | src/modules/registry/registry.service.ts:87-121 | The four answers, with the exact set of missing dependencies, and one new row in the last case |
| RegistryService.Service.UpdateRegistry | src/modules/registry/registry.service.ts:123-154 | The three answers, with the exact set of active dependents, and the row with the given fields replaced |
| RegistryService.Service.CheckAccess | src/modules/registry/registry.service.ts:156-182 | Allowed exactly for three non-empty keys with an active row, and with the one version that such a row has |
| InventoryService.NoLostUpdate | src/modules/ecommerce/logistics/inventory/inventory.service.ts:40-70 | In every interleaving of any number of callers: at most one row per warehouse, product and tenant, its quantity the sum of the deltas saved so far, and a row exactly where somebody has saved |
| InventoryService.NextKeepsInv | src/modules/ecommerce/logistics/inventory/inventory.service.ts:40-70 | Each atomic step keeps that, together with: whoever is inside holds the lock, and what it computed is still current |
| InventoryService.OthersReadOtherRows | src/modules/ecommerce/logistics/inventory/inventory.service.ts:41-67 | A save leaves every other caller's computed quantity current, because same row means same lock |
| InventoryService.MutualExclusion | src/shared/lock/lock.service.ts:34-40 | Two callers of one row are never both between acquire and release |
| InventoryService.LockNamesTheItem | src/modules/ecommerce/logistics/inventory/inventory.service.ts:41-44 | Two callers contend exactly for the same product in the same warehouse, whatever their tenants |
| InventoryService.ScriptRun | src/modules/ecommerce/logistics/inventory/inventory.service.ts:40-70 | One caller alone, for each place it may throw, leaves what the protocol's steps leave |
| InventoryService.Service.AdjustStock | src/modules/ecommerce/logistics/inventory/inventory.service.ts:40-70 | Adds the delta to its own key and nothing else, or throws and changes nothing; equal to its path through the protocol |
| WalletCredit.BalanceMeetsLedger | src/modules/ecommerce/finance/wallet/wallet.service.ts:103-148 | In every interleaving, for every wallet: balance, plus what is logged and not committed, plus what was logged and rolled back, is the ledger sum |
| WalletCredit.QuietBalanceEqualsLedger | src/modules/ecommerce/finance/wallet/wallet.service.ts:103-148 | With nothing logged in flight and no rollback after logging, balance and ledger are equal |
| WalletCredit.NoLostCredit | src/modules/ecommerce/finance/wallet/wallet.service.ts:115-139 | One row per wallet, and its balance is the sum of the committed credits |
| WalletCredit.NextKeepsInv | src/modules/ecommerce/finance/wallet/wallet.service.ts:103-148 | Each atomic step of creditUser keeps the lock, freshness and money invariants behind those three |
| WalletCredit.StepMovesMoney | src/modules/ecommerce/finance/wallet/wallet.service.ts:123-139 | Only a commit moves the balance, only a log entry moves the ledger, each by the caller's amount and in its own wallet |
| WalletCredit.StrandedLockBlocks | src/modules/ecommerce/finance/wallet/wallet.service.ts:107-114 | A caller whose connection failed outside the try block keeps its lock: until it times out nobody else of that user enters |
| WalletCredit.LockNamesTheUser | src/modules/ecommerce/finance/wallet/wallet.service.ts:106-107 | Two callers contend exactly for the same user, in whatever app and tenant |
| WalletService.EveryRunConservesMoney | src/modules/ecommerce/finance/wallet/wallet.service.ts:40-148 | In every run of credits and redemptions, failures included: balances meet the ledger, and all money came from a committed credit or from a card redeemed once |
| WalletService.StepConserves | src/modules/ecommerce/finance/wallet/wallet.service.ts:40-148 | Each request keeps that, for every wallet at once |
| WalletService.RedeemedIsFinal | src/modules/ecommerce/finance/wallet/wallet.service.ts:43-56 | A redeemed card is never changed again |
| WalletService.CreditPays | src/modules/ecommerce/finance/wallet/wallet.service.ts:103-148 | A credit adds its amount to the wallet of that user, app and tenant and to no other; one that throws pays nobody, and leaves a ledger entry exactly if it throws at the commit |
| WalletService.RedemptionPays | src/modules/ecommerce/finance/wallet/wallet.service.ts:40-94 | A redemption adds the card's initial amount to the user's own wallet in the card's app and tenant and to no other, logs that, and spends that card alone |
| WalletService.NothingToRedeem | src/modules/ecommerce/finance/wallet/wallet.service.ts:43-47 | Without an active card of that code, app and tenant nothing changes |
| WalletService.ScriptPays | src/modules/ecommerce/finance/wallet/wallet.service.ts:103-148 | A credit running alone is a path of the interleaved protocol with the same wallets and ledger |
| WalletService.Service.CreditUser | src/modules/ecommerce/finance/wallet/wallet.service.ts:103-148 | Every wallet's balance, the ledger and the reply of one credit, for each place it may throw; money is conserved |
| WalletService.Service.RedeemGiftCard | src/modules/ecommerce/finance/wallet/wallet.service.ts:40-94 | Not found exactly when no active card matches; otherwise the full amount goes to the user's own wallet and to no other, the answer is that amount and the new balance, and the code is spent, or it throws and nothing is paid or spent |
| HashtagUtil.ExtractHashtagsFromContent | src/modules/social/trending/hashtag.util.ts:14-31 | For every string the loop over matches yields exactly the specified hashtags, in first-occurrence order, without duplicates |
| HashtagUtil.HashtagFoundIff | src/modules/social/trending/hashtag.util.ts:11-31 | A slug is found if and only if it is the non-empty normal form of a maximal word run behind a '#' that no word character precedes |
| HashtagUtil.NormalForm | src/modules/social/trending/hashtag.util.ts:6-9 | The normal form of any text: what stands between the white space at its ends and behind its leading hashes, folded, at most 120 characters of it |
| HashtagUtil.Exec | src/modules/social/trending/hashtag.util.ts:20-23 | One match from lastIndex on is the first tag there: consuming the preceding character loses nothing |
| HashtagUtil.ManualHashtagFoundIff | src/modules/social/trending/hashtag.util.ts:33-49 | A slug is found if and only if it is the non-empty normal form of some HASHTAG tag |
| HashtagUtil.HashtagsFromManualTags | src/modules/social/trending/hashtag.util.ts:33-49 | The slugs of the HASHTAG tags, in order, without duplicates and without empty ones |
| HashtagIndex.ReindexReplacesOnePost | src/modules/social/trending/hashtag-index.service.ts:30-57 | Re-indexing sets one post's slugs, each once, and changes no other post and no USER or LOCATION row |
| HashtagIndex.MergedHashtagsHold | src/modules/social/trending/hashtag-index.service.ts:42-44 | A post is indexed under a slug if and only if its content or a manual tag yields it |
| HashtagIndex.SavedRowsAre | src/modules/social/trending/hashtag-index.service.ts:47-55 | The rows saved are one for each merged slug, named by its normal form behind a '#' |
| HashtagIndex.Index.ReindexPostHashtags | src/modules/social/trending/hashtag-index.service.ts:30-57 | Deletes the post's HASHTAG rows and saves one row per merged slug |
| HashtagIndex.Index.DeletePostTags | src/modules/social/post/post.service.ts:190 | Deletes every tag row of the post and no other |
| GroupInvariants.EveryRunKeepsInv | src/modules/social/group/group.service.ts:72-513 | After every run of the group and post services, groups being archived and reopened in between: one owner, unique slugs, exact member, post and share counters, exact hashtag index |
| GroupInvariants.StepKeepsInv | src/modules/social/group/group.service.ts:72-513 | Each operation keeps all of them together |
| GroupInvariants.StepKeepsOneOwner | src/modules/social/group/group.service.ts:72-384 | Each group has exactly one OWNER row, the creator's, and it is active |
| GroupInvariants.StepKeepsMembersCounted | src/modules/social/group/group.service.ts:72-384 | member_count is the number of active rows of the group |
| GroupInvariants.StepKeepsPostsCounted | src/modules/social/group/group.service.ts:386-513 | post_count is the number of approved posts, soft-deleted ones included |
| GroupInvariants.StepKeepsSharesCounted | src/modules/social/post/post.service.ts:51-213 | share_count is the number of posts that name the post as their original |
| GroupInvariants.RolesFollowTheOwner | src/modules/social/group/group.service.ts:329-358 | A role changes only at the creator's request, to the role asked for, and never from OWNER |
| GroupInvariants.StepKeepsIndexExact | src/modules/social/group/group.service.ts:386-513 | For every post the HASHTAG rows are exactly the expected ones: none while pending, rejected or deleted; those of content and tags when published; those of the content alone when approved later |
| GroupInvariants.IndexFollowsModeration | src/modules/social/post/post.service.ts:51-193 | In every run a post with HASHTAG rows is not deleted and is ungrouped or approved, and its rows are the expected ones |
| GroupInvariants.BannedIsTerminal | src/modules/social/group/group.service.ts:193-384 | No continuation of any run changes a banned row |
| GroupInvariants.ActivationIsApproval | src/modules/social/group/group.service.ts:193-327 | In a private community the one step that activates anybody but the creator is an active moderator's approval of a pending row |
| GroupInvariants.PrivateMembersWereApproved | src/modules/social/group/group.service.ts:193-327 | In every run each active non-creator of a private community was approved by a then-active moderator, and has been active since |
| GroupInvariants.GroupIdentityIsFixed | src/modules/social/group/group.service.ts:72-384 | No operation changes a group's type, privacy, creator or slug |
| GroupInvariants.StepKeepsUniqueSlugs | src/modules/social/group/group.service.ts:72-144 | A new group gets a slug that no group has, and a group keeps its own |
| GroupExceptions.RefusalIsAtomicIff | src/modules/social/group/group.service.ts:72-513 | A refused request has changed nothing if and only if it is not a moderator's approval of a pending member |
| GroupExceptions.ApprovalThrowsIff | src/modules/social/group/group.service.ts:290-327 | Such an approval is refused, with the member active and counted, exactly when the group is archived |
| GroupExceptions.SelfRemovalBans | src/modules/social/group/group.service.ts:360-384 | Anyone with a row, but the owner, who removes themselves succeeds; in every continuation joining is then refused, and so is every approval |
| GroupExceptions.ArchivedApprovalWrites | src/modules/social/group/group.service.ts:310-314 | For all users and names: a run that reaches the exception |
| GroupExceptions.ApprovedLaterIff | src/modules/social/group/group.service.ts:468-491 | The posts recorded as approved later are exactly those that a step of the run approved |
| GroupExceptions.ManualTagKeptIff | src/modules/social/group/group.service.ts:468-491 | In every run a manual tag of a public post is indexed if and only if no step of the run approved the post, or its content yields the same slug |
| GroupExceptions.ModerationLosesTags | src/modules/social/group/group.service.ts:386-491 | For all tags: one post, indexed in a group without moderation, not indexed in one with it |
| GroupExceptions.TagHasSlug | src/modules/social/trending/hashtag.util.ts:33-49 | Such tags exist over a plain alphabet |
| MembershipEffects.StepLeavesRow | src/modules/social/group/group.service.ts:72-384 | What every membership row is after any request: who founds, joins, waits, leaves, is let in, is given a role or is expelled, exactly when; no other row changes |
| MembershipEffects.JoinAnswers | src/modules/social/group/group.service.ts:193-254 | The answer of joining tells the state of the group and the row the user ends up with |
| MembershipEffects.LeaveAnswers | src/modules/social/group/group.service.ts:256-275 | Done exactly for an active member who is not the owner; the owner is told apart from a stranger |
| MembershipEffects.ApprovalAnswers | src/modules/social/group/group.service.ts:290-327 | Forbidden exactly to whoever is no active moderator, done exactly for a pending row of an open group |
| MembershipEffects.RoleAnswers | src/modules/social/group/group.service.ts:329-358 | Forbidden exactly to whoever is not the active owner, done exactly for an active member who is not the owner |
| MembershipEffects.RemovalAnswers | src/modules/social/group/group.service.ts:360-384 | Forbidden exactly to others who are no active moderators, done exactly for a row that is not the owner's |
| MembershipEffects.FoundingAddsGroup | src/modules/social/group/group.service.ts:72-144 | A name that is not blank founds one group under a new slug: a community as public and as moderated as asked for, or a public fanpage |
| PostEffects.StepLeavesPost | src/modules/social/post/post.service.ts:51-213 | What every post is after any request: author, content, privacy, group and original never change, moderators decide on it while it waits, its author alone deletes it, reposts count |
| PostEffects.StepAddsPostIff | src/modules/social/post/post.service.ts:51-213 | A post is added exactly by createPost, by an active member in an open group, and by a repost of a post that is not deleted; with the author, content, group and state of moderation it must have |
| PostEffects.NewPostOpensIff | src/modules/social/post/post.service.ts:53-142 | A new post opens for its author, and for others exactly as the request asked: everybody, friends, followers or nobody |
| PostEffects.OpeningAfter | src/modules/social/post/post.service.ts:117-193 | A post goes on opening for whom it did until its author deletes it, and then for nobody |
| PostEffects.SubmissionAnswers | src/modules/social/group/group.service.ts:386-400 | Not found exactly for a group that is not open, done exactly for its active members |
| PostEffects.DecisionAnswers | src/modules/social/group/group.service.ts:468-513 | Forbidden exactly to whoever is no active moderator, done exactly for a waiting post of that group |
| PostEffects.OwnPostAnswers | src/modules/social/post/post.service.ts:181-213 | Deleting is done for the author alone, reposting for posts that are not deleted |
| PostEffects.OtherTagsAfter | src/modules/social/post/post.service.ts:80-110 | The rows of tagged users and places are those that createPost was given, until the author deletes the post |
| SocialService.Service.CreateCommunity | src/modules/social/group/group.service.ts:72-106 | Refuses a blank name, else adds the group, under a free slug, and its owner |
| SocialService.Service.CreateFanpage | src/modules/social/group/group.service.ts:108-144 | The same for a public page |
| SocialService.Service.JoinGroup | src/modules/social/group/group.service.ts:193-254 | Guards, then an active or a pending row, with the counter |
| SocialService.Service.LeaveGroup | src/modules/social/group/group.service.ts:256-275 | Guards, then one row and one member fewer |
| SocialService.Service.ApproveMember | src/modules/social/group/group.service.ts:290-327 | Guards, then an active row, before the group lookup that may throw |
| SocialService.Service.UpdateMemberRole | src/modules/social/group/group.service.ts:329-358 | Guards, then the role |
| SocialService.Service.RemoveMember | src/modules/social/group/group.service.ts:360-384 | Guards, then the ban, with the counter |
| SocialService.Service.CreateGroupPost | src/modules/social/group/group.service.ts:386-433 | Guards, then a pending post, or an approved one, counted and indexed with its tags |
| SocialService.Service.ApproveGroupPost | src/modules/social/group/group.service.ts:468-491 | Guards, then approval, counter, and the index without the manual tags |
| SocialService.Service.RejectGroupPost | src/modules/social/group/group.service.ts:493-513 | Guards, then the rejection |
| SocialService.Service.CreatePost | src/modules/social/post/post.service.ts:51-115 | The post, its other tag rows, and its hashtags |
| SocialService.Service.DeletePost | src/modules/social/post/post.service.ts:181-193 | Soft-deletes the author's post and deletes its tag rows |
| SocialService.Service.Repost | src/modules/social/post/post.service.ts:195-213 | A public repost, and one share more |
| SlugGenerator.GenerateUniqueSlug | src/modules/social/group/group.service.ts:598-616 | Terminates within one probe more than there are slugs in use, with the first free candidate and no earlier one free |
| SlugGenerator.FirstFree | src/modules/social/group/group.service.ts:605-614 | Counting up, the first free candidate exists, and all before it are taken |
| SlugGenerator.CandidatesDiffer | src/modules/social/group/group.service.ts:605-614 | No two probes ask for the same slug |
| SlugGenerator.TakenCandidatesAreMany | src/modules/social/group/group.service.ts:605-614 | If the first n candidates are taken, at least n slugs are in use |
| SlugGenerator.DecimalIsInjective | src/modules/social/group/group.service.ts:612 | Different suffixes print differently |
| SlugGenerator.BaseShape | src/modules/social/group/group.service.ts:599-603 | A base is 1 to 80 characters of letters, digits and single dashes, never dashed in front; it ends in a dash if and only if the cut at 80 left one there |
| SlugGenerator.CutLeavesDash | src/modules/social/group/group.service.ts:599-603 | Names with that cut exist: any word of 79 letters or digits, and another word |
| SlugGenerator.SlugJoinsWords | src/modules/social/group/group.service.ts:599-602 | With the next three, what the slug of a name is: a word, a gap and more words give the word, one dash and the slug of the rest |
| SlugGenerator.SlugOfWord | src/modules/social/group/group.service.ts:599-602 | A word of letters and digits is its own slug |
| SlugGenerator.SlugIgnoresFront | src/modules/social/group/group.service.ts:599-602 | A gap in front adds nothing |
| SlugGenerator.SlugIgnoresBack | src/modules/social/group/group.service.ts:599-602 | A gap at the end adds nothing |
| SlugGenerator.BaseIsCutSlug | src/modules/social/group/group.service.ts:599-603 | The base is the first eighty characters of that, and 'group' for a name without words |
| SlugGenerator.DecimalReads | src/modules/social/group/group.service.ts:612 | The suffix reads as its number, without leading zeros |
| Privacy.GetPostById | src/modules/social/post/post.service.ts:117-142 | Missing exactly when absent or deleted, found exactly when the privacy rule accepts, else the refusal of the post's own setting |
| Privacy.OpenPost | src/modules/social/post/post.service.ts:117-142 | The same as a function, which the method equals |
| Privacy.OpensIff | src/modules/social/post/post.service.ts:117-142 | The answer for each privacy setting, by the rows of the connection table |
| Privacy.ViewerMaySeePost | src/modules/social/trending/trending.service.ts:218-265 | Accepts by the same privacy rule as opening a post |
| Privacy.CollectConnections | src/modules/social/newsfeed/newsfeed.service.ts:28-53 | The two sets are exactly the friends and the followed users |
| Privacy.FeedHoldsExactly | src/modules/social/newsfeed/newsfeed.service.ts:56-91 | The feed before paging is exactly the posts the rule accepts by the viewer, a friend or a followed user, latest first, each once |
| Privacy.FeedServesIff | src/modules/social/newsfeed/newsfeed.service.ts:56-91 | The feed serves exactly what opens, of the viewer, friends and followed users |
| Privacy.GetNewsfeed | src/modules/social/newsfeed/newsfeed.service.ts:27-108 | The query built from the two sets returns a page of that feed, and its length; a negative offset or limit is the database's error |
| Privacy.PagesAreAPrefix | src/modules/social/newsfeed/newsfeed.service.ts:85-91 | Consecutive pages put together skip, repeat and reorder nothing |
| HashtagFeed.LastActivity | src/modules/social/trending/trending.service.ts:158-165 | The loop over the tag rows fills the map entry by entry, in insertion order |
| HashtagFeed.SummaryHolds | src/modules/social/trending/trending.service.ts:158-165 | That map holds each post with a positive tag time once, with its latest time, and nothing else |
| HashtagFeed.SortRanks | src/modules/social/trending/trending.service.ts:167 | Sorting the entries ranks exactly those posts by latest time |
| HashtagFeed.RankedIsByLatest | src/modules/social/trending/trending.service.ts:158-167 | The ranking holds exactly the posts with a positive tag time, each once, latest first |
| HashtagFeed.SortIsStable | src/modules/social/trending/trending.service.ts:167 | Posts of equal time keep the order in which they were met |
| HashtagFeed.FilterInChunks | src/modules/social/trending/trending.service.ts:172-197 | Filtering in chunks of forty equals filtering the ranking one post at a time |
| HashtagFeed.FilteredHolds | src/modules/social/trending/trending.service.ts:184-196 | What is kept is exactly what is eligible, visible and not deleted, each post once |
| HashtagFeed.AnonymousSeesPublic | src/modules/social/trending/trending.service.ts:184-196 | Whoever is not signed in is shown exactly the ranked, eligible posts that are public and not deleted |
| HashtagFeed.SignedInSeesWhatOpens | src/modules/social/trending/trending.service.ts:184-196 | Whoever is signed in is shown exactly the ranked, eligible posts that open for them |
| HashtagFeed.AnonymousPagesArePublic | src/modules/social/trending/trending.service.ts:131-206 | So every post on any page that an anonymous visitor asks for is public |
| HashtagFeed.PagingIsClamped | src/modules/social/trending/trending.service.ts:145-146 | Pages from 1 to 10000 and limits from 1 to 50 are taken as they are, others as the nearer end, and a limit of 0 as 20 |
| HashtagFeed.ListPostsForHashtag | src/modules/social/trending/trending.service.ts:131-206 | The whole method refines rank, filter, slice, with the clamped page and limit; an anonymous visitor gets public posts only |
| HashtagFeed.PagesCoverTheListing | src/modules/social/trending/trending.service.ts:199-205 | All pages together are the filtered ranking, and no page is out of reach of the page cap |
| HashtagFeed.ListedPostsOpen | src/modules/social/trending/trending.service.ts:131-265 | Whatever a signed-in viewer finds on a page of the listing, opening that post finds too |
| FeedRuns.ListingIsExact | src/modules/social/trending/trending.service.ts:131-206 | In every run of the group and post services the listing of a slug is exactly the posts whose expected hashtags hold it and that the viewer may see |
| FeedRuns.HitsMatchIndex | src/modules/social/trending/trending.service.ts:147-156 | The tag query returns a row of a post if and only if the index holds the slug for it |
| FeedRuns.FeedsAgreeIff | src/modules/social/newsfeed/newsfeed.service.ts:58-91 | The feed and the post page serve a post whatever moderation says; the listing agrees with them if and only if the post has no group or is approved |
| FeedRuns.AwaitingPostIsServed | src/modules/social/post/post.service.ts:117-142 | A run whose pending group post is in a friend's feed and opens, and is not listed |
| ShoppingCart.Cart.AddToCart | src/modules/ecommerce/sales/shopping-cart/shopping-cart.service.ts:33-72 | Not found for an unknown product or variant; else the line of the key grows or appears, at the right price, and every other line stays |
| ShoppingCart.Cart.UpdateCartItem | src/modules/ecommerce/sales/shopping-cart/shopping-cart.service.ts:74-97 | Sets the quantity of the line, drops it at zero or below, and touches no other |
| ShoppingCart.Cart.RemoveFromCart | src/modules/ecommerce/sales/shopping-cart/shopping-cart.service.ts:99-105 | Drops the line of the key and no other |
| ShoppingCart.Cart.CalculateTotals | src/modules/ecommerce/sales/shopping-cart/shopping-cart.service.ts:113-122 | The number of lines, the sum of quantity times price, a tenth of it as tax, and both together |
| ShoppingCart.LineIffMember | src/modules/ecommerce/sales/shopping-cart/shopping-cart.service.ts:33-72 | With one line per product and variant, lookup and membership agree |
| OrderManagement.SplitConserves | src/modules/ecommerce/sales/order-management/order-management.service.ts:40-133 | The split partitions the cart: the multiset of ordered lines is the cart's, and the order totals add up to the cart's subtotal |
| OrderManagement.EveryOrderIsRight | src/modules/ecommerce/sales/order-management/order-management.service.ts:64-100 | Each item is in the order of its warehouse, each total is the sum of its subtotals, each order but the first points at the first |
| OrderProtocol.LinesSurviveIff | src/modules/ecommerce/sales/order-management/order-management.service.ts:31-142 | In every execution and at every moment the cart's lines are in the cart or in committed orders if and only if the request neither stands at nor threw at the marketing queue or the commit |
| OrderProtocol.EveryExecutionIsOk | src/modules/ecommerce/sales/order-management/order-management.service.ts:31-142 | Through every await, throwing or not: what the cart, the order table and the transaction hold |
| OrderProtocol.NextKeepsStageOk | src/modules/ecommerce/sales/order-management/order-management.service.ts:38-133 | Each await keeps that, item save by item save |
| OrderProtocol.EveryRequestMayLoseLines | src/modules/ecommerce/sales/order-management/order-management.service.ts:102-113 | Whatever the cart, some execution throws at the marketing queue and leaves its lines in neither database |
| OrderProtocol.SuccessIsProgress | src/modules/ecommerce/sales/order-management/order-management.service.ts:38-104 | Until the cart is saved every successful await brings the save nearer, so no execution stays short of it for ever |
| OrderProtocol.AnswerIsWhole | src/modules/ecommerce/sales/order-management/order-management.service.ts:102-133 | An answered request has ordered every line once, and asks for the cart's subtotal on the first order exactly for STRIPE and PAYPAL |
| OrderProtocol.ScriptRuns | src/modules/ecommerce/sales/order-management/order-management.service.ts:31-142 | Throwing at await number n, after n that succeed, is an execution of the protocol |
| OrderProtocol.AnsweredIffNoThrow | src/modules/ecommerce/sales/order-management/order-management.service.ts:31-133 | A request is answered if and only if none of its awaits throws, and how many those are: a lookup for each line that names a variant, a save for each order and line, two jobs for each order, a payment for STRIPE and PAYPAL alone, and five more |
| OrderService.Service.CreateOrderFromCart | src/modules/ecommerce/sales/order-management/order-management.service.ts:31-142 | For every enumeration of the warehouses and every number of the await that throws: cart, orders and answer are those of the protocol |
| OrderService.Service.LookUpVariants | src/modules/ecommerce/sales/order-management/order-management.service.ts:41-54 | One await for each line that names a variant; the warehouses in cart order |
| OrderService.Service.GroupByWarehouse | src/modules/ecommerce/sales/order-management/order-management.service.ts:56-62 | The record of lists has each warehouse once, with its lines in cart order |
| OrderService.Service.WriteOrders | src/modules/ecommerce/sales/order-management/order-management.service.ts:64-100 | The nested loops save exactly what the protocol stages, order by order and item by item |
| MessagingState.PairKeyNamesThePair | src/modules/social/messaging/messaging.service.ts:497-499 | Two keys are equal if and only if the unordered pairs are, for ids without a colon |
| MessagingState.PairKeyIsSymmetric | src/modules/social/messaging/messaging.service.ts:497-499 | The key does not depend on the order of the two ids |
| MessagingState.ColonsCollide | src/modules/social/messaging/messaging.service.ts:497-499 | With a colon in an id, two different pairs share a key |
| MessagingState.EveryRunKeepsInv | src/modules/social/messaging/messaging.service.ts:78-464 | After every run each conversation is well-formed and each pair key is used once |
| MessagingState.GroupsStayBounded | src/modules/social/messaging/messaging.service.ts:127-464 | A group conversation never has more than 256 present participants, and exactly one owner, its creator, present |
| MessagingState.AddEachAdds | src/modules/social/messaging/messaging.service.ts:345-373 | However far the add loop gets before it throws: at most one present row per id, no owner row, and no other conversation changed |
| MessagingState.RolesFollowTheOwner | src/modules/social/messaging/messaging.service.ts:318-464 | A participant's role changes only at the creator's request, to the role asked for, or to MEMBER when one who had left is added again |
| MessagingState.OneDirectConversationPerPair | src/modules/social/messaging/messaging.service.ts:78-125 | Two direct conversations of the same two users are the same conversation |
| MessagingState.OpensOwnConversation | src/modules/social/messaging/messaging.service.ts:95-124 | Opening a direct conversation answers the one of exactly these two users, with both present |
| ParticipantEffects.RowAfterOpeningDirect | src/modules/social/messaging/messaging.service.ts:78-125 | When a direct conversation is refused and how, and otherwise that it adds at most one, of exactly the two users |
| ParticipantEffects.RowAfterOpeningGroup | src/modules/social/messaging/messaging.service.ts:127-179 | When a group is refused and how, for 2 to 256 known users of whom the sender has blocked none nor is blocked; otherwise its participants are exactly these, present, with the sender as owner |
| ParticipantEffects.RowAfterInvitation | src/modules/social/messaging/messaging.service.ts:318-380 | When an invitation is refused; otherwise exactly the ids before the first blocked one take part, as members, and the answer says whether that was all |
| ParticipantEffects.InvitedIds | src/modules/social/messaging/messaging.service.ts:327 | The ids of an invitation are the distinct ones but the sender's |
| ParticipantEffects.RowAfterRemoval | src/modules/social/messaging/messaging.service.ts:382-423 | A removal marks the one row as left, exactly for oneself or by an admin or the owner, and never the owner's |
| ParticipantEffects.RemovalAnswers | src/modules/social/messaging/messaging.service.ts:388-416 | When it is refused, and how |
| ParticipantEffects.RowAfterRoleChange | src/modules/social/messaging/messaging.service.ts:425-464 | The owner alone gives a role, to whoever else takes part, and to no other row |
| ParticipantEffects.RoleAnswers | src/modules/social/messaging/messaging.service.ts:432-455 | When it is refused, and how |
| MessagingService.Service.CreateDirectConversation | src/modules/social/messaging/messaging.service.ts:78-125 | Guards, then the existing conversation or a new one |
| MessagingService.Service.CreateGroupConversation | src/modules/social/messaging/messaging.service.ts:127-179 | Guards, then a conversation with its owner |
| MessagingService.Service.AddGroupMembers | src/modules/social/messaging/messaging.service.ts:318-380 | Guards, then the loop that may throw midway |
| MessagingService.Service.RemoveParticipant | src/modules/social/messaging/messaging.service.ts:382-423 | Guards, then the row is marked as left |
| MessagingService.Service.UpdateParticipantRole | src/modules/social/messaging/messaging.service.ts:425-464 | Guards, then the role |
| MessagingService.ThrowStops | src/modules/social/messaging/messaging.service.ts:345-373 | Once the add loop has thrown, the ids behind change nothing |
| AuthSessions.StepKeepsTokensUnique | src/modules/auth/auth.service.ts:288-414 | Every live token and every session row names an issued token of its own user, and no token stands in two rows |
| AuthSessions.StepKeepsRowsIff | src/modules/auth/auth.service.ts:288-414 | An operation leaves every live token with a session row if and only if it is no logout that drops a row whose other token stays alive, and does not throw between storing a new token and saving its session |
| AuthSessions.RunKeepsRows | src/modules/auth/auth.service.ts:288-414 | In a run of such operations alone every live token has its session row |
| AuthSessions.PairLogoutIsWhole | src/modules/auth/auth.service.ts:399-404 | A logout with the two tokens of one session is never of that kind |
| AuthSessions.DeadStaysDead | src/modules/auth/auth.service.ts:288-414 | An issued token that does not resolve never resolves again |
| AuthSessions.LoginOpens | src/modules/auth/auth.service.ts:288-298 | A login's two tokens resolve to its user and its row is there; no other token or row changes |
| AuthSessions.RefreshOpensIff | src/modules/auth/auth.service.ts:354-397 | A refresh ends the token it is given, and opens a session for its user exactly if the JWT verifies and the account is active and not locked |
| AuthSessions.LogoutEnds | src/modules/auth/auth.service.ts:399-404 | A logout ends the two tokens it is given and no other, and exactly the user's rows with that access token |
| AuthSessions.LogoutIsFinal | src/modules/auth/auth.service.ts:399-404 | After a logout with the pair of a session neither token ever resolves again |
| AuthSessions.LogoutAllEnds | src/modules/auth/auth.service.ts:406-414 | logoutAll ends exactly the tokens that the user's rows name, and exactly those rows; other users keep theirs |
| AuthSessions.LogoutAllLeavesIff | src/modules/auth/auth.service.ts:406-414 | logoutAll leaves a token of the user alive if and only if the token is live without a session row |
| AuthSessions.OrphanedIff | src/modules/auth/auth.service.ts:288-414 | In every run a live token is without a row if and only if some logout dropped its row and not the token, or its session failed to be saved |
| AuthSessions.LogoutAllSparesIff | src/modules/auth/auth.service.ts:288-414 | So a token survives logoutAll if and only if it is live and some request of the run orphaned it in one of these two ways |
| AuthSessions.OrphanedByItsUser | src/modules/auth/auth.service.ts:288-404 | Only a request of the token's own user orphans it: a logout that does not close a whole session, or a login or refresh whose session is not saved |
| AuthSessions.LogoutAllIsFinal | src/modules/auth/auth.service.ts:406-414 | After logoutAll no token issued to the user before resolves, then or ever, unless it had been orphaned |
| AuthSessions.PartialLogoutSurvives | src/modules/auth/auth.service.ts:399-414 | Any logout that does not close a whole session leaves a token that logoutAll does not reach |
| AuthSessions.UnsavedSessionSurvives | src/modules/auth/auth.service.ts:296-298 | Any login or refresh that throws between its first mapping and its session row leaves tokens that logoutAll does not reach |
| AuthSessions.MixedLogoutSurvivesLogoutAll | src/modules/auth/auth.service.ts:399-414 | Such a logout exists for all tokens: one that mixes two sessions |
| AuthSessions.Service.VerifyOtp | src/modules/auth/auth.service.ts:288-298 | Stores both mappings and one session row, or, for each write that may throw, those before it |
| AuthSessions.Service.RefreshTokens | src/modules/auth/auth.service.ts:354-397 | Consumes the token whatever follows, and issues a new pair only to an active, unlocked user; or throws, with the writes before it done |
| AuthSessions.Service.Logout | src/modules/auth/auth.service.ts:399-404 | Drops the two mappings given and the user's rows with that access token |
| AuthSessions.Service.LogoutAll | src/modules/auth/auth.service.ts:406-414 | The loop drops both mappings of each of the user's rows, then the rows; what stays alive was orphaned |
| CouponCache.CachedCouponIsTheRow | src/modules/ecommerce/marketing/coupon/coupon.service.ts:34-102 | In every run, under any eviction, a cached coupon equals the row with its code |
| CouponCache.AcceptedIff | src/modules/ecommerce/marketing/coupon/coupon.service.ts:84-101 | Read from the table, a coupon is accepted if and only if it is active, inside its window on both sides, and under its limit |
| CouponCache.VerdictOfRow | src/modules/ecommerce/marketing/coupon/coupon.service.ts:84-101 | The verdict on a row, check by check, in their order |
| CouponCache.CreatedVerdict | src/modules/ecommerce/marketing/coupon/coupon.service.ts:34-39 | A coupon is created exactly under a free code, and is then judged by what the request asked for; every other code is judged as before |
| CouponCache.UpdatedRow | src/modules/ecommerce/marketing/coupon/coupon.service.ts:51-56 | An update is refused exactly for a code that another coupon has; otherwise the row has the given fields, and the others as they were |
| CouponCache.UpdatedVerdict | src/modules/ecommerce/marketing/coupon/coupon.service.ts:51-63 | A code that the coupon gave up is invalid, and every code of another coupon is judged as before |
| CouponCache.RemovedVerdict | src/modules/ecommerce/marketing/coupon/coupon.service.ts:65-71 | A removed coupon's code is invalid at every time, cached or not; every other code is judged as before |
| CouponCache.CachedForms | src/modules/ecommerce/marketing/coupon/coupon.service.ts:34-82 | In what form a request leaves each date in the cache |
| CouponCache.CachedAfter | src/modules/ecommerce/marketing/coupon/coupon.service.ts:34-82 | Which coupons have a copy after any request: what was saved or read, less what was renamed, removed or evicted |
| CouponCache.VerdictIsUncachedIff | src/modules/ecommerce/marketing/coupon/coupon.service.ts:73-102 | Validation answers as without a cache if and only if it does not read an active copy whose textual start puts the clock on the wrong side, or whose textual end does while the start has passed |
| CouponCache.SerialisedVerdictIff | src/modules/ecommerce/marketing/coupon/coupon.service.ts:73-102 | In every run over a store that serialises, as the configured one does: the verdict is the uncached one if and only if the coupon is not cached, or is inactive, or the numbers its dates read as are on the right sides of the clock |
| CouponCache.IsoVerdictIff | src/modules/ecommerce/marketing/coupon/coupon.service.ts:73-102 | The same where such numbers have passed on the clock, as those of every ISO 8601 text have: a cached, active coupon is judged right if and only if it has started, and has an end that reads as a number exactly when it is over |
| CouponCache.TypedRunsJudgeAsUncached | src/modules/ecommerce/marketing/coupon/coupon.service.ts:73-102 | Over a store that keeps dates, while no request writes dates into the cache, every verdict is the uncached one |
| CouponCache.FreshCouponIgnoresItsStart | src/modules/ecommerce/marketing/coupon/coupon.service.ts:34-39 | Any coupon created to start later validates at once, unless its start reads as a number still ahead |
| CouponCache.NumericEndExpiresAtOnce | src/modules/ecommerce/marketing/coupon/coupon.service.ts:34-39 | Any coupon created with an end to come that reads as a number behind the clock, as a year alone does, is expired at once |
| CouponCache.Service.Create | src/modules/ecommerce/marketing/coupon/coupon.service.ts:34-39 | A new row with the defaults and a copy of what was saved, or a refused code |
| CouponCache.Service.Update | src/modules/ecommerce/marketing/coupon/coupon.service.ts:51-63 | The row with the given fields replaced, its copy under the new code, none under the old |
| CouponCache.Service.Remove | src/modules/ecommerce/marketing/coupon/coupon.service.ts:65-71 | Deactivates the row and drops its copy |
| CouponCache.Service.ValidateCoupon | src/modules/ecommerce/marketing/coupon/coupon.service.ts:73-102 | The verdict on the copy or the row, in the order of the checks, caching an active row it had to read |
| CaseText.RoundTrip | src/utils/convert-text.ts:14-69 | Splitting what was printed gives the words back for upper, lower, title, sentence, kebab, snake, constant, dot and path, for all words over a-z and 0-9 |
| CaseText.PrintsWordByWord | src/utils/convert-text.ts:28-69 | What each of the eleven cases prints: every further word adds the case's separator and the word in the case's form |
| CaseText.CamelRoundTripIff | src/utils/convert-text.ts:43-48 | For camel it does so if and only if every word but the last ends in a letter, every word but the first begins with one, and interior words have two characters or more |
| CaseText.PascalRoundTripIff | src/utils/convert-text.ts:50-53 | For pascal, the same with every word but the last of two characters or more |
| CaseText.LettersRoundTripIff | src/utils/convert-text.ts:43-53 | Over letters alone only those lengths matter |
| CaseText.ConversionsCompose | src/utils/convert-text.ts:23-73 | Converting through one of the nine cases first changes no later conversion |
| CaseText.SplitUndoesJoin | src/utils/convert-text.ts:18-20 | Splitting at spaces undoes joining with spaces |
| CaseText.SplitCamelGlues | src/utils/convert-text.ts:16 | The first replacement puts a space exactly where a lower-case letter meets a capital, and glues the other parts |
| CaseText.SplitsAtGap | src/utils/convert-text.ts:14-21 | With the next two, what the words of a text are: text up to a gap of white space and separators is one word in lower case, and the rest is read on |
| CaseText.LastWord | src/utils/convert-text.ts:14-21 | The last word ends where the gap behind it begins |
| CaseText.FrontGapIsIgnored | src/utils/convert-text.ts:14-21 | A gap in front adds no word |
| CaseText.GapHasNoWord | src/utils/convert-text.ts:23-54 | Text of gaps alone has one empty word, and converting it throws exactly for title and pascal |

## Left out

- Controllers, DTO validation, notices, sockets, queues, mail, media, view counts and the payment bridge: the model stops at the tables, the caches and the amount handed on.
- Tenants: the group, post, feed, messaging and coupon models fix one tenant context, which every query of those services filters by; registry, stock, wallet and gift cards carry it.
- Concurrency outside `adjustStock` and `creditUser`: every other public method is one step. In particular two redemptions of one card at once, the unlocked insert in `getBalance`, and two creations racing for one slug or one pair key.
- Locks: acquiring is mutual exclusion, and a lock does not expire while its holder is inside.
- Database failures midway through the non-transactional writes of `createCommunity`, `createFanpage`, `joinGroup`, `leaveGroup`, `approveMember`, `removeMember`, `createGroupPost`, `approveGroupPost`, `createPost`, `deletePost`, `repost`, `createDirectConversation`, `createGroupConversation` and, between the table and the cache, the coupon methods.
- RegistryService.Service.UpdateRegistry: answers the blocking modules as a set, because the order in which the message lists them says nothing more.
- RegistryService.Service.CreateRegistry: answers missing dependencies as a set, because the order in which the message lists them says nothing more; a module key with a comma, which the column type would split, is not modelled, and neither is a dependency list whose one entry is the empty string, which the column reads back as no entry.
- HashtagUtil.ExtractHashtagsFromContent: takes the Unicode word class, white space, lower-casing and NFKC as parameters, and uses of them only that '#' is no word character. The cut of a slug at 120 counts characters, where the code counts UTF-16 units; the two differ for long words with characters beyond the basic plane.
- CaseText.RoundTrip: ASCII only; other letters and white space beyond ASCII are not modelled.
- SlugGenerator.GenerateUniqueSlug: takes the name already lower-cased, by a function that stays abstract, and the set of slugs in use as one snapshot.
- OrderService.Service.CreateOrderFromCart: takes the order of the record's keys as a parameter that permutes them; keys that the prototype of an object already has are not modelled. Money is in integer cents. The variant lookups, issued together, are awaited in cart order.
- OrderProtocol.LinesSurviveIff: an await that throws has had no effect, so a commit or a cart save that reached its database before the connection failed is not modelled; one request at a time.
- ShoppingCart.Cart.CalculateTotals: tax and total over exact numbers, without the rounding of floating point.
- ShoppingCart.Cart.AddToCart: an absent and a null variant are the same.
- Privacy.GetNewsfeed: orders by creation, so posts created in the same instant have an order here; a limit of 0 takes nothing, whatever the query builder makes of it.
- HashtagFeed.ListPostsForHashtag: takes the rows of the tag query, at most 6000, with their times; a page or limit that is not a number is one that is 0.
- FeedRuns.ListingIsExact: for a tag query that its cap of 6000 rows does not cut, and tag times that are positive.
- AuthSessions.Service.VerifyOtp: starts where the code was right; the OTP store, registration, login and password hashing are not modelled, a JWT is its subject, and random tokens are fresh.
- AuthSessions.Service.LogoutAll: a throw midway, as in `logout`, has the effect of `Expire` steps for the mappings deleted before it, so it is not an operation of its own.
- MessagingService.Service.CreateGroupConversation: takes the title trimmed; messages, encryption, read marks and profiles are not modelled.
- CouponCache.Service.ValidateCoupon: the redemption log is not modelled, and columns that validation does not read are one value.
- CouponCache.Service.Update: the body of an update is not validated; here its fields other than the dates have their declared types, and its dates are texts that the database accepts.
- WalletService.RedeemedIsFinal: cards are issued and redeemed here; other services that may change a card's status are not modelled.
- Group settings, group and member listings, `getTrendingTopics` and `searchHashtags`: reads or single-column writes. No modelled service archives a group; a step of the runs does, from outside.
- Idempotence of `normalizeHashtagSlug`: the code does not have it.
- Connections, comments, learning, blog, SEO, settlement, payout, support, shipping and procurement: single-branch reads and writes, or figures the code does not keep consistent.
