# Verification of the Uncord server's stateful cores

A Dafny model of the parts of the server whose correctness depends on state that several requests share, with proofs
about whole runs. `dafny verify dfyconfig.toml` checks everything.

Each component has two forms. The *meaning* of an operation is a function on a value (tables, cache entries, gateway
state, token store); code that changes things in place is modelled as a class whose methods do what the source does,
and each method is proved equal to its meaning. Invariants and run properties are then lemmas about the meaning.

| files | what they model |
|---|---|
| `ServerStore.dfy`, `ServerActions.dfy`, `MutationHandlers.dfy` | roles, members, bans, permission overrides; the handlers that guard, write and publish an invalidation |
| `RoleHierarchy.dfy`, `HandlerEffects.dfy`, `HandlerRoundTrips.dfy`, `RoleGrants.dfy`, `Rejoin.dfy` | what the rank guards achieve over whole runs; exactly when each call goes through and what it stores; calls that undo each other; what creating and assigning roles does to permissions; joining a second time |
| `PermissionRules.dfy`, `PermissionCache.dfy`, `PermissionResolver.dfy` | the permission algorithm, the Valkey cache, the cached and bulk lookups |
| `PermissionCoherence.dfy`, `PermissionAgreement.dfy` | cache coherence over runs; cached and bulk answers against the plain algorithm |
| `RefreshTokens.dfy` | the three Lua scripts over refresh tokens and index sets, with a clock (RFC 9700, section 4.14.2) |
| `PreKeys.dfy` | devices and one-time pre-keys under overlapping transactions (section 3.3 of the X3DH Key Agreement Protocol) |
| `GatewaySpec.dfy`, `GatewayHub.dfy`, `GatewayRuns.dfy`, `GatewayAnswers.dfy`, `GatewayService.dfy` | WebSocket sessions: identify, dispatch, disconnect, resume, replay |
| `RateLimiter.dfy`, `EventPublisher.dfy`, `ThumbnailWorker.dfy` | the fixed-window limiter, the bounded publisher, the retrying stream worker |
| `KeysetPaging.dfy`, `Listings.dfy`, `MemberListing.dfy` | keyset pagination, also while the table changes, and the filter-while-paging loop |
| `Reactions.dfy` | the two reaction summarisers |

How the world is modelled:

- A permission bitfield is the set of its bits. The permission constants belong to an external package; the set of all
  defined bits and the bits of ManageServer are parameters (`Catalog`).
- UUIDs are natural numbers; only equality matters, except in pagination, where their order is the byte order.
- An SQL statement, a transaction or a Lua script is one atomic step. Encodings (JSON, UUID texts, cache keys) are
  taken to be injective.
- Clock readings, new identifiers, the results of token checks, READY payloads, permission lookups inside the gateway
  and the outcome of thumbnail generation are parameters, so the results hold for all of them.

Where the code and its own comments disagree, the model follows the code:

- `internal/member/repository.go:121` says that deleting a member cascades to member_roles. The foreign key of that
  table references users (`internal/postgres/migrations/001_initial_schema.sql:248-253`), so the rows stay after a
  kick, ban or leave; so does the model. The consequence: joining inserts the @everyone row again, without a conflict
  clause. `Rejoin.JoinsIffNeverJoined` states that exactly the users who have not joined before can join; a former
  member is refused with an internal error.
- The comment of `Refresh` (`internal/auth/service.go:311-314`) promises that presenting a used refresh token revokes the
  family. A plain replay fails already at the lookup and revokes nothing; only losing a race between lookup and
  rotation revokes. `FamilyRevokedOnlyInARace` states exactly when.
- `internal/permission/resolver.go:58-60` keeps server-level results under the nil channel and takes it that no channel
  lookup uses that key. For a user who is not an admin, `Resolve` with the nil channel then returns the server-level
  entry. `ResolveAgrees` states exactly when the two differ.
- `internal/config/config.go:102` calls the WebSocket limit a maximum per window. Per window the limiter opens that is so
  (`CountsFromOpener`). Over an arbitrary interval of that length up to 2N - 1 messages pass; `LimitPerIntervalIff` states
  for exactly which configurations the limit holds there too: a limit of at most 1, or no window length.
- The two reaction summaries order emojis by their first use, without a tie-break. `SummariesAgreeIff` states that they
  agree for certain if and only if no two emojis of the message were first used at the same instant.
- Nothing promises that events are published in the order they were enqueued; `KeepsOrderIff` states that it holds exactly
  for at most one worker.
- The rank guards keep ranks from rising (`ActorsNeverRise`); permission bits are not ranked, and `CreatorMayTakeRole` states
  what follows.
- A resume whose client missed frames before an earlier resume of the same session is not given those frames again and is
  not refused (`SecondResumeForgetsEarlierFrames`); `ResumeWindow` states exactly which resumes are complete.

## Model

| member | source | states |
|---|---|---|
| `ServerStore.Least` | internal/role/repository.go:170-185 | the smallest of the positions: it is one of them and none is smaller |
| `ServerActions.NextPositionIsFree` | internal/role/repository.go:70-103 | the position a new role gets is strictly greater than every position in use |
| `ServerActions.ApplyKeepsTablesWellFormed` | internal/role/repository.go:70-166 | every successful handler call keeps the schema's constraints: positions distinct and within INTEGER, role names distinct, at most one @everyone, only defined bits in roles and overrides, role assignments only to existing roles |
| `RoleHierarchy.RankIsBest` | internal/role/repository.go:167-185 | the rank is the best position among the user's explicit roles, the maximum integer without any |
| `RoleHierarchy.CallAgreesUpToCaller` | internal/api/role.go:140-157 | a successful call leaves every role at the caller's rank or better as it was, with the same holders |
| `RoleHierarchy.CallKeepsUntouchables` | internal/api/member.go:610-640 | kick, ban and leave remove no owner and no member ranked at the caller's rank or better, except a caller who leaves |
| `RoleHierarchy.CallPreserves` | internal/api/member.go:501-517 | for callers ranked at b or worse, one call keeps every rank at b or better and every other rank strictly below b |
| `RoleHierarchy.ActorsNeverRise` | internal/api/role.go:208-224 | any set of users, any calls, any order: the best rank inside the set stays exactly what it was, everyone ranked at it or better keeps the rank, everyone else stays strictly below, owners and untouchable members stay |
| `MutationHandlers.Handlers.CreateRole` | internal/api/role.go:51-105 | the handler ends as its action's meaning says: tables, queued message and error |
| `MutationHandlers.Handlers.UpdateRole` | internal/api/role.go:111-193 | the guards in the source's order, then the write and one invalidation of everything, or an error and no change |
| `MutationHandlers.Handlers.DeleteRole` | internal/api/role.go:197-245 | guarded delete with one invalidation of everything, or an error and no change |
| `MutationHandlers.Handlers.AssignRole` | internal/api/member.go:473-529 | guarded assignment with one invalidation of the target user, or an error and no change |
| `MutationHandlers.Handlers.RemoveRole` | internal/api/member.go:542-606 | guarded removal with one invalidation of the target user, or an error and no change |
| `MutationHandlers.Handlers.KickMember` | internal/api/member.go:252-284 | owner and hierarchy guards, then the delete and one invalidation, or an error and no change |
| `MutationHandlers.Handlers.BanMember` | internal/api/member.go:367-414 | owner and hierarchy guards, then ban record and delete together and one invalidation, or an error and no change |
| `MutationHandlers.Handlers.ClearTimeout` | internal/api/member.go:337-364 | the status change and one invalidation, or an error and no change; there is no rank guard |
| `MutationHandlers.Handlers.LeaveServer` | internal/api/member.go:183-200 | an owner cannot leave; anyone else's row goes and one invalidation is queued |
| `MutationHandlers.Handlers.SetOverride` | internal/api/permission.go:34-86 | only defined bits are stored; the upsert is followed by one invalidation of the channel |
| `MutationHandlers.Handlers.DeleteOverride` | internal/api/permission.go:91-132 | a stored override goes, followed by one invalidation of the channel, or an error and no change |
| `MutationHandlers.HandlerIsMutateStep` | internal/api/member.go:671-678 | a finished handler call is one step of the coherence runs and keeps their invariant |
| `HandlerRoundTrips.AssignThenRemove` | internal/api/member.go:473-606 | whoever could assign a role can remove it right away, which restores the tables |
| `HandlerRoundTrips.CreateThenDelete` | internal/api/role.go:51-245 | deleting the role just created restores the tables if and only if its creator holds an explicit role; otherwise the rank guard refuses, even for an owner |
| `PermissionRules.LevelDecides` | internal/permission/resolver.go:264-293 | one level of overrides: the user's own mention of a bit decides, deny beating allow; else the roles' mention; else the bit stays |
| `PermissionRules.BaseIsRoleUnion` | internal/permission/resolver.go:195-220 | owners and holders of ManageServer are admins with exactly the defined bits; anyone else has a bit exactly when @everyone or a role assigned to them has it |
| `PermissionRules.MostSpecificMentionWins` | internal/permission/resolver.go:224-293 | bit by bit, the first of channel user, channel roles, category user, category roles that mentions the bit decides it, else the role union; the order of override rows plays no part; only a non-admin gets an unknown-channel error |
| `PermissionRules.ComputeStaysInCatalog` | internal/permission/resolver.go:224-235 | nobody ever has a bit that is not defined |
| `PermissionResolver.Database.RolePermissions` | internal/permission/pg_store.go:38-66 | the rows are exactly the roles assigned to the user and @everyone, each once, with their bits |
| `PermissionResolver.Database.Overrides` | internal/permission/pg_store.go:124-150 | the rows are exactly the target's overrides, one per principal |
| `PermissionResolver.ApplyOverrides` | internal/permission/resolver.go:264-293 | one pass over the rows, in whatever order they come, gives the order-free level rule |
| `PermissionResolver.Resolver.BasePermissions` | internal/permission/resolver.go:195-220 | accumulating the rows gives the owner bypass, the ManageServer bypass and the role union |
| `PermissionResolver.Resolver.ChannelOverrides` | internal/permission/resolver.go:239-260 | category level first, then channel level, or an unknown-channel error |
| `PermissionResolver.Resolver.ComputePermissions` | internal/permission/resolver.go:224-235 | the four steps over rows give the algorithm on the tables |
| `PermissionResolver.Resolver.Resolve` | internal/permission/resolver.go:25-47 | the cached entry or the algorithm, and exactly which entry the cache gains |
| `PermissionResolver.Resolver.HasPermission` | internal/permission/resolver.go:50-56 | whether every asked bit is in what Resolve gives, and the same cache effect |
| `PermissionResolver.Resolver.ResolveServer` | internal/permission/resolver.go:64-84 | the cached server-level entry or the base permissions, and the entry the cache gains |
| `PermissionResolver.Resolver.FilterPermitted` | internal/permission/resolver.go:98-145 | one answer per channel in order, duplicates included, admins without lookups, one unknown channel failing the call; exactly the misses are stored |
| `PermissionResolver.Resolver.FilterUsersPermitted` | internal/permission/resolver.go:150-184 | one answer per user in order, duplicates included; exactly the misses are stored |
| `PermissionCache.ValkeyCache.GetMany` | internal/permission/cache.go:93-126 | exactly the cached entries of the user among the listed channels |
| `PermissionCache.ValkeyCache.GetManyUsers` | internal/permission/cache.go:147-180 | exactly the cached entries of the channel among the listed users |
| `PermissionCache.ValkeyCache.SetMany` | internal/permission/cache.go:129-144 | the given entries of the user are stored and nothing else changes |
| `PermissionCache.ValkeyCache.SetManyUsers` | internal/permission/cache.go:183-197 | the given entries of the channel are stored and nothing else changes |
| `PermissionCache.ValkeyCache.ScanAndDelete` | internal/permission/cache.go:219-237 | whatever batches the cursor yields, with keys seen twice or not at all any more, exactly the matching entries are gone afterwards |
| `PermissionCoherence.Subscriber.HandleMessage` | internal/permission/invalidate.go:98-127 | exactly the entries the message's fields cover are gone; a message of another version removes nothing |
| `PermissionCoherence.MutationPublishesWhatItSpoils` | internal/api/permission.go:64-85 | the message a handler queues covers every entry whose right value its write can have changed, in both directions |
| `PermissionCoherence.NextKeepsInv` | internal/permission/resolver.go:25-84 | every step keeps: each cached entry is right or covered by a message in flight |
| `PermissionCoherence.RunsStayCoherent` | internal/permission/invalidate.go:37-127 | over every run of lookups, handlers, deliveries in any order and expiries; with nothing in flight the whole cache is right |
| `PermissionCoherence.DrainingRestoresCoherence` | internal/permission/invalidate.go:80-95 | from any reachable state, delivering the queue reaches an empty queue and a right cache without touching the tables |
| `PermissionAgreement.ReadersKeepCoherence` | internal/permission/resolver.go:98-184 | single and bulk lookups leave a coherent cache coherent, and tables and queue alone |
| `PermissionAgreement.ResolveAgrees` | internal/permission/resolver.go:25-60 | on a coherent cache Resolve equals the algorithm if and only if the channel is not nil, or the user is an admin, or no server-level entry is cached |
| `PermissionAgreement.ServerResolveAgrees` | internal/permission/resolver.go:64-84 | on a coherent cache ResolveServer equals the base permissions |
| `PermissionAgreement.BulkAgrees` | internal/permission/resolver.go:98-184 | the bulk answers, any error included, equal the element-by-element form exactly when no key is answered only by a server-level entry or some other key fails |
| `PermissionAgreement.FilterPermittedAgrees` | internal/permission/resolver.go:98-145 | exact condition, for non-admins and for admins, under which FilterPermitted equals the algorithm followed by the bit test on every element |
| `PermissionAgreement.FilterUsersPermittedAgrees` | internal/permission/resolver.go:150-184 | exact condition under which FilterUsersPermitted equals the algorithm followed by the bit test on every element |
| `PermissionAgreement.NilChannelReadsServerEntry` | internal/permission/resolver.go:58-84 | a concrete coherent state in which the nil channel is answered from a server-level entry although no such channel exists |
| `RefreshTokens.TokenStore.CollectStale` | internal/auth/refresh.go:74-84 | exactly the members whose token key is gone or expired |
| `RefreshTokens.TokenStore.CreateScript` | internal/auth/refresh.go:73-89 | the script's whole effect on tokens and index set |
| `RefreshTokens.TokenStore.RotateScript` | internal/auth/refresh.go:34-63 | the script's whole effect, and the owner it returns or nothing when the spent token is not live |
| `RefreshTokens.TokenStore.RevokeAllScript` | internal/auth/refresh.go:95-106 | the members' token keys and the set are gone, and how many there were |
| `RefreshTokens.TokenStore.FinishRefresh` | internal/auth/service.go:315-354 | rotation, and revocation of the family exactly when the rotation fails after a successful lookup |
| `RefreshTokens.TokenStore.Refresh` | internal/auth/service.go:315-354 | undisturbed, a refresh returns the owner exactly for a live token and is a rotation, and otherwise changes nothing |
| `RefreshTokens.CreateKeepsInv` | internal/auth/refresh.go:73-89 | after a create script the owner's set is exactly the owner's live tokens, and every live token is in a set that outlives it |
| `RefreshTokens.RotateKeepsInv` | internal/auth/refresh.go:34-63 | the same after a rotate script |
| `RefreshTokens.RevocationIsComplete` | internal/auth/refresh.go:95-106 | afterwards the user has no live token, and no other user's token or set has changed |
| `RefreshTokens.LogoutStepRevokes` | internal/auth/refresh.go:95-106 | the logout step of a run is that revocation |
| `RefreshTokens.SetOutlivesTokensIff` | internal/auth/refresh.go:85-88 | issuing with any TTL keeps the index sound if and only if no live token of the user expires after the new one |
| `RefreshTokens.LogoutIsCompleteInEveryRun` | internal/auth/service.go:84-88 | in every run from an empty store a logout kills all and only the user's tokens, and every login has at most one live descendant |
| `RefreshTokens.RotationSwapsOneToken` | internal/auth/refresh.go:144-165 | a rotation replaces one live token of the owner by one; nobody's number of live tokens changes |
| `RefreshTokens.DeadStaysDead` | internal/auth/refresh.go:34-63 | a spent, revoked or expired token never becomes live again |
| `RefreshTokens.RotatedAtMostOnce` | internal/auth/refresh.go:144-165 | in every run each token is rotated successfully at most once and is dead from then on |
| `RefreshTokens.FamilyRevokedOnlyInARace` | internal/auth/service.go:311-354 | the family is revoked exactly when the token was live at the lookup and dead at the rotation; a plain replay changes nothing |
| `PreKeys.LowestFree` | internal/e2ee/repository.go:240-256 | the free row with the lowest key id of the device, none exactly when all are locked or gone |
| `PreKeys.PreKeyStore.RegisterDevice` | internal/e2ee/repository.go:29-59 | count and insert as one step: the limit, the duplicate, or the new device |
| `PreKeys.PreKeyStore.RemoveDevice` | internal/e2ee/repository.go:102-111 | the device, its signed pre-keys and its one-time pre-keys go together, or nothing does |
| `PreKeys.PreKeyStore.UploadSignedPreKey` | internal/e2ee/repository.go:131-152 | the new key is the only active one; on a duplicate key id nothing changes, not even the deactivation |
| `PreKeys.PreKeyStore.TakeOneTimePreKey` | internal/e2ee/repository.go:240-256 | takes the lowest free row under a lock, or nothing |
| `PreKeys.PreKeyStore.RollbackTransaction` | internal/e2ee/repository.go:191-269 | the rows the transaction took are free again |
| `PreKeys.EveryKeyIsInOnePlace` | internal/e2ee/repository.go:191-269 | with transactions overlapping in any way, every uploaded key is in exactly one place: free, locked by one open transaction, handed out once, or gone with its device; hand-outs are never undone |
| `PreKeys.EndOfTransaction` | internal/e2ee/repository.go:191-269 | a rollback frees exactly what was taken, a commit hands out exactly that, other transactions keep theirs |
| `PreKeys.BundleIsExact` | internal/e2ee/repository.go:191-269 | the bundle serves exactly the devices with an active signed pre-key, in order, each with its lowest free key if it has one |
| `PreKeys.CommittedBundleIsHandedOut` | internal/e2ee/repository.go:191-269 | a fetch followed by its commit hands out exactly the keys in its bundle |
| `GatewaySpec.SwapRemoveUnregisters` | internal/gateway/hub.go:170-203 | swap-remove takes exactly one connection out of the registry and leaves no duplicate and no empty slice |
| `GatewaySpec.AppendRegisters` | internal/gateway/hub.go:144-156 | registering adds exactly one connection |
| `GatewayHub.SessionStore.AppendReplay` | internal/gateway/session.go:108-124 | push and trim: the last maxReplay entries stay |
| `GatewayHub.SessionStore.Replay` | internal/gateway/session.go:128-146 | the loop returns the frames numbered after the given one, in order |
| `GatewayHub.Hub.TotalClients` | internal/gateway/hub.go:160-166 | the sum of the slice lengths is the number of registered connections |
| `GatewayHub.Hub.Register` | internal/gateway/hub.go:144-156 | refused exactly at the limit; otherwise the connection is appended under its user |
| `GatewayHub.Hub.Unregister` | internal/gateway/hub.go:170-212 | the in-place removal and the save do what a disconnect means |
| `GatewayHub.Hub.HandleIdentify` | internal/gateway/hub.go:263-325 | on the heap, exactly the meaning of an identify |
| `GatewayHub.Hub.HandleResume` | internal/gateway/hub.go:328-407 | on the heap, exactly the meaning of a resume, with its refusals |
| `GatewayHub.Hub.Collect` | internal/gateway/hub.go:519-548 | every identified connection of the targeted users, or of everyone, exactly once |
| `GatewayHub.Hub.FilterByPermission` | internal/gateway/hub.go:557-579 | with one remembered verdict per user, the connections kept are those a check of every connection would keep; failed checks drop the connection and are not remembered |
| `GatewayHub.Hub.HandlePubSubEvent` | internal/gateway/hub.go:488-610 | exactly the recipients get the event, each once, numbered and recorded or ephemeral |
| `GatewayRuns.MissedIsSuffix` | internal/gateway/session.go:128-146 | on a replay list, what follows k is the stretch after the later of k and the list's start |
| `GatewayRuns.NextKeepsInv` | internal/gateway/hub.go:144-610 | every handler call keeps the gateway invariant and only adds to the frames made on a session |
| `GatewayRuns.RunKeepsInv` | internal/gateway/hub.go:291-399 | over every run, number n of a session labels one frame for good, across disconnects and resumes |
| `GatewayRuns.GatewayGuarantees` | internal/gateway/hub.go:170-221 | in every reachable state: registered connections have different sessions and stand at the last number, saved sessions have no registered connection and hold the last number, what a connection was handed has increasing numbers and is the session's frame of that number, the registry is within the limit |
| `GatewayRuns.DispatchIsExact` | internal/gateway/hub.go:581-610 | a dispatched event gives exactly one frame to each recipient under its own next number and touches nobody else; an ephemeral one changes no number and no replay list |
| `GatewayRuns.ResumeIsExact` | internal/gateway/hub.go:328-407 | an accepted resume hands over exactly the retained frames after k in order, then RESUMED with the next number, and drops record and list |
| `GatewayRuns.ResumeWindow` | internal/gateway/session.go:108-146 | without expiry, a client that saw READY or RESUMED at b and everything up to k gets exactly the frames after max(k, n - maxReplay); nothing is missing if and only if it saw b and missed at most maxReplay frames |
| `GatewayRuns.RunsWithoutExpiryAreFull` | internal/gateway/session.go:108-124 | every run without replay expiry ends in a state the window result speaks about |
| `RateLimiter.Limiter.RateLimited` | internal/gateway/client.go:304-313 | one call is one tick of the window, and the verdict |
| `RateLimiter.Limiter.ReadPump` | internal/gateway/client.go:125-137 | messages are handled up to the first limited one and none after it |
| `RateLimiter.CountsFromOpener` | internal/gateway/client.go:304-313 | the counter is the number of messages since the one that opened the window, and a message is limited exactly when that exceeds the limit |
| `RateLimiter.BurstBound` | internal/gateway/client.go:304-313 | any stretch of accepted messages spanning at most one window length has at most 2N - 1 messages |
| `RateLimiter.RunBound` | internal/gateway/client.go:304-313 | a run of length T accepts at most N * (T / (W + 1) + 1) messages, times in whole ticks of the clock |
| `EventPublisher.Publisher.Submit` | internal/gateway/publisher.go:71-83 | accepted at the end of the queue, or dropped and counted when closed or full |
| `EventPublisher.Publisher.Drain` | internal/gateway/publisher.go:90-96 | a worker empties a closed queue and attempts everything left, in order |
| `EventPublisher.JobsAreConserved` | internal/gateway/publisher.go:71-108 | in every reachable state jobs offered = dropped + queued + in flight + attempted, counted with multiplicity, and the queue is within its bound |
| `EventPublisher.EveryAcceptedJobIsAttempted` | internal/gateway/publisher.go:87-108 | when Run returns, the attempted jobs are exactly the accepted ones, each as often as it was accepted |
| `EventPublisher.ClosedQueueDrains` | internal/gateway/publisher.go:98-101 | after the close nothing is accepted and every step of a worker leaves strictly less work |
| `EventPublisher.ShutdownIsNotStuck` | internal/gateway/publisher.go:98-101 | until Run returns, some worker can move |
| `EventPublisher.OneWorkerKeepsOrder` | internal/gateway/publisher.go:90-96 | a single worker attempts jobs in the order they were accepted |
| `ThumbnailWorker.Stream.ProcessJob` | internal/media/thumbnail.go:131-163 | which outcomes acknowledge the job and which leave it pending |
| `ThumbnailWorker.Stream.ReclaimStale` | internal/media/thumbnail.go:110-129 | claiming a batch and processing each job in turn is that run of steps |
| `ThumbnailWorker.AttemptsAreBounded` | internal/media/thumbnail.go:108-219 | over every run, with crashes between jobs, a job is attempted at most three times plus once per lost acknowledgement, and no job is lost |
| `ThumbnailWorker.AckedForGood` | internal/media/thumbnail.go:221-225 | an acknowledged job is never attempted again |
| `ThumbnailWorker.ThirdDeliveryEnds` | internal/media/thumbnail.go:153-163 | one more delivery ends a job that has had two, whatever its outcome, if the acknowledgement arrives |
| `KeysetPaging.SortedIsUnique` | internal/message/repository.go:104-121 | ORDER BY on (time, id) admits exactly one order |
| `KeysetPaging.RestAfterRow` | internal/message/repository.go:104-112 | taking a listed row as the cursor gives exactly the rows after it |
| `KeysetPaging.PagesConcatenate` | internal/thread/repository.go:84-117 | on an unchanging table the pages concatenate to the whole listing, for every page size and cursor |
| `KeysetPaging.CursorMustBeStored` | internal/message/repository.go:108 | with rows left, the next page is empty if and only if the cursor row is no longer stored |
| `KeysetPaging.ScanIsOrdered` | internal/message/repository.go:100-139 | pages read from successive states of a growing table are in strict order, so nothing is returned twice |
| `KeysetPaging.ScanMissesNothing` | internal/message/repository.go:100-139 | a row shown in every state is returned by a scan that ran to its end |
| `Listings.MessageRepository.SoftDelete` | internal/message/repository.go:163-174 | the row is marked and stays; false exactly when there is none or it is marked already |
| `Listings.MessageRepository.List` | internal/message/repository.go:98-139 | in plain times and ids: undeleted messages of the channel or thread, newest first, older than the cursor message; what is left out is older than a then full page; a cursor that is not stored gives nothing |
| `Listings.ScrollingMissesNothing` | internal/message/repository.go:250-291 | with messages created and soft-deleted between the pages, nothing comes twice, and every message there at the start and not deleted comes exactly once |
| `Listings.ThreadsWalk` | internal/thread/repository.go:84-117 | page by page, exactly the channel's threads, newest first, each once |
| `Listings.AuditLog.List` | internal/audit/repository.go:39-88 | the query built condition by condition answers, in plain times and ids, with the newest entries that pass all given filters and are older than the cursor |
| `Listings.AuditWalk` | internal/audit/repository.go:38-68 | page by page, exactly the entries that pass the filters, newest first, each once |
| `MemberListing.FilterIsQuery` | internal/member/repository.go:51-90 | filtering the member listing by permission is listing the permitted members |
| `MemberListing.TakePermitted` | internal/api/member.go:123-130 | the permitted members of a batch, up to the limit |
| `MemberListing.ListChannelMembers` | internal/api/member.go:75-139 | the batching loop ends and returns, in plain joining times and ids, exactly the first limit permitted members after the cursor; it fails only when some check fails |
| `MemberListing.ChannelMembersWalk` | internal/api/member.go:105-136 | asking again with the last returned user walks all permitted members in joining order, each exactly once |
| `Reactions.ReactionRepository.Add` | internal/reaction/repository.go:25-41 | refused exactly when the user already reacted with the emoji; the unique index is kept |
| `Reactions.ReactionRepository.Remove` | internal/reaction/repository.go:44-66 | exactly the user's reaction with the emoji goes; false exactly when there was none |
| `Reactions.AddThenRemove` | internal/reaction/repository.go:25-66 | adding a reaction and removing it leaves the store as it was |
| `Reactions.GroupReactions` | internal/api/reaction.go:234-276 | the map-and-order loop gives, per emoji in order of first occurrence, the count and whether the user is among them |
| `Reactions.BuildMessageModel` | internal/api/message.go:425-442 | the loop attaches Me by looking the emoji's text up among the user's own |
| `Reactions.OwnKeysDiffer` | internal/reaction/repository.go:181-185 | texts of different stored emojis differ, custom or unicode |
| `Reactions.CountIsUsers` | internal/reaction/repository.go:118-149 | the count of a summary is the number of users who reacted |
| `Reactions.UnguardedTextWouldClash` | internal/api/reaction.go:221-228 | a text with the custom prefix would share a key with the custom emoji; the parser never lets one through as unicode |
| `MutationHandlers.Handlers.SetTimeout` | internal/api/member.go:287-334 | a time not ahead of the clock is refused first; then owner and hierarchy guards, then the status change and one invalidation, or an error and no change |
| `MutationHandlers.Handlers.CreatePending` | internal/member/repository.go:283-308 | pending membership and @everyone row together; a surviving row fails the transaction, which then changes nothing |
| `Rejoin.LeaverIsRefused` | internal/member/repository.go:122-131 | the refusal is reached: joining, leaving and joining again |
| `PermissionCoherence.JoinChangesNoPermission` | internal/member/repository.go:283-308 | joining changes no user's base or channel permissions, so the missing invalidation is sound |
| `PreKeys.KeysFromEmptyStore` | internal/e2ee/repository.go:29-269 | in every run from an empty store each uploaded key is in exactly one place and nothing is handed out twice |
| `PreKeys.PreKeyStore.FetchDevices` | internal/e2ee/repository.go:217-256 | the device loop does what the recursive meaning of a fetch says, in state and result |
| `PreKeys.PreKeyStore.FetchUserKeyBundle` | internal/e2ee/repository.go:191-269 | an error and no change exactly for a user without devices; otherwise exactly the keys of the bundle are handed out and no other row or lock changes |
| `GatewayService.Service.Open` | internal/gateway/hub.go:121-140 | a new connection is one step of the recorded run, and the hub's heap is the state that run leads to |
| `GatewayService.Service.Identify` | internal/gateway/client.go:214-232 | the same for an identify, with a session identifier never used before |
| `GatewayService.Service.Resume` | internal/gateway/client.go:235-253 | the same for a resume |
| `GatewayService.Service.Close` | internal/gateway/client.go:104-107 | the same for a lost connection |
| `GatewayService.Service.Dispatch` | internal/gateway/hub.go:99-117 | the same for a published event, each recipient once |
| `GatewayRuns.SecondResumeForgetsEarlierFrames` | internal/gateway/hub.go:384-391 | a run from an empty gateway whose last resume is accepted from an older number and silently skips a frame; ResumeWindow has the exact condition |
| `RateLimiter.BurstBoundIsTight` | internal/config/config.go:102-103 | for every limit and positive window length there is an accepted run that reaches 2N - 1 |
| `RateLimiter.LimitPerIntervalIff` | internal/config/config.go:102-103 | the limit holds for every interval of one window length if and only if it is at most 1 or the window has no length |
| `ThumbnailWorker.BoundIsMet` | internal/media/thumbnail.go:221-225 | for every job and every number n of lost acknowledgements a run with exactly 3 + n attempts |
| `Reactions.ParseEmojiParam` | internal/api/reaction.go:216-231 | refused are exactly the empty text and a custom prefix without a UUID; what passes is a custom id exactly behind the prefix, and never a unicode text that could be mistaken for one |
| `Reactions.ParamRoundTrip` | internal/api/reaction.go:216-231 | the lookup text of a stored emoji, given as a route parameter, parses back to that emoji |
| `Reactions.SummariesAgree` | internal/api/message.go:425-442 | when different emojis have different first times, every listing and every answer of the grouped query give the same ordered list with the same counts and Me flags |
| `Reactions.TiesPart` | internal/reaction/repository.go:123-128 | any two emojis that share a first time have a listing and an answer of the grouped query that give different lists |
| `Reactions.SummariesAgreeIff` | internal/api/reaction.go:234-276 | both paths always agree, whatever order the database gives ties, if and only if different emojis were first used at different times |
| `Rejoin.JoinsIffNeverJoined` | internal/member/repository.go:283-308 | on a server with an @everyone role, a user who could join at the start can join after any run of handler calls and joins if and only if that user has not joined in it |
| `Rejoin.NobodyJoinsTwice` | internal/member/repository.go:296-302 | the refusing half with its error: after a join and any run, another join reports an existing member or fails with an internal error |
| `EventPublisher.WorkersMayReorder` | internal/gateway/publisher.go:90-96 | for every pool of two or more workers, any two jobs have a run that attempts them in the opposite order |
| `EventPublisher.KeepsOrderIff` | internal/gateway/publisher.go:87-108 | for every allowed configuration, every run attempts jobs in the order of acceptance if and only if there is at most one worker |
| `RoleGrants.CreationGrantsNothing` | internal/api/role.go:51-105 | creating a role changes nobody's base permissions |
| `RoleGrants.AssignmentGrantsExactly` | internal/api/member.go:473-529 | assigning a role raises the target's base permissions by exactly its bits, to everything once they include ManageServer, and changes nobody else's |
| `RoleGrants.CreatorMayTakeRole` | internal/api/role.go:51-105 | who created a role can assign it to themself if and only if they hold an explicit role and are a member past onboarding; permissions then rise by exactly its bits while the rank stays |
| `HandlerEffects.RankAbove` | internal/role/repository.go:170-185 | a rank is in front of a position exactly when the user holds an explicit role in front of it |
| `HandlerEffects.RankOutranks` | internal/api/member.go:610-627 | one rank is in front of another exactly when the user holds a role in front of every role of the other |
| `HandlerEffects.NextPositionIsExact` | internal/role/repository.go:81-88 | a new role's position is right behind the last one, or 0 |
| `HandlerEffects.CreateIsExact` | internal/api/role.go:51-105 | exactly when a role is created, and that it has the given name and bits, the next position, and changes nothing else |
| `HandlerEffects.UpdateIsExact` | internal/api/role.go:111-193 | exactly when an update goes through, and that the role then carries the patch and everything else is as before |
| `HandlerEffects.DeleteIsExact` | internal/api/role.go:197-245 | exactly when a role is deleted, and that its assignments and overrides go with it and nothing else does |
| `HandlerEffects.AssignAndRemoveAreExact` | internal/api/member.go:473-606 | exactly when an assignment and a removal go through, and the one row they add or take |
| `HandlerEffects.ModerationIsExact` | internal/api/member.go:252-414 | kick, ban and timeout go through exactly for users the caller outranks, owners excepted, and leave exactly their row changed |
| `HandlerEffects.MembershipIsExact` | internal/member/repository.go:122-308 | exactly when ending a timeout, leaving and joining go through, and the rows they leave |
| `HandlerEffects.OverridesAreExact` | internal/permission/pg_store.go:86-121 | an override is stored as given, allow as allow and deny as deny, replaces only the principal's own, and is deleted alone |
| `HandlerEffects.OwnOverrideTakesEffect` | internal/api/permission.go:34-86 | after setting a user's own override, a denied bit is out, an allowed one that is not denied is in, and every other bit falls to the levels below |
| `HandlerEffects.OwnOverrideTouchesNobodyElse` | internal/api/permission.go:34-86 | no other user's permissions change in any channel |
| `PermissionCoherence.MessagesAreTargeted` | internal/permission/invalidate.go:37-55 | each kind of message covers exactly the entries it is named after, and handlers send the narrowest kind |
| `PermissionCoherence.HandlingIsExact` | internal/permission/invalidate.go:98-127 | what each combination of fields removes and keeps |
| `PermissionAgreement.LookupsAreRemembered` | internal/permission/resolver.go:25-184 | exactly which answers each kind of lookup leaves in the cache, and when none |
| `RefreshTokens.CreatedLivesItsTtl` | internal/auth/refresh.go:73-89 | a created token is its owner's and live for exactly the TTL; other tokens and sets stay |
| `RefreshTokens.RotatedLivesItsTtl` | internal/auth/refresh.go:34-63 | a rotation gives the same owner a token live for exactly the TTL and removes the spent one |
| `RefreshTokens.IssuedTokenLivesItsTtl` | internal/auth/refresh.go:34-106 | over every run, a token that is neither exchanged nor revoked is live exactly until its issue time plus the TTL |
| `PreKeys.RegisterIsExact` | internal/e2ee/repository.go:29-59 | exactly when a registration goes through, and the one row it adds |
| `PreKeys.UploadSignedIsExact` | internal/e2ee/repository.go:131-152 | the new key becomes the device's only active one; other devices' keys stay as they are |
| `PreKeys.UploadOneTimeIsExact` | internal/e2ee/repository.go:155-174 | exactly when a batch goes through, as a whole, and the rows it adds |
| `PreKeys.RemoveIsExact` | internal/e2ee/repository.go:102-111 | exactly when a removal goes through, and that exactly the device and its keys go |
| `PreKeys.BundleServesActiveDevices` | internal/e2ee/repository.go:217-256 | a bundle serves exactly the devices with an active signed pre-key, each with the lowest unlocked key it had |
| `PreKeys.UploadServesDevice` | internal/e2ee/repository.go:131-256 | after an upload the next bundle serves this device, and every other one as before |
| `GatewayAnswers.SessionsStayWithTheirOwner` | internal/gateway/hub.go:348-354 | in every reachable state connections and saved records of a session belong to the user who identified it, and nobody else's resume is accepted |
| `GatewayAnswers.ResumeIsAnsweredExactly` | internal/gateway/hub.go:328-391 | a resume is accepted if and only if the session is saved for this very user, the client is not ahead, and there is room; what each refusal leaves |
| `GatewayAnswers.IdentifyIsAnsweredExactly` | internal/gateway/hub.go:263-318 | exactly when an identify is accepted, and the connection it leaves |
| `GatewayAnswers.DisconnectIsAnsweredExactly` | internal/gateway/hub.go:170-212 | a registered connection leaves the registry and its session is saved with user and number; any other one changes nothing |
| `GatewayAnswers.EventReachesExactly` | internal/gateway/hub.go:478-610 | who gets an event, spelled out, and with which frame: exactly TYPING_START and TYPING_STOP consume no number |
| `EventPublisher.AcceptedIffRoom` | internal/gateway/publisher.go:71-83 | in every reachable state an offer is accepted if and only if there was no cancellation and fewer jobs wait than the capacity; otherwise it is dropped and counted |
| `ThumbnailWorker.ProcessingIsExact` | internal/media/thumbnail.go:131-163 | a success, a permanent failure and a malformed job end at once, a transient failure at the third delivery; all else stays |
| `ThumbnailWorker.DeliveriesAreCounted` | internal/media/thumbnail.go:86-118 | a first delivery counts one and every claim one more |
| `KeysetPaging.PageIsPlain` | internal/message/repository.go:104-121 | pages in plain times and ids for both directions: order, cursor, and what may be left out |
| `Listings.ChangesShow` | internal/message/repository.go:161-174 | a deleted message is in no listing any more, a created one in those of its channel and thread, all others as before |
| `Reactions.SummariesAreExact` | internal/api/reaction.go:234-276 | one entry per used emoji in the order of first use, its count the number of users, Me exactly for users among them |

## Left out

- I/O failures of PostgreSQL and Valkey, lost pub/sub messages and subscriber outages: the code promises only that cached
  permissions go stale for at most the cache TTL. A cache entry expiring at any time is a step of the model.
- Interleavings finer than one handler call: a lookup whose computation overlaps an invalidation, an event dispatched
  while a connection is being unregistered, a timeout during a handler.
- `Activate` with automatic roles, moving a channel between categories, deleting a channel or category: no invalidation
  follows them, so they are not steps of the coherence runs.
- Role colours, hoisting, names and nicknames, validators of request bodies, audit records, gateway events sent by the
  handlers, and the HTTP error mapping.
- Clamping of page sizes. Temporary bans, unban and the ban and invite listings: the listings order by time descending and id ascending but compare
  the pair with `<`, so paging is exact for distinct times only.
- Token expiry and rotation use one clock and a constant TTL, as the configuration does; `SetOutlivesTokensIff` says what a
  changing TTL would break. The size limit of `unpack` in the scripts is not modelled.
- Identity keys, labels, key material and signatures of devices, and message keys: stored and returned unchanged.
- PreKeys.PreKeyStore.RegisterDevice: counting and inserting are taken as one atomic step, which is what the row lock in the
  source is there for.
- Frames past `enqueue`: the 256-slot buffer, the socket, and the connection that is closed when the buffer is full. Results
  about what a client was handed are about what was handed to `enqueue`.
- Hub.Shutdown, presence, heartbeats, the READY payload, and single-use gateway tickets. Sequence numbers are unbounded.
- RateLimiter.Limiter.ReadPump: the decoding of messages and the opcodes are left out; every message counts before it is
  decoded.
- EventPublisher.Publisher.Submit: the check of the closed flag and the send are one step; the source leaves a window between
  them in which a send can meet a closed channel.
- ThumbnailWorker: reading blocks until a new job arrives, so a reclaim happens only then; the model lets any pending jobs be
  claimed whenever the worker is idle and makes no promise about when. Image decoding and storage are an outcome.
- ThumbnailWorker.AttemptsAreBounded: a crash is a step between jobs. A worker that dies during an attempt is an attempt
  whose acknowledgement, if one was due, counts as lost, followed by a crash; it is within the bound only in that sense.
- MutationHandlers.Handlers.SetTimeout: the handler and the repository each compare the time with the clock; the model reads
  the clock once. When a timeout ends is not modelled.
- MutationHandlers.Handlers.CreatePending: the checks in front of it (invite, ban, account age) are left out, as they only
  refuse more.
- User deletion, which removes message rows: `CursorMustBeStored` says what it does to a scan whose cursor it hits.
- Username joins and reaction listings by emoji, rate limits of other endpoints, search, e-mail, local storage, onboarding.
