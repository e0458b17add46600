# A verified model of the VibeNet backend

VibeNet is a chat server: groups and invitations live in three database tables with no
foreign keys, and messages travel through a WebSocket hub with bounded send queues. This
project models both in Dafny and proves what they guarantee over whole runs.
`dafny verify dfyconfig.toml` checks all of it.

## Groups and invitations, at two grains

`GroupTables` holds the tables as values and each repository call as a function on them;
`CreateRequests` says what a create request asks for, on the request itself, and
`GroupInvariants` what each call keeps true. Two transition systems use those
functions. They are kept apart because some facts hold in one and fail in the other.

* **Atomic handlers** (`AtomicHandlers`): every HTTP request is one step, and so is every
  inbound group frame. The state also has the hub's roster cache.
* **Interleaved handlers** (`Interleaved`): every repository call is one step. A handler in
  flight is parked with what it read, however long ago; any number may be in flight, and a
  handler may stop anywhere. Its invariant covers the parked handlers as well as the tables.

`Grains` proves that each atomic run's tables are those of an interleaved run, so every
theorem about interleaved tables also covers atomic ones. Of the theorems below, those in
`Interleaved`, `InterleavedRuns` and `Authority`, and in `GroupLaws` those named as
interleaved, hold at the finer grain; the theorems of `AtomicHandlers` are claimed for atomic
handlers alone. Among those that fail when handlers interleave:

* rows naming only existing groups: `Interleaved.StrayInviteRun` loses that, and
  `InterleavedRuns.StaysReferentialIff` says exactly which runs keep it;
* a removal leaving the group alone: `Interleaved.RemovalDeletesGroupRun` deletes it, and
  `Interleaved.RemovalDeletesIff` and `RemovalMovesRoleIff` say exactly when;
* an admin removed only by the owner: in `Authority.AdminRemovesAdminRun` an admin does it, and
  `Authority.RemovalTakesUnseenAdminIff` says exactly when;
* a cached roster being the current one: `CacheRuns.StaleAfterInvalidation` serves an old one,
  and `CacheRuns.InvalidationTakesEffectIff` says exactly when that cannot happen.

`GroupRepo` and `Handlers` are the repository and the handlers as classes that update their
state, each method proved to do to the tables what the function of its name does, and to
answer what its `Reply` function says.

## The hub

`HubProtocol` is the concurrent protocol: creating a client, the hub's register and
unregister steps, the two pumps, broadcast and group fan-out under the read lock one access
at a time, own-queue sends, acks, and `DeliverToUser` as two steps because it sends after
releasing the lock. A state records whether some goroutine touched a closed queue
(`crashed`), which ends the run. `HubAccounting` says where every frame ends up.
`HubService` is the hub, its clients and the frame handlers as classes, one call at a time.

`RosterCache` and `CacheRuns` are the cache: the second splits a lookup at each access to
the cache, the clock and the database, with anything in between. `EndToEnd` joins it to the
fan-outs of `HubProtocol`.

## Smaller parts

`Messages`: the message table and the newest-first query that is sorted again in memory.
`Pin`: the window arithmetic, formatting, trimming and stored settings of chat PINs.
`DMIndex` and `AccountRepo`: the direct-message index and the writers of PIN settings.
`Query` is the database's ORDER BY, with equal ranks in any order; `Basics` holds shared
types.

## Assumptions

* One transaction is one atomic step, and so is a single statement outside one. A call that
  the database refuses changes nothing, except as the source handles it.
* A new group or invite id has never been used. For a group that includes inbound frames: no
  frame has named the id before the group was created, so no empty roster is cached under it.
  Users are given by id.
* The clock never runs backwards. The stored times are the clock at the step that writes them.
* Equal join times come back in any order, so a successor is any earliest member
  (`GroupTables.SuccessorOk`).
* HMAC-SHA256 is an arbitrary function from user and window to a 32-bit number, passed in.
* What is in a name, key, nonce or ciphertext is never looked at, only whether it is empty.

## Where the code and its own words differ

* The repository's own README (line 200) says only an owner or admin renames a group. `internal/api/groups.go:226-237`
  lets any member, and so does the model.
* `internal/api/groups.go:762-765` says a removal never deletes the group, because the caller
  stays. That is so when handlers are atomic (`AtomicHandlers.RemovalOnlyRemoves`). Interleaved,
  the caller may leave after the checks; `Interleaved.RemovalDeletesIff` and
  `Interleaved.RemovalMovesRoleIff` say exactly when the group goes and when ownership moves.
* `internal/websocket/hub.go:217-218` says the next frame after an invalidation reads the
  database again. A lookup that had already read may store its old answer afterwards
  (`CacheRuns.StaleAfterInvalidation`). `CacheRuns.InvalidationTakesEffectIff` says exactly when
  an invalidation does take effect; what holds always is `CacheRuns.ServedRosterIsRecent`.
* `internal/websocket/hub.go:65-70` keeps a replaced client's queue open so that no sender
  panics. `DeliverToUser` can still meet a queue closed by a disconnect
  (`HubProtocol.DirectSendCrashRun`); `HubProtocol.DirectSendCrashesIff` and
  `HubProtocol.RunCrashesIff` say exactly when.
* `internal/api/handler.go:874-875` says a static PIN is never left unset on first use. It is
  left unset exactly when static is asked for with no PIN given and none stored
  (`Pin.StaticLeftUnsetIff`): an enabled request for that is stored and then refused, a
  disabled one is stored and answered as saved (`Pin.UnsetStaticIsSaved`).
* `internal/db/groups.go:20-22` calls an answered invite resolved. A new invitation puts the same
  row back to pending, so one id can be answered twice (`InterleavedRuns.ReinvitedMayStillAccept`);
  `InterleavedRuns.AnsweredUntilReopened` says exactly until when it refuses.
* `internal/db/messages.go:25-29` overwrites a message with the same room and timestamp, so two
  different messages saved in the same millisecond race (`Messages.SavesCommuteIff`).

## Model

| member | source | states |
|---|---|---|
| `Interleaved.EveryGroupHasOneOwner` | internal/db/groups.go:223-301 | In every interleaving, with any stale checks in flight, every row of groups has exactly one owner, who is a member of it |
| `Interleaved.InviteStatusTellsMembership` | internal/db/groups.go:337-371 | In every interleaving an invite is accepted exactly when its target is a member, pending or declined exactly when not, and is the only one for its group and target |
| `Interleaved.AcceptNeverFindsSeatTaken` | internal/db/groups.go:421-454 | In every interleaving the duplicate-membership branch of an accept is unreachable: a pending invite always becomes a new regular seat carrying that invite's own wrap |
| `Interleaved.OwnerJoinedFirst` | internal/db/groups.go:270-297 | In every interleaving nobody in a group joined before its owner, through any joins, leaves, removals and successions |
| `Interleaved.WrapsAreNeverMixed` | internal/db/groups.go:348-360 | In every interleaving the key, nonce and wrapper on every member and invite row arrived together, in one request, for that group and target: a create's own strings and those of one of its entries count as they came in, not as the handler passed them on |
| `Interleaved.MembersShareTheGroupKey` | internal/models/group.go:44-49 | If every wrap that arrived in a request unwraps for its target to its group's key, so does every stored copy, on member and invite rows alike |
| `CreateRequests.BatchWasCarried` | internal/api/groups.go:361-390 | Every row a create stores carries a key and nonce that one part of the request carried together for that row's user |
| `Authority.InvitersWereManagers` | internal/api/groups.go:187-207 | In every interleaving the inviter of each invite, and whoever wrapped the key on each seat, was owner or admin of that group at some moment of the run |
| `Authority.RoleChangesWereCleared` | internal/api/groups.go:659-701 | In every interleaving a role about to be written is not owner, and was cleared by somebody who had managed the group before the target was read as seated and not owner |
| `Authority.RemovalsWereCleared` | internal/api/groups.go:766-812 | In every interleaving a removal about to be written was cleared by somebody else who had managed the group before its target was read as seated and not owner; if read as admin, the remover was the owner after that |
| `Authority.StepMovesAdmins` | internal/db/groups.go:223-301 | Interleaved: only the write of a promotion makes an admin, and only a demotion, a departure or a succession ends it |
| `Authority.RemovalTakesUnseenAdminIff` | internal/api/groups.go:787-823 | Interleaved: a removal whose remover was never seen as owner takes an admin exactly if its target, regular when checked, was promoted in between and has kept the role until the write |
| `Authority.AdminRemovesAdminRun` | internal/api/groups.go:787-823 | A run in which an admin removes another admin, promoted between the removal's checks and its write |
| `Interleaved.InviteWriteKeepsReferentialIff` | internal/api/groups.go:484-502 | The insert of an invite leaves rows naming only existing groups exactly when the group is still there at that moment, even though it was when the caller was checked |
| `Interleaved.StrayInviteRun` | internal/db/groups.go:277-288 | A run where the last leave falls between an invite's checks and its write leaves a member and an invite of a group that is gone |
| `InterleavedRuns.StepReferentialIff` | internal/db/groups.go:57-475 | Of all repository calls only the write of an invite can break referential integrity, and it does exactly when its group is gone |
| `InterleavedRuns.StaysReferentialIff` | internal/db/groups.go:57-475 | Every state of an interleaved run names only existing groups exactly when no invite in it is written to a group that is gone |
| `Interleaved.RemovalDeletesIff` | internal/api/groups.go:762-823 | The write of a removal deletes the group exactly when only the target is left in it by then |
| `Interleaved.RemovalMovesRoleIff` | internal/api/groups.go:787-823 | The write of a removal changes another member's role exactly when the target has become the owner of a group with others in it |
| `Interleaved.RemovalStaysInItsGroup` | internal/api/groups.go:812-823 | Whatever has happened since the checks, the write of a removal touches no seat of another group |
| `Interleaved.RemovalDeletesGroupRun` | internal/api/groups.go:762-823 | A run where the owner leaves between a removal's checks and its write removes the new owner and deletes the group |
| `Interleaved.StepKeepsInv` | internal/api/groups.go:187-839 | Every repository call of every handler, whatever it last read, keeps the table invariants and what each parked handler still relies on |
| `GroupInvariants.RoleKeepsOwnersIff` | internal/db/groups.go:223-234 | The role update keeps one owner per group exactly for a role other than owner, or a target who is no member or the owner already: the filter on the owner's row guards demotion, the handler's role check guards promotion |
| `GroupInvariants.InviteKeeps` | internal/db/groups.go:337-371 | An invite written on the strength of an old membership check keeps every table invariant as long as the target has not joined otherwise than by an accepted invite |
| `GroupInvariants.AcceptKeeps` | internal/db/groups.go:421-460 | Accepting keeps the owner, join-order and invite invariants and seats nobody without an accepted row |
| `GroupInvariants.LeaveShape` | internal/db/groups.go:243-301 | A leave frees exactly one seat, and clears exactly the leaver's own invite and, when the group goes, the group's invites |
| `GroupInvariants.LeaveKeeps` | internal/db/groups.go:243-301 | A leave by anybody, owner or not, last or not, keeps one owner per group, the owner's earliest join time and the meaning of every invite |
| `GroupTables.SomeSuccessor` | internal/db/groups.go:270-297 | Whoever leaves, there is always somebody the database may list first among the remaining members |
| `GroupLaws.OwnershipPassesToTheEarliest` | internal/db/groups.go:290-297 | Interleaved: an owner who leaves others behind is succeeded by one of them who joined no later than any of them; nothing else on that row and no other row changes |
| `GroupLaws.GroupIdentityIsFixed` | internal/db/groups.go:57-80 | Interleaved: a group's creator and creation time never change, and the id of a deleted group never names a group again |
| `GroupLaws.SeatedKeepTheirKey` | internal/db/groups.go:223-301 | Interleaved: while somebody stays seated, whatever runs, their wrapped key, its wrapper and their join time stay as they were; only the role can move |
| `GroupLaws.InvitedAndAccepted` | internal/db/groups.go:337-460 | Inviting an outsider and accepting seats them as a regular member with the newest wrap, whatever older invite there was, and moves no other row |
| `GroupLaws.LeavingUndoesJoining` | internal/db/groups.go:243-268 | Invite, accept and leave together restore the tables, less any older invite to the same target: a leaver can be invited anew |
| `GroupLaws.RoleChangeRoundTrip` | internal/db/groups.go:206-234 | A role change is what the next read sees, moves no other role, is refused for the owner, and is undone by writing the old role back |
| `GroupLaws.RoleChangeSucceedsIff` | internal/api/groups.go:659-714 | Atomic: each answer to a role change, read off the caller's and target's stored rows; it succeeds exactly for an owner or admin, a seated non-owner target and a role other than owner; then the role on that one seat is all that moved in any table, else nothing did |
| `GroupLaws.OnlyManagersManage` | internal/api/groups.go:187-207 | Atomic: somebody with no seat or a regular one can neither invite nor change a role nor remove anybody: forbidden, and no table moves |
| `GroupLaws.CreateSucceedsIff` | internal/api/groups.go:336-414 | Atomic: a create succeeds exactly when the creator's wrap is complete and no entry is unparsable or names somebody new without a wrap, else it is a bad request and moves nothing; then the roster is the creator as owner and everyone named as regular members, each with the wrap of the first entry naming them, all joined at that moment |
| `GroupLaws.RenameSucceedsIff` | internal/api/groups.go:226-265 | Atomic: any member's rename succeeds, nobody else's, the group is always there to rename, and only its name changes |
| `GroupLaws.AcceptSucceedsIff` | internal/api/groups.go:568-620 | Atomic: accepting succeeds exactly for the caller's own pending invite, anything else is not found and moves nothing; the roster then grows by the caller alone, who was not on it, and the group's cached roster is dropped |
| `GroupLaws.DeclineSucceedsIff` | internal/api/groups.go:623-651 | Atomic: declining succeeds exactly for the caller's own pending invite and moves that row's status alone; anything else is not found and moves no table |
| `InterleavedRuns.StepSettles` | internal/db/groups.go:337-475 | Interleaved: no call but a new invitation of the same target moves an invite that awaits no answer, except to delete it, and that one reopens exactly a declined invite |
| `InterleavedRuns.AnsweredUntilReopened` | internal/db/groups.go:421-475 | Interleaved: an invite that awaits no answer refuses both answers from anybody in every later state exactly if its target is not invited anew over the declined row |
| `InterleavedRuns.DeclinedUntilReopened` | internal/db/groups.go:464-475 | Interleaved: declining a pending invite seats nobody and moves that row alone, and from then on both answers are refused exactly until the target is invited anew |
| `InterleavedRuns.OnlyTheAddresseeAnswers` | internal/db/groups.go:421-475 | Interleaved: an accept or decline by anybody but the addressee of a pending invite changes nothing |
| `InterleavedRuns.AcceptedIsFinal` | internal/db/groups.go:348-352 | Interleaved: an accepted invite is never written again, and once it is gone its id never comes back |
| `InterleavedRuns.ReinvitedMayStillAccept` | internal/db/groups.go:353-366 | Declined and then invited again, the same id can be accepted: one id is answered twice |
| `GroupLaws.LeaveSucceedsIff` | internal/api/groups.go:722-753 | Atomic: leaving succeeds exactly for members, else it is not found and moves nothing; it frees their seat alone, takes the group along exactly when nobody else is left, and drops the cached roster either way |
| `GroupLaws.RemovalTouchesOnlyTheTarget` | internal/api/groups.go:766-839 | Atomic: no removal changes a group row or any member or invite row but the target's |
| `AtomicHandlers.RowsNameExistingGroups` | internal/models/group.go:50-88 | Atomic: without foreign keys, every member and invite row names an existing group |
| `AtomicHandlers.NoPendingInviteIsHidden` | internal/db/groups.go:375-415 | Atomic: the inner joins of the invite list drop no pending invite |
| `AtomicHandlers.ListedGroupsAreTheCallersGroups` | internal/db/groups.go:133-172 | Atomic: the group list shows exactly the groups whose roster the caller is on |
| `AtomicHandlers.RemovalOnlyRemoves` | internal/api/groups.go:756-839 | Atomic: each answer to a removal, read off the caller's and target's stored rows; it succeeds exactly for an owner or admin against somebody else seated who is not the owner, and against an admin only for the owner; it never deletes the group, runs the succession or fails past its checks |
| `AtomicHandlers.InviteSucceedsIff` | internal/api/groups.go:444-533 | Atomic: each answer to an invitation, read off the caller's and target's stored rows; it goes out exactly when an owner or admin names a registered outsider with a complete wrap, the repository's own refusal is never reached, and no other answer moves anything |
| `AtomicHandlers.InviteIsAsAsked` | internal/api/groups.go:484-502 | Atomic: an invitation that goes out leaves the pair one pending row with the caller, key and nonce of the request and the present time, over the pair's older row if there is one, and moves nothing else |
| `AtomicHandlers.NoRequestFails` | internal/api/groups.go:336-839 | Atomic: past its checks no request ends in an internal error: no key clashes, no update misses its row, and the group it answers with is there |
| `AtomicHandlers.CacheRefinesDirectRead` | internal/websocket/hub.go:189-223 | Atomic: in every reachable state every cached roster is the current one, so a cached answer is one a direct read could give |
| `AtomicHandlers.FrameGoesToMembers` | internal/websocket/client.go:362-403 | Atomic: a group frame goes out only if its sender is a member, and is then offered to exactly the other members who are online, cached roster or not; whether a queue had room is `HubAccounting`'s matter |
| `AtomicHandlers.DepartureTakesEffect` | internal/api/groups.go:744-747 | Atomic: when a leave or removal completes, the user has no seat and the hub no cached roster of the group |
| `AtomicHandlers.NoFrameUntilAcceptedAgain` | internal/websocket/hub.go:264-292 | Atomic: no frame of a group is offered to somebody outside it until they accept an invite to it, through any steps in between |
| `AtomicHandlers.DepartedGetNoFrames` | internal/api/groups.go:821-823 | Atomic: in any run, once a leave or removal has completed, no later frame of the group is offered to the departed user unless they accept another invite first |
| `Grains.StepIsInterleaved` | internal/api/groups.go:336-839 | Each request run alone leaves what its repository calls leave one after the other, with no handler left in flight |
| `Grains.AtomicTablesAreInterleavedTables` | internal/api/groups.go:336-839 | The tables of every run of atomic handlers are the tables of some interleaved run |
| `GroupRepo.PostgresRepo.CreateGroupWithMembers` | internal/db/groups.go:57-80 | Group and member rows appear together or not at all; it succeeds exactly when the batch is not empty and hits no key twice |
| `GroupRepo.InsertOne` | internal/db/groups.go:65-74 | Inserting the batch row by row clashes at a row exactly when the whole batch repeats a key there, and otherwise stages what the batch so far amounts to |
| `GroupRepo.PostgresRepo.UpdateGroupName` | internal/db/groups.go:176-184 | Renames an existing group and does nothing for a missing one |
| `GroupRepo.PostgresRepo.GetGroupMemberRole` | internal/db/groups.go:206-216 | The stored role, or not found exactly for a non-member |
| `GroupRepo.PostgresRepo.IsGroupMember` | internal/db/groups.go:318-328 | The count of matching rows is positive exactly for members |
| `GroupRepo.PostgresRepo.UpdateMemberRole` | internal/db/groups.go:223-234 | Reports whether a non-owner row matched, and changes that row's role alone |
| `GroupRepo.PostgresRepo.LeaveGroup` | internal/db/groups.go:243-301 | The two deletes, the read of who remains, and the dissolution or succession together make the specified leave for a successor with the earliest join time, and keep invites unique |
| `GroupRepo.PostgresRepo.GetGroupMemberIDs` | internal/db/groups.go:305-315 | Lists every member of the group exactly once |
| `GroupRepo.PostgresRepo.CreateInvite` | internal/db/groups.go:337-371 | Refreshes the pair's one invite or inserts it, and keeps one invite per group and target |
| `GroupRepo.PostgresRepo.AcceptInvite` | internal/db/groups.go:421-460 | Accepts and seats as specified, returns the accepted row, and keeps invites unique |
| `GroupRepo.PostgresRepo.DeclineInvite` | internal/db/groups.go:464-475 | Matches exactly the addressee's own pending row and writes its status alone; keeps invites unique |
| `GroupRepo.PostgresRepo.OrderByJoin` | internal/db/groups.go:270-275 | Lists the chosen members once each, earliest join first |
| `GroupRepo.PostgresRepo.ListGroupMembers` | internal/db/groups.go:110-129 | Lists once each member who has a profile, by join time, with current role and the fallback label |
| `GroupRepo.PostgresRepo.ListGroupsForUser` | internal/db/groups.go:133-172 | Lists, newest first and once each, exactly the groups the user has a seat in and that exist, with their rosters and the user's own seat |
| `GroupRepo.PostgresRepo.ListPendingInvites` | internal/db/groups.go:375-415 | Lists, newest first and once each, exactly the user's pending invites whose group and inviter exist, each with its group's name and its inviter's label |
| `Handlers.Handler.RequireGroupAdmin` | internal/api/groups.go:187-207 | Passes exactly those whose stored row in the group says owner or admin |
| `Handlers.Handler.CreateGroup` | internal/api/groups.go:336-414 | The loop with its seen map asks for the batch `RequestRows` names and stops where it says; answer and tables are the specified reply |
| `Handlers.Handler.UpdateGroup` | internal/api/groups.go:228-265 | Any member's rename is stored; a non-member is refused and nothing changes |
| `Handlers.Handler.AddGroupMember` | internal/api/groups.go:444-533 | Refusals in the handler's order, and at most one invite row written, as the specified reply |
| `Handlers.Handler.AcceptInvite` | internal/api/groups.go:568-620 | A successful accept drops the group's cached roster; an invite that is not pending changes neither table nor cache |
| `Handlers.Handler.DeclineInvite` | internal/api/groups.go:623-651 | Declining answers not found unless the invite is the caller's and pending, and touches no cache |
| `Handlers.Handler.UpdateMemberRole` | internal/api/groups.go:659-714 | Refusals in the handler's order, and one role written, as the specified reply |
| `Handlers.Handler.LeaveGroup` | internal/api/groups.go:722-753 | A completed leave drops the group's cached roster; a non-member's changes nothing |
| `Handlers.Handler.RemoveGroupMember` | internal/api/groups.go:766-839 | Refusals in the handler's order, a second role read only for an admin target, then the leave and the drop of the cached roster |
| `CacheRuns.ServedRosterIsRecent` | internal/websocket/hub.go:189-223 | Whatever invalidations, writes and other lookups come in between, a served roster was the database's less than thirty seconds plus the filling lookup's duration ago |
| `CacheRuns.StaleAfterInvalidation` | internal/websocket/hub.go:217-223 | A run in which a lookup straddles the last member's leave and its invalidation leaves a fresh entry that is not the current roster |
| `CacheRuns.InvalidationTakesEffectIff` | internal/websocket/hub.go:217-223 | After an invalidation every roster of the group served, in whatever continuation, is one the database had from then on, exactly when no lookup then in flight carries an outdated list or unexpired entry |
| `CacheRuns.DepartedDropOut` | internal/websocket/hub.go:189-215 | Interleaved: somebody off a roster from some moment on is on none of that group served thirty seconds plus the filling lookup's duration later |
| `HubProtocol.StepIsSafe` | internal/websocket/hub.go:59-98 | Every step keeps registered, reading and replaced clients' queues open and every held client registered; only a lock-free direct send can crash |
| `HubProtocol.OnlyDirectSendsCanCrash` | internal/websocket/hub.go:166-176 | Broadcast, group fan-out and a client's own sends never touch a closed queue and no queue is closed twice: a run that crashes contains a direct send |
| `HubProtocol.RegistryTellsTheHistory` | internal/websocket/hub.go:59-98 | In every interleaving a user's registered client is the most recently registered one if that has not unregistered, and nobody otherwise |
| `HubProtocol.ClosedExactlyOnceOffline` | internal/websocket/hub.go:81-95 | Each queue is closed and each disconnect spawned once if its client unregistered while current, else never; a replaced client's queue is never closed |
| `HubProtocol.UnregisterActsIff` | internal/websocket/hub.go:81-95 | An unregistration the hub takes up removes, closes and announces its client exactly if that is the user's latest by the history of registrations; a late one changes nothing |
| `HubProtocol.OnlineIff` | internal/websocket/hub.go:179-184 | In every interleaving a user is online exactly while some client of theirs that the hub has taken up is neither replaced nor closed, which is while their latest registration stands |
| `HubProtocol.DirectSendCrashesIff` | internal/websocket/hub.go:143-160 | A direct send hits a closed queue exactly when, since its lookup, the hub processed that client's unregistration while it was current |
| `HubProtocol.DirectSendCrashRun` | internal/websocket/hub.go:143-160 | Look up, disconnect, send: a run that crashes |
| `HubProtocol.RunCrashesIff` | internal/websocket/hub.go:143-160 | A run crashes exactly when one of its steps is a direct send to a client that had gone offline by then |
| `HubAccounting.QueuedFramesLeaveInOrder` | internal/websocket/client.go:503-529 | Over any run a queue holds at most 256 frames, queued frames reach the writer in order and none is lost before it, written ones are a prefix of them, and an offer is dropped exactly when 256 frames queued before it were still waiting |
| `HubAccounting.CountIsQueuesReached` | internal/websocket/hub.go:264-292 | In any interleaving a delivery's count is the number of queues that took its frame, each at most once, each belonging to a target |
| `HubAccounting.FanOutReachesExactlyTheOnlineTargets` | internal/websocket/hub.go:273-290 | A fan-out about to release its lock has offered its frame to exactly the current clients of its targets; a broadcast, to every registered client |
| `HubAccounting.GroupFanOutReachesItsRoster` | internal/websocket/hub.go:264-292 | Whatever runs before and during a group fan-out, at its end its frame has been offered to exactly the current clients of the roster's members but the sender |
| `HubAccounting.DirectAckTellsTheTruth` | internal/websocket/client.go:463-471 | Whatever runs before and after its lookup, the ack of a direct message says delivered exactly when some queue of its receiver took it |
| `HubAccounting.GroupAckTellsTheTruth` | internal/websocket/client.go:401-409 | Whatever runs before and after it begins, the ack of a group message says delivered exactly when the queue of some roster member other than its sender took it |
| `HubAccounting.GroupFanOutStaysOnItsRoster` | internal/websocket/hub.go:264-292 | At no moment has a group fan-out offered its frame to anybody off the roster it began with, or to its sender |
| `EndToEnd.DepartedAreNotOffered` | internal/websocket/hub.go:189-292 | A fan-out begun with a served roster never offers its frame to somebody who had been off the group for thirty seconds plus the filling lookup's duration when it was served |
| `HubService.Client.TrySend` | internal/websocket/client.go:491-500 | Queued exactly when there is room, else dropped with the queue as it was |
| `HubService.Hub.HandleRegister` | internal/websocket/hub.go:62-79 | The new client takes its user's place, and only the old one's socket is closed |
| `HubService.Hub.HandleUnregister` | internal/websocket/hub.go:81-95 | Only the current client is removed, closed and announced offline |
| `HubService.Hub.DeliverToUser` | internal/websocket/hub.go:143-160 | Reports queued exactly for an online receiver with room; no other queue moves |
| `HubService.Hub.Broadcast` | internal/websocket/hub.go:166-176 | Every registered client with room gets the payload once, in any order of the clients; no other queue moves |
| `HubService.Hub.GroupMemberIDs` | internal/websocket/hub.go:189-215 | A fresh entry is served, else the database's roster is served and cached for thirty seconds; a failed read caches nothing; without a database the roster is empty |
| `HubService.Hub.LookupIsResolve` | internal/websocket/hub.go:189-215 | With nothing in between, what a lookup answers and caches is what the atomic model's cache does |
| `HubService.Hub.InvalidateGroup` | internal/websocket/hub.go:219-223 | Drops that group's entry and no other |
| `HubService.Hub.IsGroupMemberCached` | internal/websocket/hub.go:246-258 | True exactly for somebody on the roster served, which is the fresh entry or the database's; a failed lookup, or no database, admits nobody |
| `HubService.Hub.DeliverToGroup` | internal/websocket/hub.go:264-292 | The payload is appended once to each online roster member with room but the sender, no other queue changes, and the number returned is how many queues grew |
| `HubService.Hub.FanOut` | internal/websocket/hub.go:275-291 | The loop counts and fills exactly those queues because the roster lists nobody twice |
| `HubService.Reader.HandleChatMessage` | internal/websocket/client.go:424-487 | A frame with receiver, room, ciphertext and nonce is queued to its receiver if possible, acked with exactly that, and saved and indexed either way, with its own ciphertext, nonce, room, time and id, a missing time or id filled in, and the client as sender; any other frame has no effect |
| `HubService.Reader.HandleGroupChatMessage` | internal/websocket/client.go:362-419 | A frame is posted exactly if its sender is on the roster the first lookup serves; its own ciphertext, nonce, time and id then go to every other online member with room by the roster the second lookup serves, are acked delivered exactly when one got them, and are saved under the group's own room. Any other frame changes no queue and saves nothing |
| `EndToEnd.SavedFrameIsReadBack` | internal/websocket/client.go:378-418 | Unless its room and time are saved over later, the room's history holds a saved frame's own ciphertext and nonce with its sender, time and id, whatever else is saved before and after |
| `HubService.Reader.PostToGroup` | internal/websocket/client.go:401-409 | The fan-out and its ack, for whatever roster the cache or the database gives at that moment |
| `Messages.LastSaveWins` | internal/db/messages.go:25-52 | After any saves each key has the row of its last save, wherever that stood among the others, and a key never saved has the row it had |
| `Messages.SaveCountsUnless` | internal/db/messages.go:25-52 | A save may be left out, wherever it stands, exactly when its row is already stored or its key is saved again later: repeated saves count once |
| `Messages.SavesCommuteIff` | internal/websocket/client.go:411-418 | Saves in flight leave one table in every completion order exactly when no two write different rows under one key |
| `Messages.MessageRepo.NewestFirst` | internal/db/messages.go:63-70 | Returns the end of the room's history, backwards |
| `Messages.MessageRepo.GetMessages` | internal/db/messages.go:58-77 | Returns the end of the room's full history, in its order: as many messages as the limit, or 50 when it is not positive, or all there are if that is fewer |
| `Messages.SortByTime` | internal/db/messages.go:72-74 | Sorts in place: strictly ascending timestamps, same messages |
| `Messages.SortedPageIsLast` | internal/db/messages.go:54-57 | A newest-first page, once sorted, is the end of the history |
| `Messages.HistoryIsUnique` | internal/db/messages.go:54-57 | The stored rows settle a room's history: every stored message once, strictly ascending |
| `Pin.ExpiryIsNearIff` | internal/pin/pin.go:53-78 | The expiry lies within the 300 seconds after now exactly from the epoch on, or in the first second of a window before it, where the division truncates the other way |
| `Pin.WindowSpan` | internal/pin/pin.go:53-55 | From the epoch on, window w is exactly the 300 seconds from 300w |
| `Pin.CodeRoundTrips` | internal/pin/pin.go:65-66 | Formatting with six digits is inverted by reading: every number below a million has its own code |
| `Pin.PinRoundTrips` | internal/api/handler.go:671-672 | Every string the six-digit pattern accepts is the code of its number |
| `Pin.TrimFindsPin` | internal/api/handler.go:877-884 | A PIN is found inside any surrounding blanks and survives trimming itself |
| `Pin.CodeReadsTheMac` | internal/pin/pin.go:58-67 | A window's code, read as a number, is the user's MAC of that window modulo a million, windows before the epoch included |
| `Pin.TrimTakesBlanks` | internal/api/handler.go:877-884 | Trimming takes blanks off both ends, all of them, and nothing else |
| `Pin.RotatingAcceptedIff` | internal/pin/pin.go:97-112 | A code is accepted exactly if it is the current or the previous window's |
| `Pin.RotatingCodeLasts` | internal/pin/pin.go:93-96 | A window's code is accepted for the 600 seconds from its window's start |
| `Pin.RotatingCodeLastsOnly` | internal/pin/pin.go:97-112 | ... and, unless windows share a code, at no other time from the epoch on |
| `Pin.PinsStayOk` | internal/db/postgres.go:393-417 | Through any registrations, settings and deletions a stored PIN is exactly six digits |
| `Pin.ShownPinIsAccepted` | internal/api/handler.go:933-950 | After any settings history, the code an enabled owner is shown is accepted: a rotating one until 300 seconds past its expiry, a static one while the settings stand |
| `Pin.NoCodeMeansNoEntry` | internal/pin/pin.go:83-91 | No code is shown exactly for static without a stored PIN, and then nothing is accepted |
| `Pin.SwitchingOffIsUndone` | internal/db/postgres.go:387-404 | After any history, switching off with a PIN stored shows nothing and lets anything in; switching static back on without giving one brings back just that PIN |
| `Pin.SettingsStoreWhatWasAsked` | internal/api/handler.go:855-907 | After any history, a request past the checks stores the switch and type asked for; a PIN given with static is from then on what is accepted, exactly, up to blanks; with none given the old one stays, and nobody else's settings move |
| `Pin.RefusedButStored` | internal/api/handler.go:855-907 | Of the refused settings requests only the one for enabled static without any PIN changes what is stored |
| `Pin.StaticLeftUnsetIff` | internal/api/handler.go:874-905 | Past the checks static is stored without a PIN exactly when it is asked for, none is given and none was stored; the caller is told so exactly if the PIN is also switched on |
| `Pin.UnsetStaticIsSaved` | internal/api/handler.go:874-905 | A first use of static, switched off and without a PIN, is stored unset and answered as saved |
| `Pin.NewAccountIsProtected` | internal/db/postgres.go:143-169 | After any history a new account is shown a code with its expiry at once, and of all six-digit entries exactly that code and the previous window's open it |
| `Pin.DeletionForgetsThePin` | internal/db/postgres.go:514-536 | A deleted account shows and asks for nothing, other accounts keep their settings, and going back to static afterwards takes a new PIN |
| `AccountRepo.PostgresRepo.UpdatePinSettings` | internal/db/postgres.go:393-417 | Writes the custom PIN only for static and only when given, and reports a missing user without writing |
| `AccountRepo.PostgresRepo.RecordDMParticipants` | internal/db/postgres.go:443-454 | Inserts both participants' rows, each unless its key is taken |
| `AccountRepo.Handler.UpdatePinSettings` | internal/api/handler.go:855-907 | Check, store, look back: stored settings and answer are those `Pin.SettingsStoreWhatWasAsked` and `Pin.StaticLeftUnsetIff` speak of, in every case |
| `DMIndex.RecordKeepsSymmetryIff` | internal/db/postgres.go:443-454 | An insert keeps a symmetric index symmetric exactly when the room lists both users or neither |
| `DMIndex.RowsNeverChange` | internal/db/postgres.go:443-454 | Rows are never changed once written |
| `DMIndex.IndexIsThePairs` | internal/websocket/client.go:482-486 | With one room per pair of users the index holds exactly the two rows of every insert that ran |
| `DMIndex.OrderAndRepetitionDoNotMatter` | internal/websocket/client.go:482-486 | ... so it is symmetric, and the same for any order and repetition of the inserts |
| `DMIndex.StaysSymmetricIff` | internal/db/postgres.go:443-454 | Over any inserts the index is symmetric at every moment exactly when no insert finds just one of its two users listed in its room |
| `DMIndex.SharedRoomIsLopsided` | internal/db/postgres.go:438-454 | A room used by two pairs leaves a row whose peer does not point back |

## Left out

- PostgreSQL's isolation anomalies, and what a unique violation does to the rest of its transaction: the accept's duplicate branch is modelled as the source intends it, and is unreachable anyway.
- HTTP decoding, parsing of ids in routes, trimming and length of group names, status codes, authentication: a request is its parsed fields.
- Live notification frames the handlers push (`group_update`, `invite_received`, `removed_from_group`): best effort, and they go through `DeliverToUser`.
- Group avatars, and the avatar column of every listing.
- Failing database calls in the handlers, time-outs, and reads that see nothing: only the roster lookup models an unreachable database.
- Typing, pin-toggle, presence and read-receipt frames; pings, read limits and deadlines, which appear only as a pump that may stop at any step.
- The order of presence frames, which separate goroutines send: only how often each transition is announced is claimed.
- The hub's channels: a registration or unregistration waits until the hub takes the write lock, and the model lets any waiting one go next.
- Go's sort is modelled as an in-place selection sort; with distinct timestamps the result does not depend on it.
- Account fields other than those of the PIN, Google sign-in, and the checks for a taken name, e-mail or phone number.
- Secrecy of codes and the constant-time comparison: only acceptance and shape are claimed.
- The classes of `HubService`, `GroupRepo` and `Handlers` run one call at a time; what interleaving does is stated by `HubProtocol`, `Interleaved` and `CacheRuns`, on values.
- The theorems of `HubProtocol` and `HubAccounting` speak of runs up to a crash; nothing happens after one.
