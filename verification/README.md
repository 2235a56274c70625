# A verified model of the server's state machines

The backend keeps its state in database tables and changes it in transactions.
This project models those transactions in Dafny, one step each, and proves what
holds after any run of them. Tables are maps and sets, a transaction is a method
of a class whose fields are the tables, proved equal to a function on the
tables' value, and the theorems are about runs of those functions. Signatures
are opaque values; time stamps are whole seconds, as the server truncates them.

- `PeerQueue`, `Drain`: what each peering is owed, and the loop that sends it.
- `ServerStore`: the tables and transactions behind blocks and follows.
- `BlockProtocol`, `FollowProtocol`: two servers, every interleaving of home
  transactions with the drain's read, build, call, refusal, settle and drop, with
  lost answers, retries and crashes. `FollowState`: one server's edges and
  unfollows for any pairs.
- `ReplyCounts` over `Forest`: reply counters kept by triggers that walk a thread.
- `AdminRequests`, `AdminRules`, `AdminEffects`, `AdminRuns`, `AdminHistory`,
  `AdminService`: requests one admin opens and another decides.
- `FlagCases`, `FlagRules`, `FlagRuns`, `FlagRows`, `FlagService`: flags, their
  cases, and whose each signature row is.
- `LedgerPayload`, `LedgerChain`: the signed chain, appends under the lock, pages.
- `UserSearch`, `UserSearchMerge`, `UserSearchPaging`: search over many sources.
- `InviteTree`, `KeyChain`: the invite tree walk and the history of rebound keys.
- `Identifiers`, `Permissions`, `Text`: the spellings everything is signed with.

`dafny verify dfyconfig.toml` checks it all.

## Where the code and its words differ

- The drain's comment (`src/backend/federation_delivery.go:232-234`) says a 2xx or
  a 4xx settles an event and anything else stops the drain; the code also settles
  a 1xx or 3xx. The model follows the code.
- Follow certificates replace one another only when signed in a later second, so
  two signed within one second can leave the servers disagreeing until the next
  one: `FollowProtocol.SameSecondSplits`, with the exact conditions for each way
  of delivery in `TakenCallAgrees` and `DirectFollowAgrees`. The pair converges
  again with a certificate stamped after all before it.
- A refused block event is dropped like a delivered one, so a refusal leaves the
  two servers as they were (`BlockProtocol.RefusalSettled`, `RefusedBlockSplits`).
- A drain that dies between settling an unfollow and dropping it leaves a
  certificate nobody is owed (`FollowState.CutShortLeaks`).
- The reply trigger counts a reply as one whatever is live beneath it by then,
  and also when its own removal was recorded first (`RemovedFirstMiscounts`);
  `ReplyCounts.ReplyKeepsCountersExact` says exactly when that is right.
- A peer's removal of a reply lowers every counter above twice, once for the
  removal and once for the deleted reference (`src/backend/federation_relay.go:1537`
  and `:1571`), so a counter can miss a live reply (`PeerRemovalMiscounts`).
  `PeerRemovalKeepsCountersExact` says exactly when it doesn't, and
  `PeerRemovalClampsExactlyWhen` when it is the floor at zero that sees to it.
- A peer's reply may be to a reed beneath it, and then the trigger's loop up the
  thread (`src/backend/db.go:1199-1216`) never ends: `AnsweringBackNeverEnds`,
  with the exact condition in `Forest.AddedWalkEndsExactlyWhen`. Nothing on the way
  there checks it (`src/backend/services.go:9035-9061`).
- A block that reaches one of two servers leaves the follow's edge on the other
  until its own event is taken there (`FollowProtocol.CutSplits`, `CutAgrees`).
- Removing an account deletes its flags in open cases but not their signatures
  (`FlagRows.RemovalLeaks`), with the exact condition in `RemovalLeaksExactlyWhen`.

## Model

| member | source | states |
|---|---|---|
| `PeerQueue.PeerEventQueue.EnqueueForAll` | src/backend/peer_event_queue.go:28-37 | Every peering that isn't revoked, and no other server, comes to be owed the subject; rows already there keep their ids, and new ones get ids above all given before. |
| `PeerQueue.PeerEventQueue.EnqueueForPair` | src/backend/peer_event_queue.go:52-64 | The pair's row is inserted or moved to the back under a fresh id, and nothing changes for a revoked or unknown server. |
| `PeerQueue.PeerEventQueue.DeletePeerEvent` | src/backend/services.go:10375-10379 | Only the row that still has the id goes. |
| `PeerQueue.PeerEventQueue.NextPeerEvent` | src/backend/services.go:10353-10373 | Answers an event exactly when the peer is up, not revoked and owed one, and then the one with the lowest id. |
| `PeerQueue.OwedAgainSurvivesSettling` | src/backend/peer_event_queue.go:52-64 | A row owed again after a drain read it can't be settled away by the id that drain read. |
| `PeerQueue.OrderAscends` | src/backend/federation_delivery.go:232-234 | The order a drain takes a queue in has strictly ascending ids. |
| `Drain.Drainer.ClaimPeerEvents` | src/backend/services.go:10322-10335 | A claim is got exactly when the peer is known, up, not revoked and unclaimed, and marks only that peer. |
| `Drain.Drainer.DrainPeerEventsWith` | src/backend/federation_delivery.go:235-316 | Without a claim nothing happens; with it the queue loses exactly the events taken, whatever the builds, calls and writes answered, and the effects are those of each event in turn. |
| `Drain.Drainer.SendOne` | src/backend/federation_delivery.go:273-315 | One event's build, call, refusal, settling and follow-up: which effects, whether the row goes, and whether the loop goes on. |
| `Drain.StatusSettlesExactlyWhen` | src/backend/federation_delivery.go:290-303 | A call's status settles its event exactly when it is below 500 and not 429, and the follow it was about is undone exactly for the 4xx among those. |
| `Drain.RedirectSettles` | src/backend/federation_delivery.go:290-303 | A 301 takes an event off the queue as a 2xx would. |
| `Drain.EachEffectOnce` | src/backend/federation_delivery.go:257-315 | Over a whole drain, by the queue and the answers alone: each event reached is called once if it built, its refused follow undone then, its row deleted then, and the follow-up run once, right after the deletion, exactly for follow events that were sent and deleted; nothing happens for an event not reached. |
| `Drain.EventsInOrder` | src/backend/federation_delivery.go:257-315 | All that is done about one event comes before anything about a later one. |
| `Drain.TakenIsTheSettledPrefix` | src/backend/federation_delivery.go:232-234 | What a drain takes is a prefix that ends at the first event that can't be settled, or after one whose claim refresh failed. |
| `Drain.DeletedOnceInOrder` | src/backend/federation_delivery.go:257-315 | Each event taken is deleted once, in order, and no other is. |
| `Drain.DrainLeavesSuffix` | src/backend/federation_delivery.go:257-315 | After a drain whose claim refreshes work, an event of the peer is still owed if and only if it or one with a lower id didn't build, wasn't taken or couldn't be deleted; other peers' rows all stay. |
| `ServerStore.DataService.InsertBlockTx` | src/backend/blocks.go:87-137 | A pair's first block is stored, undoes the blocked user's follow and is owed; an identical one changes nothing, and a different one is a conflict that changes nothing. |
| `ServerStore.DataService.DeleteBlockTx` | src/backend/blocks.go:276-296 | An existing block goes and its lift is owed; without one nothing changes. |
| `ServerStore.DataService.OweBlock` | src/backend/blocks.go:148-162 | The latest kind is owed to a local user's client, or a fresh row to a foreign user's home server. |
| `ServerStore.DataService.AcceptBlock` | src/backend/blocks.go:732-755 | A block from a peer replaces what is stored only when signed after it. |
| `ServerStore.DataService.SaveFollow` | src/backend/follows.go:138-187 | Only a certificate signed after the held one is stored; its edges are set, it is owed if asked, and an unfollow nobody is owed is dropped. |
| `ServerStore.DataService.SetEdges` | src/backend/follows.go:192-215 | A local follower's edge and a local followee's are set or cleared; a foreign one's aren't kept. |
| `ServerStore.DataService.DropSettled` | src/backend/follows.go:234-243 | Deletes the certificate exactly when it is an unfollow that neither a client nor a peer is owed. |
| `ServerStore.DataService.UndoRefused` | src/backend/follows.go:261-289 | Undoes the active follow of that very stamp, with its edges and owed event, and nothing else. |
| `ServerStore.DataService.AckFollow` | src/backend/follows.go:301-318 | Drops the owed event only if the held certificate is of the acked kind, then an unfollow it settles. |
| `ServerStore.BlockEndsTheFollow` | src/backend/blocks.go:87-221 | A first block leaves no certificate, edge or owed event of the blocked user's follow of the blocker, leaves every other pair's as they were, and is owed where the blocked user lives. |
| `ServerStore.BlockAnswers` | src/backend/blocks.go:87-137 | A block is stored exactly when the pair has none, the same one again is told from another, and neither of these changes anything. |
| `ServerStore.LiftOnlyOwes` | src/backend/blocks.go:276-296 | Lifting a block removes it and owes that, and brings no follow back. |
| `ServerStore.AcceptEndsTheFollow` | src/backend/blocks.go:732-755 | A peer's block that is accepted ends the blocked user's follow too, and one signed no later changes nothing. |
| `ServerStore.SaveStores` | src/backend/follows.go:138-215 | A certificate is saved exactly when it is signed after the one held; it sets this server's edges and no other pair's, and an unfollow is kept exactly while it is owed. |
| `ServerStore.SaveOwes` | src/backend/follows.go:180-232 | A saved certificate that is to be owed is owed to the followee's client here, or under a fresh id to their home server unless that is revoked. |
| `ServerStore.UndoForgets` | src/backend/follows.go:261-289 | Undoing a refusal forgets exactly the active follow of that very stamp, with its edges here and the client's event. |
| `ServerStore.AckSettles` | src/backend/follows.go:301-318 | An ack settles the client's event exactly when it is for the kind held, and an unfollow then goes exactly when nobody is owed it. |
| `BlockProtocol.NoLostUpdate` | src/backend/federation_delivery.go:257-315 | In every interleaving of block and unblock commits, on this and any other pair, with the drain's steps, a pair whose block isn't what the peer last answered for still has its queue row. |
| `BlockProtocol.BlocksConverge` | src/backend/blocks.go:703-755 | Whatever calls lost their answers and were retried, a pair not owed and not refused has a block on both servers or on neither, and the same certificate while its last block is stamped after all before it. |
| `BlockProtocol.TakenLeavesTheSame` | src/backend/blocks.go:732-738 | A call taken for the current state leaves both servers with the same certificate exactly when the peer held none, an older one or that one. |
| `BlockProtocol.SameSecondKeepsOlder` | src/backend/blocks.go:732-738 | A run with two blocks of one second: each server ends with another certificate, with nothing owed. |
| `BlockProtocol.RefusalSettled` | src/backend/federation_delivery.go:292-303 | A refused block event is settled all the same, and the servers then agree exactly when they did before. |
| `BlockProtocol.RefusedBlockSplits` | src/backend/federation_delivery.go:292-303 | A run of five steps in which a refusal leaves a block on one server only, with nothing owed. |
| `BlockProtocol.StepOnView` | src/backend/blocks.go:87-162 | Each step changes one pair's part of both servers as stated on its own, and no other pair's. |
| `BlockProtocol.StepKeepsPairInv` | src/backend/federation_delivery.go:257-315 | The per-pair invariant behind the theorems is kept by every step. |
| `FollowState.EdgesAreTheActiveFollows` | src/backend/follows.go:189-215 | In every run the following and follower edges are exactly the active certificates of local followers and followees, and only held certificates are owed to clients. |
| `FollowState.UnfollowsAreOwed` | src/backend/follows.go:231-243 | In every run a held unfollow is still owed to the followee's client or home server (settling and dropping as one step). |
| `FollowState.CutShortLeaks` | src/backend/federation_delivery.go:304-309 | A drain cut short between settling and dropping leaves an unfollow nobody is owed exactly when the settled row was its last debt. |
| `FollowState.CutShortLeaksOne` | src/backend/federation_delivery.go:304-309 | A run of one unfollow, cut after its settle: the certificate stays with nothing owed. |
| `FollowState.StampsOnlyGrow` | src/backend/follows.go:152-154 | While a certificate is held for a pair only one signed later replaces it. |
| `FollowState.LastSignedWins` | src/backend/follows.go:138-154 | Two certificates end the same in either order exactly when one is signed before the other or both come too late. |
| `FollowState.SaveOnView` | src/backend/follows.go:138-187 | What saving does to one pair's certificate, client debt and queue row, and that every other pair keeps its own. |
| `FollowProtocol.FollowsConverge` | src/backend/follows.go:138-187 | Once a pair's event is gone and was answered 2xx, whatever was lost and sent again, both servers keep its edge or neither does, so long as its last certificate is stamped after all before it. |
| `FollowProtocol.TakenCallAgrees` | src/backend/follows.go:152-154 | A drained call that is taken leaves the edges agreeing exactly when the peer held nothing, something older, or the same kind. |
| `FollowProtocol.DirectFollowAgrees` | src/backend/follows.go:410-431 | A follow the peer takes straight away leaves the edges agreeing exactly when both servers, or neither, hold an unfollow not stamped before it. |
| `FollowProtocol.CutAgrees` | src/backend/blocks.go:203-221 | A block new to one server only leaves the edges agreeing exactly when the other server kept none, and one new to both leaves no edge on either. |
| `FollowProtocol.SameSecondSplits` | src/backend/follows.go:139-154 | With whole-second stamps, an unfollow and a follow of one second end with the edge kept on one server only, though every answer was a 2xx and nothing is owed. |
| `FollowProtocol.CutSplits` | src/backend/blocks.go:203-221 | A follow taken straight away, then a block on the followee's server alone: only the edge here stays, with nothing owed for it. |
| `FollowProtocol.NewerSurvivesRefusal` | src/backend/federation_delivery.go:156-165 | A certificate signed while an older one is being sent or refused stays held, or a later one does, with its edge and its queue row, through any run that doesn't read the pair's row again or cut it by a block. |
| `FollowProtocol.RefusedFollowUndone` | src/backend/federation_delivery.go:292-309 | A current follow refused, undone and settled is neither held nor owed, and the edges agree exactly when the peer had no follow. |
| `FollowProtocol.StepKeepsPairInv` | src/backend/federation_delivery.go:145-171 | The per-pair invariant behind the follow theorems is kept by every step. |
| `FollowProtocol.StepOnView` | src/backend/follows.go:328-431 | Each step changes one pair's part of both servers as stated on its own, and no other pair's. |
| `ReplyCounts.ReedStats.BumpReedStat` | src/backend/db.go:1109-1120 | Upserts one counter by delta, never below zero, and no other. |
| `ReplyCounts.ReedStats.BumpReplyAncestors` | src/backend/db.go:1199-1216 | Where the way up from the start ends, the walk does, and changes the counter of every reed above once, and no other. |
| `ReplyCounts.ReedStats.InsertReply` | src/backend/db.go:1221-1246 | A new reply, with or without replies beneath it already, raises every reed above it, unless its author's account is gone; one already known changes nothing. It is called only where the walk it takes ends. |
| `ReplyCounts.ReedStats.InsertReedRemoval` | src/backend/db.go:1269-1283 | A removed reed lowers every reed above it. |
| `ReplyCounts.ReedStats.InsertAccountRemoval` | src/backend/db.go:1287-1313 | Each reply by the removed account, unless removed itself, lowers every reed above it. |
| `ReplyCounts.ReedStats.DeleteReplyReference` | src/backend/db.go:1249-1264 | A deleted reference lowers its parent and every reed above that. |
| `ReplyCounts.ReedStats.RemovePeerReed` | src/backend/federation_relay.go:1537-1571 | A peer's removal of its reed is stored and its reply reference deleted, and both lower every reed above it. |
| `ReplyCounts.ReplyKeepsCountersExact` | src/backend/db.go:1221-1246 | A new reply keeps every counter equal to the live replies beneath exactly when just as many live replies come with it as the trigger counts: one, or none once its author is gone. |
| `ReplyCounts.LeafCountsForItself` | src/backend/db.go:1221-1246 | For a reply with none beneath it that is exactly when it wasn't removed on its own beforehand, or its author is gone. |
| `ReplyCounts.RemovedFirstMiscounts` | src/backend/db.go:1221-1246 | A removal and then its reply leave a counter of one with nothing live beneath. |
| `ReplyCounts.ReedRemovalKeepsCountersExact` | src/backend/db.go:1269-1283 | A reed removal keeps the counters exact exactly when the reed's author is still there, or every counter above it is zero. |
| `ReplyCounts.AccountRemovalKeepsCountersExact` | src/backend/db.go:1287-1313 | An account removal keeps the counters exact. |
| `ReplyCounts.ReferenceDeletedKeepsCountersExact` | src/backend/db.go:1249-1264 | Deleting a reference keeps the counters exact exactly when just one live reply goes with it, or every counter above it is zero. |
| `ReplyCounts.PeerRemovalKeepsCountersExact` | src/backend/federation_relay.go:1537-1571 | A peer's removal of its reed keeps the counters exact exactly when the reed isn't a reply, has one live reply beneath it, or is the only live one beneath each reed above it. |
| `ReplyCounts.PeerRemovalMiscounts` | src/backend/federation_relay.go:1537-1571 | Two live replies of peers to one reed, then one's removal: the counter is zero with one reply live. |
| `ReplyCounts.CountersAlwaysExact` | src/backend/db.go:1199-1313 | In every run of replies, removals by members and by peers, and account removals, each counted for what it is, every counter equals the number of live replies anywhere beneath its reed. |
| `ReplyCounts.WalksAlwaysEnd` | src/backend/db.go:1199-1216 | In those runs the way up from every reed ends, and so does every trigger. |
| `ReplyCounts.AnsweringBackNeverEnds` | src/backend/services.go:9035-9061 | A reply to a peer's reed that then comes in as a reply to it: the way up the insert would walk goes on for ever. |
| `ReplyCounts.ReedRemovalNeverClamps` | src/backend/db.go:1113-1114 | A member's removal of a reed of theirs finds every counter it lowers above zero. |
| `ReplyCounts.PeerRemovalClampsExactlyWhen` | src/backend/db.go:1113-1114 | A peer's removal first finds every counter above zero, and then some at zero exactly when the reply was the only live one beneath a reed. |
| `ReplyCounts.AccountRemovalNeverClamps` | src/backend/db.go:1113-1114 | So does each reply an account removal lowers for, in any order. |
| `Forest.AddLeaf` | src/backend/db.go:1200-1216 | A new leaf keeps the table a forest and everyone else's way up. |
| `Forest.AddLink` | src/backend/db.go:1200-1216 | A reply with others beneath it keeps the table a forest, unless what it replies to is among those, and gets its parent's way up. |
| `Forest.AddedWalkEndsExactlyWhen` | src/backend/db.go:1200-1216 | The way up from a new reply ends exactly when it doesn't reply to itself or to a reed beneath it. |
| `Forest.ForestWhereWalksEnd` | src/backend/db.go:1200-1216 | Every way up ends exactly when no reed is above itself. |
| `Forest.AboveIsAChain` | src/backend/db.go:1200-1216 | The way up never forks: of two reeds above one, one is above the other. |
| `AdminRules.ApprovedExactlyWhen` | src/backend/admin.go:783-822 | An approval goes through if and only if the request is pending, its decider may approve it by every rule as roles and permissions are now, and its targets still fit. |
| `AdminRules.RejectedExactlyWhen` | src/backend/admin.go:1103-1111 | A rejection goes through if and only if the request is pending and the decider passes the same rules. |
| `AdminRules.OpenedExactlyWhen` | src/backend/admin.go:691-779 | A request is opened if and only if its requester is an admitted admin holding all it needs and grants, its targets are local members in strict order who fit the action and weren't removed or root, its reason and body are as the action takes them and its id is new; otherwise nothing changes. |
| `AdminRules.ActorMeans` | src/backend/admin.go:630-687 | The permission check passes if and only if the actor holds what the action needs, admin.create to add, admin.demote to remove, and everything it grants. |
| `AdminRules.FitMeans` | src/backend/admin_suspend.go:59-70 | Each executor's validation passes exactly when the remaining targets fit the action. |
| `AdminRules.PermissionsMean` | src/backend/admin.go:281-308 | Root, the one reserved id, holds every permission, an admin those of their row, and nobody else any. |
| `AdminRules.OnlyRootChangesAdmins` | src/backend/admin.go:808-820 | Nobody but root may approve a demotion or a change of permissions. |
| `AdminRuns.PendingTracksRemovals` | src/backend/admin.go:1188-1243 | In every run a pending request's dropped targets are exactly its removed ones, one that had targets has some left, a moot one has none, and the state matches the decision. |
| `AdminRuns.ClosedStays` | src/backend/admin.go:506-518 | A closed request never changes again. |
| `AdminRuns.EveryExecutionApproved` | src/backend/admin.go:1103-1141 | Every executed request was approved at a step at which its decider passed every rule, and that decider is recorded. |
| `AdminRuns.EveryRequestOpened` | src/backend/admin.go:691-779 | Every request was opened at a step at which its requester passed the rules, and still says what it said. |
| `AdminRuns.RootChangedAdmins` | src/backend/admin_promote.go:165-198 | Every executed demotion or permissions change was decided by root. |
| `AdminHistory.SuspensionsAlternate` | src/backend/admin_suspend.go:57-110 | A user's executed suspensions and reinstatements alternate from a suspension on, and suspended_by names the last if it is one. |
| `AdminHistory.StepOnSuspension` | src/backend/admin_suspend.go:57-110 | A suspension finds its target not suspended and a reinstatement finds them suspended; nothing else changes it. |
| `AdminHistory.LedgerRecordsExecutions` | src/backend/admin.go:1133-1140 | The ledger has exactly one entry for each executed request but a unicast, with its approver, requester and targets, and none for any other. |
| `AdminEffects.ApprovalEffects` | src/backend/admin_promote.go:146-210 | An approval that goes through makes a demoted target a user without permissions, a promoted or changed one an admin with exactly those the body spells, suspends, reinstates or removes the targets left, registers a rebind's key, and changes no other user, removal or key. |
| `AdminEffects.ApprovalRecorded` | src/backend/ledger.go:147-172 | It closes its request as executed by its decider, and appends the entry with its approver, requester and targets and the action's own message and content, or none for a unicast. |
| `AdminEffects.ClosedOtherwise` | src/backend/admin.go:1093-1132 | A withdrawal goes through exactly for the admitted requester of a pending request; it and a rejection change that request's state and decision and nothing else. |
| `AdminEffects.AdminsAreTheHistory` | src/backend/admin_promote.go:132-210 | In every run a member is an admin exactly when they joined as one or were promoted and weren't demoted since, with the permissions last granted; promotions find users, and changes and demotions find admins. |
| `AdminService.AdminService.DecideAdminRequest` | src/backend/admin.go:1093-1141 | The transaction's new state and refusal are those of Decide, which the rules above characterise. |
| `AdminService.AdminService.OpenAdminRequest` | src/backend/admin.go:882-949 | The request is stored pending, or refused with nothing stored. |
| `AdminService.AdminService.CloseAdminRequest` | src/backend/admin.go:492-524 | Closes a request with its decision only while it is pending. |
| `AdminService.AdminService.DropFromAdminRequests` | src/backend/admin.go:1190-1207 | Every pending request naming the user drops them, and those left with nobody close as moot. |
| `AdminService.AdminService.CloseIfMoot` | src/backend/admin.go:1211-1243 | Closes a pending request whose targets are all dropped, and never one without targets. |
| `AdminService.AdminService.SetSuspensions` | src/backend/admin_suspend.go:71-78 | Exactly the remaining targets come to be suspended by the request, or by none. |
| `AdminService.AdminService.ExecuteAction` | src/backend/admin.go:240-270 | What each action's executor leaves of users, removals and keys. |
| `FlagService.FlagService.StoreReedFlag` | src/backend/flags.go:160-195 | A flag joins its reed's open case, or opens one, with two new signature rows; root's, one's own, unknown and already flagged reeds are refused. |
| `FlagService.FlagService.OpenCase` | src/backend/flags.go:202-226 | Answers the reed's only open case, opening one only when there is none. |
| `FlagService.FlagService.WithdrawReedFlag` | src/backend/flags.go:872-909 | A fresh withdrawal is stored and voids a case all of whose flags are withdrawn; in a dismissed case it is refused, and a repeated one changes nothing. |
| `FlagService.FlagService.VoidCaseIfDone` | src/backend/flags.go:913-924 | An open case goes void, at its latest withdrawal, exactly when it has flags and all are withdrawn. |
| `FlagService.FlagService.DismissFlagCase` | src/backend/flags.go:619-643 | Dismisses an open case; one dismissed or void is refused with no signature left behind. |
| `FlagService.FlagService.DeleteCase` | src/backend/flags.go:648-694 | Deletes a case closed 183 days ago or more, its flags and every signature row of theirs. |
| `FlagService.FlagService.SettleRemoval` | src/backend/services.go:6304-6329 | Drops the removed account's flags in open cases; a case left empty goes and one left with only withdrawn flags is void. |
| `FlagRules.FlaggedExactlyWhen` | src/backend/flags.go:160-226 | A flag is taken exactly when it is the reporter's first of another's reed that isn't root's; it is stored with its note and time in the reed's open case, a new one only if there was none, and nothing else changes. |
| `FlagRules.WithdrawnExactlyWhen` | src/backend/flags.go:872-924 | A withdrawal is taken exactly for a flag not withdrawn in a case not dismissed; it is stored with its time, and the case is void exactly when no other flag is left. |
| `FlagRules.DismissedExactlyWhen` | src/backend/flags.go:619-643 | A dismissal is taken exactly for an open case and stored with who gave it, why and when; no flag and no other case changes. |
| `FlagRules.DeletedExactlyWhen` | src/backend/flags.go:645-700 | A case goes, with its flags and no other, exactly 183 days or more after its dismissal or its going void, and not for the author of its reed. |
| `FlagRules.RemovalDropsExactly` | src/backend/services.go:6304-6329 | Removing an account drops exactly its flags in open cases and the cases that leaves empty, and changes no closed case. |
| `FlagRuns.CasesAlwaysOk` | src/backend/flags.go:160-226 | In every run a reed has at most one open case, every case has flags, and it is void exactly when all are withdrawn, at the latest withdrawal. |
| `FlagRuns.ClosedCaseFrozen` | src/backend/flags.go:872-931 | Nothing later changes a dismissed or void case or its flags, short of deleting them all together. |
| `FlagRuns.FlagCounts` | src/backend/flags.go:927-931 | A flag raises its author's open-flag count by one, and nobody else's. |
| `FlagRuns.WithdrawalCounts` | src/backend/flags.go:927-931 | A fresh withdrawal lowers it by one, and nobody else's. |
| `FlagRuns.DismissalCounts` | src/backend/flags.go:619-643 | A dismissal lowers it by the case's open flags, of which there are some. |
| `FlagRuns.DeletionCounts` | src/backend/flags.go:648-694 | Deleting a closed case changes no count. |
| `FlagRuns.RemovalCounts` | src/backend/services.go:6304-6329 | Removing an account takes exactly its own flags out of the open ones. |
| `FlagRows.SignaturesNeverDangle` | src/backend/flags.go:228-240 | In every run each signature row a flag, withdrawal or dismissal refers to is there and has no other owner. |
| `FlagRows.SignaturesNeverLeak` | src/backend/flags.go:645-694 | Flagging, withdrawing, dismissing and deleting leave no signature row without an owner. |
| `FlagRows.RemovalLeaksExactlyWhen` | src/backend/services.go:6304-6329 | Settling an account removal leaves rows nothing refers to, unless the account had no flag in an open case. |
| `FlagRows.RemovalLeaks` | src/backend/services.go:6304-6329 | A run of three steps that ends with two signature rows and no flag or case. |
| `LedgerPayload.PayloadInjective` | src/backend/identity.go:761-799 | Two entries sign the same fields if and only if they agree in everything but their signature, and in the previous signature and the server. |
| `LedgerPayload.KeptSaysField` | src/backend/utils.go:84-114 | Dropping empty values loses nothing: equal kept fields mean equal fields, up to which empty value. |
| `LedgerPayload.SignedFieldsReadBack` | src/backend/identity.go:761-799 | Read back field by field, the signed payload gives the entry but for its signature, the signature before it and the server. |
| `LedgerPayload.LastSignatureFixesChain` | src/backend/ledger_chain.go:59-82 | Two valid chains whose last entries carry the same signature are equal entry by entry. |
| `LedgerChain.LedgerIsOneChain` | src/backend/ledger_chain.go:45-107 | Whatever writers did under the lock or gave up, one entry starts the chain, each has at most one successor, and ids ascend along it. |
| `LedgerChain.InsertSays` | src/backend/ledger_chain.go:78-107 | An insert appends one entry: its draft's kind, user, requester, time of request, message and content, its targets sorted, and the time it was signed. |
| `LedgerChain.AppendsExactlyWhen` | src/backend/ledger_chain.go:45-107 | A transaction under the lock appends its entry, after the last and under the next id, exactly when its key is still the server's or it rotates to it; with a retired key nothing changes. |
| `LedgerChain.LedgerSaysDrafts` | src/backend/ledger_chain.go:45-107 | In every run the entries are, in order, the drafts of exactly the transactions that inserted, each as its lock was taken for. |
| `LedgerChain.LedgerVerifies` | src/backend/ledger_chain.go:78-89 | The ledger read in order is a chain of valid signatures. |
| `LedgerChain.KeysChangeAtRotations` | src/backend/ledger_chain.go:52-58 | Neighbouring entries are signed with one key unless the later is a key rotation's: none is signed past a rotation. |
| `LedgerChain.LastIsEnd` | src/backend/ledger_chain.go:59-70 | The query for the entry nothing follows finds just the end of the chain. |
| `LedgerChain.GetLedgerHead` | src/backend/ledger.go:94-103 | Finds the entry that starts the chain, none while it is empty. |
| `LedgerChain.GetLedgerTail` | src/backend/ledger.go:107-133 | The recursive query's answer: the entries after one, in turn, up to the limit. |
| `LedgerChain.GetLedger` | src/backend/ledger.go:234-278 | The first page has the head; a page after an unknown entry is refused. |
| `LedgerChain.TailIsNext` | src/backend/ledger.go:105-133 | What follows an entry, up to the limit, is the next stretch of the chain. |
| `LedgerChain.PagesAreTheLedger` | src/backend/ledger.go:234-278 | The head and the pages got by repeating `after`, with writers at work between pages, list every entry there is at the last page exactly once, in chain order. |
| `LedgerChain.CrawlEnds` | src/backend/ledger.go:234-278 | Once nobody appends, repeating `after` does come to an empty page. |
| `UserSearch.MergeUserSearchResults` | src/backend/handlers.go:1071-1111 | The page, the ids it led with and whether there is more, as the sorted rows without repeats determine them; page one leads with exact matches as `LeadIsExact` says. |
| `UserSearch.ExactUserMatches` | src/backend/handlers.go:1113-1122 | The exact matches, in search order. |
| `UserSearch.LeadIsExact` | src/backend/handlers.go:1084-1098 | Page one leads with exact matches of this server's rows if there are any, of its peers' otherwise: all of them in search order, or the first limit - 1. |
| `UserSearch.DedupKeepsFirst` | src/backend/handlers.go:1071-1080 | Of the rows of one id the first stays, and no id is left out. |
| `UserSearch.BeforeExactlyWhen` | src/backend/services.go:2691-2698 | A row sorts before another exactly when its name does by the first letter they part at, ASCII case ignored, or the names differ in ASCII case at most and its id is lower. |
| `UserSearch.BeforeTotal` | src/backend/handlers.go:1124-1131 | Of two different users one always sorts before the other. |
| `UserSearchMerge.AnswersAreEnough` | src/backend/handlers.go:1032-1033 | The first n rows of every source are enough to know the first n of all of them after a cursor. |
| `UserSearchMerge.SortedAnswers` | src/backend/handlers.go:1074-1084 | Sorting what was fetched gives the merge of the sources' own orders. |
| `UserSearchPaging.SearchUsers` | src/backend/handlers.go:998-1068 | One page: what is shown and the next cursor. |
| `UserSearchPaging.SearchShowsEverything` | src/backend/handlers.go:1032-1068 | Following the cursors to the end shows the lead rows and then all the others in search order. |
| `UserSearchPaging.EveryRowOnce` | src/backend/handlers.go:1032-1068 | So every matching row of every source is shown, and no user twice. |
| `UserSearchPaging.CursorAdvances` | src/backend/handlers.go:1062-1066 | Each page's cursor sorts strictly after the one it was asked with, keeps its lead, and leaves less to come. |
| `UserSearchPaging.CrawlEnds` | src/backend/handlers.go:1062-1066 | Following the cursors comes to an end. |
| `InviteTree.TreeReader.GetInviteTree` | src/backend/admin_kick.go:105-149 | The inviter, if a member, at depth 0, then the user's thread from depth 1; nothing for someone who isn't a member. |
| `InviteTree.TreeReader.Visit` | src/backend/admin_kick.go:141-147 | The recursive walk ends, and appends exactly the thread under a user. |
| `InviteTree.WalkVisits` | src/backend/admin_kick.go:105-149 | The walk visits the user and everyone invited below them, and nobody else. |
| `InviteTree.WalkOnce` | src/backend/admin_kick.go:105-149 | It visits each of them once. |
| `InviteTree.WalkDeepens` | src/backend/admin_kick.go:141-147 | Everyone else comes after whoever invited them, one level deeper. |
| `InviteTree.WalkInThreads` | src/backend/admin_kick.go:141-147 | Everyone's thread is one unbroken stretch of the walk. |
| `InviteTree.WalkSiblings` | src/backend/admin_kick.go:114-121 | Of two users one member invited, the one who signed up earlier comes first. |
| `InviteTree.SignUpKeepsTree` | src/backend/db.go:471-478 | Signing up on an invite keeps the members a tree, with the newcomer a leaf. |
| `KeyChain.KeyStore.Execute` | src/backend/admin_rebind.go:61-104 | Revokes the active key, binds the new one with it as predecessor, names the successor and makes the new one active, or refuses with nothing changed. |
| `KeyChain.KeyStore.Validate` | src/backend/admin_rebind.go:33-55 | Passes exactly when the target isn't suspended, the key parses and it isn't registered. |
| `KeyChain.KeyStore.AddPublicKey` | src/backend/services.go:1272-1478 | The owner's rotation: revokes the key it replaces, binds and links the new one and makes it active, or refuses with nothing changed. |
| `KeyChain.RebindKeepsHistories` | src/backend/admin_rebind.go:33-104 | A rebind keeps every user's keys one history linked both ways, appends the new key to the target's, and succeeds exactly under the validation. |
| `KeyChain.RotateKeepsHistories` | src/backend/services.go:1326-1424 | A rotation keeps every history too, and succeeds exactly for the active key, a new one in its place, and no cooldown to wait for, which a restricted key hasn't. |
| `KeyChain.RegisterStarts` | src/backend/services.go:553-580 | A sign-up binds a first key, unrestricted and with no predecessor, and makes it active; a user who has keys gets none this way. |
| `KeyChain.RebindRestricts` | src/backend/admin_rebind.go:61-104 | A rebind revokes the active key for its request and puts a restricted one in its place, which its owner may replace at once; nothing else changes. |
| `KeyChain.RotationWaits` | src/backend/services.go:1332-1345 | A rotation revokes the key for no request, and the one in its place can be replaced only once the cooldown is over. |
| `KeyChain.RestrictedExactlyWhenRebound` | src/backend/admin_rebind.go:90-96 | In every run a key is restricted exactly when the one before it was revoked for an admin request. |
| `KeyChain.OnlyActiveKeyUnrevoked` | src/backend/admin_rebind.go:61-104 | After any run of sign-ups, rebinds and rotations a user's only key not revoked is their active one, and successors and predecessors mirror each other. |
| `Identifiers.IdentityRoundTrip` | src/backend/identity_id.go:46-71 | A printed identity parses back exactly when both parts are there and the server has no `@`. |
| `Identifiers.ParsedIdentityPrints` | src/backend/identity_id.go:63-71 | Whatever parses as an identity prints back as it was. |
| `Identifiers.ServerOfExactlyWhen` | src/backend/identity_id.go:63-71 | An id is of a server exactly when it ends in `@` and that server's name, with a user before it. |
| `Identifiers.EntityRoundTrip` | src/backend/identity_id.go:75-88 | A printed entity id parses back exactly when all parts are there, the server has no `@` and the entity no slash. |
| `Identifiers.ParsedEntityPrints` | src/backend/identity_id.go:75-88 | Whatever parses as an entity id prints back as it was. |
| `Identifiers.AuthorOfAppended` | src/backend/identity_id.go:91-105 | authorOf inverts appendEntity exactly for an identity and a non-empty entity without a slash. |
| `Permissions.AcceptsExactlyThePrinted` | src/backend/admin.go:50-73 | parsePermissionSet accepts exactly the strings formatPermissionSet prints for sets of known permissions. |
| `Permissions.FormatParses` | src/backend/admin.go:67-73 | A printed set parses back to its members, sorted and once each. |
| `Permissions.ParsedReprints` | src/backend/admin.go:50-73 | Whatever is accepted is printed again unchanged. |
| `Permissions.CanonicalForm` | src/backend/admin.go:67-73 | The printed form has just the set's members, strictly ascending. |

## Left out

- Revoking or purging a peer during a protocol run: the two servers stay peers throughout, and the drain's claim is exclusive.
- A crash between a follow's direct send and its save: the two are one step.
- A call that arrives after its sender gave up on it: the peer's side of a call is atomic.
- Two handlers or transactions on one pair, case or request at once: each is serial.
- `acceptRefusalBlock`, allocations and pending events dropped by a block, and the client-side queues of blocks.
- Verification of what a peer sends beyond the certificate's order in time: a rejected certificate is a refusal.
- Sending anything but blocks and follows: in the drain those builds and calls are answers it is given.
- FollowProtocol.FollowsConverge: says nothing while a pair's last certificate isn't stamped after all before it, or since a block cut it, since it fails otherwise; the conditions a single delivery or cut needs are stated exactly beside it.
- BlockProtocol.BlocksConverge: says nothing of a pair whose last answer was a refusal, since it fails for those; `RefusalSettled` says exactly when they agree.
- FollowState.UnfollowsAreOwed: takes settling a sent event and dropping its unfollow as one step, since it fails when they are cut apart.
- ReplyCounts.CountersAlwaysExact: runs take a reply or a peer's removal only where the triggers count it for what it is, which is the exact condition proved for each, since it fails otherwise; a member's reed is removed only while its author is a member, as the authentication sees to. A peer's removal cut short between storing it and deleting the reference, a peer's removal of a whole thread, which stores all its removals before it deletes any reference, and recounts in recovery are not part of this model.
- ReplyCounts.ReedRemovalNeverClamps: reeds of this server only; for a peer's, `PeerRemovalClampsExactlyWhen`.
- ReplyCounts.ReedStats.InsertReply: called only where the walk it takes ends, as the other triggers are; the source's insert doesn't return where it doesn't, so there is nothing after it to state.
- Peers' authors: the trigger and the server's own recount know the authors of local reeds only, so a peer's reply counts as live after its author's account is removed, and the model's counts do as they do.
- Drain.Drainer.DrainPeerEventsWith: nothing is enqueued while it runs; the two protocols have everything else go on between its steps.
- ServerStore.DataService.InsertBlockTx: allocations and pending events a block drops.
- ServerStore.DataService.AcceptBlock: verifying the block, and the commit between deleting the older one and storing this one, which the outcome `Halfway` of a call stands for in `BlockProtocol`.
- AdminService.AdminService.DecideAdminRequest: the decider's key and signature, checked before the transaction.
- AdminService.AdminService.OpenAdminRequest: the requester's key, signature, clock and request id, and the lengths of texts.
- AdminService.AdminService.ExecuteAction: invites granted and revoked; the key links of a rebind are in `KeyChain`.
- KeyChain.KeyStore.Execute: invites a rebind revokes, and its key revocation owed to peers.
- UserSearchPaging.SearchUsers: rows hidden from a searcher their users block.
- FlagRows.SignaturesNeverLeak: only runs whose account removals drop no flag from an open case, since it fails otherwise.
- Flag cases brought back by recovery, and requests opened before one.
- Admin requests: parsing of a request's id and clock, text lengths, keys and signatures of requester and decider, mail and other effects after the commit, and revoked invites.
- AdminRuns.PendingTracksRemovals: removing an account, dropping it from requests and closing those left empty are one step; the server does the last two right after the commit.
- Ledger entries' own signature check and storage of targets; ids and times are numbers, so what JSON makes of ids beyond 2^53 is not part of this model, and time formatting is taken to be one to one.
- LedgerPayload.LastSignatureFixesChain: assumes no signature is valid for two payloads; the canonical bytes stand for the fields kept.
- User search: which rows match, the rows hidden from a blocked searcher, and a peer that doesn't answer in time. Sources are fixed, in order and without a user in common while pages are read; case folding of exact matches is a parameter.
- UserSearchPaging.SearchShowsEverything: for any page size from 1 up; how a request's size is clamped to 1..100 is plumbing.
- InviteTree.TreeReader.GetInviteTree: usernames, roles and flags of a node are left out; the order members signed up in, with ids to break ties, is given.
- What a rebound key is restricted to, and the signatures and cooldown times of a rotation by its owner: whether it is too soon is given.
- HTTP parsing and replies, metrics, logging, realtime delivery, recovery, mailbox and cleanup jobs.
