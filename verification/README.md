# Blackout: a verified model of its core

Blackout is a Matrix-based chat system: a Synapse homeserver with a Blackout runtime module,
a replicated node runtime, and an API with background workers. This project models the parts
of it that keep state over time and proves what they promise over whole runs.

| Dafny modules | what they model |
|---|---|
| `RoomEvents`, `EventAuth`, `AuthRules`, `AuthProcedures`, `AuthFootprint`, `AuthRuns`, `PowerCeiling` | Matrix room authorization, "Authorization rules" of the Matrix specification v1.2, room version 9, as Synapse's `event_auth.py` applies them |
| `Visibility`, `VisibilityRules` | history visibility: the two client filters and the server filter |
| `BackgroundWorker`, `Leadership`, `WorkerProgress` | background workers that share one exclusive lock |
| `Crdt`, `Runtime` | the last-writer-wins replica and hash-linked replay |
| `MessageIndex` | the message search index |
| `StreamTokens`, `WakeUps`, `Notifier` | the notifier's wake-up protocol, its indexes and its pending queue |
| `SlidingWindow`, `DecisionFeed`, `Reputation`, `SignalRetention` | rate limits, the governance feed, reputation and signal retention of the runtime module |
| `SessionLength`, `SessionRuns` | panel session lengths and the token refreshes that run beside them |
| `Common`, `EarliestFirst` | options, results and small helpers; `ORDER BY expiry LIMIT n` |

Code that updates objects is a class whose methods are proved equal to a function on values;
the run theorems are about that function. Concurrency is a step system: each stretch between
two awaits is one atomic step, and theorems hold for every interleaving. `AuthRules`,
`VisibilityRules` and lemmas named `…Iff` or `…Is` beside each model say, in the data alone,
what the functions decide that the run theorems share. Cryptography, JSON
decoding, text tools, scores, rounding and clocks are parameters.

`dafny verify dfyconfig.toml` checks the project.

## Where a promise has a limit

Each of these has an exact condition among the members below, with the inputs that break it.

- Auth types do not cover a power-levels event whose state key is not empty, because the rule
  looks the old levels up under the event's own key.
- Auth types also miss the authoriser of a join in a room version with knock-restricted but
  not restricted rooms.
- A waiter can miss an update if one comes while it awaits its rooms before it registers, if
  another registration of the user replaces its stream, or if its stream expires while it is
  inside the callback. Nobody else misses an update that reaches the registered stream.
- Replicas converge if and only if no two last writes of a key disagree; ties are won by the
  later delivery.
- Admissions of a key keep their spacing exactly while its clock, once past the first call,
  does not go back.
- Recovery aborts on a scanned event whose key or signature cannot be read, although events
  that fail the check are skipped.
- A sweep deletes a device and forgets its length in two steps; a device that signs in again in
  between loses its bound length.
- For an erased sender the two client filters differ on some visibility changes.
- The documentation of session lengths (session_length.py:19-22) says every access token
  minted by a refresh is capped. The refresh handler reads the token, and with it the end of
  the session, and adds new tokens after further awaits; a bind in between caps neither what it
  has read nor what it adds. The model follows the code.

## Model

| member | source | states |
|---|---|---|
| `AuthRuns.MembersAreInvited` | apps/blackout-server/synapse/event_auth.py:465-704 | invitation chain: in every linear run in which the join rule has only been invite or knock, whoever is joined at any point is linked to the creator by accepted invites, each from somebody joined then or joined when they issued the third-party invite it redeems |
| `AuthRuns.RunIsChained` | apps/blackout-server/synapse/event_auth.py:465-704 | the invariant behind it, at every point of every run: joined and invited users are linked, and every stored third-party invite was issued earlier by somebody then joined |
| `AuthRuns.ChainStep` | apps/blackout-server/synapse/event_auth.py:248-342 | one accepted event keeps that invariant |
| `AuthRuns.MemberEventKeepsChain` | apps/blackout-server/synapse/event_auth.py:549-653 | an accepted join or invite leaves its target linked to the creator |
| `AuthRuns.InviteStaysIssued` | apps/blackout-server/synapse/event_auth.py:315-332 | a third-party invite in the state was issued by a member at some earlier point |
| `AuthRuns.JoinNeedsInvite` | apps/blackout-server/synapse/event_auth.py:596-653 | under an invite or knock rule a join passes only for the creator's first join or for a user joined or invited |
| `AuthRuns.InviteNeedsMember` | apps/blackout-server/synapse/event_auth.py:549-595 | an invite passes only from a joined sender or with a verified third-party proof |
| `AuthRuns.SenderIsMember` | apps/blackout-server/synapse/event_auth.py:707-723 | a third-party invite event passes only from a joined sender |
| `AuthRuns.CreateEventKept` | apps/blackout-server/synapse/event_auth.py:418-453 | over every linear run the create event in the state is the first event |
| `AuthRuns.CreatorJoinIsSecond` | apps/blackout-server/synapse/event_auth.py:482-492 | the shortcut for the creator's join is open to the second event only, and only to the creator |
| `AuthRuns.BanPersists` | apps/blackout-server/synapse/event_auth.py:465-704 | over every linear run past the creator's join, a ban ends only by a leave event from another joined user whose level meets the ban and kick levels and is above the target's |
| `AuthRuns.UnbanIff` | apps/blackout-server/synapse/event_auth.py:549-704 | for a banned target, a membership event that is not a ban again passes if and only if it is such an unban and both users may take part in the room |
| `AuthRules.InviteIff` | apps/blackout-server/synapse/event_auth.py:549-595 | for every event, state and room version, an invite without a third-party proof passes if and only if both users may take part, the sender is joined, the target is neither joined nor banned, the levels read are readable, and the sender's entry in `users` (or the default) is at least the room's `invite` level (or 0) |
| `AuthRules.ProvenInviteIff` | apps/blackout-server/synapse/event_auth.py:1002-1070 | an invite with a proof passes if and only if it redeems a stored invite of the sender for the target with a signature one of its keys verifies, and the target is not banned |
| `AuthRules.JoinIff` | apps/blackout-server/synapse/event_auth.py:596-653 | a join other than the creator's first passes if and only if the user may take part, the creator and the levels are readable, it is the user's own, the user is not banned, and the join rule admits them: public to all, invite and knock to those joined or invited, restricted also to those a joined user with the invite level vouches for |
| `AuthRules.FirstJoinPasses` | apps/blackout-server/synapse/event_auth.py:482-492 | the creator's first join needs nothing but to be allowed to take part |
| `AuthRules.OwnLeaveIff` | apps/blackout-server/synapse/event_auth.py:654-671 | a user's own leave passes if and only if they are joined or invited, or have knocked where that exists |
| `AuthRules.KickIff` | apps/blackout-server/synapse/event_auth.py:654-671 | a kick or unban passes if and only if both users may take part and a joined sender has the kick level and a level above the target's, and the ban level too if the target is banned |
| `AuthRules.BanIff` | apps/blackout-server/synapse/event_auth.py:672-684 | a ban passes if and only if both users may take part and a joined sender has the ban level and a level above the target's |
| `AuthRules.KnockIff` | apps/blackout-server/synapse/event_auth.py:685-702 | a knock passes if and only if version and join rule have it, it is the user's own, and they are neither joined, invited nor banned |
| `AuthRules.UnknownMembershipFails` | apps/blackout-server/synapse/event_auth.py:703-704 | no other membership passes, nor a member event without membership or target |
| `AuthRules.UserLevelIs` | apps/blackout-server/synapse/event_auth.py:949-986 | which level a user is read to have: the entry in `users`, else `users_default`, else 0; without power levels the creator has 100 |
| `AuthRules.MessageIff` | apps/blackout-server/synapse/event_auth.py:725-782 | an event no rule singles out passes if and only if its sender may take part, is joined, has the level for that type, and does not use another user's id as state key |
| `AuthRules.AliasesIff` | apps/blackout-server/synapse/event_auth.py:280-307 | in versions with alias events they pass if and only if they are keyed by the sender's own server |
| `AuthRules.ThirdPartyInviteIff` | apps/blackout-server/synapse/event_auth.py:317-332 | a third-party invite passes if and only if its sender is joined and has the invite level |
| `AuthRules.RedactionIff` | apps/blackout-server/synapse/event_auth.py:785-820 | a redaction passes if and only if it may be sent and its sender has the redact level, or the version leaves the decision to later, or both ids are of one server |
| `AuthRules.PowerLevelsIff` | apps/blackout-server/synapse/event_auth.py:823-942 | a power-levels event passes if and only if it may be sent, names users by well-formed ids with integer levels, has integer levels where the version insists, and makes no change its sender's level does not allow |
| `AuthRules.PowerChangeIff` | apps/blackout-server/synapse/event_auth.py:873-942 | the changes so allowed: for every level that differs, old and new value are at most the sender's level, and another user's old level is below it |
| `AuthRules.CreateIff` | apps/blackout-server/synapse/event_auth.py:418-453 | a create event passes if and only if it has no previous event, its room is on the sender's server, its version is known and it names its creator where that is needed |
| `AuthRules.AuthTypesAre` | apps/blackout-server/synapse/event_auth.py:1084-1126 | which state entries the auth types of every event are, one by one |
| `PowerCeiling.CeilingNeverRises` | apps/blackout-server/synapse/event_auth.py:823-942 | from any state with power levels, max(0, users_default, all explicit levels) never rises between any two points of any accepted run |
| `PowerCeiling.StepKeepsCeiling` | apps/blackout-server/synapse/event_auth.py:823-942 | one accepted event from a sender outside a set keeps the ceiling over everyone outside the set, and the levels inside it that lie above that ceiling |
| `PowerCeiling.ChangeKeepsCeiling` | apps/blackout-server/synapse/event_auth.py:873-942 | the same for a power-levels change the comparison loop lets through |
| `PowerCeiling.SenderBelowCeiling` | apps/blackout-server/synapse/event_auth.py:949-986 | a sender's level never exceeds the ceiling |
| `PowerCeiling.TopIsOutOfReach` | apps/blackout-server/synapse/event_auth.py:654-684 | no kick or ban of a user strictly above everyone else is accepted |
| `PowerCeiling.StepKeepsTop` | apps/blackout-server/synapse/event_auth.py:248-342 | one accepted event from somebody else keeps such a user on top and does not remove them |
| `PowerCeiling.TopStaysOnTop` | apps/blackout-server/synapse/event_auth.py:823-942 | over every accepted run in which they send nothing, such a user keeps exactly that level and is never kicked or banned |
| `AuthFootprint.AuthTypesDetermineVerdict` | apps/blackout-server/synapse/event_auth.py:1084-1126 | two room states that agree on the auth types of an event give it the same verdict, reason included |
| `AuthFootprint.SelectedStateSuffices` | apps/blackout-server/synapse/event_auth.py:1084-1126 | checking against only the selected state events gives the verdict of the full state |
| `AuthFootprint.VerdictReadsOnlyReadSet` | apps/blackout-server/synapse/event_auth.py:248-342 | the verdict depends on the listed state keys only, for every event and room version |
| `AuthFootprint.DeterminedIff` | apps/blackout-server/synapse/event_auth.py:1084-1126 | all states that agree on the auth types give an event the same verdict if and only if it is neither a well-formed power-levels event under a usable state key of its own nor, in a version with knock-restricted but not restricted rooms, a user's own join that names another user as authoriser |
| `AuthFootprint.KeyedPowerLevelsEscapeAuthTypes` | apps/blackout-server/synapse/event_auth.py:867-871 | for every power-levels event with a non-empty state key that some state accepts there is a state, equal on all auth types, that refuses it |
| `AuthFootprint.AuthoriserEscapes` | apps/blackout-server/synapse/event_auth.py:1118-1124 | for every such join two states equal on all auth types give different verdicts |
| `AuthProcedures.LevelsToCheck` | apps/blackout-server/synapse/event_auth.py:876-901 | the built list holds exactly the levels that have to be compared |
| `AuthProcedures.CheckPowerLevelsEvent` | apps/blackout-server/synapse/event_auth.py:823-942 | the loop's verdict is the quantified rule: every level that differs is one the sender may change |
| `AuthProcedures.CheckStateIndependent` | apps/blackout-server/synapse/event_auth.py:142-245 | create events are checked by their own rule; any other passes exactly when its auth events are all there, accepted, in the room, expected, without repeats and include the create event |
| `AuthProcedures.WalkAuthEvents` | apps/blackout-server/synapse/event_auth.py:190-245 | the walk that fills the dictionary accepts exactly such lists |
| `Visibility.ClientFiltersAgree` | apps/blackout-server/synapse/visibility.py:151-249 | for a stored event the per-client filter keeps it for a user exactly when the per-event filter names the user (plus a membership check for erased senders), and then shows it whole |
| `Visibility.ErasedSendersMatterIff` | apps/blackout-server/synapse/visibility.py:277-387 | for an erased sender the two filters part exactly on a visibility change that no client rule denies, whose laxer side is open and whose membership check shuts the user out |
| `Visibility.ErasedSendersDoMatter` | apps/blackout-server/synapse/visibility.py:361-376 | that case occurs, for every user and sender: told of the event, not shown it |
| `Visibility.ClientSeesOnlyWhatServerSees` | apps/blackout-server/synapse/visibility.py:572-702 | what any user of a server is shown, their own membership events and visibility changes apart, the server is sent unredacted |
| `Visibility.ServerSeesMember` | apps/blackout-server/synapse/visibility.py:619-682 | one local user whose membership lets the server in is enough |
| `Visibility.ExceptionsAreNeeded` | apps/blackout-server/synapse/visibility.py:353-387 | both exceptions are real: a visibility change and a user's own leave shown to the client and withheld from the server |
| `Visibility.FilterEventsForClient` | apps/blackout-server/synapse/visibility.py:66-148 | the batch filter gives, in order, each event's view for the user |
| `Visibility.FilterEventForClients` | apps/blackout-server/synapse/visibility.py:151-249 | the set loops end with exactly the users who may be told |
| `Visibility.DropDenied` | apps/blackout-server/synapse/visibility.py:188-208 | the first loop drops exactly the users the type, retention, ignore and soft-fail rules deny |
| `Visibility.KeepMembers` | apps/blackout-server/synapse/visibility.py:233-249 | the last loop keeps exactly the users whose membership allows the event |
| `Visibility.CheckEventVisible` | apps/blackout-server/synapse/visibility.py:619-682 | the loop over memberships says yes exactly when the setting or some member from the server lets the event out; its domain assertion never fails |
| `Visibility.FilterEventsForServer` | apps/blackout-server/synapse/visibility.py:572-702 | the batch filter gives, in order, each event's view for the server, redacted where asked |
| `Visibility.SameState` | apps/blackout-server/synapse/visibility.py:252-274 | both client filters read the same setting and, for other people's events, the same membership |
| `VisibilityRules.MessageToMemberIff` | apps/blackout-server/synapse/visibility.py:480-517 | a stored message from a sender not erased, neither soft-failed nor an outlier, is shown whole to somebody joined, and they are told of it, if and only if they do not ignore the sender and the room's retention has not let it lapse |
| `VisibilityRules.OrdinaryEventIff` | apps/blackout-server/synapse/visibility.py:277-387 | both client filters let a user have an ordinary event whole if and only if it may go out to them and the history was open to their membership at the time, in terms of what the database holds |
| `VisibilityRules.VisibilityChangeIff` | apps/blackout-server/synapse/visibility.py:525-569 | a change of history visibility is shown exactly when the setting was open before or is after, or is open to the user's membership |
| `VisibilityRules.OwnMembershipIff` | apps/blackout-server/synapse/visibility.py:397-472 | one's own membership event counts as the better of old and new membership, and a departure is always shown |
| `VisibilityRules.OutlierIff` | apps/blackout-server/synapse/visibility.py:329-348 | of events without state only one's own membership is shown |
| `VisibilityRules.ErasedSenderView` | apps/blackout-server/synapse/visibility.py:361-387 | what an erased user sent is whole for those then joined, pruned for others the history was open to, and gone for the rest |
| `VisibilityRules.ErasedOwnMembershipView` | apps/blackout-server/synapse/visibility.py:361-387 | the same for an event about the user's own membership; a departure is pruned |
| `VisibilityRules.AlwaysIncludedIff` | apps/blackout-server/synapse/visibility.py:312-327 | events asked for by id skip the history check and nothing else |
| `VisibilityRules.ServerSeesIff` | apps/blackout-server/synapse/visibility.py:619-682 | a server sees an event of any setting but invited and joined, and of those exactly when one of its users was joined, or invited where the setting is invited |
| `VisibilityRules.ServerViewIs` | apps/blackout-server/synapse/visibility.py:684-702 | what a server is sent: the event, its redaction, or nothing |
| `VisibilityRules.ClientBatchSplits` | apps/blackout-server/synapse/visibility.py:66-148 | a batch of any events is filtered event by event, in order |
| `Leadership.RunningLoopsAreLed` | packages/api/src/backgroundWorker.ts:133-253 | for any number of workers and every interleaving, a worker with a running loop is not stopping, is watched, and holds the lock or has not yet been told it is gone |
| `Leadership.AtMostOneLeader` | packages/api/src/backgroundWorker.ts:133-173 | of two workers with running loops at least one has lost the lock without having been told |
| `Leadership.NoLoopAfterShutdown` | packages/api/src/backgroundWorker.ts:201-222 | from the moment shutdown begins a worker never has a running loop again |
| `Leadership.ReleaseComesLast` | packages/api/src/backgroundWorker.ts:218-243 | the lock is released only after the loops are stopped, boot and lock attempt have settled and the flush was attempted; afterwards the worker never holds it |
| `Leadership.InvariantHolds` | packages/api/src/backgroundWorker.ts:133-253 | the protocol invariant holds at every point of every run |
| `Leadership.StepKeepsInvariant` | packages/api/src/backgroundWorker.ts:133-253 | every step of every worker and of the lock keeps it |
| `Leadership.WorkerFollowsItsTurns` | packages/api/src/backgroundWorker.ts:133-253 | in every run of the system each worker is where its own stretches and lock outcomes alone bring a new worker |
| `Leadership.RunWorker` | packages/api/src/backgroundWorker.ts:103-253 | every worker object of every run, carried through its own turns, has a stop handle left only while it is not stopping, is watched, and holds the lock or has not been told of its loss |
| `BackgroundWorker.RunTurns` | packages/api/src/backgroundWorker.ts:133-253 | an object that takes any sequence of stretches and lock outcomes that can be taken follows the protocol's worker through all of them |
| `WorkerProgress.LaunchOffersEveryLoop` | packages/api/src/backgroundWorker.ts:133-149 | a worker that has the lock and is not stopping launches every enabled loop: each can then load, and it leads and is watched |
| `WorkerProgress.LeaderRunsItsLoops` | packages/api/src/backgroundLoops.ts:34-47 | in every continuation in which it does not begin to stop each enabled loop is loading, running or failed, those loading can load, and once all have loaded exactly the enabled ones run |
| `WorkerProgress.NewWorkerLeads` | packages/api/src/backgroundWorker.ts:133-199 | a new worker can boot, ask for the lock and, if it gets it, come to lead with all enabled loops running |
| `WorkerProgress.StandbyTakesOver` | packages/api/src/backgroundWorker.ts:151-173 | so can any standby at its next tick, and its timer is cleared |
| `WorkerProgress.RefusedStandbyStays` | packages/api/src/backgroundWorker.ts:151-173 | refused again, it stands by as before |
| `WorkerProgress.FreeLockIsTaken` | packages/api/src/backgroundWorker.ts:133-173 | in every system, whenever the lock is free each standby can take it and come to lead with all enabled loops running while the others do not move |
| `WorkerProgress.ShutdownStopsAtOnce` | packages/api/src/backgroundWorker.ts:201-219 | a shutdown stops timer, watch and every loop at once, waits for a start that was made, and a second one changes nothing |
| `WorkerProgress.ShutdownCanFinish` | packages/api/src/backgroundWorker.ts:201-253 | from every point a worker can reach, shutdown can begin, settle what it awaits, flush, release the lock and exit |
| `WorkerProgress.ShutdownFinishes` | packages/api/src/backgroundWorker.ts:222-253 | once begun it needs nothing but that what it awaits settles |
| `WorkerProgress.ExitedIsFinal` | packages/api/src/backgroundWorker.ts:249-253 | a worker that has exited does nothing more |
| `Leadership.LockComesFree` | packages/api/src/backgroundWorker.ts:133-253 | when the holder loses, gives back or dies with the lock, the lock is free and any live worker that waits for it can have it; nobody else's hold is touched |
| `BackgroundWorker.BackgroundLoops.ModuleLoaded` | packages/api/src/backgroundLoops.ts:34-47 | a module that loads starts its loop, unless the handle has been stopped meanwhile |
| `BackgroundWorker.BackgroundLoops.ModuleFailed` | packages/api/src/backgroundLoops.ts:34-47 | a module that fails to load starts nothing and is no longer pending |
| `BackgroundWorker.BackgroundLoops.Stop` | packages/api/src/backgroundLoops.ts:351-357 | calls every stop function once, in order, and leaves none |
| `BackgroundWorker.BackgroundWorker.ResumeTimer` | packages/api/src/backgroundWorker.ts:159-172 | the continuation of a tick: clear the timer on success, shut down on failure |
| `BackgroundWorker.BackgroundWorker.ShutDown` | packages/api/src/backgroundWorker.ts:201-222 | the first stretch of shutdown stops watching, timers and loops at once, and a second call changes nothing |
| `Runtime.CatchesUpThroughNoiseIff` | apps/blackout-server/blackout_runtime/runtime.py:52-80 | a node with a proper prefix of a chain, given any list within budget and no validly signed outsider that links in, recovers successfully with the chain, the booted state and the right count if and only if the missing events are there as a subsequence and no scanned event has an unreadable signature |
| `Runtime.ChainCompletedIff` | apps/blackout-server/blackout_runtime/runtime.py:70-80 | the node itself ends with the whole chain exactly when the missing events are among those scanned before the first unreadable signature |
| `Runtime.RecoveryOnlyExtends` | apps/blackout-server/blackout_runtime/runtime.py:52-80 | whatever peers send, recovery from the node's own hash appends verified linked events only, the registers follow the log and the count is right |
| `Runtime.BootAcceptsChainsIff` | apps/blackout-server/blackout_runtime/runtime.py:35-50 | a boot succeeds exactly on valid chains and then holds the chain and its effect |
| `Runtime.BootFromPrefixSnapshot` | apps/blackout-server/blackout_runtime/runtime.py:35-50 | booting from a snapshot of any prefix and replaying the whole chain is booting from nothing, when no two last writes disagree |
| `Runtime.BootedHoldsPayloads` | apps/blackout-server/blackout_runtime/runtime.py:197-207 | a node booted from nothing holds, for every key a payload of the chain names, the value of a payload that names it, and no event for that key has a larger counter; it holds no other key |
| `Runtime.BootStopsAt` | apps/blackout-server/blackout_runtime/runtime.py:35-50 | a boot that fails has applied exactly the events before the first that cannot follow and says whether its link, signature or payload is wrong |
| `Runtime.RecoveryRefusedIff` | apps/blackout-server/blackout_runtime/runtime.py:52-69 | recovery refuses for its budget exactly when the list is longer, and for want of a start exactly when the known hash is not genesis and no event links to it; the node then stays as it is |
| `Runtime.HashesDistinct` | apps/blackout-server/blackout_runtime/envelope.py:84-112 | no hash occurs twice along a valid chain |
| `Runtime.BlackoutNodeRuntime.BootFromSnapshotAndReplay` | apps/blackout-server/blackout_runtime/runtime.py:35-50 | the loop ends in the state and failure of strict replay, state kept up to the failing event |
| `Runtime.BlackoutNodeRuntime.RecoverOfflineRejoin` | apps/blackout-server/blackout_runtime/runtime.py:52-80 | the loop ends in the state and result of budget check, search for a start, and tolerant scan, signature checks that raise included |
| `Runtime.BlackoutNodeRuntime.ApplyEnvelope` | apps/blackout-server/blackout_runtime/runtime.py:197-207 | applies the operation and logs the event |
| `Crdt.ConvergesIff` | apps/blackout-server/blackout_runtime/crdt.py:24-45 | all orders and duplications of the same operations agree if and only if no two last writes of a key disagree on the value |
| `Crdt.Converges` | apps/blackout-server/blackout_runtime/crdt.py:24-45 | two histories with the same operations give the same registers under that condition |
| `Crdt.StampsFixLastWrites` | apps/blackout-server/blackout_runtime/crdt.py:24-28 | the condition follows when key, counter and site fix the value |
| `Crdt.SnapshotThenReplay` | apps/blackout-server/blackout_runtime/crdt.py:34-45 | importing a snapshot of any prefix and replaying everything is replaying from empty |
| `Crdt.MergeAssociative` | apps/blackout-server/blackout_runtime/crdt.py:30-32 | merge is associative, always |
| `Crdt.MergeCommutesIff` | apps/blackout-server/blackout_runtime/crdt.py:30-32 | merge commutes if and only if equal stamps carry equal values |
| `Crdt.MergeJoinsHistories` | apps/blackout-server/blackout_runtime/crdt.py:30-45 | merging two replicas is applying both histories |
| `Crdt.HistorySummarised` | apps/blackout-server/blackout_runtime/crdt.py:24-28 | after any history each key holds a write with the greatest stamp for it, and only written keys are there |
| `Crdt.HistoryKeepsLatest` | apps/blackout-server/blackout_runtime/crdt.py:24-28 | after every history each register holds a write of its key, and no write of that key has a larger counter, nor the same counter and a site that sorts after: at the first character that differs, or by going on |
| `Crdt.WriteTakesEffectIff` | apps/blackout-server/blackout_runtime/crdt.py:24-28 | a write takes effect exactly unless the register holds one with a larger counter, or the same counter and a site that sorts after |
| `Crdt.MergeKeepsLatest` | apps/blackout-server/blackout_runtime/crdt.py:30-32 | a merge keeps for each key the register that is later in that order, the incoming one on a tie, and keys of either side |
| `Crdt.StampOrder` | apps/blackout-server/blackout_runtime/crdt.py:24-28 | counter, then site compared as text, is a total order |
| `Crdt.AutomergePrototypeCrdt.ApplyOperation` | apps/blackout-server/blackout_runtime/crdt.py:24-28 | the update is the last-writer-wins step, equal stamps included |
| `Crdt.AutomergePrototypeCrdt.ApplyMany` | apps/blackout-server/blackout_runtime/crdt.py:43-45 | the loop applies all operations in order |
| `Crdt.AutomergePrototypeCrdt.MergeFrom` | apps/blackout-server/blackout_runtime/crdt.py:30-32 | the loop over the other replica, itself included, gives the key-wise merge |
| `MessageIndex.RunChanges` | apps/blackout-server/blackout_runtime/message_index.py:90-113 | after any run of new, edit, delete and retention steps the three indexes are the exact inverse of the live messages, with no empty bucket |
| `MessageIndex.DeletedIsGone` | apps/blackout-server/blackout_runtime/message_index.py:303-307 | after a deletion with a time other than zero its message is not live; every other is exactly as a retention sync at that time leaves it |
| `MessageIndex.DeletionAtZero` | apps/blackout-server/blackout_runtime/message_index.py:303-307 | stamped zero a deletion removes its message exactly when its retention has ended |
| `MessageIndex.SyncKeepsIff` | apps/blackout-server/blackout_runtime/message_index.py:104-113 | a sync drops a message exactly when its deletion or the end of its retention has come, and leaves the others as they are |
| `MessageIndex.LatestTextIsLive` | apps/blackout-server/blackout_runtime/message_index.py:90-102 | a new or edited message is live as it was sent, every other stays, and what cannot be read changes nothing |
| `MessageIndex.MessageIndexPipeline.Query` | apps/blackout-server/blackout_runtime/message_index.py:115-157 | a query refuses bad pages; otherwise it counts and pages a ranking of the brute-force matches inside the user's channels, to which typo tolerance adds only live permitted messages that pass every other filter |
| `MessageIndex.MessageIndexPipeline.ScopedIds` | apps/blackout-server/blackout_runtime/message_index.py:129-137 | without typo tolerance the selected ids equal the brute-force scan, and with dates, an author or a channel alone they are the allowed messages in the inclusive range, by that author or in that channel; with tolerance they lie between the scan and all permitted messages |
| `MessageIndex.ScanFindsIff` | apps/blackout-server/blackout_runtime/message_index.py:194-205 | what the scan finds, in message fields: allowed channel, author, channel, start and end of the date range inclusive, phrase contained, and some token of the keyword; an absent, empty or zero filter asks for nothing |
| `MessageIndex.MessageIndexPipeline.CandidateIds` | apps/blackout-server/blackout_runtime/message_index.py:159-192 | candidates miss no match and hold live messages only |
| `MessageIndex.MessageIndexPipeline.KeywordIds` | apps/blackout-server/blackout_runtime/message_index.py:165-173 | the token lookup is exact without typo tolerance and only adds live ids with it |
| `MessageIndex.MessageIndexPipeline.Upsert` | apps/blackout-server/blackout_runtime/message_index.py:309-314 | replaces one message and keeps the indexes exact |
| `MessageIndex.MessageIndexPipeline.DeindexMessage` | apps/blackout-server/blackout_runtime/message_index.py:322-337 | removes exactly the message's own entries and leaves no empty bucket |
| `MessageIndex.MessageIndexPipeline.IndexMessage` | apps/blackout-server/blackout_runtime/message_index.py:316-320 | adds exactly the message's own entries |
| `MessageIndex.MessageIndexPipeline.SyncRetention` | apps/blackout-server/blackout_runtime/message_index.py:104-113 | drops exactly the expired messages, reports how many, and keeps the indexes exact |
| `MessageIndex.MessageIndexPipeline.ProcessEvent` | apps/blackout-server/blackout_runtime/message_index.py:90-102 | each kind of change has its effect on the live messages; malformed and unsupported ones have none |
| `MessageIndex.Rank` | apps/blackout-server/blackout_runtime/message_index.py:139-147 | the result lists every id once, best score first |
| `MessageIndex.PagesCoverRanking` | apps/blackout-server/blackout_runtime/message_index.py:149-157 | the pages, put together, are the ranking, each entry once |
| `WakeUps.NobodySleepsPastAnUpdate` | apps/blackout-server/synapse/notifier.py:107-190 | in every interleaving an unresolved listener waits from its stream's last-notified and current token, and its callbacks have covered everything up to there |
| `WakeUps.NobodyMissesIff` | apps/blackout-server/synapse/notifier.py:568-658 | from every reachable state, as long as no stream expires, nobody waiting now will ever sleep through an update if and only if nobody is still to register and all who are live wait on the registered stream, registered before the next update |
| `WakeUps.StepKeepsTouchIff` | apps/blackout-server/synapse/notifier.py:568-658 | a step keeps the waiters so attached exactly when it is neither an expiry under a live waiter nor an arrival that finds no up-to-date stream |
| `WakeUps.RegistrationInTimeIff` | apps/blackout-server/synapse/notifier.py:579-590 | a registration attaches everybody exactly when no update came during its await and nobody else is live |
| `WakeUps.InTouchUntilDetached` | apps/blackout-server/synapse/notifier.py:568-658 | over every run, expiries included, attached waiters miss nothing until such a step |
| `WakeUps.DetachingMisses` | apps/blackout-server/synapse/notifier.py:568-658 | and every such step leaves a live waiter that can miss an update |
| `WakeUps.UpdateDuringAwaitIsMissed` | apps/blackout-server/synapse/notifier.py:579-590 | a run without expiry in which a first waiter sleeps on its registered stream and is behind: the update came during the await for its rooms |
| `WakeUps.SupersededMissesUpdate` | apps/blackout-server/synapse/notifier.py:797-798 | a second registration of the user takes the stream away from the first waiter, which can then miss an update |
| `WakeUps.ExpiryDuringCallbackMissesUpdate` | apps/blackout-server/synapse/notifier.py:784-795 | a stream that expires while its waiter is in the callback: the waiter can then miss an update |
| `WakeUps.StepKeepsInvariant` | apps/blackout-server/synapse/notifier.py:568-658 | every arrival, registration, update, listener, callback and expiry keeps the protocol invariant |
| `StreamTokens.AfterAdvancedIff` | apps/blackout-server/synapse/types/__init__.py:483-500 | an event is after an advanced multi-writer token exactly when it is after both tokens |
| `StreamTokens.MoveAdvances` | apps/blackout-server/synapse/types/__init__.py:950-974 | a move changes its own stream only and takes it to the later of the two positions, writer by writer where there are several |
| `StreamTokens.StillWaitsIff` | apps/blackout-server/synapse/types/__init__.py:483-517 | an event is after a token exactly when it is past its own writer's place, or the common one if the writer has none |
| `WakeUps.ArrivalGetsStream` | apps/blackout-server/synapse/notifier.py:568-602 | a waiter joins the registered stream at once, or else registers one that starts at the position it read on arriving |
| `WakeUps.ListingFollowsRegistration` | apps/blackout-server/synapse/notifier.py:163-172 | over every run the registered stream can be reached by room, and an expired one never can again |
| `WakeUps.ExpiryIff` | apps/blackout-server/synapse/notifier.py:784-795 | a stream can expire exactly when nobody sleeps on it |
| `Notifier.ReleasedExactlyOnce` | apps/blackout-server/synapse/notifier.py:396-432 | over every run each pending entry is waiting or was released, exactly once; none was released early and none stays once a flush reached it |
| `Notifier.UserStream.Notify` | apps/blackout-server/synapse/notifier.py:130-161 | advances the token, fires the deferred everybody waits on with it and puts a fresh one in place |
| `Notifier.UserStream.NewListener` | apps/blackout-server/synapse/notifier.py:177-190 | a listener is left waiting exactly when its token is current; otherwise it gets the current token at once |
| `Notifier.NotifierService.TargetsIff` | apps/blackout-server/synapse/notifier.py:496-547 | the streams an event reaches are exactly those registered for a named user or listed under a named room |
| `Notifier.NotifierService.OnNewEvent` | apps/blackout-server/synapse/notifier.py:496-547 | every stream named by user or room is notified exactly once with the advanced token, every other is untouched, and both indexes are kept |
| `Notifier.NotifierService.RegisterWithKeys` | apps/blackout-server/synapse/notifier.py:797-802 | registers also over an existing stream; the two indexes go on agreeing exactly when there was none or it was in no room |
| `Notifier.NotifierService.UserJoinedRoom` | apps/blackout-server/synapse/notifier.py:804-809 | adds the room to the user's stream only, in both indexes |
| `Notifier.NotifierService.RemoveStream` | apps/blackout-server/synapse/notifier.py:163-172 | removes the stream from both indexes and nothing else |
| `Notifier.NotifierService.RemoveExpiredStreams` | apps/blackout-server/synapse/notifier.py:784-795 | removes exactly the streams without listeners last notified over ten minutes ago |
| `Notifier.NotifierService.SplitPending` | apps/blackout-server/synapse/notifier.py:405-414 | releases the ripe entries and keeps the others, both in order |
| `Notifier.NotifierService.AdmitJoiners` | apps/blackout-server/synapse/notifier.py:415-420 | each stream gains exactly the rooms its user joins by the released entries, in both indexes |
| `Notifier.NotifierService.NotifyPendingNewRoomEvents` | apps/blackout-server/synapse/notifier.py:396-432 | keeps what must wait, admits joiners, and notifies exactly the streams some released entry names by user or room, each exactly once, with the whole per-writer token |
| `SlidingWindow.AdmissionsAreSpacedIff` | apps/blackout-server/blackout_runtime/module.py:851-865 | over every run of calls, whatever other keys do: for every window and limit the i-th admission of a key is a full window before the (i+limit)-th, if and only if the key's own clock does not go back once it has gone past its first call |
| `SlidingWindow.GoingBackCrowds` | apps/blackout-server/blackout_runtime/module.py:851-865 | each way of going back has a window and limit for which one call too many is admitted |
| `SlidingWindow.RefusedIffWindowFull` | apps/blackout-server/blackout_runtime/module.py:1232-1246 | while the key's own clock has not gone back, a request is refused exactly when `limit` admissions of its key lie inside the window that ends now |
| `SlidingWindow.ClockGoingBackBreaksSpacing` | apps/blackout-server/blackout_runtime/module.py:1197-1222 | a concrete run of that kind |
| `SlidingWindow.RateLimiter.Request` | apps/blackout-server/blackout_runtime/module.py:760-766 | one request drops what has left the window, then admits and records or refuses; other keys keep their queues |
| `SlidingWindow.RunCalls` | apps/blackout-server/blackout_runtime/module.py:851-865 | the limiter's answers over any run are those of the history the theorems speak of |
| `DecisionFeed.FeedIsExactlyOnce` | apps/blackout-server/blackout_runtime/module.py:79-182 | after each poll of any run with duplicates, other rooms and restarts, a reader that hands back next_since has received every decision of its room once, in token order |
| `DecisionFeed.ReaderGetsTheDecisions` | apps/blackout-server/blackout_runtime/module.py:79-182 | after each poll of any run the reader has received exactly the decisions delivered in its room, each once and with its proposal, outcome, time and sender |
| `DecisionFeed.EveryDecisionIsRecorded` | apps/blackout-server/blackout_runtime/module.py:115-167 | every delivered event that decides has its row, all columns included |
| `DecisionFeed.RowsWereDelivered` | apps/blackout-server/blackout_runtime/module.py:115-167 | every row is that of a delivered decision |
| `DecisionFeed.DecidesIff` | apps/blackout-server/blackout_runtime/module.py:115-167 | a vote decides exactly when it names proposal and sender and the first of decision, result and outcome that says anything is a text |
| `DecisionFeed.BallotIsNoted` | apps/blackout-server/blackout_runtime/module.py:115-167 | every ballot not seen before, decision or not, puts its voter on the roll of its proposal, and nothing else does |
| `DecisionFeed.BallotCountsOnce` | apps/blackout-server/blackout_runtime/module.py:115-167 | once a ballot is taken in, no event with its id is again |
| `DecisionFeed.StepKeepsCaught` | apps/blackout-server/blackout_runtime/module.py:79-182 | every ingest, restart and poll keeps the reader at an exact prefix of the rows |
| `DecisionFeed.GovernanceDecisionStore.constructor` | apps/blackout-server/blackout_runtime/module.py:80-110 | loading gives the rows, the next token and the ids of the table |
| `DecisionFeed.GovernanceDecisionStore.IngestEvent` | apps/blackout-server/blackout_runtime/module.py:115-167 | memory and table move together: duplicates, malformed and undecided events, repeat votes and new decisions |
| `DecisionFeed.GovernanceDecisionStore.Query` | apps/blackout-server/blackout_runtime/module.py:169-182 | returns the room's decisions past `since` in order, and the last token |
| `Reputation.RunSteps` | apps/blackout-server/blackout_runtime/module.py:231-404 | over any run of deliveries, duplicates, reads at any time and restarts, each read reports the plain fold over the node's distinct accepted events |
| `Reputation.ReputationStore.IngestEvent` | apps/blackout-server/blackout_runtime/module.py:327-357 | counts an event exactly when it is acceptable and new; cache, stats, ids and table stay in step with the log |
| `Reputation.ReputationStore.Get` | apps/blackout-server/blackout_runtime/module.py:359-404 | cached or not, the report equals the fold |
| `Reputation.ReputationStore.Apply` | apps/blackout-server/blackout_runtime/module.py:270-325 | updates one node's figures and drops its cached report |
| `Reputation.ReputationStore.constructor` | apps/blackout-server/blackout_runtime/module.py:241-268 | a restart rebuilds the same state from the table |
| `Reputation.StatsFollow` | apps/blackout-server/blackout_runtime/module.py:270-325 | the incremental figures equal the fold after one more event |
| `Reputation.ReportSays` | apps/blackout-server/blackout_runtime/module.py:359-404 | what a report says, over every log: number of events, rounded sum of the changes, share of successful deliveries, mean rating, last attestation and standing |
| `Reputation.FoldIsFigures` | apps/blackout-server/blackout_runtime/module.py:270-325 | the running statistics of a node are the sums, counts and last texts of its events |
| `Reputation.AcceptedIff` | apps/blackout-server/blackout_runtime/module.py:327-357 | an update counts exactly when it names a node and a reason and states a change |
| `SignalRetention.RowsOnlyAge` | apps/blackout-server/blackout_runtime/module.py:1028-1059 | over every run a row stays, its expiry is never rewritten, and it is purged at most once and never before expiry |
| `SignalRetention.PurgedOnce` | apps/blackout-server/blackout_runtime/module.py:1122-1147 | no signal is reported by two purges |
| `SignalRetention.ExpiryComesFromSignal` | apps/blackout-server/blackout_runtime/module.py:1028-1059 | every row of every run expires 1 to 72 hours after a delivered signal of its id |
| `SignalRetention.PurgesDrain` | apps/blackout-server/blackout_runtime/module.py:1122-1147 | with n due rows and batch size b, k purges leave none due if and only if k is at least ceil(n/b) |
| `SignalRetention.PurgesCount` | apps/blackout-server/blackout_runtime/module.py:1122-1147 | after k purges exactly max(0, n - k*b) rows are due |
| `SignalRetention.ExpiryOf` | apps/blackout-server/blackout_runtime/module.py:1045-1054 | whatever the override or config, the expiry is 1 to 72 hours after the timestamp |
| `SignalRetention.LifetimeIs` | apps/blackout-server/blackout_runtime/module.py:1045-1054 | the lifetime in whole hours: the signal's own positive seconds, the prefixed field first, rounded down and kept within 1 to 72; otherwise the configured hours within 24 to 72 |
| `SignalRetention.DueIff` | apps/blackout-server/blackout_runtime/module.py:1126-1129 | a row is due exactly when it has expired and has not been purged |
| `SignalRetention.ConfiguredTtl` | apps/blackout-server/blackout_runtime/module.py:579-580 | the configured lifetime is clamped to 24 to 72 hours |
| `SignalRetention.SignalRetentionStore.OnNewSignal` | apps/blackout-server/blackout_runtime/module.py:1055-1059 | inserts the row or, for a known id, changes nothing |
| `SignalRetention.SignalRetentionStore.RunSignalPurge` | apps/blackout-server/blackout_runtime/module.py:1122-1147 | the loop marks exactly one batch of the earliest due rows and reports their ids, rooms and expiries in order |
| `SignalRetention.RetrievableUntilReported` | apps/blackout-server/blackout_runtime/module.py:1191-1195 | over every run a signal is retrievable until a purge reports it, and never again |
| `EarliestFirst.SelectEarliest` | apps/blackout-server/blackout_runtime/module.py:1126-1129 | ORDER BY expiry LIMIT n: the earliest keys, each once, in order, none earlier left behind |
| `SessionRuns.SessionEndsIff` | apps/blackout-server/blackout_runtime/session_length.py:186-255 | after a bind with an end, every token present then or refreshed from one expires by that end in every run, if and only if no refresh of the session is in progress at the bind that can still lead to a later token; the clock never goes back |
| `SessionRuns.CapHolds` | apps/blackout-server/synapse/handlers/auth.py:793-897 | every later step (refreshes, logins, other binds, sweeps, deletions) keeps the whole family capped |
| `SessionRuns.PendingEscapes` | apps/blackout-server/synapse/handlers/auth.py:793-897 | the other half: such a refresh leads to a token of the session that outlives the end |
| `SessionRuns.RefreshStartsIff` | apps/blackout-server/synapse/handlers/auth.py:827-881 | a refresh starts exactly when its token is there, unspent, and neither it nor its session is past its time |
| `SessionRuns.RefreshAddsPair` | apps/blackout-server/synapse/handlers/auth.py:855-897 | it adds one refresh and one access token of its device, each for the time asked for or to the end of the session, whichever is first |
| `SessionRuns.SpentStartsNothing` | apps/blackout-server/synapse/handlers/auth.py:827-843 | a spent refresh token starts no refresh in any later run |
| `SessionRuns.LengthIsKeptIff` | apps/blackout-server/blackout_runtime/session_length.py:293-320 | over every run a bound length is unchanged for as long as its device is there, if and only if no sweep has deleted that device earlier and has still to forget it |
| `SessionRuns.SweepsOnlyEnded` | apps/blackout-server/blackout_runtime/session_length.py:416-437 | over every run a session no sweep has selected yet keeps device and length until it is over, or for good without an end, unless the device is deleted by its user |
| `SessionLength.BindingCaps` | apps/blackout-server/blackout_runtime/session_length.py:219-236 | after a bind with an end each access and refresh token of the device runs to its own time or to the end, whichever is first, other devices keep theirs, and only the bound row is new |
| `SessionLength.LengthLasts` | apps/blackout-server/blackout_runtime/session_length.py:64-70 | how many milliseconds each choice lasts, and that until sign-out has no end |
| `SessionLength.EndedIff` | apps/blackout-server/blackout_runtime/session_length.py:277-291 | a session is over exactly from its end on |
| `SessionLength.SignedOutIsGone` | apps/blackout-server/blackout_runtime/session_length.py:416-437 | of a device signed out no token is left, and its length exactly if forgetting failed; everything of other devices stays |
| `SessionLength.OwnDeviceIff` | apps/blackout-server/blackout_runtime/session_length.py:363-377 | who may bind: not a guest, not an application service, with a device, and acting for oneself |
| `SessionLength.SessionLengthStore.Bind` | apps/blackout-server/blackout_runtime/session_length.py:379-402 | refuses a requester without an own device and a second bind, changing nothing; otherwise records the length and caps the tokens |
| `SessionLength.SessionLengthStore.CapRefreshTokens` | apps/blackout-server/blackout_runtime/session_length.py:230-236 | the two column updates together cap both expiries |
| `SessionLength.SessionLengthStore.SweepExpired` | apps/blackout-server/blackout_runtime/session_length.py:416-437 | signs out the earliest-ended sessions up to a batch; a failing deletion leaves device and row, a failing forget leaves the row, and the rest are counted |
| `SessionLength.SessionLengthStore.OnLoggedOut` | apps/blackout-server/blackout_runtime/session_length.py:439-458 | forgets the length exactly when the device is gone |

## Left out

- Event format and size checks (`validate_event_for_room_version`, `_check_size_limits`), event signatures and state resolution; rooms are linear runs or folds over accepted events.
- In power levels, values of `events` and `users` that are not mappings, and in room state, membership events without a `membership` field where the visibility filters read one.
- Which reason a refusal carries is not stated rule by rule. Reasons that come from failed integer conversions share one label each, and malformed public keys in third-party invites count as keys that verify nothing.
- BanPersists: starts after the creator's first join; before it nobody can be banned.
- Visibility for batches that span rooms and for `filter_send_to_client=False`; partial state is a parameter only.
- The worker's forced exit, timeouts and abandoned ticks are process death, which frees the lock; the heartbeat, the connection pool and running without Postgres are not modelled, and neither is the API server's own shutdown.
- The bootstrap recovery envelope, peer sync metadata and snapshot export of the node runtime.
- Search attachments, snippets and scores; fuzzy matching is an arbitrary function and a payload that does not parse is one malformed change.
- Historical (topological) tokens; a waiting loop's timeout is a step that may come at any time, and so is expiry in WakeUps.
- WakeUps.NobodyMissesIff: takes every update for the user to reach the registered stream; a room joined while the waiter awaits its rooms, which its stream then does not list, is not modelled.
- The callbacks for new joins, application services and pushers. The release of pending entries and the admission of joiners, one loop in the source, are two loops in a row.
- One vote per user across restarts: a vote without a decision is not persisted by the source.
- The proposal store, backfill, dead-drop and stego purges, plugin, attestation and announcement checks: per-event validators and repeats of the shapes above.
- Reputation figures are reals with an arbitrary rounding function instead of floating point.
- SignalRetention.SignalRetentionStore.RunSignalPurge: does not fix the order of rows that expire together.
- Synapse's login and device code: a login is a step that adds arbitrary tokens, outside the family of the bound session, also under the same device id.
- SessionLength.SessionLengthStore.SweepExpired: treats a failing deletion or forget as one that changed nothing.
- The cache invalidation of a bind, schema creation, and the concurrent bind that loses on the primary key.
- User interfaces, HTTP wiring, deployment and release scripts.
