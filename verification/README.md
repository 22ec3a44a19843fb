# meshd: verified model of the refresh, subscription, cache, load, menu, filter, router, grant and context logic

meshd joins devices into a private network whose state lives as records in a decentralized web node (DWN).
This project models the stateful core of meshd in Dafny and proves what that core is for: that a stream of
changes is never shown as up to date when it is not, that work is never lost, that a failed load or a failed
kernel command never leaves a half-applied state behind, and that compiled or derived artefacts mean what
their sources mean.

`dafny verify dfyconfig.toml` checks everything.

## What is modelled

**Refresh coordinator** (`RefreshModel`, `RefreshSafety`, `RefreshRepair`, `RefreshTiming`, `RefreshWake`,
`RefreshCoordinator`, `Backoff`). Every mutex-guarded section is one step of a state machine. The class
`Coordinator` has the fields of the source, and each of its methods is proved to perform exactly that step.
The theorems are about every interleaving of steps, that is, about all runs `After(cfg, ls, n)`.
`RefreshWake` adds the worker loop, its one-slot wake token and the callers that still owe a signal.

**Subscriptions** (`Decimal`, `Subscription`, `SubscriptionObject`, `Reconnect`, `GapRecovery`, `GapException`).
Frames, cursors and the reconnect loop. `SubscriptionObject` is the same frame handler on the heap, with a handler that may
overwrite everything it can reach. `GapRecovery` composes both subscriptions, the watcher with its lock and the
calls it still owes, and whichever coordinator is attached, and follows that coordinator back through its life.
`GapException` says exactly which coordinators may be attached after a gap.

**Watcher** (`Watcher`, `WatcherObject`). The watcher's stream flags and the coordinator's copy of them.

**Audience key cache** (`SingleFlight`, `AudienceKeyCache`). The election protocol over all interleavings,
and the buffers that are copied and zeroed.

**State load** (`LoadReplies`, `LoadState`). The eight stages of a load on shared maps and records, the shallow
snapshot and the rollback. The caller's context is one bit that never goes back: it may end while any query runs
or any record is read, and from then on every query fails. `LoadReplies` says what a load makes of the replies;
the methods of `LoadState` are proved to do that on the heap.

**Packet filter** (`AclFilter`), **peer menu** (`PeerMenu`), **OS routers** (`RouterModel`, `Routers`),
**permission grants** (`Grants`) and **record contexts** (`ContextIds`).

## Where the code does not do what one would expect

Where a promise fails there is a lemma with a concrete input and one with the exact condition.

- Positions handed to a subscription handler can go back: after a handler failure the server replays from the
  stored cursor (`RedeliveryGoesBack`). Everything that may follow a handed message before the next clear lies
  beyond it, or is an end marker at its position, if and only if its handler succeeded or it only repeated the
  cursor's position (`OrderIff`).
- A stream invalidated under a reason that is not its own has no rebuild of its own queued
  (`OwnReasonIsNeeded`, both directions). The watcher always passes the stream's own reason.
- A coordinator attached after a gap may show the stream as healthy on the strength of a refresh from before it
  heard from the watcher (`GapRecovery` names that exception). `AttachDecides`: if the stream is in scope and down
  when it is attached, every way to go on is sound if and only if the coordinator shows the stream neither as live
  nor as repaired. `RepairedAttachFails` and `LiveAttachFails` give the failing way for all others, and
  `ExceptionHappens` a whole run. The engine attaches a new coordinator, which is sound (`GapRecoveryWithNew`).
  `ReplacementTrust` and `ResumeTrusts` are the two steps behind it, both directions.
- macOS: routes are tracked unmasked but deleted masked, so dropping one of two routes of a network removes
  both (`SharedNetworkLosesRoute`). `DarwinRetryConverges` has the exact condition.
- macOS: what a failed call installed stays when the next call has another target (`ChangedTargetLeavesStray`).
  `ChangedTarget` says exactly when that matters for addresses, and for routes while a tracked address stays;
  `ChangedTargetUnanchored` for routes when the kernel may drop them on the way.
- Linux: a delete that fails in a failed call whose address phase succeeded is forgotten
  (`StaleAddressSurvives`); and if the kernel drops the routes together with the last old address, the kept
  routes are not put back (`ReplacedAddressLosesRoute`). `LinuxRetryConverges` has the exact conditions.
- A load whose context ends between two records of the last endpoint reply commits without the rest of them
  (`CommittedDropsIff`, both directions; `CommittedLoadDrops` is such a load). Everywhere else an ended context
  makes the next query fail and the load is rolled back, so nothing else is ever dropped.
- A grant scope with a second, differently capitalised key can be validated under one value and selected under
  another. `SpellingDecides` says for which key lists no values can do that, both directions;
  `MisspelledFieldWidens` names a key list for which some do.
- A record id with a slash moves its record on the first update (`SlashMovesRecord`, `UpdateKeeps`).
- The finders of permission grants document a preference for exact scopes; it never decides anything
  (`PreferenceIsUniform`).

## Model

| member | source | states |
|---|---|---|
| Backoff.ExponentialBackoff | internal/engine/refresh_coordinator.go:751-766 | the doubling loop returns min(maximum, base * 2^(failures-1)), at least base, and no value on the way exceeds maximum |
| Backoff.DelayMonotone | internal/engine/refresh_coordinator.go:751-766 | waiting never shrinks as failures accumulate and stays between base and maximum |
| Backoff.CapIsAbsorbing | internal/engine/refresh_coordinator.go:755-764 | once a doubling reaches the maximum every later one does, so stopping early loses nothing |
| Backoff.DefaultRetryJitter | internal/engine/refresh_coordinator.go:779-793 | jitter only adds, and saturates at the largest duration |
| RefreshCoordinator.NewConfig | internal/engine/refresh_coordinator.go:186-252 | field by field, given values are kept and zero durations get the documented defaults; accepted exactly when nothing is negative and both caps cover what they cap |
| RefreshCoordinator.Coordinator.Start | internal/engine/refresh_coordinator.go:256-283 | the first call, and no other, queues the start-up work and arms the periodic deadline |
| RefreshCoordinator.Coordinator.Notify | internal/engine/refresh_coordinator.go:312-325 | queues the reason under a new sequence number and signals, unless stopped |
| RefreshCoordinator.Coordinator.SetPaused | internal/engine/refresh_coordinator.go:329-346 | the whole new state of pausing and unpausing, and whether a signal is owed |
| RefreshCoordinator.Coordinator.SetStreamCovered | internal/engine/refresh_coordinator.go:351-384 | the whole new state when a stream enters or leaves scope |
| RefreshCoordinator.Coordinator.SetStreamLive | internal/engine/refresh_coordinator.go:390-429 | the whole new state when a stream is reported up or down, with or without a full refresh |
| RefreshCoordinator.Coordinator.InvalidateStream | internal/engine/refresh_coordinator.go:434-455 | the whole new state when a stream's content becomes stale |
| RefreshCoordinator.Coordinator.TakeWork | internal/engine/refresh_coordinator.go:555-583 | a batch of everything pending is taken exactly when an attempt may start |
| RefreshCoordinator.Coordinator.FinishWork | internal/engine/refresh_coordinator.go:585-625 | a failure merges the batch back at the larger sequence and schedules the retry; a success repairs exactly the streams whose revision the batch reaches |
| RefreshCoordinator.Coordinator.HandleTimer | internal/engine/refresh_coordinator.go:647-654 | the whole new state: periodic work queued under a new sequence and the deadline re-armed exactly when it is due |
| RefreshCoordinator.Coordinator.NextDeadline | internal/engine/refresh_coordinator.go:627-645 | the worker's next deadline covers the periodic deadline and the earliest permitted attempt |
| RefreshCoordinator.Coordinator.EnqueueAt | internal/engine/refresh_coordinator.go:682-690 | a reason keeps the largest sequence it was queued with |
| RefreshCoordinator.Coordinator.DeferPending | internal/engine/refresh_coordinator.go:656-675 | the quiet window is extended but never past its cap |
| RefreshCoordinator.Coordinator.ResetPeriodic | internal/engine/refresh_coordinator.go:692-698 | the periodic deadline follows the interval of the current mode |
| RefreshCoordinator.Coordinator.ReturnBatch | internal/engine/refresh_coordinator.go:595-598 | a failed batch is merged into the queue without lowering any sequence |
| RefreshCoordinator.Largest | internal/engine/refresh_coordinator.go:555-583 | the batch sequence is the largest sequence in the batch |
| RefreshSafety.StreamWrites | internal/engine/refresh_coordinator.go:351-455 | which steps may change the stream table, and how |
| RefreshSafety.InvStep | internal/engine/refresh_coordinator.go:312-455 | every step keeps the invariant of queue, batch and stream revisions |
| RefreshSafety.InvAlways | internal/engine/refresh_coordinator.go:312-690 | the invariant holds in every reachable state |
| RefreshSafety.EnqueueIsLargest | internal/engine/refresh_coordinator.go:682-690 | after queueing, a reason has the larger of the two sequences, an unnamed one counts as manual, and no other reason changes |
| RefreshSafety.MergeIsLargest | internal/engine/refresh_coordinator.go:595-598 | a merged queue has every reason of either, at the larger sequence |
| RefreshRepair.UnsettledIsFresh | internal/engine/refresh_coordinator.go:351-455 | whatever unsettles a stream leaves it unrepaired and out of reach of every earlier batch |
| RefreshRepair.SettledIsKept | internal/engine/refresh_coordinator.go:351-625 | every other step keeps a covered stream's revision and its repair |
| RefreshRepair.OnlySuccessRepairs | internal/engine/refresh_coordinator.go:613-623 | only the success of a batch that reaches the revision repairs a stream |
| RefreshRepair.WorkChanges | internal/engine/refresh_coordinator.go:511-625 | only a take puts a batch in flight and only a finish ends it |
| RefreshRepair.BatchReachesOnlySettled | internal/engine/refresh_coordinator.go:555-625 | a batch that reaches a stream's revision was taken after everything that unsettled the stream |
| RefreshRepair.RepairSoundness | internal/engine/refresh_coordinator.go:351-625 | in every run, a stream shown as repaired has had a successful refresh taken while it was live and after the last step that unsettled it |
| RefreshRepair.InFlightNeverCounts | internal/engine/refresh_coordinator.go:390-625 | a refresh in flight when a stream is unsettled never repairs it |
| RefreshRepair.HeldUntilServed | internal/engine/refresh_coordinator.go:555-625 | queued or in-flight work stays so until a batch carrying it succeeds or its stream leaves scope |
| RefreshRepair.NoLostInvalidation | internal/engine/refresh_coordinator.go:351-455 | every covered, live, unrepaired stream has its own reason queued or in flight at its revision or later |
| RefreshRepair.OwnReasonIsNeeded | internal/engine/refresh_coordinator.go:434-455 | after an invalidation that holds if and only if the caller named the stream's own reason |
| RefreshRepair.NoLostNotification | internal/engine/refresh_coordinator.go:312-325 | a notified reason stays queued or in flight until a batch taken after it succeeds |
| RefreshRepair.NoLostWork | internal/engine/refresh_coordinator.go:256-346 | in every run, what a start, a due timer, an unpause or a notification asks for stays queued or in flight until a batch taken afterwards succeeds |
| RefreshRepair.AskedIsHeld | internal/engine/refresh_coordinator.go:647-654 | each of these puts its own reason in the queue under a new sequence number; for the timer that is when its deadline is due |
| RefreshRepair.UnaskedDoesNothing | internal/engine/refresh_coordinator.go:647-654 | a timer before its deadline, and a second start, change nothing |
| RefreshRepair.DropsOnlyOwn | internal/engine/refresh_coordinator.go:351-429 | a stream that leaves scope or needs a full refresh while down takes its own queued rebuild away and no other work |
| RefreshRepair.TakenAfter | internal/engine/refresh_coordinator.go:555-583 | a batch with a later sequence was taken later |
| RefreshTiming.CadenceMatchesMode | internal/engine/refresh_coordinator.go:692-715 | the periodic deadline is the clock at the last label that scheduled it plus what the jitter returned for the healthy interval if both streams are healthy, and for the fallback interval otherwise; the mode has not changed since |
| RefreshTiming.CadenceStep | internal/engine/refresh_coordinator.go:256-715 | a start, a changed stream, a success and the periodic refresh itself schedule the next one for the mode they leave behind; every other step keeps schedule and mode |
| RefreshTiming.StartedIsScheduled | internal/engine/refresh_coordinator.go:256-283 | a started coordinator always has a periodic refresh scheduled, and runs exactly until its worker has left |
| RefreshTiming.StoppedIsFinal | internal/engine/refresh_coordinator.go:287-309 | after a stop no call ever changes anything again |
| RefreshTiming.AttemptsAreSerial | internal/engine/refresh_coordinator.go:555-565 | two attempts never overlap |
| RefreshTiming.NoAttemptWhilePaused | internal/engine/refresh_coordinator.go:329-346 | after a pause no attempt starts until an unpause |
| RefreshTiming.FailuresAreCounted | internal/engine/refresh_coordinator.go:585-625 | the counter is the number of failures since the last success |
| RefreshTiming.RetryFloor | internal/engine/refresh_coordinator.go:585-612 | after the n-th failure in a row the next attempt waits for the n-th backoff delay and for the server's Retry-After (section 10.2.3 of RFC 9110), whatever the jitter returns |
| RefreshTiming.RetryIsExact | internal/engine/refresh_coordinator.go:599-611 | the wait after the n-th failure in a row is exactly the longest of the n-th backoff delay, Retry-After and jitter |
| RefreshTiming.SuccessClearsRetry | internal/engine/refresh_coordinator.go:613-616 | with no failure since the last success nothing is held back for a retry |
| RefreshTiming.BatchIsLabelled | internal/engine/refresh_coordinator.go:566-583 | a batch carries everything pending when it was taken, its time, and one more than the failures in a row as its attempt |
| RefreshTiming.WindowOf | internal/engine/refresh_coordinator.go:656-675 | an open quiet window was opened by one event and is capped from there |
| RefreshTiming.DebounceIsBounded | internal/engine/refresh_coordinator.go:656-675 | once the clock passes the first deferred event plus the cap, only pause, flight or retry delay hold an attempt back |
| RefreshTiming.QuietIsKept | internal/engine/refresh_coordinator.go:656-675 | no attempt starts before the last event plus the quiet time, or the first plus the cap, whichever is earlier |
| RefreshWake.SystemInvAlways | internal/engine/refresh_coordinator.go:511-553 | the invariant of worker, wake token and owed signals holds in every run |
| RefreshWake.NoLostWakeUp | internal/engine/refresh_coordinator.go:511-553 | a sleeping worker has a token, is owed a signal, or wakes in time for pending and periodic work |
| RefreshWake.DeadlineLiesAhead | internal/engine/refresh_coordinator.go:627-645 | with nothing to take and nothing due, the next deadline lies ahead, so the worker does not spin; without a schedule it is one interval of the current mode away |
| RefreshWake.DueWorkIsPickedUp | internal/engine/refresh_coordinator.go:511-583 | due work is put in flight by the next two worker steps |
| Decimal.NormalizedDecimalPosition | internal/dwn/subscribe.go:94-108 | rejects non-digits, otherwise cuts leading zeros |
| Decimal.CompareIsNumeric | internal/dwn/subscribe.go:70-92 | the string comparison has the sign of the numeric difference, for any length and leading zeros |
| Decimal.ComparePreorder | internal/dwn/subscribe.go:70-92 | it is a total preorder |
| Subscription.ReplaceOnlyAdvances | internal/dwn/subscribe.go:53-68 | a cursor is replaced exactly by a later position of the same stream and epoch |
| Subscription.HandedMeans | internal/dwn/subscribe.go:668-748 | a message is handed over exactly when it is well formed, kind by kind, and progresses |
| Subscription.FrameEnds | internal/dwn/subscribe.go:668-716 | which frames end a connection in a gap, which for good, and which do not, both directions |
| Subscription.CursorIsLastAccepted | internal/dwn/subscribe.go:668-774 | the stored cursor is the position of the last message since the last clear whose handler succeeded |
| Subscription.HandedAfterAccepted | internal/dwn/subscribe.go:668-774 | what is handed over after an accepted message is of the same log and beyond it; only an end marker may repeat |
| Subscription.RedeliveryGoesBack | internal/dwn/subscribe.go:668-716 | handed positions alone can decrease after a handler failure |
| Subscription.FailedIsHandedAgain | internal/dwn/subscribe.go:688-716 | after a failed handler the same token may be handed over again as an event, out of order, unless it only repeated the cursor |
| Subscription.OrderIff | internal/dwn/subscribe.go:668-774 | every possible continuation hands over in order after a message if and only if its handler succeeded or it only repeated the cursor |
| SubscriptionObject.LiveSubscription.HandleMessage | internal/dwn/subscribe.go:668-716 | whatever the handler does to the message, the cursor is the one that arrived, and fault and hand-over are those of the specification |
| SubscriptionObject.LiveSubscription.RememberCursor | internal/dwn/subscribe.go:750-756 | the stored token is a private copy and only advances |
| SubscriptionObject.LiveSubscription.ClearCursor | internal/dwn/subscribe.go:390-394 | the cursor is gone |
| SubscriptionObject.LiveSubscription.ValidateMessage | internal/dwn/subscribe.go:727-748 | accepts exactly the well-formed messages |
| SubscriptionObject.LiveSubscription.ValidateProgression | internal/dwn/subscribe.go:758-774 | accepts exactly the messages that progress |
| Reconnect.GapForgetsCursor | internal/dwn/subscribe.go:427-484 | when a gap is seen, both directions, and that its cursor is gone when it is reported |
| Reconnect.ReportedWhen | internal/dwn/subscribe.go:427-484 | what is reported to the watcher and when, both directions: live on establishment, down for a gap, and down for every other end, terminal ones included |
| Reconnect.HandshakeOutcome | internal/dwn/subscribe.go:558-666 | which replies establish the subscription, which end it for good, which are a gap, and which leave it waiting, both directions |
| Reconnect.LoopGoesOn | internal/dwn/subscribe.go:427-484 | an attempt resumes from the cursor, a plain failure and a reported gap lead to another, and only a gap takes the cursor away |
| Reconnect.TerminalIsFinal | internal/dwn/subscribe.go:445-452 | after a terminal error or a cancellation no event ever leads to another attempt |
| Reconnect.DownNeedsRefresh | internal/engine/refresh_coordinator.go:390-455 | a stream that was down and unrepaired is healthy only after a live report and a refresh taken after that report |
| Reconnect.GapNeedsRefresh | internal/engine/refresh_coordinator.go:390-429 | so it is after a gap report |
| Reconnect.ReplayedCursorHidesGap | internal/dwn/subscribe.go:558-616 | a handshake that stored a replayed cursor and died makes the next one claim no refresh is needed |
| GapRecovery.RecordedAlways | internal/engine/subscribe.go:153-193 | whichever coordinator is attached is at the end of a run of its own, whose labels are ordered like the events |
| GapRecovery.LiveIsEarnedAlways | internal/engine/subscribe.go:184-193 | after a gap the watcher holds or relays that the stream is live only after a re-establishment |
| GapRecovery.FacesAlways | internal/engine/subscribe.go:153-299 | from a gap on, a coordinator that was attached then is owed the gap report or has had it |
| GapRecovery.LiveHasSubscription | internal/engine/subscribe.go:232-269 | in every run, a stream the watcher shows as live has a subscription that streams, or has broken and not yet said so, or was cancelled |
| GapRecovery.ShownLiveHasSubscription | internal/engine/subscribe.go:153-193 | and so has one that a running coordinator shows as live between operations |
| GapRecovery.ChangeNeedsRefresh | internal/engine/subscribe.go:198-230 | a stream that changed is healthy only after a refresh taken after the change succeeded, while the same coordinator stays attached |
| GapRecovery.EndIsNotified | internal/engine/subscribe.go:256-269 | the end of a subscription queues its stream's own rebuild |
| GapRecovery.GapRecovery | internal/dwn/subscribe.go:427-484 | end to end, for whichever coordinator is attached: after a gap, through any number of reconnects and replacements, the stream is healthy only after a refresh taken after re-establishment succeeded, unless a coordinator attached since rests on a refresh it took before the watcher first reported on the stream |
| GapRecovery.CleanAttachRecovers | internal/engine/subscribe.go:153-166 | no exception for a coordinator that shows the stream neither as live nor as repaired when it is attached |
| GapRecovery.GapRecoveryWithNew | internal/engine/engine.go:497 | no exception for a coordinator that is attached new, as the engine does |
| GapException.AttachDecides | internal/engine/subscribe.go:153-166 | attached after a gap, while the stream is in scope and down: every continuation recovers if and only if the coordinator shows the stream neither as live nor as repaired |
| GapException.RepairedAttachFails | internal/engine/subscribe.go:153-193 | from any late attachment of a coordinator that shows the stream as covered and repaired, a continuation without any refresh that ends healthy |
| GapException.LiveAttachFails | internal/engine/subscribe.go:153-193 | from any late attachment of one that shows it as live, a continuation that ends healthy with no refresh after re-establishment |
| GapException.ExceptionHappens | internal/engine/subscribe.go:153-166 | after these events, a gap and a late attachment, the stream is healthy with no refresh taken since |
| Watcher.WatcherMirror | internal/engine/subscribe.go:153-193 | between operations the attached coordinator shows exactly the watcher's flags, over all interleavings |
| Watcher.DetachLasts | internal/engine/subscribe.go:153-166 | a detached watcher stays detached until a coordinator is set again |
| Watcher.ReplayShows | internal/engine/subscribe.go:153-166 | replaying the flags brings a coordinator in any state to them |
| Watcher.ReplayForcesRepair | internal/engine/subscribe.go:153-166 | a live stream replayed into a new coordinator is repaired only by a refresh taken afterwards |
| Watcher.ReplacementTrust | internal/engine/subscribe.go:153-166 | a replayed stream keeps an old repair if and only if it is down and its coverage did not change |
| Watcher.ResumeTrusts | internal/engine/refresh_coordinator.go:390-429 | a covered stream that resumes without a full refresh is healthy at once if and only if it was still shown as repaired |
| Watcher.StaleReplacementSkipsRepair | internal/engine/subscribe.go:153-166 | a run of a coordinator that repairs a stream, is replayed the stream as down and shows it as healthy when it resumes, with no refresh taken since |
| WatcherObject.SubscriptionWatcher.SetRefreshCoordinator | internal/engine/subscribe.go:153-166 | attaching a coordinator mirrors the flags and puts every live stream out of reach of earlier batches |
| WatcherObject.SubscriptionWatcher.SetStreamLive | internal/engine/subscribe.go:184-193 | flag and coordinator change together |
| WatcherObject.SubscriptionWatcher.InitializeStreamCoverage | internal/engine/subscribe.go:271-284 | both streams start down with the given coverage, in watcher and coordinator |
| WatcherObject.SubscriptionWatcher.ClearStreamCoverage | internal/engine/subscribe.go:286-299 | both streams leave scope, in watcher and coordinator |
| WatcherObject.SubscriptionWatcher.HandleLifecycle | internal/engine/subscribe.go:232-269 | what every lifecycle event does to flags and coordinator |
| WatcherObject.SubscriptionWatcher.HandleMessage | internal/engine/subscribe.go:198-230 | a change invalidates its stream under that stream's own reason; nothing else changes |
| SingleFlight.OneLoaderPerKey | internal/control/audiencekeycache.go:37-102 | at most one loader per key is ever in flight |
| SingleFlight.SuccessIsStored | internal/control/audiencekeycache.go:37-102 | every successful caller has exactly the stored, non-empty bytes |
| SingleFlight.WaitersAreServed | internal/control/audiencekeycache.go:49-67 | a waiter's call has ended or somebody is still loading for it |
| SingleFlight.StoredOnce | internal/control/audiencekeycache.go:77-101 | a stored key never changes |
| SingleFlight.StoredWasLoaded | internal/control/audiencekeycache.go:77-101 | what is stored came from one successful, non-empty load of that key |
| SingleFlight.LeaderCannotCancelWaiter | internal/control/audiencekeycache.go:49-67 | a live caller returns a cancellation only if its own load did |
| SingleFlight.FailureHasCause | internal/control/audiencekeycache.go:49-101 | in every run, a caller that fails with an error had its own context end with it, or some load of its key ended with it: its own, or the very call it waited for |
| SingleFlight.WaiterOutcome | internal/control/audiencekeycache.go:49-67 | a waiter returns its leader's error, and enters again exactly after a success or a cancellation while its own context lives |
| SingleFlight.EnterOutcome | internal/control/audiencekeycache.go:42-75 | a caller gets the stored key, joins the load of its key, or becomes the loader |
| AudienceKeyCache.Cache.Enter | internal/control/audiencekeycache.go:42-75 | hit, join or lead; a hit is a fresh copy |
| AudienceKeyCache.Cache.Publish | internal/control/audiencekeycache.go:77-101 | cache and caller get copies of their own, the loaded buffer is zeroed, a failure stores nothing |
| AudienceKeyCache.Cache.Release | internal/control/dwnclient.go:1719-1730 | zeroing a returned copy leaves the cache intact |
| LoadState.Client.LoadState | internal/control/dwnclient.go:337-645 | on any error the five fields hold exactly what they held; on success members and nodes show exactly the last entries of the replies and every node record is new and has the children of its own record; it succeeds if and only if the replies to the queries it made are undisturbed, but for the end of the context in the last endpoint reply, and list this node in force; no earlier record is touched |
| LoadState.Client.HandOutAndReload | internal/control/dwnclient.go:908-923 | maps handed out stay as they were, records included, through any number of later loads |
| LoadState.Client.StateSnapshot | internal/control/dwnclient.go:306-316 | new maps with the same contents |
| LoadState.Client.RestoreState | internal/control/dwnclient.go:318-326 | the fields are those of the snapshot |
| LoadState.CloneNodes | internal/control/dwnclient.go:295-304 | a new map with the same records |
| LoadState.CloneMembers | internal/control/dwnclient.go:295-304 | a new map with the same records |
| LoadState.Client.Nodes | internal/control/dwnclient.go:917-923 | hands out a new map |
| LoadState.Client.Members | internal/control/dwnclient.go:908-914 | hands out a new map |
| LoadState.Client.LoadNodeEntry | internal/control/dwnclient.go:675-711 | a new record with the entry's DID, record id and data and the given member, field by field, readable or not |
| LoadState.Client.LoadNodes | internal/control/dwnclient.go:402-415 | takes entries until one is fatal or the context ends; the table is the old one with those entries put in order, and the loop fails exactly when the entry it stops at was unreadable |
| LoadState.Client.LoadMembers | internal/control/dwnclient.go:420-487 | the members shown are exactly the last entries listed, or the old ones when they cannot be queried; exactly when the stage fails |
| LoadState.Client.MemberNodeParentQueries | internal/control/dwnclient.go:652-670 | one query for each member that has a record, under that record id |
| LoadState.Client.LoadMemberNodes | internal/control/dwnclient.go:489-535 | the members' nodes are put in the order of the queries, each with its member; exactly when the stage fails |
| LoadState.Client.LoadRelays | internal/control/dwnclient.go:539-573 | exactly the readable relays, in order, and exactly when the stage fails |
| LoadState.Client.LoadAcl | internal/control/dwnclient.go:575-618 | a readable first entry is the policy afterwards, otherwise the old one is; exactly when the stage fails |
| LoadState.Client.NodeChildRecordQueries | internal/control/dwnclient.go:718-748 | one query for each node that has a record, in the context its write assigned |
| LoadState.Client.LoadNodeInfos | internal/control/dwnclient.go:752-842 | each node gets the last readable info of its own record over the entries taken, and exactly when the stage fails |
| LoadState.Client.LoadEndpoints | internal/control/dwnclient.go:846-896 | each node gets the readable endpoints of its own record over the entries taken, in order, and exactly when the stage fails |
| LoadReplies.LastNodeShows | internal/control/dwnclient.go:675-711 | a listed DID shows the did, record id, member and data of its last entry, any other what it showed before |
| LoadReplies.LastUnderShows | internal/control/dwnclient.go:489-535 | a DID listed under members has the DID, record id and data of the last entry of the last reply that lists it, and the member whose reply that was; any other what it showed before |
| LoadReplies.LastMemberShows | internal/control/dwnclient.go:447-487 | a listed member has the DID, record id and data of its last entry, any other what it showed before |
| LoadReplies.MemberNodeAsked | internal/control/dwnclient.go:718-748 | a member's node is asked about in the context of the path network, member, node |
| LoadReplies.LastInfoShows | internal/control/dwnclient.go:825-842 | a record with a readable child shows the last one, any other what it showed before |
| LoadReplies.ReadableIs | internal/control/dwnclient.go:539-573 | the relays are every readable entry, in order, and nothing else |
| LoadReplies.NewestIs | internal/control/dwnclient.go:604-618 | a readable newest policy is the policy afterwards; an unreadable or missing one changes nothing |
| LoadReplies.QuietMeans | internal/control/dwnclient.go:39-44 | a reply disturbs nothing exactly when it does not end the context and nothing in it fails hard |
| LoadReplies.GatheredIsAvailable | internal/control/dwnclient.go:752-821 | a stage that gets through gathers every readable child of a record, but for what its last reply dropped |
| LoadReplies.InformedIsLatest | internal/control/dwnclient.go:825-842 | the info kept is the last readable one of the record |
| LoadReplies.ChildStages | internal/control/dwnclient.go:620-628 | both child stages get through exactly when the first is undisturbed and the second loses the context at most in its last reply |
| LoadReplies.StagesCommit | internal/control/dwnclient.go:337-645 | stage by stage, what a load meets is what a committed load has met, both directions |
| LoadReplies.DroppedIff | internal/control/dwnclient.go:39-44 | a reply that raises no error has entries dropped if and only if the context ends before its last entry |
| LoadReplies.CommittedDropsIff | internal/control/dwnclient.go:337-645 | a committed load has dropped entries if and only if its context ended in the last endpoint reply before the last entry; nothing else is ever dropped |
| LoadState.CommittedLoadDrops | internal/control/dwnclient.go:626-645 | a load that commits with one of two readable endpoints |
| AclFilter.BuildFilterRules | internal/control/dwnclient.go:1282-1351 | the filter admits a packet exactly when the policy does; with no compiled rule it is allow-all exactly when the default action is accept |
| AclFilter.CompileRule | internal/control/dwnclient.go:1307-1341 | an accept rule compiles exactly when both sides resolve, and admits exactly what it means |
| AclFilter.ResolveMatchers | internal/control/dwnclient.go:1378-1403 | the patterns denoted by groups, DIDs and wildcards; unresolvable matchers denote nothing |
| AclFilter.ResolvedCovers | internal/control/dwnclient.go:1378-1403 | the resolved list covers an address exactly when some matcher does |
| AclFilter.ParsePort | internal/control/dwnclient.go:1441-1456 | accepts exactly the decimal ports up to 65535 |
| AclFilter.ParsePortRange | internal/control/dwnclient.go:1420-1438 | accepts exactly ports and ordered ranges |
| AclFilter.ParsePortRanges | internal/control/dwnclient.go:1407-1416 | exactly the ranges that parse |
| AclFilter.RangesAdmit | internal/control/dwnclient.go:1319-1323 | parsed ranges, or all ports when none parses, admit exactly the ports meant |
| AclFilter.Product | internal/control/dwnclient.go:1328-1340 | every destination with every range |
| PeerMenu.UniquePeerMenuKey | cmd/meshd-tray/peer_menu.go:95-105 | the search for a free key ends, with the first free duplicate |
| PeerMenu.SearchIsBounded | cmd/meshd-tray/peer_menu.go:95-105 | only as many duplicates can be taken as there are keys |
| PeerMenu.KeyPeers | cmd/meshd-tray/peer_menu.go:51-61 | one distinct key for each peer |
| PeerMenu.KeepSlots | cmd/meshd-tray/peer_menu.go:63-71 | a surviving key keeps its slot |
| PeerMenu.FreeSlotExists | cmd/meshd-tray/peer_menu.go:73-86 | the free-slot search never runs off the end |
| PeerMenu.PlanPeerMenu | cmd/meshd-tray/peer_menu.go:34-93 | the whole plan: slots, visibility, placeholder and overflow |
| PeerMenu.KeysStayDistinct | cmd/meshd-tray/peer_menu.go:34-93 | visible keys stay distinct over any sequence of refreshes |
| PeerMenu.MenuOverTime | cmd/meshd-tray/peer_menu.go:34-93 | over any sequence of refreshes: constant pool, distinct keys, exactly min(peers, slots) visible, one slot for each peer, survivors stay put |
| Routers.DiffPrefixes | internal/engine/router_darwin.go:193-206 | the set difference, as long as its input exactly when nothing is shared |
| Routers.DarwinRouter.SyncAddrsAndRoutes | internal/engine/router_darwin.go:104-165 | one call is one step of the relation over a kernel that may refuse any command; it succeeds exactly when nothing is refused |
| Routers.DarwinRouter.Cleanup | internal/engine/router_darwin.go:73-102 | everything tracked is deleted, and the lists are emptied exactly when nothing is refused |
| RouterModel.DarwinRetryConverges | internal/engine/router_darwin.go:104-165 | after any number of failed calls toward one target, the first successful one leaves exactly the wanted addresses, and exactly the wanted routes if and only if no deleted route shares its network with a kept one |
| RouterModel.SharedNetworkLosesRoute | internal/engine/router_darwin.go:138-158 | two routes of one network: dropping one removes the other |
| RouterModel.ChangedTargetLeavesStray | internal/engine/router_darwin.go:160-164 | a failed call toward another target leaves its address behind |
| RouterModel.ChangedTarget | internal/engine/router_darwin.go:104-165 | after a failed call toward another target: exactly when the wanted addresses are installed and nothing else, and, while a tracked address stays, exactly when the wanted routes are |
| RouterModel.ChangedTargetUnanchored | internal/engine/router_darwin.go:104-165 | when no tracked address is sure to stay: the wanted routes are installed and nothing else, whatever the kernel drops on the way, if and only if whatever is left is wanted and every wanted network is added |
| Routers.LinuxRouter.SyncAddrs | internal/engine/router_linux.go:94-132 | one address phase: failing deletes are forgotten, a failing add ends it with the list unchanged |
| Routers.LinuxRouter.SyncRoutes | internal/engine/router_linux.go:135-172 | one route phase, likewise |
| Routers.LinuxRouter.Set | internal/engine/router_linux.go:50-67 | the address phase and, if it succeeds, the route phase; succeeds with nothing forgotten when nothing is refused |
| Routers.LinuxRouter.Cleanup | internal/engine/router_linux.go:81-91 | the lists are emptied whatever the kernel refuses |
| RouterModel.LinuxRetryConverges | internal/engine/router_linux.go:94-172 | after any number of failed calls, exactly when the first successful call leaves exactly the wanted addresses and routes |
| RouterModel.OnlyReplacementPurges | internal/engine/router_linux.go:94-132 | routes can be lost only while every address is replaced |
| RouterModel.StaleAddressSurvives | internal/engine/router_linux.go:102-131 | no delete fails in the successful call and yet a stale address stays |
| RouterModel.ReplacedAddressLosesRoute | internal/engine/router_linux.go:50-67 | every command succeeds and yet a kept route is gone |
| Grants.ValidateGrants | internal/enboxconnect/grants.go:115-153 | accepts exactly the answers whose every grant is for the delegate and requested or a named revocation |
| Grants.IsRequestedScope | internal/enboxconnect/grants.go:173-199 | some requested scope contains the granted one |
| Grants.RevokedIds | internal/enboxconnect/grants.go:121-124 | each revocation grant maps to the grant it last names |
| Grants.RevokedIsLast | internal/enboxconnect/grants.go:121-124 | the entry that counts is the last one with that id, and there is one exactly when the id is listed |
| Grants.FindPermissionGrantID | internal/dwn/permission_grants.go:119-140 | the first matching grant in list order that is plain, or delegated where that is allowed; it spells the message type; none only if every match is delegated and not allowed |
| Grants.FindDelegatedGrant | internal/dwn/permission_grants.go:151-176 | the first matching delegated grant in list order; it spells the message type; none only if no match is delegated |
| Grants.TypesSpell | internal/dwn/permission_grants.go:208-223 | a scope is good for a message type if and only if its interface and method spell it; a query counts as a read |
| Grants.MatchesMeans | internal/dwn/permission_grants.go:178-236 | a grant matches if and only if it parses, is from and for whom it must be, is not over, spells the message type and is not bound to another target |
| Grants.PreferenceIsUniform | internal/dwn/permission_grants.go:132-138 | all matching grants spell the message type or none does |
| Grants.EncodeDemands | internal/enboxconnect/grants.go:203-219 | a requested scope demands its interface, its method and its non-empty targets, and nothing else |
| Grants.SubsetNarrows | internal/enboxconnect/grants.go:186-199 | a granted scope that passes constrains whatever the requested one does |
| Grants.ReadersAgree | internal/dwn/permission_grants.go:90-97 | validation and selection read one value for a field, whatever the values, if and only if the last key taken for it is spelled exactly |
| Grants.GrantScopeSoundness | internal/enboxconnect/grants.go:115-199 | whatever an accepted grant with exactly spelled fields can be selected for was requested, or revokes the named session, and the grant is for the delegate |
| Grants.SpellingDecides | internal/dwn/permission_grants.go:90-97 | every accepted grant with given keys is sound, whatever its values and whatever was requested, if and only if each field present under its exact name has no other spelling after it |
| Grants.UnsafeSpelling | internal/dwn/permission_grants.go:90-97 | for any other key list, values, a request and an operation for which an accepted grant is selected without warrant |
| Grants.MisspelledFieldWidens | internal/dwn/permission_grants.go:90-97 | a second, capitalised protocol key is such a key list |
| ContextIds.UpdateKeeps | internal/dwn/record.go:314-341 | an update keeps the identifiers if and only if the record is a root or its id has no slash |
| ContextIds.UpdatesKeepIdentity | internal/dwn/message.go:343-391 | at every depth, any chain of updates keeps context and parent id, and the parent id names the record above |
| ContextIds.SlashMovesRecord | internal/dwn/record.go:314-322 | an id with a slash moves its record |
| ContextIds.ContextIdentifies | internal/dwn/message.go:382-391 | a path is recovered from its context id |
| ContextIds.QueriesMatchRecords | internal/control/dwnclient.go:718-739 | the contexts queried are the context ids the writes assigned, and they tell node records apart |

## Left out

- Cryptography, JSON and base64 decoding, HTTP and WebSocket transport: decrypting and parsing are inputs that may fail.
- Logging, counters and the endpoint-failure map: they are not part of the state the load rolls back.
- Coordinator: the health view and its sorted reason lists, which only present the state; Stop waiting for the worker to end.
- Coordinator: sequence numbers and times are unbounded; the backoff loop is the one place where the bound is proved.
- Coordinator: reasons are the named ones or any other string, not strings throughout.
- Coordinator: clock readings and random draws are parameters of each step.
- Subscription: the delays between reconnects and the manager's list of subscriptions.
- Watcher: opening and closing the subscriptions in Start and Stop.
- Single flight: locks and channels are atomic steps; fairness of scheduling.
- Load: which node a child record goes to when two nodes share a record id; the queries are asked in some order, not in the sorted one.
- Load: building the network map beyond the check that this node is in it and its membership is not over.
- Load: the counters of entries, and reloading of nil maps (maps exist from construction on).
- LoadState.Client.LoadState: which error text is returned.
- Filter: the lookup from DID to mesh address is a parameter; source ports, which the compiler ignores.
- Routers: bringing the interface up and down, the split of tunnel and local routes, argument strings. The text of kernel errors is reduced to done, nothing to do, and refused.
- Grants: one scope object in a grant, capitalisation of ASCII letters only, and signature checks.
- Contexts: content identifiers are given strings; the fallback of Update that copies the old identifiers unchanged.
- Command line, tray rendering, dashboard, daemon socket, file locks and mesh address allocation.
