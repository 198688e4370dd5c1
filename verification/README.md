# Verified model of the support backend's concurrent core

This project models the in-memory state machines and the one database-backed protocol of a
customer-support backend (Rust) and its small browser client (TypeScript), and proves what they
guarantee in every run.

Where the source changes state under a lock, the model has a class with the same fields and a method
per lock-protected section, each proved against a function on values. Beside it stands a transition
system, built from the same functions or, for loops that give up the lock between their steps, from
single steps that are proved to add up to the loop. A run is any sequence of actions, and an action
that is not possible in a state leaves it as it is, so the theorems about all runs are theorems about
every interleaving. Histories that the program does not keep (what was issued, attempted, evicted,
announced) are fields of the transition system only.

| file | models |
|---|---|
| `DeliveryLane.dfy`, `LaneInvariant.dfy` | one of the broadcaster's queues, with everything that can happen to an event, and what every step keeps |
| `Broadcaster.dfy` | both queues, drain flags, retries, any number of enqueuers and processors |
| `BroadcasterBound.dfy` | the drain loop and the single steps agree; the size bound of the normal queue is reached |
| `BroadcasterProgress.dfy` | after how many drains of its queue an event is settled |
| `Fanout.dfy`, `FanoutPasses.dfy` | publish, fetch, deliver, acknowledge, clean up, over any number of instances; whole passes and how they drain a backlog |
| `Hub.dfy` | connection registry, ceilings, presence, fan-out, two-phase removal |
| `HubSnapshots.dfy` | hubs of several processes that save and restore user state |
| `RoomHistory.dfy` | room modes, bounded history, reconnection sync |
| `SlidingWindow.dfy`, `RateLimiter.dfy`, `FrameLimiter.dfy` | the two sliding-window limiters against one that remembers everything |
| `RateLimiterClock.dfy` | the rate limiter with clock readings in any order |
| `LeaseLock.dfy` | keyed leases with expiry, takeover and release by token |
| `PgParams.dfy`, `SqlBinds.dfy` | placeholder renumbering, and the statements whose binds must line up with it |
| `Installer.dfy` | the provisioning pipeline racing with cancellation |
| `Collaboration.dfy` | viewers, typing, statistics, cleanup |
| `CustomerChannels.dfy` | customer-side channels: presence notices and pruning |
| `ApiClient.dfy`, `MessageDedup.dfy` | the browser's HTTP client and its memory of message ids |
| `Wrappers.dfy` | optional values and a few facts on sequences and sets |

Properties one might expect that the code does not have. For each there is a run in which it fails
and the exact condition under which it does:

- The comment at `backend/src/realtime/broadcaster.rs:111-112` speaks of eviction past the cap of
  10 000. `finish_drain` puts retries back without it. The cap is exceeded exactly when a drain of the
  normal queue ends with more to put back than there is room for; the queue can reach four times the
  cap, and no more.
- A cancelled deployment can still end as failed or as completed, and one more step can be recorded:
  exactly if a request that fails was in flight, the last check was passed, or the write was decided.
- A cancel request by project name can answer "no active deployment" while a deployment of that
  project runs. It is sure to succeed exactly if the project has runs and all of them are running.
- `pg_params` is faithful exactly if no `?` is directly followed by a digit and every `$` is. It is
  idempotent exactly if no `?` is directly followed by a digit.
- Starting or stopping to type enters a viewer without regard to the room's capacity. A step takes a
  room above it exactly if somebody who is not in the full room types.
- The online flag can be set without a connection: exactly if a heartbeat came while the user had none
  and none was accepted since.
- A customer channel can stay in the table without connections, and a user can be taken for present
  without one: exactly if a broadcast pruned all connections of the channel, or the user's last one.
  A send fails only when a connection's receiver is gone, and `run_customer_socket` keeps it until after
  the disconnect (`backend/src/realtime/customer.rs:297-330`); so this takes a socket whose work was
  dropped or has panicked. As long as none is, neither happens.
- A rate-limit check reads the clock before it takes the lock, so readings can be served out of order.
  The limiter allows a request exactly if the recent admitted ones, less those that an intervening later
  reading has made it forget, are fewer than the maximum; three requests within one window can pass a
  maximum of two. With readings at most `d` out of order, every interval shorter than the window by `d`
  keeps to the maximum; and if no admission overlooks more than `f` requests, no window exceeds it by
  more than `f`.
- Reconnection sync compares timestamps strictly, as texts of milliseconds, and callers take them before
  the lock. A message that shares its timestamp with the last one a client has seen is never synced to
  it. A client gets exactly what it has not seen if and only if that is at most fifty messages, all newer
  than `since`, and nothing kept that it has seen is newer.

## Model

| member | source | states |
|---|---|---|
| Broadcaster.BroadcastQueue.InsertOne | backend/src/realtime/broadcaster.rs:94-122 | one submission: priority from the options, else from the event, else normal; urgent ones to the high queue, others to the normal queue with overflow evicted from the front |
| Broadcaster.BroadcastQueue.EnqueueBatch | backend/src/realtime/broadcaster.rs:89-124 | a bulk insert has the effect of its submissions in order and returns the depth of the normal queue |
| Broadcaster.AdmittedAsAsked | backend/src/realtime/broadcaster.rs:94-122 | in every state a submission is entered once under the priority it asks for (the options', the event's only if the options have none, else normal), at the back of the high queue exactly if that is high or urgent |
| Broadcaster.EntriesAreAsked | backend/src/realtime/broadcaster.rs:89-124 | entry i of a batch has the priority submission i asks for; the entries of the high queue are exactly those that ask for high or urgent, in order |
| Broadcaster.IssuedAsAsked | backend/src/realtime/broadcaster.rs:89-124 | in every run what was ever put in a queue are exactly the submissions that ask for a priority of that queue, numbered by their place among all |
| Broadcaster.TallyIsTotal | backend/src/realtime/broadcaster.rs:511-533 | processed, delivered and missed are the delivered events and the sums of the reached and of the missed targets |
| Broadcaster.BroadcastQueue.TakeBatch | backend/src/realtime/broadcaster.rs:128-145 | takes the whole queue and sets its drain flag, or takes nothing if the flag was set |
| Broadcaster.BroadcastQueue.FinishDrain | backend/src/realtime/broadcaster.rs:147-161 | appends the requeued events behind what was enqueued meanwhile, without applying the cap, and clears the flag |
| Broadcaster.BroadcastQueue.RecordProcessed | backend/src/realtime/broadcaster.rs:163-170 | adds the tallies of a drain to the counters |
| Broadcaster.BroadcastQueue.ProcessQueue | backend/src/realtime/broadcaster.rs:502-539 | an undisturbed drain leaves exactly the requeued events, and the counters grow by the tallies and the given-up events |
| Broadcaster.DeliverBatch | backend/src/realtime/broadcaster.rs:506-533 | the delivery loop: what it requeues, processes, delivers and fails, as functions of the batch and the outcomes |
| Broadcaster.BatchKeepsNewest | backend/src/realtime/broadcaster.rs:89-124 | after a bulk insert the normal queue is the newest part of old and new entries together; only the oldest were evicted, and exactly those were counted |
| Broadcaster.DrainPartitionsBatch | backend/src/realtime/broadcaster.rs:511-533 | every event of a batch is delivered, requeued or given up, and in exactly one of these as often as it was in the batch; the counters give the sizes |
| Broadcaster.QuietQueueEmpties | backend/src/realtime/broadcaster.rs:502-539 | whatever fails, a queue nobody adds to is empty after 1 + MAX_RETRIES drains |
| Broadcaster.InsertAllIsAdmitAll | backend/src/realtime/broadcaster.rs:89-124 | the system's enqueue step does to the queues what the class method does |
| Broadcaster.RunIsSound | backend/src/realtime/broadcaster.rs:89-161 | every run keeps both queues' histories, exclusion and bookkeeping consistent |
| Broadcaster.DrainsExcludeEachOther | backend/src/realtime/broadcaster.rs:128-161 | in every interleaving at most one processor works on a queue, and the drain flag is set exactly while one does |
| Broadcaster.FirstAttemptsInEnqueueOrder | backend/src/realtime/broadcaster.rs:502-539 | in every interleaving, before an event's attempt every event enqueued earlier into that queue was attempted or was evicted untried |
| Broadcaster.NormalQueueStaysBounded | backend/src/realtime/broadcaster.rs:111-161 | the normal queue never holds more than (1 + MAX_RETRIES) * NORMAL_QUEUE_CAP events |
| Broadcaster.CapIsExceededIff | backend/src/realtime/broadcaster.rs:109-161 | from within the cap, a step takes the normal queue above it exactly if it ends a drain of that queue with more to put back than there is room for |
| Broadcaster.NormalEnqueueRestoresCap | backend/src/realtime/broadcaster.rs:89-124 | right after a batch that has any submission to the normal queue it holds at most NORMAL_QUEUE_CAP events |
| Broadcaster.EventsAreConserved | backend/src/realtime/broadcaster.rs:89-161 | total_events is the sum of queued, in flight, evicted, completed and abandoned events, and each issued event is in exactly one of these places |
| Broadcaster.AttemptsAreBounded | backend/src/realtime/broadcaster.rs:518-527 | at most 1 + MAX_RETRIES attempts per event, at most one for low priority |
| Broadcaster.GivingUpIsEarned | backend/src/realtime/broadcaster.rs:518-527 | an abandoned event had all attempts it is entitled to |
| Broadcaster.RetriesReturnToTheirQueue | backend/src/realtime/broadcaster.rs:147-161 | urgent events are only ever in the high queue or its drain, all others only in the normal one |
| LaneInvariant.StepKeepsValid | backend/src/realtime/broadcaster.rs:89-161 | every step on one queue keeps order, conservation, attempt accounts and class bounds |
| LaneInvariant.ValidQueueIsBounded | backend/src/realtime/broadcaster.rs:111-161 | bounding each retry class by the cap bounds the queue |
| LaneInvariant.ValidFirstAttemptOrder | backend/src/realtime/broadcaster.rs:89-161 | the order of first attempts, for one queue |
| LaneInvariant.ValidAttemptCount | backend/src/realtime/broadcaster.rs:518-527 | where an event is decides how often it was attempted |
| BroadcasterBound.DeliveriesMatchLoop | backend/src/realtime/broadcaster.rs:511-533 | a processor's single steps, done in a row, arrive where the delivery loop does |
| BroadcasterProgress.EventsSettle | backend/src/realtime/broadcaster.rs:89-161 | in every interleaving: once a queue has seen 1 + MAX_RETRIES drains started and ended (one for low priority) since an event was there, the event was delivered, given up or evicted, exactly one of these once, whatever was enqueued meanwhile; the high queue evicts nothing |
| BroadcasterProgress.DrainsUseUpAttempts | backend/src/realtime/broadcaster.rs:502-539 | what is left of an event after n such drains has been attempted at least n times |
| BroadcasterProgress.MaxRetriesDrainsAreTooFew | backend/src/realtime/broadcaster.rs:518-527 | a run in which MAX_RETRIES drains leave an event in the queue |
| BroadcasterBound.NormalQueueBoundIsReached | backend/src/realtime/broadcaster.rs:147-161 | there is a run in which the normal queue holds exactly (1 + MAX_RETRIES) * NORMAL_QUEUE_CAP events |
| Fanout.FanoutTables.ProcessRemoteEvents | backend/src/realtime/broadcaster.rs:391-449 | tries the rows the query returned in order and acknowledges each after its try; stops after the try whose acknowledgement fails |
| Fanout.TriesOnAt | backend/src/realtime/broadcaster.rs:411-432 | each row of a pass gets one attempt, which delivers exactly if the payload parses and the delivery gets through |
| Fanout.AttemptInRun | backend/src/realtime/broadcaster.rs:411-432 | in every reachable state an attempt adds one try of the next fetched row and touches nothing stored |
| Fanout.FanoutTables.CleanupRemoteEvents | backend/src/realtime/broadcaster.rs:451-460 | removes exactly the events created before the cutoff, with their acknowledgements, and returns how many |
| Fanout.CleanupIsExact | backend/src/realtime/broadcaster.rs:451-460 | in every reachable state a cleanup leaves exactly the events not older than the cutoff, with their rows and their acknowledgements, and the older ones leave every pending set |
| Fanout.StoredAfter | backend/src/realtime/broadcaster.rs:278-302 | an event is stored once published, with its row, until a cleanup comes past its age |
| Fanout.PendingIsExact | backend/src/realtime/broadcaster.rs:395-409 | in every run the pending set of an instance is the stored events of others it never acknowledged |
| Fanout.RunIsSound | backend/src/realtime/customer.rs:195-256 | every run keeps tables, passes, tries and acknowledgements consistent |
| Fanout.NoSelfDelivery | backend/src/realtime/broadcaster.rs:391-449 | no instance ever tries an event of its own, and an unparsable payload is never delivered |
| Fanout.AckImpliesTry | backend/src/realtime/customer.rs:219-245 | every stored acknowledgement was preceded by a try of that instance |
| Fanout.TriesAreCounted | backend/src/realtime/customer.rs:219-245 | an instance tries an event once for its acknowledgement and once for each acknowledgement that failed, plus at most the try under way |
| Fanout.AckedIsNeverFetchedAgain | backend/src/realtime/customer.rs:199-216 | once acknowledged, an event is in no later fetch of that instance, however the run goes on |
| Fanout.EndedPassAckedAll | backend/src/realtime/broadcaster.rs:391-449 | a pass that reaches its end has acknowledged every row it fetched |
| Fanout.LeavingPending | backend/src/realtime/broadcaster.rs:391-460 | a pending event leaves an instance's pending set only by that instance's acknowledgement or by a cleanup past its age |
| Fanout.NeverPendingAgain | backend/src/realtime/broadcaster.rs:391-460 | an event that is not pending for an instance never becomes pending for it again |
| Fanout.OthersDoNotInterfere | backend/src/realtime/broadcaster.rs:391-449 | passes of other instances change neither the pending set nor the pass of an instance |
| Fanout.FetchExists | backend/src/realtime/broadcaster.rs:395-409 | the query for the oldest pending rows always has a result |
| FanoutPasses.PassMatchesLoop | backend/src/realtime/broadcaster.rs:391-449 | for every result of the query and wherever the pass stops, the system's steps of a pass in a row do to acknowledgements and tries what the loop does |
| FanoutPasses.FullPassDrains | backend/src/realtime/broadcaster.rs:391-449 | every pass without failures, whatever the query returned, removes exactly the fetched events from the pending set: the oldest min(limit, pending) |
| FanoutPasses.PassAmongOthers | backend/src/realtime/broadcaster.rs:391-449 | over any interleaving without a cleanup, from a pass's query to its end the pending set loses exactly the fetched events and gains exactly what others published meanwhile |
| FanoutPasses.BacklogDrains | backend/src/realtime/broadcaster.rs:391-496 | in every run, with failures, cleanups and other instances, in which nobody else publishes, n completed passes leave at most the backlog less n * limit, and nothing once n * limit covers it |
| FanoutPasses.CeilingPassesDrain | backend/src/realtime/broadcaster.rs:391-496 | in every such run, ceil(backlog / limit) completed passes leave nothing |
| FanoutPasses.BacklogDrainsExactly | backend/src/realtime/broadcaster.rs:391-496 | without failures and cleanups, n passes have drained exactly min(n * limit, backlog) events |
| FanoutPasses.DrainingRun | backend/src/realtime/broadcaster.rs:391-496 | from every sound state between two passes, any number of passes can follow without a failure |
| Hub.RealtimeHub.Register | backend/src/realtime/hub.rs:289-343 | refuses at the first of the three ceilings and then changes nothing; otherwise adds the connection and announces online exactly for a user's first one |
| Hub.RefusalIsExact | backend/src/realtime/hub.rs:295-323 | which of the three refusals a registration gets, by the connections of the user, of all and of the room |
| Hub.RegistrationIsExact | backend/src/realtime/hub.rs:326-343 | registry, user state with untouched subscriptions, and the online transition of a first connection |
| Hub.UnregistrationIsExact | backend/src/realtime/hub.rs:450-509 | only that connection goes; user state and an offline transition exactly with the user's last one |
| Hub.RealtimeHub.Unregister | backend/src/realtime/hub.rs:450-509 | removes one connection; with the user's last one the user state goes and offline is announced |
| Hub.RealtimeHub.RemoveConnection | backend/src/realtime/hub.rs:515-532 | removes the connection exactly if the earlier check, in a lock section of its own, saw it owned by the caller or the caller is an administrator |
| Hub.RealtimeHub.FanOut | backend/src/realtime/hub.rs:633-654 | every matching open connection gets the frame once, nobody else does; the counters grow by what was delivered and what failed |
| Hub.RealtimeHub.ToConversation | backend/src/realtime/hub.rs:658-679 | the audience is the room's connections and the personal channels of the users that the earlier lookup, in a lock section of its own, saw subscribed |
| Hub.AudienceIsExact | backend/src/realtime/hub.rs:658-679 | the audience is the connections in the room, and those in no room whose user is subscribed; a connection in another room is never in it |
| Hub.RegisterKeepsCeilings | backend/src/realtime/hub.rs:295-323 | an accepted registration respects all three ceilings |
| Hub.RunIsWithinCeilings | backend/src/realtime/hub.rs:289-509 | in every reachable state at most 5 connections per user, 10 000 in all and 100 per room |
| Hub.CeilingsAreReached | backend/src/realtime/hub.rs:20-25 | all three ceilings are reached, so no smaller bound holds |
| Hub.RemovalsAreAuthorised | backend/src/realtime/hub.rs:515-532 | whatever runs between the check and the removal, only the named connection goes, and only if its owner or an administrator asked |
| Hub.RemovalIsGrantedIff | backend/src/realtime/hub.rs:515-532 | checked and finished, a removal takes the connection away exactly if the caller owns it or is an administrator |
| Hub.StepsInRun | backend/src/realtime/hub.rs:450-532 | in every reachable state leaving and a finished removal are the unregistration of the connection, and looking after a user state creates it |
| Hub.SubscriptionsAreExact | backend/src/realtime/hub/user_state.rs:11-99 | in every run a user's subscriptions are exactly the conversations subscribed to below the ceiling, or restored without state, and since then neither unsubscribed nor forgotten with the last connection |
| Hub.PresenceAlternates | backend/src/realtime/hub.rs:326-509 | the transitions announced for a user are online, offline, online, ..., the last being online exactly while the user is connected |
| Hub.ConnectedUsersAreOnline | backend/src/realtime/hub.rs:337-343 | a connected user always has user state, and it is flagged online |
| Hub.FlaggedWithoutConnectionIff | backend/src/realtime/hub/user_state.rs:117-125 | in every run the online flag is set without a connection exactly if a heartbeat came while there was none and none was accepted since |
| Hub.HeartbeatWithoutConnection | backend/src/realtime/hub/user_state.rs:117-125 | such a run |
| HubSnapshots.SubscriptionsStayWithinCeiling | backend/src/realtime/hub/user_state.rs:11-99 | over any number of processes, restarts, and snapshots saved and restored in any order, no user ever has more than fifty subscriptions, in memory or saved |
| RoomHistory.RoomTable.EnsureRoom | backend/src/realtime/hub/room_state.rs:10-24 | creates a missing room with the wanted mode; an existing one keeps its mode |
| RoomHistory.RoomTable.Record | backend/src/realtime/hub.rs:749-761 | appends to a full room's history and keeps the last fifty; a simplified room keeps none |
| RoomHistory.RoomTable.SyncSince | backend/src/realtime/hub.rs:841-864 | returns the kept messages newer than `since`, in order; nothing for an unknown room or without `since` |
| RoomHistory.MissedAreGreater | backend/src/realtime/hub.rs:849-862 | a kept message is in the answer exactly if `since` is given and the message's timestamp continues it or has the greater character at the first difference |
| RoomHistory.BeforeIsByFirstDifference | backend/src/realtime/hub.rs:857 | the comparison of timestamps is that of dictionaries |
| RoomHistory.LastMessageIsLatest | backend/src/realtime/hub.rs:749-753 | in every run a room's last-message time is that of the latest message said in it, simplified or not |
| RoomHistory.HistoryIsLastFifty | backend/src/realtime/hub.rs:743-761 | in every run a full room's history is exactly the last min(n, 50) messages said in it, and the mode is the one of the first action naming the room |
| RoomHistory.ModeIsFixed | backend/src/realtime/hub/room_state.rs:10-24 | a room's mode never changes and the room never goes away |
| RoomHistory.SyncIsComplete | backend/src/realtime/hub.rs:841-864 | sync returns all newer messages exactly if no message dropped from the history is newer |
| RoomHistory.SyncCompleteForFifty | backend/src/realtime/hub.rs:743-864 | with timestamps that never go back: exactly if at most fifty messages are newer |
| RoomHistory.BeforeIsTotal | backend/src/realtime/hub.rs:857 | the comparison of timestamps as texts is a total order |
| RoomHistory.CatchUpIsExact | backend/src/realtime/hub.rs:743-864 | for any timestamps: a client that has seen everything up to a message gets exactly the rest if and only if the rest is at most fifty, all newer than `since`, and nothing still kept from before is newer |
| RoomHistory.CatchUpAfterSeen | backend/src/realtime/hub.rs:743-864 | with timestamps that never go back, asking with the timestamp of the last message seen: if and only if at most fifty messages follow and the first of them has a newer timestamp |
| RoomHistory.TiedMessageIsLost | backend/src/realtime/hub.rs:853-858 | a message with the timestamp of the one before it is in no later answer to a client that asks with that timestamp |
| RoomHistory.SyncMissesTheFiftyFirst | backend/src/realtime/hub.rs:757-759 | of fifty-one newer messages the oldest is not returned |
| SlidingWindow.LiveOfLive | backend/src/middleware/rate_limit.rs:96-124 | forgetting with an earlier clock and a wider window never shows later |
| SlidingWindow.WindowIsNeverOverfull | backend/src/middleware/rate_limit.rs:108-157 | if each hit was admitted with room in its window, no half-open interval of one window holds more than the maximum |
| RateLimiter.Retain | backend/src/middleware/rate_limit.rs:121-124 | filtering hits by age |
| RateLimiter.Limiter.Check | backend/src/middleware/rate_limit.rs:108-157 | the decision, the new bucket and the counters of one check, also under a poisoned lock |
| RateLimiter.Limiter.Prune | backend/src/middleware/rate_limit.rs:96-104 | keeps the live hits of each bucket and drops empty buckets |
| RateLimiter.HistoryIsAdmissions | backend/src/middleware/rate_limit.rs:108-157 | the history of the following theorems grows by exactly the requests the limiter lets through |
| RateLimiter.DecidesLikeFullHistory | backend/src/middleware/rate_limit.rs:96-157 | in every run of checks and prunings a request is allowed exactly if fewer than the maximum of all admitted ones lie in the last window |
| RateLimiter.AdmissionRateIsBounded | backend/src/middleware/rate_limit.rs:108-157 | no half-open interval of one window ever holds more than the maximum of admitted requests |
| RateLimiter.ResetHintIsTight | backend/src/middleware/rate_limit.rs:129-148 | the hint exceeds the oldest hit's remaining time by at most one second |
| RateLimiter.RetryHintIsSufficient | backend/src/middleware/rate_limit.rs:129-148 | after a block, with nothing admitted in between, a call after the hint is allowed exactly if the policy admits anything; before the oldest hit leaves it stays blocked |
| RateLimiter.RemainingIsExact | backend/src/middleware/rate_limit.rs:149-155 | the remaining count of a decision is exactly the number of further requests that would be allowed at the same moment |
| RateLimiterClock.DecidesLessForgotten | backend/src/middleware/rate_limit.rs:108-157 | for clock readings in any order: the bucket falls short of the full history by exactly the requests that count now but that an intervening reading found too old, and the decision is the one on the rest |
| RateLimiterClock.AgreesIffLatestReading | backend/src/middleware/rate_limit.rs:108-157 | with readings less than a window out of order, bucket and full history agree exactly if no admitted request that still counts lies a window or more before the caller's latest reading |
| RateLimiterClock.LateReadingsAgree | backend/src/middleware/rate_limit.rs:108-157 | after any disorder they agree at every reading not behind the caller's latest |
| RateLimiterClock.RateIsBoundedUpToSkew | backend/src/middleware/rate_limit.rs:108-157 | with readings at most d out of order, no half-open interval shorter than the window by d holds more than the maximum of admitted requests |
| RateLimiterClock.RateExceedsByForgotten | backend/src/middleware/rate_limit.rs:108-157 | for readings in any order: if no admission overlooks more than f recent requests, no window holds more than the maximum and f; with f = 0 the full bound |
| RateLimiterClock.BackwardClockBreaksAgreement | backend/src/middleware/rate_limit.rs:108-157 | a run of four checks, none more than one behind, in which three requests within one window pass a maximum of two |
| FrameLimiter.Limiter.OnText | backend/src/realtime/socket.rs:205-229 | the verdict on one frame and the deque after it; oversized frames do not count |
| FrameLimiter.RunGrows | backend/src/realtime/socket.rs:205-229 | the handled frames of the following theorems grow by exactly the frames the limiter lets through |
| FrameLimiter.DropOldIsLive | backend/src/realtime/socket.rs:216-221 | on the deque's sorted times, popping from the front is filtering by age |
| FrameLimiter.DecidesLikeFullHistory | backend/src/realtime/socket.rs:214-229 | a frame is handled exactly if fewer than ten of all handled frames are at most a second old |
| FrameLimiter.FrameRateIsBounded | backend/src/realtime/socket.rs:214-229 | no closed interval of one second contains more than ten handled frames |
| LeaseLock.KeyedLeaseLock.TryAcquire | backend/src/locks.rs:52-72 | one poll under the lock: succeeds exactly if the key is free or its lease has lapsed, with a new token |
| LeaseLock.KeyedLeaseLock.Acquire | backend/src/locks.rs:46-79 | whatever others make of the table between polls: takes the lease at the first poll that finds the key free, and gives up only past the deadline |
| LeaseLock.KeyedLeaseLock.Drop | backend/src/locks.rs:31-40 | removes the entry only if it is still the guard's own |
| LeaseLock.PollInRun | backend/src/locks.rs:52-72 | in every reachable state a poll takes the lease exactly if the key is free or its lease has lapsed, and otherwise changes nothing |
| LeaseLock.DropInRun | backend/src/locks.rs:31-40 | in every reachable state a drop ends its guard and frees the key exactly if the entry is still its own |
| LeaseLock.LeasesAreExclusive | backend/src/locks.rs:52-72 | at any moment at most one undropped guard per key has an unexpired lease, and tokens are never shared |
| LeaseLock.PollSucceedsIffNoLiveLease | backend/src/locks.rs:52-72 | a poll succeeds exactly if no undropped guard of the key is unexpired, so a lapsed lease can always be taken over |
| LeaseLock.DropReleasesOnlyItself | backend/src/locks.rs:31-40 | after a drop the key is free exactly if no other live lease holds it; all other live leases stay |
| LeaseLock.StaleDropIsHarmless | backend/src/locks.rs:31-40 | once a guard's key was granted again, its drop leaves the table as it is, whatever became of the newer guard |
| LeaseLock.NewestTokenHolds | backend/src/locks.rs:52-72 | an entry never belongs to a guard beside which a newer one of the key exists |
| PgParams.Renumber | backend/src/db.rs:28-50 | the rewriting loop writes the parsed text with its placeholders numbered from 1, left to right |
| PgParams.RenumberingIsFaithful | backend/src/db.rs:28-50 | read by the database, the k-th placeholder that was meant is parameter k and all other text is unchanged, exactly if no `?` is directly followed by a digit and every `$` is |
| PgParams.ParseAsIntended | backend/src/db.rs:33-40 | the rewriter finds the placeholders that were meant if every `$` has a number |
| PgParams.RenumberingIsIdempotent | backend/src/db.rs:28-50 | renumbering twice is renumbering once exactly under the same condition |
| PgParams.QuestionMarkBeforeDigit | backend/src/db.rs:28-50 | a digit after a `?` joins its number |
| PgParams.DollarWithoutNumber | backend/src/db.rs:33-40 | a `$` without a number becomes a parameter |
| SqlBinds.SegmentsBindCorrectly | backend/src/db.rs:28-50 | any statement put together from harmless text and placeholders executes with every value in its own place |
| SqlBinds.WhereClause | backend/src/domain/activity/store.rs:71-100 | for every filter the clause and its binds belong to the same conditions in the same order |
| SqlBinds.ListQuery | backend/src/domain/activity/store.rs:110-139 | for every filter, page and limit the executed query has each filter value, the limit and the offset in their own places |
| SqlBinds.CountQuery | backend/src/domain/activity/store.rs:116-122 | the query for the total executes with each filter value in its own place |
| SqlBinds.AttachmentUpdate | backend/src/realtime/customer.rs:934-947 | for any number of attachment ids the executed update has the message id and every attachment id in its own place |
| Installer.RunTable.Start | backend/src/bin/installer.rs:1291-1304 | a new run, running at the first step, with nothing done |
| Installer.RunTable.Cancel | backend/src/bin/installer.rs:1426-1452 | cancels the run that was found exactly if it is running |
| Installer.RequestsInRun | backend/src/bin/installer.rs:1291-1452 | in every reachable state a deployment adds a running run without touching others, and a cancel request changes exactly the run it names, if that is running |
| Installer.RunTable.Pipeline | backend/src/bin/installer.rs:1311-1388 | wherever somebody cancels in between, the loop leaves the run where its sections do; undisturbed, it records the steps before the first failure and ends as failed, or all seven and ends as completed |
| Installer.ProvisionIsExact | backend/src/bin/installer.rs:501-816 | when each of the seven steps succeeds and which ids and names it hands on |
| Installer.SectionsMatchPipeline | backend/src/bin/installer.rs:1330-1388 | the single sections of an undisturbed deployment, in a row, record the steps before the first failure |
| Installer.PipelineIsARun | backend/src/bin/installer.rs:1311-1388 | the pipeline with a cancellation before any of its sections is a run of the system: the deployment, the sections, and the cancel request between them |
| Installer.VerifiedStartsSteps | backend/src/bin/installer.rs:1316-1329 | verification fails the run or leads to the first step |
| Installer.RunIsSound | backend/src/bin/installer.rs:1174-1452 | in every interleaving each run and its background job agree on steps, status and context |
| Installer.StatusIsTruthful | backend/src/bin/installer.rs:1312-1388 | completedSteps is a prefix of the steps, progress is floor(100 * its length / 7), completed means all seven and 100, currentStep is the next step while running, and the listed resources are those of the completed steps |
| Installer.RunsGoForward | backend/src/bin/installer.rs:1312-1388 | over any further actions steps are only added, progress never falls, and a completed or failed run never changes |
| Installer.CreatedGrows | backend/src/bin/installer.rs:501-816 | what is in the cloud grows by a step exactly when its answer created something, or failed and left something behind |
| Installer.OneResourceUnrecorded | backend/src/bin/installer.rs:1335-1369 | at most one step, failing ones included, has left something in the cloud that its run does not list: the one under way, or the one the job ended with |
| Installer.BackendBindings | backend/src/bin/installer.rs:551-816 | on reaching the backend service bucket and queue names are set; the step fails exactly if it is refused or the id of the database or of one of the two namespaces is missing, and otherwise binds all five |
| Installer.BindingsCarryReplies | backend/src/bin/installer.rs:501-816 | each id the cloud returned is bound in its own place; the backend step succeeds only if all three came |
| Installer.CancelIsFinalIff | backend/src/bin/installer.rs:1312-1388 | what becomes of a cancelled run: it stays cancelled unless a request in flight fails or the last check was already passed, and exactly one more step is recorded if the write was already decided |
| Installer.CancelledThenFailed | backend/src/bin/installer.rs:1316-1326 | a run whose cancellation was confirmed and that ends as failed |
| Installer.CancelledThenCompleted | backend/src/bin/installer.rs:1374-1379 | a run whose cancellation was confirmed and that ends as completed |
| Installer.CancelIsCertain | backend/src/bin/installer.rs:1431-1446 | a cancel by project name is sure to succeed exactly if the project has runs and all of them are running |
| Installer.CancelMayMiss | backend/src/bin/installer.rs:1431-1446 | a run after which a cancel can miss the running deployment |
| Collaboration.CollabState.Join | backend/src/realtime/collaboration.rs:78-110 | refuses exactly a newcomer to a full room; re-joining refreshes |
| Collaboration.JoinIsExact | backend/src/realtime/collaboration.rs:78-110 | a newcomer comes in without an indicator if there is room; re-joining refreshes the activity and nothing else |
| Collaboration.CollabState.Leave | backend/src/realtime/collaboration.rs:113-122 | removes the viewer, and the room with its last one |
| Collaboration.CollabState.SetTyping | backend/src/realtime/collaboration.rs:127-151 | sets or clears the indicator, entering the viewer if absent |
| Collaboration.CollabState.SetPresence | backend/src/realtime/collaboration.rs:154-173 | replaces the record of that user and no other |
| Collaboration.CollabState.Stats | backend/src/realtime/collaboration.rs:263-290 | whatever the clock shows at each viewer, the totals count all viewers and all active typists over all rooms; the list is the five most active rooms |
| Collaboration.CollabState.Cleanup | backend/src/realtime/collaboration.rs:294-314 | with a clock reading for each entry: clears exactly the lapsed indicators, drops exactly the lapsed presence records and returns how many these were |
| Collaboration.CleanupIsExact | backend/src/realtime/collaboration.rs:294-307 | the indicators that go, and are counted, are exactly those whose expiry is not after the clock at their turn; the typists are the rest |
| Collaboration.MostActiveIsUnique | backend/src/realtime/collaboration.rs:276-283 | more viewers first, then the smaller id: there is only one such list |
| Collaboration.RunsLeaveNoEmptyRoom | backend/src/realtime/collaboration.rs:78-151 | no reachable state stores an empty room |
| Collaboration.JoinThenLeave | backend/src/realtime/collaboration.rs:78-122 | a newcomer who joins and leaves leaves no trace |
| Collaboration.ViewersAreExact | backend/src/realtime/collaboration.rs:78-151 | in every run the viewers of a conversation are exactly those who typed, or joined while it was not full, and have not left since |
| Collaboration.TypingIsExact | backend/src/realtime/collaboration.rs:113-307 | in every run a user is seen typing exactly while the latest indicator, not taken back by the user or by leaving, is younger than its time to live; cleanups make no difference |
| Collaboration.CapacityIsLostIff | backend/src/realtime/collaboration.rs:127-151 | a step takes a room above fifty exactly if somebody outside it types in a full room |
| Collaboration.CapacityIsLost | backend/src/realtime/collaboration.rs:127-151 | a run that takes a room to fifty-one |
| Collaboration.RoomsAreBounded | backend/src/realtime/collaboration.rs:78-151 | a room exceeds fifty by no more than the number of such steps |
| CustomerChannels.ChannelRegistry.Connect | backend/src/realtime/customer.rs:56-82 | registers the connection and tells the others |
| CustomerChannels.ChannelRegistry.Disconnect | backend/src/realtime/customer.rs:87-110 | removes a registered connection; the leave is announced exactly for the user's last one |
| CustomerChannels.DisconnectIsExact | backend/src/realtime/customer.rs:87-110 | only that connection goes, the channel with its last one, and the leave is announced exactly if no other connection is the same user's |
| CustomerChannels.ChannelRegistry.Broadcast | backend/src/realtime/customer.rs:114-133 | counts the live connections and prunes exactly the dead ones |
| CustomerChannels.StalePresenceIff | backend/src/realtime/customer.rs:56-133 | a user without connection was last announced as present exactly if the last connection was pruned |
| CustomerChannels.ChannelIsDesertedIff | backend/src/realtime/customer.rs:87-133 | a step leaves an empty channel exactly if it is a broadcast that finds every connection dead |
| CustomerChannels.DesertedChannelStays | backend/src/realtime/customer.rs:87-110 | an empty channel stays until somebody connects to it again |
| CustomerChannels.PresenceIsTrue | backend/src/realtime/customer.rs:56-133 | while no receiver is lost, a user was last announced as present exactly while connected, and no channel without connections is kept |
| CustomerChannels.LostReceiverLeavesTraces | backend/src/realtime/customer.rs:56-133 | a run in which a lost receiver leaves a stale announcement and an empty channel |
| ApiClient.Client.Api | frontend/src/api/client.ts:100-162 | one call with all its retries: its envelope and what it used up, as a function of its options and the replies |
| ApiClient.Client.RedirectToLoginOnce | frontend/src/api/client.ts:86-92 | the login page is asked for at most once |
| ApiClient.CallIsBounded | frontend/src/api/client.ts:100-162 | requests and renewals are bounded by the retries and the renewal the options leave |
| ApiClient.RequestsAddUp | frontend/src/api/client.ts:100-162 | one request, plus one per retried trouble, plus one per successful renewal |
| ApiClient.LastReplyDecides | frontend/src/api/client.ts:100-162 | only trouble and renewed 401s are retried, the last reply alone decides the envelope, and the login page is asked for exactly if it is a 401 |
| ApiClient.StopsOnlyWhenSpent | frontend/src/api/client.ts:100-162 | a call ends on trouble only with all retries used, and on a 401 only with its renewal used |
| ApiClient.DefaultCallIsBounded | frontend/src/api/client.ts:106-162 | at most four requests and one renewal from the default options |
| ApiClient.FourRequestsHappen | frontend/src/api/client.ts:106-162 | four requests and one renewal do happen |
| ApiClient.WaitersShareOneAttempt | frontend/src/api/client.ts:57-84 | all callers that wait share one attempt, and no two attempts overlap |
| ApiClient.SettlingAnswersAllWaiters | frontend/src/api/client.ts:57-84 | the outcome of an attempt answers exactly the callers that wait for it, and ends it |
| ApiClient.AskingJoinsOrStarts | frontend/src/api/client.ts:57-84 | a caller starts an attempt exactly if none is under way, and waits for the one that then is |
| ApiClient.AskingMeanwhileStartsNothing | frontend/src/api/client.ts:57-84 | a caller that asks while another waits joins that attempt |
| MessageDedup.RecentIds.Remember | frontend/src/realtime/client.ts:67-77 | lets an id through exactly if it is empty or not among the last five hundred admitted since the reset |
| MessageDedup.RecentIds.Reset | frontend/src/realtime/client.ts:192-200 | forgets everything |
| MessageDedup.RunRemembers | frontend/src/realtime/client.ts:67-77 | array and set hold the same ids without duplicates: the last five hundred admitted |
| MessageDedup.DedupIsExact | frontend/src/realtime/client.ts:67-77 | decisions equal those of a client that never forgets but looks back five hundred ids, and between two admissions of an id lie at least five hundred others |

## Left out

- HTTP handlers, JSON envelopes, headers, routing and tracing: plumbing around the modelled operations.
- PgParams: SQL literals, comments and quoted names, in which the database reads a `?` or `$1` as text and the rewriter does not; the statements modelled here have none.
- SQL execution: the fan-out tables are sets; a query result and the outcome of an insert are inputs. That an acknowledgement of a deleted event fails follows the foreign keys in the migrations.
- `deliver_targets`: its lookups and sends are an outcome per event; event payloads are stood for by a serial number, latency and the time of the last drain are not kept.
- Panics, lock poisoning (where the rate limiter refuses the request), cancellation of a started drain or pass, and wrap-around of 64-bit counters.
- Random identifiers are numbers that have not been used before.
- Clocks: the theorems of `RateLimiter` take readings that do not go back in lock order, and pruning, which nothing in the repository calls, with a window at least as wide as each policy's; `FrameLimiter` and `LeaseLock` read the clock inside the section.
- RateLimiter.RemainingIsExact: for windows longer than zero, as all policies have.
- The fan-out protocol takes one pass of an instance at a time, as its single loop does.
- The hub's snapshots, frames sent on joining and leaving a room, challenges, the access cache, preferences and the team and administrator audiences (these are predicates for the same fan-out). Device ids, emails and activity times of a connection are not kept.
- Names, roles and activity labels of viewers are left out, as are the listings made of them.
- Installer: validation of the request, the artifact and Wrangler deployment, the shape of the cloud's answers; a step's several requests are one reply, which says of a failure whether anything was left behind.
- The search by project name in the table of runs is any run that matches, since the table has no order.
- CustomerChannels: the frames themselves; a notice is recorded as sent to the channel. What drops a receiver is an input.
- ApiClient: waiting between retries, CSRF and team headers, and the variants for uploads and downloads, which retry less.
- The browser socket's reconnection, routing of events and subscriptions.
- `latest.rs`, team caches, permission tables, the platform parser, cryptography and all user interface code.
