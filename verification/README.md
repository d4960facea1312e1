# Verified model of the bot gateway and its backend neighbours

A Dafny 4.11 model of the parts of this repository whose correctness rests on an argument rather than on
a single body: the bot gateway's schedulers, its lease and fencing protocol, its replay ledger and the
pipeline that composes them, the SQLite `LIKE` replacement, and the smaller algorithms beside them.

`dafny verify dfyconfig.toml` checks everything.

## How it is laid out

| file | models |
|---|---|
| `LikeSemantics.dfy`, `LikeRegex.dfy`, `LikeFunction.dfy` | the `like` function of `internal/db.py`: the plain recursive meaning, a backtracking regular-expression engine with atomic groups, and the parsing loop with its bounded cache |
| `ChatSearch.dfy` | the escaped literal search that runs through it |
| `Rotation.dfy` | the rotation array and its cursor |
| `FairQueue.dfy`, `FairQueueInvariant.dfy` | the fair queue as a state machine of small steps, and what every step keeps |
| `FairQueueRuns.dfy`, `FairQueueOperations.dfy` | runs of steps, and public operations with the drain they trigger |
| `FairQueueMoves.dfy`, `FairQueueEffects.dfy` | what each operation does to the submitted tasks and to the idle waiters |
| `FairQueueFairness.dfy`, `FairQueueStarvation.dfy` | the fairness guarantee and its limit |
| `FairConnectionQueue.dfy` | the class itself, with its fields and loops, proved against the state machine |
| `KeyedQueue.dfy`, `KeyedQueueExclusion.dfy` | one conversation at a time, through promise chains, and when that fails |
| `Lease.dfy`, `LeaseLife.dfy` | shard leases in Redis and the fence of the control server; how long a lease lasts |
| `Ledger.dfy` | the replay table |
| `Gateway.dfy`, `GatewayInvariant.dfy`, `GatewayRuns.dfy`, `GatewaySafety.dfy` | `handle`: coalescing, ledger, both queues and the transport together |
| `GatewayIntake.dfy`, `GatewayReplies.dfy`, `GatewayClaims.dfy`, `GatewayCapacity.dfy`, `GatewayWitness.dfy` | how events and their payloads enter, what later deliveries get, when a claim is written, when a conversation can be full, and runs that leave a claim behind |
| `Chunk.dfy` | reply chunking over UTF-16 and code points |
| `Credentials.dfy`, `CredentialEffects.dfy` | compare-and-swap on credential rows, and what the writes leave there |
| `ResponseStream.dfy`, `ResponseDurability.dfy` | resumable response streams: what is stored and what loads |
| `ResponseEvents.dfy`, `ResponsePlacement.dfy`, `ResponseLive.dfy` | the delta branch of the event handler they replay with, where it puts its text, and the live updates the deltas are stored for |
| `Analytics.dfy` | chart bars and token ranges |
| `AccessGrants.dfy` | the two formats of access control, and who loses access |

Asynchronous code is modelled as a state machine in which every `await`, timer and callback is a step that
may happen at any moment it is enabled, so a theorem over runs covers every interleaving. Objects whose
methods change their fields are classes; their methods are proved to take the step of the state machine
they implement, and carry its state in a ghost field `view`.

## Results that are not what one would expect

- Fairness without a hypothesis is false: connections that empty and rejoin behind the cursor can keep
  another one waiting below its cap for any number of dispatches (`FairQueueStarvation.StarvedForLong`). The
  guarantee that does hold is `FairQueueFairness.RoundRobin`, with `WaitIsBounded` and
  `ServedWithinOneRound` for runs with few or no joins.
- The comment at `bot-gateway/src/queue.ts:23-25` says that a timed-out entry lets nothing overtake. That is
  false for an entry that is the key's stored tail: its `finally` deletes the map entry
  (`bot-gateway/src/queue.ts:30`), and the next arrival finds no predecessor. Exclusion holds exactly for runs without
  such a cut while an earlier entry of the key is open (`KeyedQueueExclusion.NoOverlap`), every cut can be continued
  to an overlap (`KeyedQueueExclusion.CutLeadsToOverlap`), and one arises from the empty queue
  (`KeyedQueueExclusion.OverlapArises`). The earlier entry need not have started: it is enough that it is still to run.
- A claim can be left `processing` after its operation has closed, because the keyed queue's errors are not
  `QueueAdmissionError`s and are rethrown. `GatewayClaims.ClaimWrittenIff` says exactly when: an operation
  completes or releases its record if and only if it neither missed its turn, nor found its conversation's queue
  full, nor ran into a failing state call. `GatewayWitness.ClaimIsLeft` is such a run. A conversation can be found full
  exactly when both slot limits exceed the depth per key (`GatewayWitness.FullIff`).
- The early exit for revoked users misses pending users when a resource is opened to everybody
  (`AccessGrants.PendingUserIsMissed`); `AccessGrants.EarlyExitIff` gives the exact condition.
- Joining adjacent deltas on replay is harmless exactly for handlers that are additive on the events that are
  stored (`ResponseStream.HarmlessIffAdditive`). The repository's handler is, for every kind that ends in `.delta`
  with one exception: `response.type.delta` can write an item's own `type` and so change the branch the next
  delta takes (`ResponseEvents.AddsIff`).
- A stored stream need not load as anything the response ever was. Replay matches the live update exactly when the
  update is safe (`ResponseLive.MatchesIff`), and what is stored loads as the live output while the writer trusts its
  size exactly when every update it appended for was safe (`ResponseLive.StreamTrustedIff`). Chat Completions text is
  safe only if its item is there and ends in an `output_text` part: text that starts a message is replayed into a
  part of type `text` (`ResponseLive.NewMessageIsMisread`). A Responses API delta behind the output of earlier rounds
  is safe with an index that is not negative, or with none when the round already has an item; otherwise replay
  writes to an item of an earlier round.

## Model

| member | source | states |
|---|---|---|
| `LikeSemantics.SegmentsMeanLike` | backend/open_webui/internal/db.py:352-362 | the segments between unescaped `%` cover a value, with any gaps, exactly when the recursive LIKE accepts it; a dangling escape accepts nothing |
| `LikeSemantics.DanglingIffOddRun` | backend/open_webui/internal/db.py:354-368 | parsing ends with a pending escape exactly when the pattern ends in an odd run of escapes |
| `LikeSemantics.NeverMatchesIffDangling` | backend/open_webui/internal/db.py:363-368 | a pattern matches no value at all exactly when its last escape dangles |
| `LikeRegex.PinnedTailIsExact` | backend/open_webui/internal/db.py:369-372 | pinning every middle segment to its leftmost match in an atomic group loses no match: the exchange argument |
| `LikeRegex.RegexIsExact` | backend/open_webui/internal/db.py:369-378 | a full match of the generated expression, with lazy, greedy and atomic parts tried in engine order, exists exactly when the segments cover the value |
| `LikeFunction.CompileIsExact` | backend/open_webui/internal/db.py:351-378 | for every pattern, escape and value the compiled form answers as the recursive LIKE |
| `LikeFunction.ParsePattern` | backend/open_webui/internal/db.py:352-364 | the one-pass loop returns the segments of the recursive splitting, and its flag tells whether an escape dangles |
| `LikeFunction.SqliteLike.Store` | backend/open_webui/internal/db.py:365-367 | an entry is added without the cache ever exceeding 512 entries or holding a stale compile |
| `LikeFunction.SqliteLike.Call` | backend/open_webui/internal/db.py:341-378 | NULL in, NULL out; otherwise the answer is LIKE's on the lower-cased strings whatever the cache held |
| `ChatSearch.EscapeTermCons` | backend/open_webui/models/analytics_sessions.py:58-60 | the three replacement passes escape each character on its own and never each other's output |
| `ChatSearch.LikeTermIsContainment` | backend/open_webui/models/analytics_sessions.py:58-67 | the escaped term wrapped in `%`, with a backslash escape, matches exactly the values that contain the text literally |
| `ChatSearch.SearchFindsLiteralText` | backend/open_webui/models/analytics_sessions.py:58-67 | through the registered function a term is literal containment of the lower-cased text in the lower-cased value |
| `ChatSearch.SearchIsLiteral` | backend/open_webui/models/analytics_sessions.py:58-67 | for every query: no filter exactly when it is all spaces; otherwise the registered function accepts exactly the values containing the query without its outer spaces, both lower-cased |
| `ChatSearch.CharacterwiseLoweringQualifies` | backend/open_webui/internal/db.py:345-346 | every character-wise lower-casing that fixes and never produces the three metacharacters meets the hypothesis of the search theorem |
| `Rotation.RemovalKeepsCycle` | bot-gateway/src/queue.ts:262-269 | with the cursor adjusted, removing a connection takes it out of the scan order and disturbs nothing else |
| `Rotation.AdvanceRotatesCycle` | bot-gateway/src/queue.ts:231-233 | advancing the cursor moves the first connection of the scan order to its end |
| `Rotation.JoinInsertsInCycle` | bot-gateway/src/queue.ts:140-144 | a push at the end of the array inserts into the scan order without reordering the others |
| `FairQueueInvariant.SubmitKeeps` | bot-gateway/src/queue.ts:113-152 | submission keeps the invariant: exact counters, queues equal to the waiting tasks in admission order, duplicate-free rotation of the non-empty queues, caps |
| `FairQueueInvariant.DispatchKeeps` | bot-gateway/src/queue.ts:205-248 | so does dispatching the task the scan picks |
| `FairQueueInvariant.ReleaseKeeps` | bot-gateway/src/queue.ts:217-224 | so does giving back a slot |
| `FairQueueInvariant.ExpireKeeps` | bot-gateway/src/queue.ts:250-260 | so does an expiry, also one that comes too late |
| `FairQueueInvariant.CancelKeeps` | bot-gateway/src/queue.ts:177-190 | so does cancelling everything queued |
| `FairQueueRuns.StepEffect` | bot-gateway/src/queue.ts:113-275 | a step moves tasks only forward; once accepting has stopped, 2·queued + active never grows and strictly falls with each dispatch, finish and expiry |
| `FairQueueRuns.TaskLife` | bot-gateway/src/queue.ts:113-275 | in every run a rejected, finished, expired or cancelled task stays so; expired and cancelled tasks never start |
| `FairQueueRuns.SettledAtMostOnce` | bot-gateway/src/queue.ts:113-275 | in every run each promise is settled once if the fate of its task is sealed, else not at all |
| `FairQueueRuns.AdmissionOrder` | bot-gateway/src/queue.ts:145-151 | each connection starts its tasks in admission order |
| `FairQueueRuns.ShutdownIsBounded` | bot-gateway/src/queue.ts:154-157 | after `stopAccepting` at most 2·queued + active dispatches, finishes and expiries can still happen |
| `FairQueueRuns.WakesOnlyWhenIdle` | bot-gateway/src/queue.ts:271-275 | idle waiters are answered only by a step that leaves nothing active and nothing queued |
| `FairQueueFairness.RoundRobin` | bot-gateway/src/queue.ts:205-269 | between two services of a connection that stayed queued, every other connection that stayed queued and below its cap is served, whatever joins, empties or expires |
| `FairQueueFairness.WaitIsBounded` | bot-gateway/src/queue.ts:205-269 | an eligible connection is passed over at most its distance from the cursor plus the number of joins |
| `FairQueueFairness.ServedWithinOneRound` | bot-gateway/src/queue.ts:205-269 | when nobody joins, every eligible connection is served within one rotation of dispatches |
| `FairQueueStarvation.StarveOnce` | bot-gateway/src/queue.ts:228-269 | two operations serve the connection at the cursor and recreate the same situation, the starved one at the same distance, waiting below its cap with its queue untouched |
| `FairQueueStarvation.StarvingArises` | bot-gateway/src/queue.ts:113-269 | for every distance from the cursor a history from the empty queue leads there |
| `FairQueueStarvation.StarvedForLong` | bot-gateway/src/queue.ts:113-269 | for every distance and every n there is a history in which n tasks of others start and n connections join, while a connection waits below its cap at every moment with its queue untouched |
| `FairQueueStarvation.WaitBoundIsTight` | bot-gateway/src/queue.ts:113-269 | at every distance d >= 1 from the cursor and for every number of joins a connection can be passed over by exactly d dispatches more than there are joins: the bound of `WaitIsBounded` |
| `FairQueueOperations.ExecuteQuiescent` | bot-gateway/src/queue.ts:113-275 | every public operation leads from a quiescent state to one: nothing left to dispatch, all queue limits kept, no waiter asleep while idle |
| `FairQueueOperations.HistoryIsQuiescent` | bot-gateway/src/queue.ts:113-275 | every state between operations since construction is quiescent |
| `FairQueueOperations.FastPathStarts` | bot-gateway/src/queue.ts:116-129 | a task that skips the admission limits is active at once, counted globally and for its connection, and nothing is left queued |
| `FairQueueOperations.WorkConserving` | bot-gateway/src/queue.ts:205-226 | in a quiescent state the global cap is reached or every waiting connection is at its own |
| `FairQueueOperations.CountersAreSums` | bot-gateway/src/queue.ts:113-226 | `queued`, `queuedBytes` and `active` equal the sums over the maps |
| `FairQueueOperations.OperationIsRun` | bot-gateway/src/queue.ts:113-275 | every operation is a run of small steps, so all theorems over runs apply to it |
| `FairQueueMoves.ExecuteMoves` | bot-gateway/src/queue.ts:113-275 | an operation adds a task only by submission, with the connection and the bytes it was given, and finishes one only by completing that very task |
| `FairQueueEffects.AdmissionIff` | bot-gateway/src/queue.ts:113-129 | a submitted task is taken if and only if the queue is accepting and either it need not wait (a free slot, its connection below its cap, nothing queued) or one more task, one more of its connection and its bytes all stay within the three queue limits |
| `FairQueueEffects.RejectionIsHarmless` | bot-gateway/src/queue.ts:114-129 | a rejection changes no queue, counter or other task |
| `FairQueueEffects.CompletionMeans` | bot-gateway/src/queue.ts:217-224 | a completion finishes its task; of the others queued ones may start, and nothing else happens to them |
| `FairQueueEffects.TimerMeans` | bot-gateway/src/queue.ts:250-260 | a wait timer expires its task if that is still queued and changes no other |
| `FairQueueEffects.CancelMeans` | bot-gateway/src/queue.ts:177-190 | cancelling rejects exactly the queued tasks, empties the queues and leaves the active ones |
| `FairQueueEffects.StopIsForGood` | bot-gateway/src/queue.ts:154-157 | in every history, everything submitted after `stopAccepting` is rejected |
| `FairQueueEffects.ExecuteWaiters` | bot-gateway/src/queue.ts:159-175 | no operation but its own timeout forgets an idle waiter, and only waiting registers one |
| `FairQueueEffects.WaiterIsAnswered` | bot-gateway/src/queue.ts:159-175 | in every history a waiter that does not give up has been answered whenever nothing is active or queued |
| `FairQueueEffects.GivenUpIsNotAnswered` | bot-gateway/src/queue.ts:163-172 | a waiter that gave up before it was answered is never answered later |
| `FairConnectionQueueClass.FairConnectionQueue.Scan` | bot-gateway/src/queue.ts:228-237 | the scanning loop stops at the first connection below its cap in scan order, or leaves the cursor where it was |
| `FairConnectionQueueClass.FairConnectionQueue.DropFromRotation` | bot-gateway/src/queue.ts:262-269 | the in-place removal is the removal of the state machine |
| `FairConnectionQueueClass.FairConnectionQueue.DispatchAll` | bot-gateway/src/queue.ts:205-226 | the loop of `drain` reaches exactly the drained state |
| `FairConnectionQueueClass.FairConnectionQueue.Submit` | bot-gateway/src/queue.ts:113-152 | `run` is the submission of the state machine, and admits exactly while accepting a task that need not wait or fits all three limits |
| `FairConnectionQueueClass.FairConnectionQueue.Finish` | bot-gateway/src/queue.ts:217-224 | the `finally` of a task is the completion of the state machine |
| `FairConnectionQueueClass.FairConnectionQueue.ExpireEntry` | bot-gateway/src/queue.ts:250-260 | the timer's effect, at any time |
| `FairConnectionQueueClass.FairConnectionQueue.CancelAll` | bot-gateway/src/queue.ts:177-190 | `cancelQueued` rejects every queued entry once and empties everything |
| `FairConnectionQueueClass.FairConnectionQueue.StopTaking` | bot-gateway/src/queue.ts:154-157 | `stopAccepting`, and the idle check it makes |
| `FairConnectionQueueClass.FairConnectionQueue.AwaitIdle` | bot-gateway/src/queue.ts:159-175 | true at once when idle, else the waiter is registered |
| `KeyedQueueExclusion.NoOverlap` | bot-gateway/src/queue.ts:10-53 | in every run without a cut, tasks of one key never overlap and start in arrival order |
| `KeyedQueueExclusion.NoTimeoutsNoCuts` | bot-gateway/src/queue.ts:42 | with `maxWaitMs` <= 0 no run has a cut |
| `KeyedQueueExclusion.CutLeadsToOverlap` | bot-gateway/src/queue.ts:28-34 | every cut can be continued to two tasks of the key running at once, so the hypothesis is exact |
| `KeyedQueueExclusion.OverlapArises` | bot-gateway/src/queue.ts:10-35 | a run from the empty queue that ends in an overlap |
| `KeyedQueueExclusion.OverlapFreeIff` | bot-gateway/src/queue.ts:5-53 | a configuration has no run with an overlap if and only if `maxWaitMs` <= 0 or the depth per key is at most one |
| `KeyedQueueExclusion.SomeoneCanGo` | bot-gateway/src/queue.ts:19-27 | while an entry of a key is open, the earliest open one runs or may start: no deadlock, cut or not |
| `KeyedQueueExclusion.TurnComesIff` | bot-gateway/src/queue.ts:19-27 | in runs without a cut an entry may start exactly when it waits and every earlier entry of its key has left, whatever other keys do |
| `KeyedQueueExclusion.OtherKeysUntouched` | bot-gateway/src/queue.ts:10-35 | a step on one key changes neither depth, tail nor entries of another |
| `KeyedQueue.SettledKeyIsForgotten` | bot-gateway/src/queue.ts:28-34 | once every entry of a key has left, neither map keeps the key |
| `KeyedQueue.ApplyKeeps` | bot-gateway/src/queue.ts:10-35 | every step keeps depths equal to the open entries, within the limit, and tails current |
| `KeyedQueue.KeyedSerialQueue.Arrive` | bot-gateway/src/queue.ts:11-20 | `run` up to its first await, or the capacity error |
| `KeyedQueue.KeyedSerialQueue.Depart` | bot-gateway/src/queue.ts:28-34 | the `finally` block |
| `Lease.AtMostOneLiveLease` | bot-gateway/src/coordination.ts:97-131 | in every interleaving of any number of nodes each shard has at most one live lease, and granted epochs strictly increase |
| `Lease.NoStaleRequestPasses` | bot-gateway/src/control-server.ts:246-260 | once a lease is granted, no request naming an older epoch passes the fence, ever after |
| `Lease.PassedEpochsNeverDecrease` | bot-gateway/src/control-server.ts:246-260 | the epochs of the requests let through never decrease |
| `Lease.SupersededIsPowerless` | bot-gateway/src/coordination.ts:114-131 | a lease superseded by a later grant can never again renew or release anything |
| `Lease.MovedAwayLosesLease` | bot-gateway/src/coordination.ts:97-131 | once the target moves away and stays away, the lease is gone within its time to live whatever the holder does, and later grants go to others |
| `Lease.GrantsGoToTarget` | bot-gateway/src/coordination.ts:97-112 | every grant goes to the shard's target, not draining, with no lease live at that moment |
| `Lease.CoordinationStore.TryAcquire` | bot-gateway/src/coordination.ts:97-112 | a lease exactly when the node is the target, not draining, and no lease is live; it names the asker, its lease id and generation, and lives for the node's ttl; the epoch counter moves only then |
| `Lease.CoordinationStore.TryRenew` | bot-gateway/src/coordination.ts:114-123 | renews exactly a live lease that holds this value while the node is the target, by the node's full ttl from now, and changes nothing else |
| `Lease.CoordinationStore.TryRelease` | bot-gateway/src/coordination.ts:125-131 | deletes exactly a live lease that holds this value, and says whether it did |
| `Lease.CoordinationStore.SetDraining` | bot-gateway/src/coordination.ts:140-143 | sets or deletes the drain key and nothing else |
| `Lease.CoordinationStore.Authenticate` | bot-gateway/src/control-server.ts:246-260 | passes exactly the requests that name a node, and name node, epoch and generation of the live lease |
| `LeaseLife.AcquiredIff` | bot-gateway/src/coordination.ts:97-112 | in every run an acquisition is granted exactly to the shard's target, not draining, without a live lease; the grant names asker, lease id, generation, and an epoch above all earlier ones of the shard |
| `LeaseLife.LeaseLasts` | bot-gateway/src/coordination.ts:104-117 | a granted or renewed lease that is not released is current at every moment before its ttl has passed, and its holder's requests pass the fence |
| `LeaseLife.TendedLeaseIsKept` | bot-gateway/src/coordination.ts:114-123 | a holder that attempts a renewal within every ttl, while it stays the target, never loses its lease: each of those renewals succeeds, whatever other nodes do |
| `LeaseLife.LeaseEndsExactly` | bot-gateway/src/coordination.ts:104-117 | a lease neither renewed again nor released is current if and only if less than its ttl has passed since it was obtained |
| `LeaseLife.LostForGood` | bot-gateway/src/coordination.ts:97-131 | a lease that expired or was released is never current again, and its holder passes the fence only with a later epoch |
| `LeaseLife.ReleaseEnds` | bot-gateway/src/coordination.ts:125-131 | a release of the current lease leaves the shard without one at once; any other release changes nothing |
| `LeaseLife.FencePassesIff` | bot-gateway/src/control-server.ts:246-260 | in every run a request passes the fence exactly when it names node, epoch and generation of the newest lease granted on the shard, and that one is live |
| `LeaseLife.PassesAreChecks` | bot-gateway/src/control-server.ts:246-260 | only a request that passes is let through, and letting it through changes no key |
| `LeaseLife.DrainingLasts` | bot-gateway/src/coordination.ts:140-143 | a node is draining from the step that says so until the one that says otherwise |
| `LeaseLife.DrainingGetsNoLease` | bot-gateway/src/coordination.ts:100-143 | a node that is told to drain is granted no lease on any shard until it is told to stop |
| `LeaseLife.TargetLasts` | bot-gateway/src/coordination.ts:101-115 | the target that was set last is the one the scripts compare with |
| `Ledger.ClaimIsExclusive` | bot-gateway/src/state-worker.ts:166-207 | after a `new` claim at t no other claim is `new` before t + min(replayTtl, 900000 ms) unless released |
| `Ledger.CompletedReplyIsReplayed` | bot-gateway/src/state-worker.ts:166-207 | after a completion at t of a record still present, every claim before t + replayTtl returns the last completed reply |
| `Ledger.LeaseEndsOnTime` | bot-gateway/src/state-worker.ts:180-186 | the bound is tight: a claim left alone answers `processing` before now + min(replayTtl, 900000 ms) and `new` from then on |
| `Ledger.NextClaimIff` | bot-gateway/src/state-worker.ts:160-207 | over every run, what the next claim of a key gets after a completion, a new claim or a release, exactly, whatever is done to other keys in between: the reply or `processing` until the record's time is up, `new` afterwards |
| `Ledger.OthersUntouched` | bot-gateway/src/state-worker.ts:160-207 | an operation on another key, or a purge, takes a record away only when it has expired, and never alters it |
| `Ledger.ReplayStore.PurgeExpired` | bot-gateway/src/state-worker.ts:160-165 | exactly the expired records go, and the answer says whether any did |
| `Ledger.ReplayStore.ClaimKey` | bot-gateway/src/state-worker.ts:166-188 | the claim and the new table, for a missing, processing, completed or unreadable record; other records stay unless expired |
| `Ledger.ReplayStore.CompleteKey` | bot-gateway/src/state-worker.ts:189-198 | an update of a present record, nothing for a missing one |
| `Ledger.ReplayStore.ReleaseKey` | bot-gateway/src/state-worker.ts:199-207 | deletes a processing record only, and says whether it did |
| `GatewayInvariant.ApplyKeeps` | bot-gateway/src/gateway.ts:105-281 | every step keeps operations, both queues and the in-flight map in agreement; in particular each operation's task carries its event's connection and payload size |
| `GatewayRuns.StartingHolds` | bot-gateway/src/gateway.ts:58-70 | a process start satisfies the invariant, whatever table it finds |
| `GatewayIntake.ArrivalRecords` | bot-gateway/src/gateway.ts:105-130 | a delivery that joins no open operation starts one with its own event and key, which goes on to claim it exactly if it is valid |
| `GatewayIntake.InvalidIsTurnedBack` | bot-gateway/src/gateway.ts:129-145 | an event that fails validation is never claimed, queued or sent, whatever happens afterwards |
| `GatewayIntake.WaitingPayloads` | bot-gateway/src/gateway.ts:148-164 | in every run from a process start each task of the fair queue belongs to exactly one operation and carries its event's connection and payload size; the payloads of the waiting operations add up to `queuedBytes` and stay within the limit |
| `GatewayIntake.EntryIsRefusedIff` | bot-gateway/src/gateway.ts:148-179 | an operation is turned away on entering exactly when the queue stopped accepting, or it would have to wait and the waiting operations leave no room for it, for its connection or for its payload |
| `GatewayRuns.ClaimsBalance` | bot-gateway/src/gateway.ts:129-145 | over every run, `new` claims of a key and records lost balance: no claim is granted while a record is in force |
| `GatewayRuns.SendsNeedClaims` | bot-gateway/src/gateway.ts:206-281 | every send uses up a `new` claim of its own; every release follows a retryable transport error of its own |
| `GatewayRuns.AtMostOnce` | bot-gateway/src/gateway.ts:105-281 | in every run from a process start a key reaches the transport at most once, plus once per retryable error and per loss of its record by expiry, deletion or unreadable text |
| `GatewaySafety.OncePlusRetries` | bot-gateway/src/gateway.ts:276-279 | while the record neither expires nor is deleted: one send, and one more per retryable error |
| `GatewaySafety.RefusedNeverSent` | bot-gateway/src/gateway.ts:148-179 | an event the fair queue rejected, expired or cancelled is never sent, before or after |
| `GatewayReplies.AnswerIsReplayed` | bot-gateway/src/gateway.ts:206-281 | over every run with clock readings in order: once the answer to an event, or the reply that it needs none, is recorded, every later claim of the key before now + replayTtl, without a deletion, gets the last reply completed by then |
| `GatewayReplies.RefusalIsReplayed` | bot-gateway/src/gateway.ts:171-179 | so does the reply that refuses an event the fair queue turned away |
| `GatewayReplies.RetryStartsAfresh` | bot-gateway/src/gateway.ts:276-279 | after a retryable error the release of a record still processing lets the next delivery start afresh |
| `GatewayClaims.ClaimWrittenIff` | bot-gateway/src/gateway.ts:129-281 | over every run from a process start: an operation that claimed its event and has closed completed or released the record if and only if it neither missed its turn, nor found its conversation's queue full, nor ran into a failing state call |
| `GatewayClaims.LostClaimStaysUnwritten` | bot-gateway/src/gateway.ts:159-171 | a claim lost in one of these ways is written neither before nor after |
| `GatewayWitness.ClaimIsLeft` | bot-gateway/src/queue.ts:10-35 | a run that ends with an operation closed and its record still processing: by a timeout when waiting is limited, and at every depth by a full queue when both slot limits exceed it |
| `GatewayCapacity.NeverFull` | bot-gateway/src/queue.ts:11-13 | every open entry belongs to an operation that holds a slot, so if the slots, in all or of a connection, are no more than the depth per key, no run finds a conversation full (events of one conversation coming over one connection) |
| `GatewayCapacity.OnlyFailuresLoseClaims` | bot-gateway/src/gateway.ts:159-171 | if moreover waiting is not limited, a claim is lost only to a failing state call |
| `GatewayWitness.FullIff` | bot-gateway/src/gateway.ts:58-69 | a configuration can find a conversation full if and only if both slot limits exceed the depth per key |
| `GatewaySafety.MissedTurnLeavesClaim` | bot-gateway/src/gateway.ts:159-171 | after a timeout in the keyed queue the operation neither sends nor writes to the ledger |
| `GatewaySafety.OneTurnPerConversation` | bot-gateway/src/gateway.ts:159-161 | in runs without a cut two events of one conversation are never handled at the same time |
| `GatewaySafety.OneTurnWithoutWaitLimit` | bot-gateway/src/gateway.ts:58-61 | without a limit on waiting that holds of every run |
| `GatewaySafety.SlotsAreCapped` | bot-gateway/src/gateway.ts:62-69 | at most the global and per-connection number of operations hold a slot, and those sending are among them |
| `GatewaySafety.Coalesced` | bot-gateway/src/gateway.ts:105-119 | a repeated delivery joins the one open operation of its key |
| `Chunk.PointsAreCanonical` | bot-gateway/src/chunk.ts:7 | splitting into code points loses nothing and never leaves a splittable pair apart |
| `Chunk.MarkerEndsOnBoundary` | bot-gateway/src/chunk.ts:26-28 | wherever a marker occurs in the joined window, its end is a code-point boundary |
| `Chunk.CandidateIsLastEnd` | bot-gateway/src/chunk.ts:26-28 | the candidate is the last place, in code points, where the marker ends |
| `Chunk.CutIsPreferred` | bot-gateway/src/chunk.ts:22-34 | the cut is the last end of the first listed marker that ends late enough; a full-width cut only when none does |
| `Chunk.ChunksFit` | bot-gateway/src/chunk.ts:14-37 | the chunks concatenate to the text, are not empty, at most the limit, and all but the last have more than 0.55 · limit - 1 code points |
| `Chunk.ChunksAreCutWell` | bot-gateway/src/chunk.ts:14-37 | every chunk but the last is cut from its own window in the preferred way |
| `Chunk.MarkersInOrder` | bot-gateway/src/chunk.ts:22-34 | which marker wins, spelled out: blank line, line break, full stop, exclamation and question mark full width and then ASCII, semicolon likewise, space; full width only when none of them ends late enough |
| `Chunk.TextsFit` | bot-gateway/src/chunk.ts:1-40 | the same of the texts sent, measured by splitting them again |
| `Chunk.FindCut` | bot-gateway/src/chunk.ts:22-34 | the inner loop finds that cut |
| `Chunk.CutPoints` | bot-gateway/src/chunk.ts:10-39 | the outer loop produces those chunks |
| `Chunk.ChunkText` | bot-gateway/src/chunk.ts:1-40 | nothing for an empty text whatever the limit, an error for a bad limit, else chunks that concatenate to the text within those bounds |
| `Credentials.PairDetermines` | backend/open_webui/models/auths.py:226-283 | if session stamp and MFA revision agree at two moments of a run, password and MFA data agree then and at every moment between |
| `Credentials.NoLostUpdate` | backend/open_webui/models/auths.py:237-259 | a compare-and-swap that succeeds had read the current credentials, unchanged since |
| `Credentials.ActsOnCurrent` | backend/open_webui/models/auths.py:261-283 | what a successful write puts in place is what it would compute from the row itself |
| `Credentials.StaleSnapshotFails` | backend/open_webui/models/auths.py:401-421 | a snapshot from before a revocation, password or factor change can never be written back |
| `Credentials.AuthsTable.UpdateMfaById` | backend/open_webui/models/auths.py:237-259 | succeeds exactly on an active row with the snapshot's password, stamp and revision; then exactly the given data and a new revision, the stamp changed only on revoking, everything else and every other row kept; the returned snapshot is current |
| `Credentials.AuthsTable.RevokeSessionsByUserId` | backend/open_webui/models/auths.py:261-283 | the three outcomes and when; a fresh stamp, challenges cleared, password, factors and the absence of MFA data kept, every other row untouched |
| `Credentials.AuthsTable.UpdateUserPasswordById` | backend/open_webui/models/auths.py:401-421 | the three outcomes and when; the new password, a fresh stamp and revision, challenges cleared, factors kept, every other row untouched; or nothing at all |
| `CredentialEffects.WriteTakesIff` | backend/open_webui/models/auths.py:237-283 | over every run, a guarded write changes the rows exactly when the row still has the snapshot's stamp and revision and, unless it only revokes, is active with the snapshot's password |
| `CredentialEffects.PasswordIsChanged` | backend/open_webui/models/auths.py:401-421 | a successful password change leaves the new password, a stamp and a revision never used before, no challenge, and the factors and reset flag the row had at that moment |
| `CredentialEffects.SessionsAreRevoked` | backend/open_webui/models/auths.py:226-283 | a successful revocation leaves a new stamp and no challenge, the password and factors the row had, and no MFA data where there was none |
| `CredentialEffects.MfaIsUpdated` | backend/open_webui/models/auths.py:237-259 | a successful MFA update leaves exactly the given data and keeps the sessions unless it revokes them |
| `CredentialEffects.PasswordLasts` | backend/open_webui/models/auths.py:401-421 | a changed password stays the user's password through all other writes until it is changed again |
| `CredentialEffects.RevokedForGood` | backend/open_webui/models/auths.py:237-283 | a session stamp that was revoked is never the user's stamp again |
| `CredentialEffects.SessionsLast` | backend/open_webui/models/auths.py:237-283 | without a revoking write the stamp stays, whatever else is written |
| `ResponseStream.ReplayIsFold` | backend/open_webui/tasks.py:256-264 | for a handler additive on the events stored, replaying joined groups equals applying the deltas one by one |
| `ResponseStream.HarmlessIffAdditive` | backend/open_webui/tasks.py:256-264 | and additivity on those events is exactly what that needs |
| `ResponseStream.LoadStored` | backend/open_webui/tasks.py:256-264 | a snapshot line followed by delta lines loads as the snapshot with the deltas applied |
| `ResponseStream.AppendIsIdempotent` | backend/open_webui/tasks.py:237-253 | executing one length-checked append any number of times appends at most once |
| `ResponseStream.StoredLoadsAsPast` | backend/open_webui/utils/middleware.py:4593-4625 | whatever fails, is retried or expires: if replay agrees with the live update at every append, the stored value loads as an output the response had |
| `ResponseStream.TrustIffAgrees` | backend/open_webui/utils/middleware.py:4593-4625 | over every run, the stored value loads as the live output whenever the writer trusts its size, if and only if replay agrees with the live update at every trusted append |
| `ResponseDurability.DeltaIsAppendedIff` | backend/open_webui/utils/middleware.py:4606-4625 | exactly when a delta's line is added to the stored value, and exactly when the writer goes on trusting its size |
| `ResponseDurability.AtMostTwiceSnapshot` | backend/open_webui/utils/middleware.py:4618-4625 | a trusted value never exceeds twice the size of its snapshot |
| `ResponseDurability.NothingIsLost` | backend/open_webui/utils/middleware.py:4596-4625 | after a saved snapshot, while every delta is plain, answered and fits, the store holds all of them and loads as the deltas applied in turn; where replay agrees, that is the live output of this very moment |
| `ResponseEvents.HandlerIsAdditive` | backend/open_webui/utils/response.py:502-635 | the handler's delta branch is additive on every text delta that can be stored, apart from those that write `type` |
| `ResponseEvents.AddsIff` | backend/open_webui/utils/response.py:502-635 | exactly the headers that do not write an item's `type` are additive for all texts and outputs |
| `ResponseEvents.ItemAdds` | backend/open_webui/utils/response.py:525-631 | in every branch on delta and item type, two texts in turn leave the item as their concatenation does, and raise exactly when it does |
| `ResponsePlacement.SummaryPlaced` | backend/open_webui/utils/response.py:576-593 | a summary delta of a reasoning item adds its text to part `summary_index` of `summary`, missing parts filled in as `summary_text`, every other part and key unchanged; it raises exactly for a value that is no list or an index before its start |
| `ResponsePlacement.ReasoningPlaced` | backend/open_webui/utils/response.py:595-613 | a reasoning delta of a reasoning item does so to part `content_index` of `content`, filled in as `text` |
| `ResponsePlacement.MessagePlaced` | backend/open_webui/utils/response.py:541-571 | a delta of a message does so to its `content`, under `text` for `text` and `output_text` and under its own name otherwise |
| `ResponsePlacement.ArgumentsPlaced` | backend/open_webui/utils/response.py:532-536 | arguments are added to those of a function call and nothing else changes; a value there that is not text raises |
| `ResponsePlacement.OtherPlaced` | backend/open_webui/utils/response.py:621-631 | an item of another type gets the text under the key the delta names, everything else unchanged |
| `ResponsePlacement.SkippedUnchanged` | backend/open_webui/utils/response.py:532-619 | arguments for other items, reasoning for a message and text for a reasoning item change nothing |
| `ResponsePlacement.OneItemTouched` | backend/open_webui/utils/response.py:509-633 | a delta touches the item at `output_index`, the last by default, and no other; the output is extended to reach it by message placeholders and an item of the delta's own type and id |
| `ResponsePlacement.NothingTouched` | backend/open_webui/utils/response.py:502-635 | events that are no deltas, and those with a negative index, leave the output as it was |
| `ResponsePlacement.DeltaTypeIff` | backend/open_webui/utils/response.py:502-506 | the type of a delta is the part of the kind between `response.` and the next dot, of a kind that ends in `.delta` |
| `ResponseLive.ShiftedHandles` | backend/open_webui/utils/middleware.py:4741-4747 | behind the output of earlier rounds, an event whose index means the same place is replayed as the handler did it |
| `ResponseLive.ProviderMatchesIff` | backend/open_webui/utils/middleware.py:4904-4907 | exactly when replaying a Responses API delta, index shifted, gives the live output: an index that is not negative, none with an item in the round, or a negative one that reaches or changes nothing |
| `ResponseLive.ChatMatchesIff` | backend/open_webui/utils/middleware.py:5310-5538 | exactly when replaying the stored delta does the Chat Completions update: text only to an item that ends in an `output_text` part, arguments only as accumulated; never for text that starts a message |
| `ResponseLive.MatchesIff` | backend/open_webui/utils/middleware.py:4904-5538 | for every update and every earlier output, replay gives the live output if and only if the update is safe |
| `ResponseLive.StreamTrustedIff` | backend/open_webui/utils/middleware.py:4593-4625 | over every run, what is stored loads as the live output whenever the writer trusts its size, if and only if every update it appended for was safe |
| `ResponseLive.SafeStreamLoadsAsPast` | backend/open_webui/tasks.py:237-264 | if all updates appended for were safe, a stored stream loads as an output the response had |
| `ResponseLive.NewMessageIsMisread` | backend/open_webui/utils/middleware.py:5449-5538 | a run in which the first text of a round leaves a stored value that loads as no output of the run while the writer trusts it |
| `ResponseStream.ReplayDeltas` | backend/open_webui/tasks.py:259-263 | the loop over groups computes the replay |
| `Analytics.BarsTile` | backend/open_webui/models/analytics_sessions.py:546-571 | the bars are the ordinals 1..n cut into contiguous, non-overlapping, non-empty runs |
| `Analytics.AtMost128Bars` | backend/open_webui/models/analytics_sessions.py:546-548 | at most 128 bars exactly when there are at most 128 group sizes of rows, so whenever rows do not exceed the responses counted |
| `Analytics.BarsConserve` | backend/open_webui/models/analytics_sessions.py:551-572 | tokens, recorded, complete and error counts of the bars add up to those of the rows |
| `Analytics.BarShows` | backend/open_webui/models/analytics_sessions.py:546-572 | each bar counts, of the rows from its first ordinal to its last, those with any token count, those with both and not incomplete, and those failed, and sums their known input and output tokens |
| `Analytics.OneRange` | backend/open_webui/models/analytics_sessions.py:176 | a recorded session is in exactly one range if its tokens are not negative, else in none |
| `Analytics.RangesInNumbers` | backend/open_webui/models/analytics_sessions.py:176 | the six ranges: 0, 1 to 999, 1000 to 9999, 10000 to 99999, 100000 to 999999, and 1000000 or more, of recorded sessions |
| `Analytics.TableIff` | backend/open_webui/models/analytics_sessions.py:203-209 | the table lists exactly the sessions within the given bounds, and the unrecorded ones only without any |
| `Analytics.BarIsTable` | backend/open_webui/models/analytics_sessions.py:203-237 | each bar counts the table filtered by its range |
| `Analytics.DistributionAccounts` | backend/open_webui/models/analytics_sessions.py:218-260 | distribution, unrecorded sessions and those with a negative sum add up to all sessions |
| `AccessGrants.DedupKeepsFirsts` | backend/open_webui/models/access_grants.py:308-313 | adding only what is not there yet keeps every member once, in order of first occurrence |
| `AccessGrants.ToGrantsIff` | backend/open_webui/models/access_grants.py:98-147 | which grants a control value has: public read, except for a file, or one for each group and user it lists to read and to write |
| `AccessGrants.FromGrantsIff` | backend/open_webui/models/access_grants.py:291-318 | the control value is public exactly when anybody may read, and otherwise lists exactly the groups and users granted, to read and to write |
| `AccessGrants.ControlRoundTrip` | backend/open_webui/models/access_grants.py:83-147 | what every access-control value becomes on its way to grants and back |
| `AccessGrants.CleanControlReturns` | backend/open_webui/models/access_grants.py:276-318 | a complete value without duplicates or wildcard reader that names somebody comes back unchanged |
| `AccessGrants.GrantsRoundTrip` | backend/open_webui/models/access_grants.py:276-318 | which grants remain on the way to the old format and back |
| `AccessGrants.GrantsKeptIff` | backend/open_webui/models/access_grants.py:276-318 | exactly when the set of grants is kept |
| `AccessGrants.UserIdsIff` | backend/open_webui/models/access_grants.py:713-741 | with a wildcard grant of the permission, every user who is not pending; without, exactly the users with a grant of their own or for a group that counts them among its members |
| `AccessGrants.RevokedIff` | backend/open_webui/models/access_grants.py:743-767 | reported as losing access are exactly those who had it by the grants before and have not by those after, unless the resource is now open to everybody |
| `AccessGrants.EarlyExitIff` | backend/open_webui/models/access_grants.py:743-767 | exactly when the early exit agrees with the full difference of the user sets |
| `AccessGrants.PendingUserIsMissed` | backend/open_webui/models/access_grants.py:762-763 | a pending user who loses access and is not reported |
| `AccessGrants.GrantsToAccessControl` | backend/open_webui/models/access_grants.py:291-318 | the loop computes the conversion from grants |
| `AccessGrants.AccessControlToGrants` | backend/open_webui/models/access_grants.py:98-147 | the loops compute the conversion to grants |
| `AccessGrants.GetUserIdsByAccessGrants` | backend/open_webui/models/access_grants.py:713-741 | the loop with its early return finds everybody for a wildcard in any place, else exactly the users granted themselves or through a group |

## Left out

- HTTP serving, HMAC, the nonce cache, the vault and the database and Redis drivers: only the atomic effect of each script or transaction is modelled.
- The gateway pipeline is a state machine on values, not a class: its state lives in suspended calls, which a Dafny method cannot be. Each `await` ends a step, and steps of different calls interleave freely, which allows more orders than the microtask queue does.
- The fair queue settles a promise and runs the `finally` after it in one step, and its tasks do not call back into the queue while it drains.
- `nextEligible`'s branch for an empty queue in the rotation (bot-gateway/src/queue.ts:239-243) is ruled out by the invariant and has no counterpart.
- A state call that fails in the gateway is taken not to have changed the table.
- Injectivity of `conversationKey` and `eventKey`: keys are given. The in-flight key is built from the raw input and the replay key from the validated event, and the at-most-once theorem does not rely on their agreeing.
- `deleteConnection`'s choice of replay rows: any set of keys may be deleted.
- `RedisCoordinator.current` reads value and time to live separately; only the value matters to the fence. The client's `expiresAt` is advisory. The fence is judged at the moment of that read.
- Load decay, metrics, logging and heartbeats.
- MinimumBreak: floor(0.55 · limit) in exact arithmetic, because the product in double precision differs only for limits near 2^53.
- Unicode lower-casing: any function in the LIKE theorems, with the hypothesis `LowersAroundEscapes` in the search theorem; JSON codecs are injective and newline-free; UUIDs are new.
- Credential rows: the JSON of a stored MFA value always holds a revision, and the two statements of a password change are one transaction.
- The streaming event handler is modelled on its delta branch and for text deltas, the only ones stored. An index that is JSON null is not modelled, and a `content` or `summary` that is not a list of parts raises.
- Of the live updates, those for which a delta can be stored are modelled. A chunk with several tool calls stores one delta for each after changing all of them, and is not modelled; nor are tag detection and the end of a reasoning item, which force a snapshot. A retried append arrives before the next snapshot.
- Chart offsets, model names and timing columns; sorting and paging of the session list: plain aggregates.
- How groups inherit members and which users count as pending: given sets.
- Recurrence of automations and calendars, configuration, migrations, the front end.
