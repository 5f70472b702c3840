# Verification model of the Jito transaction relayer

The relayer sits between Solana clients and validators. It tracks slots from several RPC
servers, learns who the leaders are, authenticates validators, holds packets back for a
short delay, filters them, and hands them to the subscribed validators and to the block
engine. It is a pipeline of small concurrent state machines that share clocks, bounded
channels and maps. This project models those machines in Dafny and proves what they keep
over whole runs.

`dafny verify dfyconfig.toml` checks everything.

## How it is put together

Each component has one module, in the form its code has: classes with the fields the code
updates, methods with the loops the code has, functions where the code is an expression.
Where steps of several threads or requests interleave, the component is also a state
machine: `Step` is one atomic step, `Exec` a whole run, and a step that is not enabled
leaves the state alone. The class methods are proved to be those steps; the theorems are
about all runs. In the forwarder the class is one thread's loop and the machine the
interleaving of many; `ForwarderTurns` shows the turns of the loop to be enabled steps of it.

| module | what it is about |
|---|---|
| `LoadBalancer`, `ServerEntries` | N subscription threads: insert, `fetch_max` and send as separate steps; what the server map says |
| `HealthManager`, `SlotPipeline`, `HealthBound` | the timed health monitor; the slot path from the threads to the relayer; the time to disconnect everybody |
| `Relayer`, `FanOutProofs`, `RelayerRuns` | the event loop; one fan-out; whole runs of the loop |
| `QueueLaws`, `BreakEffects` | which messages reach a queue, in numbers; what it costs that a fan-out stops at the first closed channel |
| `AuthChallenges`, `AuthService` | the challenge store; handlers as whole requests and as lock-sized steps |
| `AuthRuns`, `AuthLifetimes`, `AuthScenarios` | whole runs of interleaved handlers; how long challenges stay; runs that attain the bounds |
| `Forwarder`, `ForwarderThreads`, `ForwarderTurns` | one delay thread; any number of them on one receiver; the one as steps of the other |
| `InterestCache`, `BlockEngineFilter`, `InterestRule`, `TokenUpkeep` | the time-limited interest caches; the block engine filter and what it comes to; the client tokens |
| `LookupTables`, `Ofac`, `ScheduleCache` | the lookup-table cache under refresh; the sanctions test; the leader schedule |
| `Common`, `Transactions` | shared values |

What the program cannot decide is an input: arrivals, clock readings, RPC answers, the
iteration order of hash maps and hash sets, and what subscribers do to their queues before
each send (the `moves` of a packet or heartbeat event). Theorems hold for all of them.

## Assumptions

- Atomic operations and locked sections take effect one after another; `fetch_max` has one
  modification order.
- A signature verifies only for the key and message it was made with, and a token verifies
  only if this service signed it. A presented refresh token is therefore named by its place
  among the issued tokens.
- `TimedCache` keeps a stamp per key, answers while the whole seconds of age are fewer than
  the lifespan, and a look-up does not renew the stamp. The keyed priority queue replaces the
  priority of a key that is pushed again and hands out a largest priority. Both libraries are
  not part of this model.
- The monotonic clock does not run backwards; "on time" hypotheses of timed results are
  spelled out in the lemmas.

## Where code and documentation differ

The model follows the code.

- The health manager is said to become healthy once slot updates are received regularly; the
  start counts as an update, so it is healthy without any slot for one threshold
  (`HealthManager.HealthyWithoutAnySlot`).
- `highest_slot` in the relayer is the latest slot taken, not the largest
  (`RelayerRuns.LeadersMatchLatestSlot`), and it falls in some run as soon as there are two
  servers (`SlotPipeline.IncreasesExactlyWithOneServer`).
- The `break` on a closed channel ends the loop over subscribers for that batch, so an open
  subscriber behind it can get nothing of an event (`BreakEffects.OpenSubscriberGetsNothing`).
  Everybody still connected is counted in full in every run exactly if not everybody is
  served and the lookahead is at most one slot (`BreakEffects.BreakHarmlessConfigurations`).
- The removal counter is documented as the number of connections dropped. The next batch
  fails on the same key again and is counted again (`BreakEffects.RemovalsOvercounted`); the
  counter is right in every run exactly if the relayer serves nobody
  (`BreakEffects.RemovalsRightConfigurations`), for one event exactly if it has at most one
  batch or nobody to send to (`BreakEffects.RemovalCounterRightExactly`).
- The heartbeat count restarts with every metrics report (`RelayerRuns.HeartbeatCountRestarts`).
- `get_priority` is documented to return nothing for an expired challenge, and the token
  handler does not look at the expiry either: only the cleanup enforces it
  (`AuthLifetimes.ExpiryOnlyThroughCleanup`, `AuthScenarios.ExpiredChallengeAccepted`).
- A challenge is meant for one token pair; two overlapping responses get two
  (`AuthScenarios.TwoPairsFromOneChallenge`, `AuthRuns.OnePairExactlyWhenUnshared`).
- The comment on the client tokens says their expiry was checked when connecting; a renewed
  access token is not checked again (`TokenUpkeep.PanicsExactly`).
- Claims carry no token kind, so an access token can be presented as a refresh token, and chains
  of refreshes are unbounded (`AuthRuns.AcceptedByExpiryAlone`, `AuthScenarios.ChainsAreUnbounded`).

## Model

| member | source | states |
|---|---|---|
| `LoadBalancer.SharedSlots.RecordServerSlot` | rpc/src/load_balancer.rs:187-188 | a notification writes its slot under the thread's server and nothing else; it is the machine's insert step |
| `ServerEntries.EntryIsLatestSlot` | rpc/src/load_balancer.rs:187-188 | after every run the entry of a server is the slot it notified last, through whichever of its threads, and 0 if it notified none |
| `ServerEntries.ClientIsFurthest` | rpc/src/load_balancer.rs:255-278 | the client handed out on that map is one of a server whose last notified slot is largest |
| `ServerEntries.NotificationsFetchedOnce` | rpc/src/load_balancer.rs:187-200 | every notification reaches `fetch_max` exactly once, or is on the way from the map to it |
| `ServerEntries.HighestIsLargestNotified` | rpc/src/load_balancer.rs:199-200 | with nothing on the way the shared maximum is the largest slot ever notified, or 0 |
| `LoadBalancer.SharedSlots.RaiseHighest` | rpc/src/load_balancer.rs:199-200 | `fetch_max` returns the previous maximum, keeps the larger value, and only a larger slot is up for sending |
| `LoadBalancer.SharedSlots.SendSlot` | rpc/src/load_balancer.rs:202-206 | a send appends the slot, reports a gone receiver, or blocks exactly when the queue is full |
| `LoadBalancer.GetHighestSlot` | rpc/src/load_balancer.rs:270-278 | the answer is a server with the largest slot, the last such one in iteration order; an empty server list is the only failure |
| `LoadBalancer.RpcClient` | rpc/src/load_balancer.rs:255-263 | the client returned belongs to a server furthest ahead, and the look-up never fails |
| `LoadBalancer.ServersNeverChange` | rpc/src/load_balancer.rs:82-108 | no run adds or loses a server, so every server keeps its client |
| `LoadBalancer.ReachableStates` | rpc/src/load_balancer.rs:146-208 | for every interleaving: slots sent plus slots held are the record highs of the `fetch_max` order, none twice; each thread's sends increase; the maximum is right; the queue keeps to its capacity; a server entry runs ahead only between insert and `fetch_max` |
| `LoadBalancer.RecordHighsAppend` | rpc/src/load_balancer.rs:199-202 | a further `fetch_max` adds a record high exactly when it exceeds everything before |
| `LoadBalancer.HighestIsSentOrHeld` | rpc/src/load_balancer.rs:198-208 | with a live receiver the shared maximum is 0, or was sent, or is about to be |
| `LoadBalancer.BoundedDisorder` | rpc/src/load_balancer.rs:187-208 | with N threads at most N - 1 smaller slots follow a sent slot |
| `LoadBalancer.DisorderBoundIsTight` | rpc/src/load_balancer.rs:187-208 | for every N > 0 some interleaving attains N - 1 |
| `SlotPipeline.RelayIsFaithful` | relayer/src/health_manager.rs:124-130 | the monitor passes slots on unchanged and in order, and the relayer's slot is the last one it took |
| `SlotPipeline.HighestSlotRegressesBoundedly` | relayer/src/relayer.rs:846-855 | after taking a slot the relayer's `highest_slot` is set below it at most N - 1 more times, and no slot is taken twice |
| `SlotPipeline.SingleServerIncreases` | relayer/src/relayer.rs:846-855 | with at most one server `highest_slot` only increases, although it is overwritten rather than maximised |
| `SlotPipeline.HighestSlotCanFall` | relayer/src/relayer.rs:846-855 | with two or more servers some run of the whole path makes `highest_slot` fall |
| `SlotPipeline.IncreasesExactlyWithOneServer` | relayer/src/relayer.rs:846-855 | `highest_slot` increases in every run exactly with at most one server |
| `SlotPipeline.RegressionBoundIsTight` | relayer/src/relayer.rs:846-855 | for every N > 0 some run sets `highest_slot` below a slot it has taken N - 1 times |
| `HealthManager.HealthManager.Turn` | relayer/src/health_manager.rs:103-144 | one turn of the monitor is the machine's step for the arm taken |
| `HealthManager.LastUpdateIsLatest` | relayer/src/health_manager.rs:94-130 | `last_update` is the latest of the start and all handled slots |
| `HealthManager.CheckVerdict` | relayer/src/health_manager.rs:105-114 | a check says healthy exactly when a slot was handled, or the monitor started, at most the threshold ago |
| `HealthManager.UnhealthyExactlyAtGaps` | relayer/src/health_manager.rs:105-114 | the state is set unhealthy exactly at checks that find a gap larger than the threshold |
| `HealthManager.HealthIsLastVerdict` | relayer/src/health_manager.rs:87-116 | between checks the state is what the last check found, and unhealthy before the first |
| `HealthManager.HealthyWithoutAnySlot` | relayer/src/health_manager.rs:94 | start-up counts as a slot update: a relayer without any slot is declared healthy for one threshold |
| `HealthManager.UnhealthyInTime` | relayer/src/health_manager.rs:99-121 | with on-time checks and no slot after t0, the state is unhealthy by t0 + T + T/2 |
| `HealthBound.HealthIsMonitored` | relayer/src/health_manager.rs:101-121 | the health a heartbeat reads is that of the monitor's part of the combined run |
| `HealthBound.OldConnectionsStayGone` | relayer/src/relayer.rs:614-631 | once everybody has been dropped, only channels opened later are ever connected |
| `HealthBound.ConnectionsClearedInTime` | relayer/src/relayer.rs:614-631 | with on-time ticks and no slot after t0, a heartbeat after t0 + T + T/2 and at most 500 ms later leaves nobody connected, and every connection there was until then has ended for good |
| `Relayer.RelayerImpl.constructor` | relayer/src/relayer.rs:578-589 | the loop starts with no leaders, slot 0, fresh metrics and no subscriptions |
| `Relayer.RelayerImpl.UpdateHighestSlot` | relayer/src/relayer.rs:592-599 | a slot event overwrites `highest_slot` and recomputes the leaders |
| `Relayer.RelayerImpl.HandlePackets` | relayer/src/relayer.rs:601-606 | a packet event is the machine's step: filter, chunk, fan out, drop |
| `Relayer.RelayerImpl.ForwardPackets` | relayer/src/relayer.rs:715-813 | queues, counters and the failed list after all batches, with subscribers acting between sends |
| `Relayer.RelayerImpl.TrySend` | relayer/src/relayer.rs:789-810 | a send finds the channel closed, or full when its unread messages reach the capacity, and otherwise appends the message |
| `Relayer.RelayerImpl.SendBatch` | relayer/src/relayer.rs:787-811 | one batch goes to the subscribers in order and the loop ends at the first closed channel |
| `Relayer.RelayerImpl.CountOutcome` | relayer/src/relayer.rs:793-809 | each outcome is counted for its subscriber |
| `Relayer.RelayerImpl.IncrementForwarded` | relayer/src/relayer.rs:208-216 | saturating addition to the forwarded counter, or a new entry |
| `Relayer.RelayerImpl.IncrementDropped` | relayer/src/relayer.rs:218-226 | saturating addition to the dropped counter, or a new entry |
| `Relayer.RelayerImpl.DropSubscriptions` | relayer/src/relayer.rs:663-680 | the listed keys leave the map; the removal counter grows by the length of the list |
| `Relayer.RelayerImpl.HandleSubscription` | relayer/src/relayer.rs:815-844 | a subscription opens a new channel, replacing an older one, and counts only new keys |
| `Relayer.RelayerImpl.HandleHeartbeatTick` | relayer/src/relayer.rs:614-631 | healthy: heartbeats and removal of closed channels; unhealthy: everybody is dropped |
| `Relayer.RelayerImpl.SendHeartbeats` | relayer/src/relayer.rs:682-712 | every subscriber is tried, full queues are counted, closed ones reported, the count goes up once |
| `Relayer.RelayerImpl.ReportMetrics` | relayer/src/relayer.rs:633-651 | a report resets all counters |
| `Relayer.SplitIntoChunks` | relayer/src/relayer.rs:759-766 | the chunking loop |
| `FanOutProofs.ChunksMeaning` | relayer/src/relayer.rs:759-784 | chunks concatenate to the packets, are never empty nor longer than the batch size, and all but the last are full; the guard against empty batches never fires |
| `FanOutProofs.ChunksAreUnique` | relayer/src/relayer.rs:759-766 | there is no other way to cut the packets like that |
| `FanOutProofs.ChunksPrefix` | relayer/src/relayer.rs:759-766 | the first k chunks hold the first k times batch size packets |
| `FanOutProofs.TriedPrefix` | relayer/src/relayer.rs:787-811 | the subscribers tried are those up to and including the first closed one |
| `FanOutProofs.ClosedTryIsClosed` | relayer/src/relayer.rs:804-808 | a channel reported closed is closed from then on |
| `FanOutProofs.TriedPrefixesShrink` | relayer/src/relayer.rs:777-811 | over the batches of one event the tried prefix never grows once a closed channel was met |
| `FanOutProofs.DropListRepeats` | relayer/src/relayer.rs:804-808 | the failed list has one entry per batch from the first that met a closed channel on |
| `FanOutProofs.CountersAreTallies` | relayer/src/relayer.rs:793-803 | each subscriber's counters grow by the sizes of the batches with that outcome, saturating |
| `FanOutProofs.NoClosedChannelFullAccount` | relayer/src/relayer.rs:777-811 | without a closed channel forwarded + dropped equals the number of filtered packets, for every subscriber tried |
| `FanOutProofs.FanOutHistory` | relayer/src/relayer.rs:787-811 | a queue gets the message exactly when its try succeeded |
| `FanOutProofs.FanOutAllHistory` | relayer/src/relayer.rs:777-811 | over one event a queue grows by the batches delivered to it, in order |
| `FanOutProofs.ReceivedIsSubsequence` | relayer/src/relayer.rs:777-811 | the delivered batches are an in-order subsequence of all batches |
| `FanOutProofs.ForwardedIsEnqueued` | relayer/src/relayer.rs:793-797 | the forwarded tally is the number of packets put on the queue |
| `RelayerRuns.StreamIsSubsequence` | relayer/src/relayer.rs:591-612 | over any run a subscriber's packets are an in-order subsequence of the filtered packets of the events since it subscribed whose audience it was in, in non-empty batches of at most the configured size |
| `RelayerRuns.FilteredIsClean` | relayer/src/relayer.rs:732-755 | the filter passes exactly the wire forms of the clean arrivals, in order |
| `RelayerRuns.DeliveredPacketsAreClean` | relayer/src/relayer.rs:732-757 | a subscriber's stream is the wire forms of an in-order selection of the clean arrivals of the events since it subscribed whose audience it was in, one arrival for each packet delivered: none discarded and, with sanctions in force, each decoded and without a sanctioned account under the cache as its tables were read |
| `RelayerRuns.OnlyAudienceReceives` | relayer/src/relayer.rs:768-775 | only channels in the map get anything, and packets only those of current slot leaders unless all are served |
| `RelayerRuns.PacketAccounting` | relayer/src/relayer.rs:777-811 | counters, queues and the filter agree over one packet event |
| `RelayerRuns.CountersOfRun` | relayer/src/relayer.rs:208-226 | in every reachable state the counters of a key are the packets put on its queues and those its full queues refused since the last metrics report, saturating |
| `RelayerRuns.StepDrops` | relayer/src/relayer.rs:663-680 | a key leaves only after its channel was seen closed or at an unhealthy heartbeat |
| `RelayerRuns.ConnectionHistory` | relayer/src/relayer.rs:815-844 | in every reachable state a key maps to the channel of its latest subscription, and is missing only for one of those two reasons |
| `RelayerRuns.UnhealthyHeartbeatClears` | relayer/src/relayer.rs:622-631 | the map is empty right after an unhealthy heartbeat |
| `RelayerRuns.DropListEffect` | relayer/src/relayer.rs:670-679 | exactly the keys not seen closed remain, however often a key is on the list |
| `RelayerRuns.RemovalCounterRepeats` | relayer/src/relayer.rs:668 | the removal counter grows by the number of batches from the first that met a closed channel on |
| `QueueLaws.MovesExactly` | relayer/src/relayer.rs:498 | each read takes one message off a channel while there is one, and only a hang-up closes it |
| `QueueLaws.FanOutExactly` | relayer/src/relayer.rs:787-811 | a subscriber gets the message exactly if nobody before it has hung up (packets only), it has not itself, and after its reads fewer unread messages than the capacity are waiting; otherwise the try reports closed, full, or is not made |
| `QueueLaws.RoundExactly` | relayer/src/relayer.rs:777-811 | the same for the b-th batch of an event, in the state the batches before it leave |
| `QueueLaws.EventIsItsStages` | relayer/src/relayer.rs:777-811 | an event leaves the channels as its last batch does |
| `QueueLaws.EverythingWithRoom` | relayer/src/relayer.rs:732-811 | in any state, if nobody served hangs up, a subscriber with room for all batches gets every clean packet of the event, in order |
| `QueueLaws.FirstPacketsThatFit` | relayer/src/relayer.rs:732-811 | if it reads nothing meanwhile it gets exactly the first packets, as many as its free places hold in full batches |
| `QueueLaws.StreamIsComplete` | relayer/src/relayer.rs:591-612 | in a run that always leaves room a subscriber's stream is all clean arrivals since it subscribed of the events whose audience it was in |
| `QueueLaws.HeartbeatExactly` | relayer/src/relayer.rs:682-712 | at a healthy tick a subscriber stays in the map exactly if it has not hung up by its try, and is sent the count exactly if it then has a free place |
| `QueueLaws.EverySubscriberTicks` | relayer/src/relayer.rs:689-708 | every subscriber has its turn at a healthy tick, once |
| `QueueLaws.HeartbeatsRefused` | relayer/src/relayer.rs:697-703 | the counter of full heartbeat queues grows by the subscribers found without a free place |
| `QueueLaws.PacketRemovalExactly` | relayer/src/relayer.rs:663-680 | at a packet event a subscriber leaves the map exactly if some batch stops at it: it has hung up and nobody before it has |
| `QueueLaws.ConnectionsBalance` | relayer/src/relayer.rs:663-680 | apart from packet events and reports the counters added and removed tell how the number of subscribers changes |
| `BreakEffects.CountedInFullExactly` | relayer/src/relayer.rs:787-811 | over one event forwarded + dropped of a subscriber equals the number of filtered packets exactly if every batch tried it and found its channel open |
| `BreakEffects.HangUpEndsEverything` | relayer/src/relayer.rs:804-808 | if the first subscriber hangs up before its send, every batch of the event tries only that one |
| `BreakEffects.HangUpStarves` | relayer/src/relayer.rs:804-808 | in that case an open subscriber further back gets nothing, forwarded or dropped |
| `BreakEffects.OpenServedExactly` | relayer/src/relayer.rs:777-811 | whatever subscribers do meanwhile, those whose channel stays open are counted in full, exactly if there is no batch or nobody behind the first is open |
| `BreakEffects.BreakHarmlessExactly` | relayer/src/relayer.rs:768-811 | the same for a packet event in one iteration order, in terms of the packets left by the filter |
| `BreakEffects.OpenSubscriberGetsNothing` | relayer/src/relayer.rs:804-808 | for any open subscriber that is not first in the order, a packet event that leaves it without any of the packets |
| `BreakEffects.BreakHarmlessInEveryOrder` | relayer/src/relayer.rs:768-811 | in every iteration order everybody still connected is counted in full, exactly if the filter leaves nothing or an open subscriber is alone in the audience |
| `BreakEffects.BreakHarmlessConfigurations` | relayer/src/relayer.rs:768-811 | everybody still connected is counted in full at every packet event of every run exactly if not all are served and the lookahead is at most one slot |
| `BreakEffects.CountedAndLeaving` | relayer/src/relayer.rs:663-680 | the counter grows by the length of the failed list, the map shrinks by the number of different keys on it |
| `BreakEffects.RemovalsOvercounted` | relayer/src/relayer.rs:99-100 | a packet event of two batches or more that drops one connection and counts one for every batch |
| `BreakEffects.RemovalCounterRightExactly` | relayer/src/relayer.rs:99-100 | whatever subscribers do, a packet event counts the connections dropped exactly if it has at most one batch or nobody to send to |
| `BreakEffects.RemovalsRightConfigurations` | relayer/src/relayer.rs:99-100 | the count is right at every packet event of every run exactly if not all are served and the lookahead is zero slots |
| `RelayerRuns.LeadersMatchLatestSlot` | relayer/src/relayer.rs:592-599 | `highest_slot` is the latest slot taken and the leaders are exactly those of its lookahead window in the schedule then held |
| `RelayerRuns.HeartbeatCountRestarts` | relayer/src/relayer.rs:633-651 | a heartbeat carries the number of heartbeats since the last metrics report |
| `AuthChallenges.ChallengeQueue.Peek` | relayer/src/auth_challenges.rs:83-101 | the top of the reversed queue is a challenge with the earliest expiry |
| `AuthChallenges.ChallengeQueue.RemoveAllExpired` | relayer/src/auth_challenges.rs:113-123 | popping with a clock read again for each challenge ends, and leaves exactly the challenges not expired at the last reading |
| `AuthChallenges.ChallengeQueue.Push` | relayer/src/auth_challenges.rs:133-136 | one challenge per address, the new one replaces the old |
| `AuthChallenges.ChallengeQueue.Remove` | relayer/src/auth_challenges.rs:168-171 | removal is by address |
| `AuthService.AuthServiceImpl.GenerateAuthChallenge` | relayer/src/auth_service.rs:267-330 | the whole handler, uninterrupted: an unexpired challenge of the address is answered again, otherwise the new text for an authorized validator, which is then stored; a refusal has the status of the first failing check and leaves the store alone |
| `AuthService.ChallengeRefusalMeaning` | relayer/src/auth_service.rs:267-330 | which checks give which status |
| `AuthService.AuthServiceImpl.GenerateAuthTokens` | relayer/src/auth_service.rs:332-449 | the whole handler: for a signature by the challenge's key over `pubkey-challenge` the answer is the two tokens recorded as issued, with the claims of the stored challenge, which is gone afterwards; a refusal has the status of the first failing check and changes nothing |
| `AuthService.TokenRefusalMeaning` | relayer/src/auth_service.rs:332-394 | which checks give which status |
| `AuthService.SignatureFitsOneChallenge` | relayer/src/auth_service.rs:365-394 | a signature that answers one challenge answers no other |
| `AuthService.AuthServiceImpl.RefreshAccessToken` | relayer/src/auth_service.rs:451-503 | a verified, unexpired token is answered with the token then recorded as issued: same owner, expiring an access lifetime from now; anything else is refused with its status and changes nothing |
| `AuthService.AuthServiceImpl.ExpireChallengesTask` | relayer/src/auth_service.rs:199-203 | one cleanup of the queue is the machine's cleanup step at its last clock reading |
| `AuthService.ChallengeRequestEffect` | relayer/src/auth_service.rs:267-330 | the three lock-sized steps together store a challenge exactly when all checks pass and no unexpired one is stored |
| `AuthService.TokenRequestEffect` | relayer/src/auth_service.rs:332-449 | the two lock-sized steps together issue one pair and remove the challenge exactly when the response is accepted |
| `AuthRuns.ProvenanceInvariant` | relayer/src/auth_service.rs:302-327 | every stored challenge was authorized, every verified handler and every token has a signed origin, for all interleavings |
| `AuthRuns.TokenProvenance` | relayer/src/auth_service.rs:349-431 | every token, through any chain of refreshes, carries the address and key of an authorized stored challenge; the chain starts with that challenge's own lifetimes at a signature over `pubkey-challenge`, and every link presented an unexpired token |
| `AuthRuns.CapacityUnderInterleaving` | relayer/src/auth_service.rs:274-327 | with at most K handlers between length check and push, at most capacity + K - 1 challenges are stored |
| `AuthScenarios.CapacityBoundIsTight` | relayer/src/auth_service.rs:274-327 | for every K some run that never has more than K such handlers attains that bound |
| `AuthRuns.UnsharedYieldsOnePair` | relayer/src/auth_service.rs:349-431 | a challenge never held by two handlers at once yields at most one pair |
| `AuthRuns.SharedYieldsTwoPairs` | relayer/src/auth_service.rs:349-431 | a challenge once held by two handlers that are not abandoned yields two pairs |
| `AuthRuns.OnePairExactlyWhenUnshared` | relayer/src/auth_service.rs:349-431 | when all handlers have ended, at most one pair per challenge holds exactly if no two handlers held it at once |
| `AuthScenarios.TwoPairsFromOneChallenge` | relayer/src/auth_service.rs:349-431 | two overlapping responses do get two pairs from one challenge |
| `AuthRuns.AtomicHandlers` | relayer/src/auth_service.rs:266-449 | with handlers run one at a time the store keeps to its capacity and each challenge yields at most one pair |
| `AuthRuns.AcceptedByExpiryAlone` | relayer/src/auth_service.rs:455-478 | in every reachable state a presented token gets a new access token exactly until its own expiry, fixed by its kind and the time of its challenge or refresh, whichever token of a pair it is |
| `AuthScenarios.ChainsAreUnbounded` | relayer/src/auth_interceptor.rs:43-48 | an access token is refreshed in place of a refresh token, and refresh chains of any length start at one |
| `AuthLifetimes.StoredUntilEnded` | relayer/src/auth_challenges.rs:113-171 | after any run a challenge is still stored exactly if since its push nothing replaced it, no pair was issued to its address and no cleanup came at or after its expiry |
| `AuthLifetimes.ExpiryOnlyThroughCleanup` | relayer/src/auth_service.rs:349-394 | after any run a response is admitted exactly if it is the right one and none of those three has happened; the time of the request plays no part |
| `AuthLifetimes.StorageTimeBounded` | relayer/src/auth_service.rs:190-205 | with on-time cleanups every stored challenge was pushed at most its lifetime plus one interval ago, for every interleaving |
| `AuthScenarios.ExpiredChallengeAccepted` | relayer/src/auth_challenges.rs:146-159 | without a cleanup an expired challenge is accepted at any later time, against the documentation |
| `Forwarder.ForwardThread.Receive` | transaction-relayer/src/forwarder.rs:67-107 | a received batch is stamped, counted, offered to the block engine and buffered; a closed block engine queue panics |
| `Forwarder.ReceiptMeaning` | transaction-relayer/src/forwarder.rs:76-101 | with the mempool on a batch is copied as long as the queue has a free place and counted as refused otherwise |
| `Forwarder.ForwardThread.Drain` | transaction-relayer/src/forwarder.rs:114-131 | received = sent ++ buffered before and after; every batch that leaves was stamped at least the delay before the reading made for it, and the one left in front was not |
| `Forwarder.DrainMeaning` | transaction-relayer/src/forwarder.rs:114-118 | the front-only loop stops at the first batch whose stamp plus delay lies after its reading |
| `ForwarderTurns.ReceiveIsTakeAndStamp` | transaction-relayer/src/forwarder.rs:67-107 | receiving a batch is two steps of the machine of all threads |
| `ForwarderTurns.DrainIsPops` | transaction-relayer/src/forwarder.rs:114-131 | a drain is one enabled pop after the other, each followed by its send, and the pop it leaves out is not enabled |
| `Forwarder.ForwardThread.Report` | transaction-relayer/src/forwarder.rs:56-65 | a new metrics window starts from zero |
| `Forwarder.ReceivedCounts` | transaction-relayer/src/forwarder.rs:76-101 | within a window the counters are the sizes of what happened, and block engine packets forwarded + dropped = packets received when the mempool is on |
| `Forwarder.DrainReleasesTheRipe` | transaction-relayer/src/forwarder.rs:114-118 | every batch ripe when the drain began leaves, and none leaves before its age reaches the delay |
| `Forwarder.FrontScanIsFullScan` | transaction-relayer/src/forwarder.rs:114-118 | looking at the front only releases the same batches as scanning the whole buffer |
| `ForwarderThreads.EachThreadKeepsOrder` | transaction-relayer/src/forwarder.rs:34-38 | with any number of threads, what a thread sent and then what it holds is exactly what it received, in order |
| `ForwarderThreads.EveryBatchInOnePlace` | transaction-relayer/src/forwarder.rs:55-131 | every received batch is on the output or with one thread, exactly once |
| `ForwarderThreads.EmptyHandedOutputIsAPermutation` | transaction-relayer/src/forwarder.rs:55-131 | once the threads hold nothing the output is a permutation of the input |
| `ForwarderThreads.OneThreadKeepsInputOrder` | transaction-relayer/src/main.rs:701-709 | the deployed single thread keeps the full input order |
| `ForwarderThreads.InputOrderKeptExactly` | transaction-relayer/src/forwarder.rs:34-38 | every run keeps the input order exactly when there is at most one thread |
| `ForwarderThreads.NothingReleasedEarly` | transaction-relayer/src/forwarder.rs:114-118 | in every reachable state each thread's stamps are non-decreasing and nothing was released before its delay |
| `InterestCache.TimedCache.CacheSet` | block_engine/src/block_engine.rs:571-573 | a set stamps the key with the time of the call |
| `InterestCache.TimedCache.CacheGet` | block_engine/src/block_engine.rs:731-733 | a look-up finds a key exactly when an update named it within the lifespan |
| `InterestCache.TimedCache.FlushExpired` | block_engine/src/block_engine.rs:461-464 | a flush leaves exactly the keys of interest |
| `InterestCache.InterestIsARecentUpdate` | block_engine/src/block_engine.rs:377-381 | for every mix of updates, look-ups and flushes a key is found exactly when some update named it within the lifespan |
| `InterestCache.LookupsAndFlushesUnobservable` | block_engine/src/block_engine.rs:457-464 | runs with the same updates answer every later look-up alike |
| `InterestCache.ParsedMeaning` | block_engine/src/block_engine.rs:564-570 | of the keys of an update exactly those that do not parse are left out |
| `InterestCache.NamedIsInteresting` | block_engine/src/block_engine.rs:564-573 | every key of an update that parses is of interest for the lifespan from then on |
| `InterestCache.HandleAoi` | block_engine/src/block_engine.rs:557-582 | parsed keys are stamped in order; an error or the end of the stream ends the connection and changes nothing |
| `InterestCache.HandlePoi` | block_engine/src/block_engine.rs:584-609 | the same for programs of interest, with its own error text |
| `BlockEngineFilter.IsAoiInStaticKeys` | block_engine/src/block_engine.rs:721-735 | hit when a static key is writable and of interest, or a program of interest |
| `BlockEngineFilter.IsAoiInLookupTable` | block_engine/src/block_engine.rs:739-773 | hit when a resolvable writable entry is an account or program of interest, or a read-only one a program of interest |
| `BlockEngineFilter.OfacOverUses` | core/src/ofac.rs:42-120 | the sanctions test speaks about the same resolved accounts as the interest rule |
| `BlockEngineFilter.IsForwardable` | block_engine/src/block_engine.rs:651-671 | both branches on the sanctions list are the general rule |
| `BlockEngineFilter.FilterPackets` | block_engine/src/block_engine.rs:634-695 | the packets kept, in order, are those judged wanted during the call; nothing is sent when none is left |
| `BlockEngineFilter.KeptIsBetween` | block_engine/src/block_engine.rs:644-680 | the filter keeps all packets still wanted at its end and none that was not wanted at its start |
| `BlockEngineFilter.KeptIsExact` | block_engine/src/block_engine.rs:644-680 | if no interest runs out meanwhile it keeps exactly the wanted packets |
| `BlockEngineFilter.SanctionedStaysOut` | block_engine/src/block_engine.rs:659-671 | learning about more tables never lets a sanctioned packet through |
| `InterestRule.InterestMeaning` | block_engine/src/block_engine.rs:721-773 | a transaction is of interest exactly if a static key is a program of interest, or a writable one an account of interest, or a cached table has a resolvable writable entry that is either or a read-only one that is a program of interest |
| `InterestRule.WantedPacketsMeaning` | block_engine/src/block_engine.rs:644-680 | the packets wanted are the wire forms of those not discarded, decoded, of interest and not sanctioned, in order |
| `InterestRule.KeptIsWhatShouldBe` | block_engine/src/block_engine.rs:644-680 | as long as no interest runs out the filter keeps exactly those |
| `TokenUpkeep.Auth` | block_engine/src/block_engine.rs:169-216 | an authentication succeeds only with both tokens and both expiry times |
| `TokenUpkeep.TokenKeeper.MaybeRefreshAuth` | block_engine/src/block_engine.rs:484-555 | which tokens are replaced, which call is made and which error ends the connection |
| `TokenUpkeep.AuthErrors` | block_engine/src/block_engine.rs:169-216 | which failure ends the connection with which error |
| `TokenUpkeep.ChosenMeaning` | block_engine/src/block_engine.rs:509-540 | both tokens are replaced when the refresh token has less than 300 s left, otherwise the access token when it has |
| `TokenUpkeep.TokensLast` | block_engine/src/block_engine.rs:447-456 | throughout a connection, up to a gap after any tick both tokens have the smaller of issued life and 300 s left, less the gap |
| `TokenUpkeep.AlwaysFourMinutesLeft` | block_engine/src/block_engine.rs:386 | on-time ticks and tokens issued for 300 s: at least 240 s left at every moment from the first tick on |
| `TokenUpkeep.FourMinutesIsTight` | block_engine/src/block_engine.rs:509-516 | 240 s is attained |
| `TokenUpkeep.RefreshTokenInUse` | block_engine/src/block_engine.rs:518-554 | over a connection the refresh token is replaced by new authentications and by nothing else |
| `TokenUpkeep.AccessTokenInUse` | block_engine/src/block_engine.rs:518-554 | over a connection the access token in use is the one of the last answer that carried one |
| `TokenUpkeep.RefreshTokenSpentInTime` | block_engine/src/block_engine.rs:513-540 | at every tick of a connection that spends a refresh token, it is the one of the last authentication and good for 300 s more |
| `TokenUpkeep.AuthenticationsFarApart` | block_engine/src/block_engine.rs:513-531 | two full authentications of one connection are more than the refresh token's life less 300 s apart |
| `TokenUpkeep.PanicsExactly` | block_engine/src/block_engine.rs:541-548 | a tick panics exactly when the tick before it accepted an access token without expiry |
| `TokenUpkeep.RenewalWithoutExpiryPanics` | block_engine/src/block_engine.rs:541-548 | a run of two ticks: the first spends the refresh token on an access token without expiry, the second panics |
| `LookupTables.LookupTableCache.Refresh` | transaction-relayer/src/main.rs:948-988 | the end state is exactly the decodable fetched tables; every state a reader can see meanwhile is safe, and once a reader can see a key as fetched, or gone if it was not, no later state takes that back; a failed fetch changes nothing |
| `LookupTables.LookupTableCache.InsertTables` | transaction-relayer/src/main.rs:964-982 | the insertion phase writes the decodable tables over the cached ones, with safe states that never go back |
| `LookupTables.LookupTableCache.SweepClosedTables` | transaction-relayer/src/main.rs:984-985 | the removal phase leaves exactly the decodable fetched tables, one removal at a time, and continues the safe states of the insertion phase |
| `LookupTables.NextView` | transaction-relayer/src/main.rs:964-985 | one more map operation that does not go back behind the latest state does not go back behind any earlier one |
| `LookupTables.InsertionGoesOn` | transaction-relayer/src/main.rs:974-980 | writing a fetched table over a cached one is safe and goes back on no key fetched once |
| `LookupTables.SweepGoesOn` | transaction-relayer/src/main.rs:984-985 | removing a key that was not fetched is safe and goes back on no key |
| `LookupTables.NeverGoesBackExactly` | transaction-relayer/src/main.rs:964-982 | whatever was cached, no insertion takes a key back, exactly if all tables fetched for the key are the same |
| `LookupTables.DecodableMeaning` | transaction-relayer/src/main.rs:964-982 | a table is kept exactly when it was fetched and decoded |
| `LookupTables.LastTableWins` | transaction-relayer/src/main.rs:974-980 | a key fetched more than once keeps its last decodable table |
| `LookupTables.StableVerdictDuringRefresh` | transaction-relayer/src/main.rs:964-985 | a transaction whose tables the refresh does not change gets the verdict from before it, however the reads of its tables are spread over the refresh |
| `LookupTables.SanctionedThroughoutRefresh` | transaction-relayer/src/main.rs:964-985 | a table that hits a sanctioned account before and in the fetch is hit at every moment of the refresh |
| `Ofac.ScanIndexesMeaning` | core/src/ofac.rs:104-115 | the early-return scan of one table is an existential over its resolvable entries |
| `Ofac.ScanTablesMeaning` | core/src/ofac.rs:99-118 | the scan of all tables is an existential over all resolvable entries; unknown tables are skipped |
| `Ofac.OfacMeaning` | core/src/ofac.rs:42-120 | related exactly when a static key or a resolvable table entry is sanctioned |
| `Ofac.SanctionedExactly` | core/src/ofac.rs:42-120 | the same read off the transaction: a sanctioned static key, or a cached table with a resolvable sanctioned entry in either index list |
| `Ofac.NoSanctionsNoHits` | relayer/src/relayer.rs:741 | with an empty list nothing is related, so skipping the test is the general rule |
| `Ofac.OfacMonotone` | core/src/ofac.rs:93-120 | more cached tables can only add hits |
| `ScheduleCache.LeaderScheduleCache.UpdateLeaderCache` | relayer/src/schedule_cache.rs:133-173 | a successful fetch replaces the whole map by the rebuilt one; a failed one changes nothing |
| `ScheduleCache.RebuildMeaning` | relayer/src/schedule_cache.rs:149-159 | a slot maps only to a leader that claims it, and every claimed slot is mapped |
| `ScheduleCache.LastClaimWins` | relayer/src/schedule_cache.rs:151-159 | where leaders share a slot the one visited last has it |
| `ScheduleCache.RebuildOrderIndependentExactly` | relayer/src/schedule_cache.rs:151-159 | the map is independent of iteration order exactly when no two leaders share a slot |
| `ScheduleCache.LeadersOfWindow` | relayer/src/schedule_cache.rs:44-50 | the leaders found are those of the half-open slot window and no others |
| `ScheduleCache.AuthorizedAfterRebuild` | transaction-relayer/src/main.rs:883-889 | schedule authorization admits exactly the parsed leaders with at least one slot, and a configured list its own keys |

## Left out

- gRPC, QUIC, WebSocket and RPC plumbing, connection set-up, thread start and shutdown: I/O around the modelled logic. A run may stop after any step.
- Cryptography and encodings: signing and checking of tokens (RS256, section 3.3 of RFC 7518), the Bearer header (section 2.1 of RFC 6750), Ed25519 signatures (section 5.1 of RFC 8032), base58 and address printing. See the assumptions.
- Transaction deserialization and the maybe-writable rule: a packet carries what they make of it.
- Metrics, histograms, high-water marks and logging, except the counters named above.
- Integer width: slots and the counters that the code adds to without saturation are unbounded here; the per-validator counters saturate as in the code. `highest_slot + slot_lookahead` does not wrap.
- Channels as objects: a subscriber channel is a value named by its position in subscription order, and the message header time stamps are not kept.
- The RPC fetches behind the schedule and the lookup tables: their answers are inputs, and an epoch answer has a slot index not above its absolute slot (the code subtracts unchecked).
- A lookup table is read at one moment, as the lock on its map entry makes it; different tables, and the two passes of the block engine filter, are read at moments of their own.
- Several clock readings in one statement group (the three expiry times of a new challenge, the two checks of token upkeep) are one reading.
- The timed bounds of token upkeep take calls to the auth service to be instantaneous.
- `rpc_client` returns a handle; what a client does is not modelled.
- The select loop of a block engine connection, its heartbeats and the queue towards the block engine: only its packet, interest and token handlers are modelled.
- Round robin of TPU addresses, the fetch stage, staked nodes and the packet blaster.
- AuthService.AuthServiceImpl.GenerateAuthChallenge: states the handler run without interruption; its three lock-sized steps under interleaving are `AuthService.Step`, and `AuthService.ChallengeRequestEffect` joins the two.
- AuthService.AuthServiceImpl.GenerateAuthTokens: likewise for its two lock-sized steps, joined by `AuthService.TokenRequestEffect`; the separate messages for malformed keys and signatures share one status.
- BlockEngineFilter.FilterPackets: is exact only up to interest that runs out during the call, because every look-up reads the clock again; `BlockEngineFilter.KeptIsBetween` and `BlockEngineFilter.KeptIsExact` say what that leaves open.
- ForwarderThreads.EachThreadKeepsOrder: batches are named by their position in the input; their contents are not carried along.
- HealthBound.ConnectionsClearedInTime: assumes that a heartbeat tick is handled at its due time.
- HealthManager.UnhealthyInTime: needs a threshold of at least two nanoseconds, because the checks come every half threshold.
