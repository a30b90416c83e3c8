# SurgePay reliability model

SurgePay moves payments with at-least-once machinery: an outbox relay that publishes database rows to
Kafka, consumers that deduplicate through an inbox table, an idempotency lock in Redis in front of the
gateway's mutating routes, and a sliding-window rate limiter. Each of the four is a protocol over a
shared store, written as a sequence of operations that are atomic one by one but not together. This
project models the four protocols and proves what they keep in every interleaving.

Every protocol appears twice. The code is a class or a method in the shape of the source (loops,
awaits, early returns), proved against functions on the store. The protocol is a step system in which
any number of batches, workers or gateways take those same steps in any order, crash between any two
of them, and see operations throw with or without having taken effect. Safety results are stated of
every reachable state or every run. Beside them stand the runs that do what the machinery is for: an
undisturbed cycle, batch, delivery, partition or retry, and what it leaves.

| files | models |
|---|---|
| OutboxRepository, OutboxProtocol | the relay's table operations; any number of batches, with stale recovery racing them |
| RelayScheduler, RelayService | the polling timer and one relay cycle, with its in-flight accounting |
| BatchPublisher, Topics | rows to topic batches and back to row ids |
| Serializer, DeadLetter | envelopes on the wire; the dead-letter record and its replay |
| InboxRepository, InboxConsumer | inbox rows; one delivery, cut at its awaits and in its own shape |
| InboxProtocol, InboxExclusion, InboxRetries, InboxReplay, InboxProgress | a consumer group over partitions, offsets, crashes and replay resets; how many workers hold an event; its retry count; when a reset is safe; what an undisturbed worker achieves |
| Pipeline | outbox and inbox joined by the broker |
| RedisLock, IdempotencyService, IdempotencyProtocol | the lock record, `check` and the gateway flow, any number of gateways |
| RequestHash, RequestHashText | the text a request body is hashed by; when it determines the body |
| RateLimiter, RateLimiterCounting | the sorted-set script and the middleware's headers; what its window means in requests |
| Awaits, Events, Wrappers, Sums, Sets | how a call ends, event ids, Option and Result, sums of maps, sizes of sets |

## What is assumed of the environment

- A Postgres transaction, `updateMany` and a unique key act at one instant; `FOR UPDATE SKIP LOCKED`
  gives concurrent claimers disjoint rows. A call that throws may or may not have taken effect.
- A Redis command or script acts at one instant. A key can expire at any moment in the idempotency
  model; in the rate limiter it expires exactly when its time to live has run out.
- A Kafka send that succeeds appended its messages; one that fails may append any of them, now or
  later. A partition is read in order; a delivery that throws is delivered again; a restarted worker
  begins at the committed offset.
- Owner ids are fresh, row ids are new, and a row is created PENDING with retryCount 0 under its
  envelope's eventId.
- Requests reach the rate limiter's script with times that do not decrease. Its results on numbers of
  requests also ask that no two requests less than a window apart share an id; those on ids do not.
- `Date.parse` and the hash digest are arbitrary functions.

## What came out

- Outbox: a row is claimed, and its event appended, at most max(1, retryLimit) times. A limit below 1
  still allows one claim, since the limit is only consulted after a failure.
- Inbox: `prepareForReplay` can come too early. A worker that has written DLQ_SENT may still throw on its
  offset commit and then writes FAILED without looking at the status. The model lets operators reset at
  any time; no message is lost and PROCESSED stays final all the same. Each reset taken while such a
  worker is there allows one more holder and one more success, and no other reset does
  (`HoldersBounded`, `SuccessesBounded`). `ReplaySafeIff` shows that a first reset keeps the handler
  exclusive exactly when no worker is still on the record; `HeldWhileDlqSent` and
  `EarlyResetMiscounts` exhibit one that comes too early.
- Scheduler: `clearTimeout` knows the timer armed last. One bootstrap is enough for that to be all of
  them (`ShutdownDisarms`); after a second one a timer can outlive the shutdown, and then does nothing.
- Publisher: the ids handed to `markPublishedBatch` are the claimed ones exactly when no two rows of
  the batch carry the same envelope eventId, which rows as created never do.
- Serializer: a function or symbol as payload passes `serialize` and fails `deserialize`, since
  JSON.stringify drops it. With version 1 current, no registered upgrade ever runs.
- Replay: a dead letter republishes the event under its own eventId and with that id as the key, not
  the aggregate id of the first publication; a dead letter of a dead letter has no topic.
- Rate limiter: the sorted set counts request ids, not requests, and the ids come from a header the
  client can set. One id repeated is accepted every time, for any limit above 1
  (`RepeatedIdsCountOnce`). The advertised quota counts acceptances exactly when no id was accepted
  twice in the window (`RemainingCountsAcceptances`).
- Idempotency: successes number at most one more than expiries. A handler that outlives its record is
  the only way two handlers run at once, and it is a way (`JoinsIffOutlived`, `HandlerOutlives`). A
  `check` that fails can leave a lock that no handler runs under, until it expires
  (`FailedCheckLocks`).
- Redis keys: two merchants can share a key exactly when one id extends the other past a colon, which
  UUIDs never do.
- Request hash: key order never matters, but different bodies can have the same text
  (`TextIsNotInjective`), and a number changed to the string it prints is never refused
  (`TypeChangePasses`). Bodies free of brackets, braces and commas in scalars, of quotes in keys, and of
  single items that print as nothing have the same text exactly when they agree up to member order and
  what scalars print (`TextDecides`); where moreover no string reads as a number, a boolean or nothing,
  exactly when they are the same value (`TextDecidesValue`).

## Model

| member | source | states |
|---|---|---|
| OutboxRepository.SelectOldestFirst | apps/outbox-relay/src/repositories/outbox.repository.ts:23-29 | the oldest eligible rows first, each once, as many as the limit allows, none older left behind |
| OutboxRepository.Repository.ClaimPending | apps/outbox-relay/src/repositories/outbox.repository.ts:21-50 | returns the oldest unlocked PENDING or RETRYING rows, as many as the limit allows, and makes exactly those PUBLISHING with a new attempt time |
| OutboxRepository.Repository.RecoverStale | apps/outbox-relay/src/repositories/outbox.repository.ts:145-189 | the row-by-row loop counts exactly the unlocked PUBLISHING rows attempted more than the timeout ago, makes them RETRYING below the limit and FAILED at it, and leaves every other row as it was |
| OutboxRepository.StaleOnceTimedOut | apps/outbox-relay/src/repositories/outbox.repository.ts:146-155 | a claim is stale once more than the timeout has passed since it was made, and not before |
| OutboxRepository.NoneLeftWaiting | apps/outbox-relay/src/repositories/outbox.repository.ts:23-34 | a poll that does not fill its limit leaves no unlocked row waiting |
| OutboxRepository.RecoverOneMore | apps/outbox-relay/src/repositories/outbox.repository.ts:167-187 | one round of the loop adds exactly one row to those recovered |
| OutboxRepository.Repository.MarkPublishedBatch | apps/outbox-relay/src/repositories/outbox.repository.ts:215-241 | of the named rows exactly the PUBLISHING ones become PUBLISHED |
| OutboxRepository.Repository.MarkFailedBatch | apps/outbox-relay/src/repositories/outbox.repository.ts:243-284 | of the named rows the PUBLISHING ones have one more retry counted and end RETRYING below the limit, FAILED at it, and nothing else of them changes; rows not named stay as they were |
| OutboxProtocol.InvStep | apps/outbox-relay/src/relay.service.ts:111-146 | every step of every batch, recovery and crash keeps the row, history and batch invariant |
| OutboxProtocol.ClaimConservation | apps/outbox-relay/src/repositories/outbox.repository.ts:145-189 | in every run, claims == retryCount + 1 if in a claim; statuses sit on their side of the limit; copies never exceed claims or the limit |
| OutboxProtocol.PublishedIsInLog | apps/outbox-relay/src/repositories/outbox.repository.ts:215-232 | a PUBLISHED row's event is in the broker log at least once and at most limit times, whichever batch marked it after whatever race |
| OutboxProtocol.TerminalIsFinal | apps/outbox-relay/src/repositories/outbox.repository.ts:246-274 | PUBLISHED and FAILED rows never change again in any run; step 2 never revives a FAILED row |
| OutboxProtocol.RankDrops | apps/outbox-relay/src/repositories/outbox.repository.ts:145-189 | no step raises the total rank of a fixed table and every row transition lowers it |
| OutboxProtocol.MovesBounded | apps/outbox-relay/src/repositories/outbox.repository.ts:215-284 | in every run n rows make at most 2 * limit * n transitions |
| OutboxProtocol.MarkPublishedSettles | apps/outbox-relay/src/repositories/outbox.repository.ts:215-232 | a committed mark of success makes exactly the PUBLISHING rows of its batch PUBLISHED |
| OutboxProtocol.MarkFailedSettles | apps/outbox-relay/src/repositories/outbox.repository.ts:246-274 | after a committed mark of failure no row of the batch is PUBLISHING; those that were are counted and wait or have failed, and no other row changes |
| OutboxProtocol.BatchPublishes | apps/outbox-relay/src/relay.service.ts:84-146 | from every state that keeps the invariant any claimable rows can be published by one undisturbed batch, each with exactly one more copy in the log, every other row unchanged |
| OutboxProtocol.AttemptsRunOut | apps/outbox-relay/src/repositories/outbox.repository.ts:246-274 | a row whose sends always fail ends FAILED with the limit counted, and no other row is touched |
| RelayScheduler.OutboxScheduler.OnApplicationBootstrap | apps/outbox-relay/src/scheduler.ts:22-29 | starts the scheduler and arms its timer |
| RelayScheduler.OutboxScheduler.OnApplicationShutdown | apps/outbox-relay/src/scheduler.ts:31-37 | stops the scheduler and disarms the timer armed last, no other |
| RelayScheduler.OutboxScheduler.ScheduleNextPoll | apps/outbox-relay/src/scheduler.ts:39-45 | arms a new timer exactly while running |
| RelayScheduler.OutboxScheduler.OnTimer | apps/outbox-relay/src/scheduler.ts:45-57 | a firing timer begins a cycle exactly when running and not polling, and re-arms when polling |
| RelayScheduler.OutboxScheduler.OnCycleOver | apps/outbox-relay/src/scheduler.ts:61-64 | however the cycle ended, polling is over and the next timer is armed if running |
| RelayScheduler.InvStep | apps/outbox-relay/src/scheduler.ts:39-66 | every bootstrap, shutdown, timer, poll and batch end keeps the scheduler and accounting invariant |
| RelayScheduler.CyclesNeverOverlap | apps/outbox-relay/src/scheduler.ts:48-64 | in every run there is one call of processBatch while isPolling is set and none otherwise |
| RelayScheduler.BackPressure | apps/outbox-relay/src/relay.service.ts:70-106 | in every run activeInFlight is the size of the unfinished batches and never exceeds maxInFlight |
| RelayScheduler.PollingGoesOn | apps/outbox-relay/src/scheduler.ts:39-64 | while running, a cycle is at work or a timer is armed |
| RelayScheduler.ShutdownHolds | apps/outbox-relay/src/scheduler.ts:31-46 | after a shutdown no cycle begins in any run without a bootstrap |
| RelayScheduler.OverlapOverflows | apps/outbox-relay/src/scheduler.ts:48-53 | two cycles at once could reach twice the limit, so the guard is what back-pressure rests on |
| RelayScheduler.ShutdownDisarms | apps/outbox-relay/src/scheduler.ts:31-37 | in every run with at most one bootstrap a shutdown leaves no timer armed |
| RelayScheduler.SecondBootstrapOutlives | apps/outbox-relay/src/scheduler.ts:22-37 | after two bootstraps a timer survives the shutdown |
| RelayService.EndingRefines | apps/outbox-relay/src/relay.service.ts:111-146 | every way a batch's promise can end is a run of the outbox protocol with the same table |
| RelayService.PollIsClaim | apps/outbox-relay/src/relay.service.ts:84-89 | what a poll claims is a claim the outbox protocol allows |
| RelayService.RecoveryIsRecover | apps/outbox-relay/src/relay.service.ts:58-63 | what stale recovery does is a recovery the outbox protocol allows |
| RelayService.EndBatch | apps/outbox-relay/src/relay.service.ts:111-146 | from any reachable protocol state a batch can end in each of those ways, the sent copies appended first |
| RelayService.OutboxRelay.FinishPublish | apps/outbox-relay/src/relay.service.ts:111-146 | marks the rows of the batch PUBLISHED, or counts their failure, row by row; rejects exactly when something threw, in every case gives its size back, and keeps the table a reachable state of the outbox protocol |
| RelayService.OutboxRelay.SpawnBatch | apps/outbox-relay/src/relay.service.ts:70-154 | one loop round: nothing at the limit in flight; below it one poll, which when it returns claims the oldest unlocked waiting rows of the table it met, as many as min(batchSize, free capacity) allows, and keeps them as the next unfinished batch; it goes round again exactly on a full batch |
| RelayService.OutboxRelay.ClaimBatches | apps/outbox-relay/src/relay.service.ts:66-155 | the loop of such rounds, with the reason it stops for |
| RelayService.OutboxRelay.Recover | apps/outbox-relay/src/relay.service.ts:37-63 | of what the batches ending meanwhile leave, exactly the timed-out rows are recovered, if that call took effect |
| RelayService.OutboxRelay.ProcessBatch | apps/outbox-relay/src/relay.service.ts:37-160 | a whole cycle, with batches ending during its awaits: at most ten batches within batchSize and capacity, each accounted for, the table a reachable protocol state; and a cycle nothing disturbs recovers exactly the timed-out rows, makes exactly the claimed ones PUBLISHING, and stops only with ten batches, no capacity, or nothing left to claim |
| BatchPublisher.Positions | packages/common/src/messaging/producer.ts:264-278 | the positions of one topic's messages: within the batch, of that topic, strictly increasing |
| BatchPublisher.PositionOf | packages/common/src/messaging/producer.ts:273-278 | every message of a topic is among its positions |
| BatchPublisher.GroupByTopic | packages/common/src/messaging/producer.ts:264-283 | the grouping loop yields each topic once, with exactly its messages in the input's order |
| BatchPublisher.SentExactlyOnce | packages/common/src/messaging/producer.ts:264-283 | every message stands at exactly one place of what is sent |
| BatchPublisher.TopicOrder | packages/common/src/messaging/producer.ts:264-283 | nothing else is sent, and a batch claimed oldest first reaches each topic oldest first |
| BatchPublisher.PublishBatch | packages/common/src/messaging/producer.ts:181-333 | nothing is sent unless every event serializes; the i-th result carries the i-th item's eventId and topic |
| BatchPublisher.WireAt | apps/outbox-relay/src/publisher.ts:152-187 | the i-th message is the i-th row's: its type's topic, its aggregate id as key, its serialized envelope |
| BatchPublisher.SentIffFit | apps/outbox-relay/src/publisher.ts:152-187 | a batch is put on the wire if and only if every row has a topic and a well-formed envelope of version 1 |
| BatchPublisher.FirstUnfitDecides | apps/outbox-relay/src/publisher.ts:153-170 | the first row without an object or a topic decides which error stops the batch |
| BatchPublisher.CreatedRowsAreSent | apps/payment-service/src/entities/outbox-event.entity.ts:34-44 | rows as created, whatever else their envelopes carry, are always sent, each to payments.initiated under its aggregate id, as their eight envelope properties |
| BatchPublisher.PublishRows | apps/outbox-relay/src/publisher.ts:152-213 | sends exactly when every row has a topic and an acceptable envelope; ids come back only from a send that succeeded, and for rows as created they are those rows' ids in order |
| BatchPublisher.MapsBackExactly | apps/outbox-relay/src/publisher.ts:189-199 | the ids answered are the claimed ones if and only if no two rows share an envelope eventId |
| BatchPublisher.Unmarked | apps/outbox-relay/src/publisher.ts:190-195 | the later of two rows sharing an envelope eventId is never answered |
| BatchPublisher.ClaimedRowsAreMarked | apps/payment-service/src/entities/outbox-event.entity.ts:33-66 | for rows as they are created, every claimed row of a sent batch is marked and no other |
| Serializer.JsonIsFixed | packages/common/src/messaging/serializer.ts:205-220 | JSON values survive stringify and parse unchanged, at any depth |
| Serializer.OnlyJsonComesBack | packages/common/src/messaging/serializer.ts:205-220 | of any value whatsoever a JSON value comes back, or nothing, and nothing exactly of undefined, functions and symbols; arrays keep their length |
| Serializer.DeserializeIsExact | packages/common/src/messaging/serializer.ts:217-235 | deserialize accepts exactly the envelopes with five non-blank ids, a timestamp that parses, a payload and version 1, whatever other properties they have and whatever upgrades are registered, as they were on the wire |
| Serializer.SerializeAccepts | packages/common/src/messaging/serializer.ts:175-203 | serialize accepts exactly those envelopes, and gives the same result for an envelope and its eight properties alone |
| Serializer.SerializeRefuses | packages/common/src/messaging/serializer.ts:93-131 | which of the two errors a refusal names |
| Serializer.BothEndsAgree | packages/common/src/messaging/serializer.ts:212-235 | deserialize refuses an envelope for the reason serialize does, other JSON values as malformed, and what is no JSON as unparseable |
| Serializer.RoundTrip | packages/common/src/messaging/serializer.ts:174-235 | deserialize after serialize is canonicalization for every JSON payload, and fails exactly for a payload JSON drops |
| Serializer.Reserialize | packages/common/src/messaging/serializer.ts:174-235 | serialize after deserialize gives the same JSON value back, less non-envelope properties |
| Serializer.VersionUpgradeRegistry.Register | packages/common/src/messaging/serializer.ts:64-73 | one more registration, the registry being what its calls left |
| Serializer.LastRegistrationWins | packages/common/src/messaging/serializer.ts:58-84 | after any calls the registry holds, for a type and version, exactly the function registered last since it was cleared; lookups answer that |
| Serializer.VersionUpgradeRegistry.Upgrade | packages/common/src/messaging/serializer.ts:135-172 | the upgrade loop computes the specified chain of upgrades and its errors |
| Serializer.FuelIsEnough | packages/common/src/messaging/serializer.ts:157-171 | an upgrade loop that ends within some number of rounds has the same result under every larger bound |
| Serializer.UpgradeReaches | packages/common/src/messaging/serializer.ts:157-171 | with stepwise upgrades the loop ends within target - version rounds and succeeds exactly when every version on the way is registered |
| InboxRepository.Repository.RecordReceived | packages/common/src/messaging/inbox.repository.ts:67-87 | inserts RECEIVED, or reports a unique violation and changes nothing |
| InboxRepository.Repository.FindByEventIdAndConsumer | packages/common/src/messaging/inbox.repository.ts:89-100 | reads the row as it is at that instant |
| InboxRepository.Repository.TransitionToProcessing | packages/common/src/messaging/inbox.repository.ts:102-125 | compare-and-set from RECEIVED, RETRYING or FAILED, then a separate read |
| InboxRepository.Repository.UpdateStatus | packages/common/src/messaging/inbox.repository.ts:127-148 | writes the status whatever it finds, keeps the count unless given one, fails on a missing row |
| InboxRepository.Repository.PrepareForReplay | packages/common/src/messaging/inbox.repository.ts:150-164 | resets exactly a DLQ_SENT row to RETRYING with count 0 |
| InboxConsumer.StepsRunOut | packages/common/src/messaging/consumer.ts:138-491 | a delivery's awaits run out: its control flow has no cycle |
| InboxConsumer.Delivery.RunConsumer | packages/common/src/messaging/consumer.ts:138-491 | under any interference: a delivery ends well if and only if its last await is an offset commit that returned; each claim, handler run, write, record and commit comes right after what entitles the delivery to it; it throws only for a reason, never leaving a started handler's record without a write but where the read of the count threw; undisturbed it performs exactly the listed operations and ends as listed; and it takes the steps of the small-step delivery |
| InboxConsumer.Delivery.CheckDuplicate | packages/common/src/messaging/consumer.ts:182-279 | the look-up and what an existing record decides refine the small steps |
| InboxConsumer.Delivery.RecordFirst | packages/common/src/messaging/consumer.ts:219-279 | insert, collision and re-read refine the small steps |
| InboxConsumer.Delivery.LostClaim | packages/common/src/messaging/consumer.ts:289-317 | the re-read after a lost claim refines the small steps |
| InboxConsumer.Delivery.Process | packages/common/src/messaging/consumer.ts:324-475 | handler, PROCESSED write, commit and the catch around all three refine the small steps |
| InboxConsumer.Delivery.ForwardToDlq | packages/common/src/messaging/consumer.ts:402-473 | the dead-letter branch with its inner catch refines the small steps |
| InboxProtocol.InvStep | packages/common/src/messaging/consumer.ts:138-491 | every step of any worker, crash, rejoin, append and reset at any time keeps rows, workers and offsets truthful |
| InboxExclusion.InvStep | packages/common/src/messaging/consumer.ts:281-475 | every such step keeps the count of rights to run an event's handler |
| InboxExclusion.HoldersBounded | packages/common/src/messaging/consumer.ts:281-475 | in every run, with resets at any time, at most 1 + early resets workers are between a claim of an event and the end of that delivery |
| InboxExclusion.MutualExclusion | packages/common/src/messaging/consumer.ts:281-475 | with no early reset of the event, at most one |
| InboxExclusion.SuccessesBounded | packages/common/src/messaging/consumer.ts:325-351 | in every run, with resets at any time, successes are at most 1 + the exceptions caught after a success + early resets |
| InboxRetries.RetryAccounting | packages/common/src/messaging/consumer.ts:373-473 | for an event not reset early, per replay epoch: the stored count is the number of failures, the status is on its side of the limit, and runs are at most limit + 1 + failed forwards |
| InboxProtocol.NoSilentLoss | packages/common/src/messaging/consumer.ts:188-207 | in every run, with resets at any time, each message below a committed offset is a tombstone, was handled successfully, or has a dead-letter record; this covers all five commit points |
| InboxProtocol.PastIsCommitted | packages/common/src/messaging/consumer.ts:345-346 | in every run, a worker's step that moves it past an event leaves the committed offset of its partition at its new position, and no other step but a commit changes an offset |
| InboxProgress.HandlesAndCommits | packages/common/src/messaging/consumer.ts:325-350 | from any state, an undisturbed delivery of an event not handled yet handles it once, leaves its record PROCESSED, commits the offset and moves on, and touches no other row |
| InboxProgress.SkipsAndCommits | packages/common/src/messaging/consumer.ts:188-207 | one of a settled event commits and moves on, and changes no row |
| InboxProgress.WorksOffPartition | packages/common/src/messaging/consumer.ts:97-491 | a worker left to itself gets to the end of its partition whenever every message can be decoded and no record says PROCESSING: all its events end settled, settled rows stay, and the offset is committed past the last event |
| InboxProtocol.SettledMeansAccounted | packages/common/src/messaging/consumer.ts:302-315 | in every run a PROCESSED or DLQ_SENT status is true, even while workers are on the record |
| InboxProtocol.SettledIsFinal | packages/common/src/messaging/inbox.repository.ts:150-164 | a PROCESSED record nobody holds is absorbing and its handler never runs again; a DLQ_SENT one likewise until it is reset |
| InboxReplay.ReplaySafeIff | packages/common/src/messaging/consumer.ts:456-472 | a first reset of a DLQ_SENT record keeps its handler exclusive in every later run without an early one if and only if no worker still holds it, which is to say none that can write FAILED over it |
| InboxReplay.ReplayTooEarly | packages/common/src/messaging/consumer.ts:446-472 | with such a worker left, a reset lets two workers run the handler at once |
| InboxReplay.HeldWhileDlqSent | packages/common/src/messaging/consumer.ts:430-451 | at every retry limit, a reachable state in which a worker holds a DLQ_SENT record |
| InboxReplay.EarlyResetMiscounts | packages/common/src/messaging/consumer.ts:456-472 | at every retry limit, a run with one early reset after which the stored count is not the number of failures |
| Pipeline.WireIsTheEvent | apps/outbox-relay/src/publisher.ts:152-187 | the message published for a row as created is, to every consumer, the event with that row's id |
| Pipeline.EffectivelyOnce | apps/outbox-relay/src/relay.service.ts:111-146 | end to end, with resets at any time: for a PUBLISHED row the relay made 1 to limit appends, one lies in some partition, its handler succeeds at most 1 + late exceptions + early resets times, and a passed copy means handled or dead-lettered |
| Pipeline.ExactlyOnce | packages/common/src/messaging/consumer.ts:324-351 | with no late exception and no dead letter, a passed event was handled successfully exactly once, in every run |
| DeadLetter.AlwaysDeadLetters | packages/common/src/messaging/consumer.ts:402-424 | the dead-letter envelope of any event a consumer can hold passes serialize, reads back as itself, and holds the event |
| DeadLetter.ReplayRepublishes | packages/common/src/messaging/dead-letter.replayer.ts:14-46 | replay succeeds if and only if the type has a topic, and republishes the event under its eventId, the same JSON value when it had no foreign property |
| DeadLetter.ReplaysExactly | packages/common/src/messaging/dead-letter.replayer.ts:14-50 | of any record: which failures a replay reports, each exactly when, and otherwise what it publishes reads back as the original event |
| DeadLetter.ReplayHitsTheSameRow | packages/common/src/messaging/dead-letter.replayer.ts:42-46 | the replayed message is, to a consumer, the same event as the original |
| DeadLetter.NotHandledUntilReset | packages/common/src/messaging/consumer.ts:188-207 | in every run without a reset no delivery of a dead-lettered event reaches its handler |
| DeadLetter.SkippedUnlessReset | packages/common/src/messaging/consumer.ts:188-207 | its delivery can always go through: it reads DLQ_SENT and commits past the message |
| DeadLetter.HandledAfterReset | packages/common/src/messaging/inbox.repository.ts:150-164 | after a reset the row is RETRYING with count 0 and its handler can be reached |
| DeadLetter.FreshBudgetAfterReset | packages/common/src/messaging/consumer.ts:373-473 | in every run after a reset in time, up to the next, the handler is started at most limit + 1 times plus once per failed forward, counted over the run itself |
| RedisLock.KeysAreSeparate | apps/idempotency-service/src/constants/redis-keys.ts:5-7 | different (merchant, key) pairs have different Redis keys unless one merchant id extends the other past a colon |
| RedisLock.MerchantsShareIff | apps/idempotency-service/src/constants/redis-keys.ts:5-7 | two merchants can share a Redis key if and only if one id is the other, a colon, and whatever follows |
| RedisLock.Store.FindRequest | apps/idempotency-service/src/repositories/redis.repository.ts:15-20 | reads the record as it is at that instant |
| RedisLock.Store.CreateInProgress | apps/idempotency-service/src/repositories/redis.repository.ts:26-55 | sets the record exactly when there was none |
| RedisLock.Store.MarkCompleted | apps/idempotency-service/src/repositories/redis.repository.ts:61-108 | replaces the record exactly when the owner matches |
| RedisLock.Store.Delete | apps/idempotency-service/src/repositories/redis.repository.ts:111-130 | removes the record exactly when the owner matches |
| IdempotencyService.CheckLinearizable | apps/idempotency-service/src/services/idempotency.service.ts:57-167 | under any interference check has the result and single effect of an atomic check at one of its own instants; broken off by a throwing command, that effect or none; its own 500 occurs if and only if the key was there at both creations and gone at both reads |
| IdempotencyService.FailedCheckLocks | apps/idempotency-service/src/services/idempotency.service.ts:57-64 | a check whose creation took effect and then threw fails and leaves the lock |
| IdempotencyService.Check | apps/idempotency-service/src/services/idempotency.service.ts:41-168 | the code issues exactly those commands and returns that result, or breaks off where one throws |
| IdempotencyService.Retry | apps/idempotency-service/src/services/idempotency.service.ts:88-116 | likewise for the second attempt |
| IdempotencyService.HeadersToCache | apps/gateway/src/idempotency/idempotency.interceptor.ts:111-123 | caches every defined header that is not hop-by-hop, and nothing else |
| IdempotencyService.Intercept | apps/gateway/src/idempotency/idempotency.interceptor.ts:28-162 | runs the handler at most once and exactly on a MISS or where idempotency does not apply; a completion that takes effect on an owned record leaves the handler's own status, cacheable headers and body, a cleanup no record, and either nothing on a record of another owner; a throwing check is an error reply, a throwing complete or cleanup changes no reply |
| IdempotencyProtocol.InvStep | apps/idempotency-service/src/repositories/redis.repository.ts:52-129 | every command of every gateway, and expiry at any moment, keeps the ownership invariant |
| IdempotencyProtocol.RefinesLock | apps/idempotency-service/src/repositories/redis.repository.ts:89-129 | in every run what requests are told is a history of one atomic lock that keeps a response until it expires |
| IdempotencyProtocol.StaleOwnerIsHarmless | apps/idempotency-service/src/repositories/redis.repository.ts:89-129 | an owner whose record expired changes nothing with complete or cleanup |
| IdempotencyProtocol.HandlersExclude | apps/gateway/src/idempotency/idempotency.interceptor.ts:100-162 | two handlers run at once only if one has outlived its record |
| IdempotencyProtocol.JoinsIffOutlived | apps/gateway/src/idempotency/idempotency.interceptor.ts:100-162 | another handler can come to run beside a running one, whose record does not expire meanwhile, if and only if that record has already expired |
| IdempotencyProtocol.HandlerOutlives | apps/idempotency-service/src/repositories/redis.repository.ts:52-53 | a reachable state in which a running handler has outlived its record |
| IdempotencyProtocol.SuccessesBounded | apps/gateway/src/idempotency/idempotency.interceptor.ts:100-162 | in every run successful handlers number at most 1 + expired records |
| IdempotencyProtocol.OneOutcomePerLifetime | apps/idempotency-service/src/services/idempotency.service.ts:118-167 | from a stored response until expiry no request acquires the lock or stores another, and every replay is of that response to that hash |
| IdempotencyProtocol.ReplaysWhatWasStored | apps/idempotency-service/src/services/idempotency.service.ts:152-167 | every replay is of a response stored in the same lifetime for the same hash |
| IdempotencyProtocol.StoredByItsOwner | apps/idempotency-service/src/repositories/redis.repository.ts:89-104 | every stored response is that of the request that acquired the lock last |
| IdempotencyProtocol.ReplaysTheHandlersAnswer | apps/gateway/src/idempotency/idempotency.interceptor.ts:82-135 | every replay has the status, the cacheable headers and the body that the handler of the request holding the lock in the same lifetime answered, an empty body only for an absent, falsy or empty one |
| IdempotencyProtocol.RetryIsAnswered | apps/idempotency-service/src/services/idempotency.service.ts:118-167 | once a handler that kept its lock has completed, a new request with the same hash is answered with its answer, and one with another hash is refused as a mismatch |
| IdempotencyProtocol.FailureIsRetried | apps/gateway/src/idempotency/idempotency.interceptor.ts:139-162 | once a handler that kept its lock has cleaned up, the next request acquires the lock and runs |
| RequestHash.KeyOrderInvariant | apps/idempotency-service/src/services/request-hash.service.ts:19-35 | bodies equal up to member order at any depth, and up to what scalars print, have the same text |
| RequestHash.AscendingUnique | apps/idempotency-service/src/services/request-hash.service.ts:30-30 | there is only one ascending list of the same members |
| RequestHash.SortSorts | apps/idempotency-service/src/services/request-hash.service.ts:30-30 | sorting distinct keys is ascending and keeps exactly the members |
| RequestHash.ReorderedRetryMatches | apps/idempotency-service/src/services/idempotency.service.ts:120-136 | a retry with reordered members is never refused as a mismatch |
| RequestHash.TextIsNotInjective | apps/idempotency-service/src/services/request-hash.service.ts:19-25 | null, undefined and the empty string print alike, and every object of two strings has the text of an object of one |
| RequestHashText.ValueEnds | apps/idempotency-service/src/services/request-hash.service.ts:19-35 | two plain values at the same place of the same text are printed alike and end at the same point |
| RequestHashText.TextDecides | apps/idempotency-service/src/services/request-hash.service.ts:19-35 | plain bodies have the same text if and only if they agree up to member order and what scalars print |
| RequestHashText.PlainIsNeeded | apps/idempotency-service/src/services/request-hash.service.ts:23-34 | without the clauses on brackets in strings, on quotes in keys and on single items that print as nothing, different bodies share a text |
| RequestHashText.ChangedTextMismatches | apps/idempotency-service/src/services/idempotency.service.ts:120-136 | where the digest separates the two texts, a key reused with a plain body is refused with 422 if and only if the body differs in more than member order and what scalars print |
| RequestHashText.TypeChangePasses | apps/idempotency-service/src/services/request-hash.service.ts:23-25 | a number changed to the string it prints is not refused, whatever the digest |
| RequestHashText.TextDecidesValue | apps/idempotency-service/src/services/request-hash.service.ts:19-35 | plain bodies whose strings do not read as numbers, booleans or nothing have the same text if and only if they are the same value up to member order |
| RequestHashText.ChangedBodyMismatches | apps/idempotency-service/src/services/idempotency.service.ts:120-136 | for those bodies, where the digest separates the two texts, 422 if and only if the body changed |
| RateLimiter.Eval | apps/gateway/src/rate-limit/redis-rate-limit.repository.ts:11-40 | the script computes the specified outcome and sorted set |
| RateLimiter.Zrange | apps/gateway/src/rate-limit/redis-rate-limit.repository.ts:33-33 | the smallest score of the set |
| RateLimiter.Repository.CheckRateLimit | apps/gateway/src/rate-limit/redis-rate-limit.repository.ts:60-88 | runs the script on the merchant's live key and touches no other |
| RateLimiter.SlidingWindowRefinement | apps/gateway/src/rate-limit/redis-rate-limit.repository.ts:18-29 | for every request sequence the script with expiry accepts exactly what the naive rule on ids accepts |
| RateLimiterCounting.IdsCountAcceptances | apps/gateway/src/rate-limit/redis-rate-limit.repository.ts:18-21 | the ids accepted since a time are at most the acceptances, and as many if and only if no id was accepted twice since |
| RateLimiterCounting.RemainingCountsAcceptances | apps/gateway/src/rate-limit/redis-rate-limit.repository.ts:21-39 | after any requests whatsoever the advertised quota is the limit less the acceptances in the window if and only if no id was accepted twice in it |
| RateLimiterCounting.CountingRefinement | apps/gateway/src/rate-limit/redis-rate-limit.repository.ts:18-29 | when no two requests less than a window apart share an id, the script is the textbook rule: fewer than limit accepted in the last window |
| RateLimiterCounting.RepeatedIdsCountOnce | apps/gateway/src/rate-limit/redis-rate-limit.repository.ts:25-25 | a request repeated under one id is accepted every time for any limit above 1, where counting requests would accept it limit times |
| RateLimiterCounting.WindowBoundIds | apps/gateway/src/rate-limit/redis-rate-limit.repository.ts:18-29 | whatever ids requests carry, no interval of window length holds script acceptances under more than limit distinct ids |
| RateLimiterCounting.WindowBound | apps/gateway/src/rate-limit/redis-rate-limit.repository.ts:18-29 | when no two requests less than a window apart share an id, no interval of window length holds more than limit acceptances by the script |
| RateLimiter.QuotaInRange | apps/gateway/src/rate-limit/redis-rate-limit.repository.ts:39-39 | 0 <= remaining <= limit, and the key stays one the script can leave |
| RateLimiter.AcceptanceResets | apps/gateway/src/rate-limit/redis-rate-limit.repository.ts:21-39 | an accepted request stands in the set with its time, the key lives on for one window, and the reset time, at most a window ahead, is exactly when the first counted request stops counting |
| RateLimiter.SaneAlways | apps/gateway/src/rate-limit/redis-rate-limit.repository.ts:18-39 | so after every request sequence |
| RateLimiter.ResetTimeIsTight | apps/gateway/src/rate-limit/redis-rate-limit.repository.ts:31-39 | after a refusal every request before the reset time is refused and the first at or after it accepted |
| RateLimiter.RetryAfterSuffices | apps/gateway/src/rate-limit/rate-limit.middleware.ts:49-57 | waiting Retry-After seconds reaches the reset time, less than 2 s late while it is ahead |
| RateLimiter.HonouredRetryIsAccepted | apps/gateway/src/rate-limit/rate-limit.middleware.ts:49-57 | a client that waits Retry-After and is first after the reset is let through |
| RateLimiter.Use | apps/gateway/src/rate-limit/rate-limit.middleware.ts:45-79 | sets the headers, and Retry-After exactly on a refusal |

## Left out

- InboxRetries.RetryAccounting: only for events not reset early; InboxReplay.EarlyResetMiscounts shows the count wrong after one that was.
- DeadLetter.FreshBudgetAfterReset: rests on it, so the reset and those before it are taken in time.
- InboxExclusion.MutualExclusion: likewise for events not reset early; InboxExclusion.HoldersBounded says what early resets add.
- Serializer.VersionUpgradeRegistry.Upgrade: cut after a given number of rounds, because an upgrade function may return any version and the loop may never end; Serializer.FuelIsEnough shows that the cut changes no result of a loop that ends, Serializer.UpgradeReaches how many rounds are enough.
- RelayService.OutboxRelay.ProcessBatch: between its awaits its table is changed by its own batches only; other relay processes are in OutboxProtocol, where any batches interleave.
- DeadLetter.AlwaysDeadLetters: takes `new Date().toISOString()` to be a timestamp `Date.parse` accepts.
- RateLimiter.SlidingWindowRefinement: one clock; times that go backwards between gateways are not covered.
- Serializer.Reserialize: like DeadLetter.ReplayRepublishes, its equality is of the JSON value, since an envelope's member order is not kept.
- JSON's grammar: a buffer is the value its text denotes. Values JSON.stringify throws on (cycles, BigInt) and custom toJSON methods are not modelled.
- String order compares characters; strings with surrogate pairs, where JavaScript compares UTF-16 units, are not distinguished.
- Names inherited from Object.prototype, which TOPIC_REGISTRY lookups would find for an event type such as "constructor".
- Time-to-live lengths of the idempotency record: it may expire at any moment, so no result depends on the length.
- A cleanup that throws after an answer of 500 or above is a rejection nobody handles; what the process does then is not modelled.
- A Redis or HTTP command repeated by its client library after a lost connection.
- Partition and offset values stored on rows: the producer takes the first metadata entry per topic, so nothing is claimed of them.
- Single-row publish, markPublished, markFailed and markRetrying of the relay, which its loop never calls, and the console publisher.
- The depth gauge refreshed between the DLQ_SENT write and the commit: it catches its own errors and touches no row.
- Waiting for unfinished batches at shutdown; connecting and disconnecting clients.
- The rate limit service's fail-open answer when Redis is unreachable, and the middleware's bypass without a merchant.
- Tracing, metrics, logging, configuration, health checks, authentication and the mapping of errors to HTTP bodies.
- The payment service beyond the rows it creates: its status tables, order validation, fraud rules and HTTP client.
- Liveness of the inbox after a crash: a PROCESSING row whose worker died is never recovered by the code, so only safety is proved.
- SHA-256: the digest is an arbitrary function of the text.
