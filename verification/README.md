# A verified model of the shop's order, payment, realtime and file protocols

The project models, in Dafny, the four protocols of the shop whose correctness rests on more than one function, and
proves what every run of them keeps.

**Creating orders** (`src/orders/order.service.ts`). `OrdersService.create` is modelled twice.
`OrderStore.OrdersService` is the service with the database to itself: fields, a cart loop, rollback. `CreateRuns` is
any number of calls interleaved, one step per awaited database operation, with crashes, database aborts, commits whose
answer is lost, announcements that throw, deletes, key rewrites and re-inserted orders in between. `CreateTheorems`
shows that every interleaving is a serial run of the committed calls, that stock is conserved, and what a key
guarantees; `CreateRefusals` that every failure tells the truth; `CreateOutcomes` exactly what a failed call may have
left behind and exactly which keys commit once; `CreateAlone` that the service alone is one of these runs.
`ConnectionPool` adds the pool the calls take their connections from, and `LockOrder` says exactly which carts can
deadlock and what else can stop every call; `KeyJam` and `KeyJamCreating` say exactly which requests can use up the pool
for ever. `CreateBuilds` holds the pieces concrete runs are built from.

**Processing orders** (`src/orders-worker`, `src/rabbitmq`, `processOrderMessage`). `Pipeline` is the broker with its
three queues, any number of deliveries in progress, and the transaction inside each, with a crash possible between any
two steps, next to creates, deletes and updates of orders. An update is `updateOrder` as it runs: a read, the look-up
`save` makes, and the write or insert that follows, with no lock in between. `PipelineSafety` holds the inductive
invariants; `PipelineTheorems` no loss, once-only effects and the closed system; `ExactlyOnce` the exact conditions for
once-only effects and for a status that tells; `PipelineTermination` bounded work, and exactly which messages come to an
end. `Worker` is the worker and the services it calls as classes, and shows that what they do with one delivery is a run
of that machine. `OrderSystem` puts shop and pipeline on one orders table and states what holds end to end. `Backoff` is
the retry delay.

**Payments** (`src/payments-service`, `src/orders/payments-grpc.client.ts`). `Payments` is the in-memory service,
`PaymentsTheorems` what lists of calls guarantee, `PaymentsRpc` the controller and the client's retry loop over a
network that loses requests and replies.

**Realtime** (`src/orders/orders-events.service.ts`, `src/realtime/orders.gateway.ts`). `OrderEvents` is the status
stream (duplicate filter, then a 300 ms throttle with a timer and one pending slot, per order), `OrderEventsTheorems`
what subscribers can rely on. `RateLimit` is the subscribe limiter against a whole-history counter.

**Files** (`src/files/files.service.ts`). `FileBinding` is presigning, completing and the object keys; `FileRuns` any
number of completions interleaved, with crashes.

## Assumptions

- The database is PostgreSQL at READ COMMITTED: a transaction sees committed rows and its own writes;
  `pessimistic_write` locks a row until commit or rollback; an inserted unique key makes other inserters of that key
  wait; a foreign key keeps the referenced row from being deleted while the inserting transaction is open. Any query
  may fail, a deadlock victim's included; a COMMIT may also take effect and be reported as failed.
- TypeORM's `save` of an entity with an id looks the row up, then updates the columns that differ, or inserts the
  entity if there is no row.
- `publishToQueue` returning true means the message is in the queue; returning false leaves it open; on a channel that
  was closed it throws and nothing is sent. Unacked messages come back after a crash. A delivery whose channel is lost
  while its worker lives is taken to end at that moment, its transaction committed or rolled back (another delivery of
  the message waits for the marker until then anyway).
- A query outside a transaction takes a connection of the pool for its duration, a create call one from its `connect` to
  its `release`; a call that asks an empty pool waits. The pool is that of one process and serves its create calls.
- `randomUUID` and the database never draw an id twice. Ids are naturals, file owners and products strings without a
  slash (they are uuids).
- Timers fire at their deadline or later, and the clock does not go back where a statement says so.

## Where the code is narrower than it looks

- An empty idempotency key is stored in the unique column but treated as no key: a second create with it fails instead
  of returning the first order. `OrderStore.IdempotentExactlyWithKey` states the exact condition.
- `processOrderMessage` reads the order without a lock, so two message ids for one order can both report `processed`,
  and a message id whose order was deleted takes effect again for another order. The repository's own README.md (lines
  409-410) promises no duplicate side effects from the primary key alone; `ExactlyOnce` proves the exact condition on
  the messages.
- `updateOrder` reads and saves the whole order without a lock. If a worker commits in between, the save puts the old
  status back while the marker stays; if the order is deleted in between, the save inserts it again, without items and
  without its marker, and a redelivered message takes effect a second time. `ExactlyOnce.StatusTellsExactly` and
  `ExactlyOnce.PairsOnceExactly` state exactly when. These runs, and key rewrites, need a caller inside the process:
  `UpdateOrderDto` has no validation decorators and `src/main.ts` sets `forbidUnknownValues`, so by our reading
  PUT /orders/:id is refused before `updateOrder` runs.
- A create that failed with a database error or died may have committed its order, which is then never announced; so may
  one that failed because the announcement threw, on a channel closed by the broker, after the commit and outside the
  try block (lines 147-152). `CreateOutcomes.FailedExactly` states that it is these three and no other failure.
- A create that loses its key looks it up again before it gives its connection back (lines 131-145), and the look-up
  takes a second one. `src/app.module.ts` sets neither pool size nor connection timeout, so with the driver's ten
  connections eleven creates of one new key can leave ten calls waiting for each other's connection for ever.
  `KeyJamCreating.OneKeyJamsExactly`, `KeyJamCreating.CreatesJamExactly` and `KeyJam.JamExactly` state exactly when;
  `LockOrder.RankedCartsStopExactly` that, carts in a common order, nothing else stops everybody.
- The branch of `processOrderMessage` for an order that is missing after the marker was inserted is never taken: the
  foreign key fails first (`PipelineTheorems.OrderIsFoundAfterMarker`), so a log line with that reason, as in line 423
  of the repository's README.md, does not occur.
- A body that is the JSON value `null` throws before the try block and is requeued for ever; every other body can come
  to its end (`PipelineTermination.CanFinishExactly`).
- Product rows are locked in cart order, so carts can lock each other out; `LockOrder.DeadlockExactly` says which.
- Payment answers are cached by key alone: a retry that names another payment gets the first payment's answer
  (`PaymentsTheorems.RetryIsTrueExactlyForItsPayment`).
- Duplicates are filtered before the throttle, so a version may be shown twice in a row if another one came in between
  (`OrderEventsTheorems.ShownAgainExactly`).
- A clock that goes back far enough makes the limiter forget calls (`RateLimit.LogIsExactly`,
  `RateLimit.BackwardClockForgets`).

## Model

| member | source | states |
|---|---|---|
| Cart.CartIsExact | src/orders/order.service.ts:89-115 | for any cart and stock, the line-by-line loop accepts exactly the carts whose products exist, whose quantities are positive and whose summed demand per product fits the stock, and then takes exactly that demand, repeated products included |
| Cart.RefusalIsExact | src/orders/order.service.ts:89-102 | a cart is refused with the error due at its first line that cannot be had, and with no other: no such product, else no positive quantity, else less in stock than this line and the earlier ones ask of the product |
| Cart.CartIsOrderFree | src/orders/order.service.ts:89-115 | any permutation of a cart gets the same verdict and leaves the same stock |
| Cart.TakeAllKeepsStockSound | src/orders/order.service.ts:97-106 | an accepted cart leaves every product's stock between zero and what it was, and adds or drops no product |
| Cart.TakeAllFrame | src/orders/order.service.ts:89-107 | a cart's verdict and writes do not depend on, and do not overwrite, the stock of products it does not name |
| OrderStore.CreateIsExact | src/orders/order.service.ts:46-153 | a call alone creates its order if and only if the key is unused, the cart non-empty, the user known and the demand fits; the order then holds the cart and stock drops by the demand; any other outcome changes nothing; it answers duplicate exactly for a non-empty used key |
| OrderStore.FailureIsExact | src/orders/order.service.ts:46-119 | a call alone fails with exactly the error that is due: if no order with its non-empty key is there, empty cart, then unknown user, then an empty key that is taken, then the error of its first cart line that cannot be had |
| OrderStore.PlacingVerdict | src/orders/order.service.ts:89-115 | the transaction body goes through exactly if the whole cart can be had, and otherwise fails with the error due at its first line that cannot |
| OrderStore.CreateKeepsValid | src/orders/order.service.ts:80-119 | a create keeps the unique key index exact and every stock non-negative |
| OrderStore.RekeyKeepsValid | src/orders/order.service.ts:315-323 | writing an order's key through updateOrder keeps the unique index exact |
| OrderStore.RepeatedCreateIsIdempotent | src/orders/order.service.ts:50-60 | repeating a create with the same non-empty key, whatever user and cart it carries, returns the same order as a duplicate and changes nothing |
| OrderStore.IdempotentExactlyWithKey | src/orders/order.service.ts:51-60 | a repeated create is answered by the order just created if and only if its key is non-empty |
| OrderStore.OrdersService.Create | src/orders/order.service.ts:46-153 | the method's tables and answer are those of the reference create, and each error but a broker error is given exactly when it is due; a created order whose announcement throws is answered with a broker error although it stays; the order is announced exactly when the call returns it as created |
| OrderStore.OrdersService.PlaceItems | src/orders/order.service.ts:80-119 | the transaction body fails with the error of the first cart line that cannot be taken, or leaves the tables with the order, its items in cart order, its key and the reduced stock |
| OrderStore.OrdersService.DeleteOrder | src/orders/order.service.ts:338-343 | deletes the order with its items and its key, gives no stock back, and reports whether there was one |
| CreateRuns.CommitIsSerial | src/orders/order.service.ts:80-127 | whatever ran in between, committing a transaction does to the committed tables of that moment what the reference create, run alone on them, does |
| CreateRuns.CommitKeepsOther | src/orders/order.service.ts:89-107 | another call's commit leaves an open transaction's reads and writes as valid as before |
| CreateRuns.StepKeepsInv | src/orders/order.service.ts:46-153 | every step of every call keeps: tables equal the replay of the history, open transactions serializable from today's tables, locks, keys and order ids apart |
| CreateTheorems.Serializable | src/orders/order.service.ts:74-145 | in every reachable state of any number of interleaved creates the committed tables are those of running just the committed calls one after another in commit order; each commit belongs to one call and one new order |
| CreateTheorems.StockConserved | src/orders/order.service.ts:88-115 | in every reachable state no product is oversold, and stock plus items of live orders plus items of deleted orders equals what there was at the start |
| CreateTheorems.KeysAreUnique | src/migrations/1770390000000-AddIndexes.ts:8 | in every reachable state no two live orders carry the same stored key |
| CreateTheorems.IdempotentCreate | src/orders/order.service.ts:50-60 | for a non-empty key that was never taken away from an order: every caller that gets an answer gets the same order, at most one is told it created it, at most one call committed, whatever commits were reported as failed |
| CreateTheorems.OnlyCreatorsHaveEffects | src/orders/order.service.ts:128-152 | a call answered duplicate, or failed with anything but a database error, a broker error or the death of its process, committed nothing; any call committed at most one order; exactly the calls answered as creator announced their order, once each, and all of them committed |
| CreateRefusals.RefusalsAreTrue | src/orders/order.service.ts:62-145 | in every run of interleaved calls, whatever a failed call was told is true and stays true: its cart is empty, its user unknown, or a line whose predecessors could be had names no product, no positive quantity, or asks with them for more than there is; it fails on a non-empty key only if an order lost that key |
| CreateOutcomes.FailedExactly | src/orders/order.service.ts:122-152 | for every error: some run ends a call with it although the call committed its order, if and only if the error is a database error (the answer to COMMIT was lost), a broker error (the announcement threw) or the death of the process, and some user and some product in stock exist |
| CreateOutcomes.CommitsOnceExactly | src/orders/order.service.ts:50-60 | for any set of keys that may be taken away from orders, by deletes or key writes: in all runs a key is committed at most once if and only if it is not in the set, the empty key included |
| CreateAlone.AloneIsSerial | src/orders/order.service.ts:46-153 | from any reachable state with no other open transaction a call can run to its end with the outcome and tables of the reference create, so the service alone is one of the machine's runs |
| ConnectionPool.HoldersAreBounded | src/orders/order.service.ts:74-145 | in every run within a pool, never more calls hold a connection than the pool has |
| LockOrder.DeadlockExactly | src/orders/order.service.ts:89-93 | for any carts and any pool: some interleaving of their calls reaches a set of calls each waiting for a row another of them has locked, if and only if there is a user and the carts can be cut so that there are no more cuts than connections, the lines before each cut fit the stock, the products before the cuts are pairwise different and the product at each cut is among those before another's |
| LockOrder.TwoCartsDeadlockExactly | src/orders/order.service.ts:89-93 | two carts can deadlock if and only if there are a user, two connections, and a line of the one and a line of the other whose products the other has locked by then, with nothing locked twice and the lines before them within the stock |
| LockOrder.RankedCartsStopExactly | src/orders/order.service.ts:74-145 | if there is any ranking of products that all carts follow, no reachable state has a deadlock, and one with an unfinished call stops everybody if and only if at least as many calls re-read their key, each with its connection still held, as the pool has connections, and every unfinished call asks the pool for one |
| LockOrder.StopMeansDeadlockOrJam | src/orders/order.service.ts:50-152 | whenever a call is unfinished and no call can go on by itself, either the open transactions deadlock over product rows, or none is open, the pool is used up by calls that re-read their key, and every unfinished call asks it for a connection |
| KeyJam.JamStays | src/orders/order.service.ts:131-145 | a pool used up by calls that re-read their key stays so through every step except a failed re-read or a crash of such a call |
| KeyJam.JamExactly | src/orders/order.service.ts:74-145 | for any requests and any pool, with orders deleted and updated at will: some run uses the pool up so if and only if enough requests pass the checks with a non-empty key and there is an order to lose a key to, one of before or one a further request can create |
| KeyJamCreating.CreatesJamExactly | src/orders/order.service.ts:74-145 | while orders are created only: if and only if some of the requests can all create their orders (keys new and different, carts together within the stock) and at least as many others as there are connections pass the checks with one of their non-empty keys |
| KeyJamCreating.OneKeyJamsExactly | src/orders/order.service.ts:74-145 | for requests with one non-empty key: if and only if the key is new, one of them can create its order, and more of them pass the checks than there are connections |
| LockOrder.DeadlockStays | src/orders/order.service.ts:89-93 | a deadlock lasts through every step except an abort or a crash of a call in it |
| LockOrder.OppositeCartsCanDeadlock | src/orders/order.service.ts:89-93 | with two connections, carts that list two products in opposite orders, each product in stock for its line, reach a deadlock in which nothing can go on by itself |
| PipelineSafety.StepKeepsInv | src/orders-worker/orders-worker.service.ts:50-189 | every step of broker, worker and database keeps: marker locks and row locks apart, markers name live orders, effects settled, every message kept |
| PipelineTheorems.NoMessageLost | src/orders-worker/orders-worker.service.ts:50-189 | with crashes, requeues and refused publishes anywhere, every message that entered the broker has a copy in the main queue, the retry queue, the DLQ or the hands of a worker not about to ack, or a marker for its id was committed |
| PipelineTheorems.LastAckFollowsCommit | src/orders-worker/orders-worker.service.ts:84-124 | an ack that leaves no live copy of its message behind only follows a commit for its message id |
| PipelineTheorems.MarkersNameLiveOrders | src/migrations/1770416000000-AddProcessedMessagesTable.ts:16 | committed markers always name live orders |
| PipelineTheorems.EffectOncePerMessageAndOrder | src/orders/order.service.ts:172-208 | over any run with parallel workers, redeliveries, rollbacks, deletes, updates and foreign messages no (message id, order) pair takes effect twice, except for an order that was deleted between an updateOrder's read of it and its save |
| PipelineTheorems.EffectOncePerMessageId | src/orders/order.service.ts:172-208 | if a message id always names the same order it takes effect at most once, even when deleting the order takes the marker away, with the same exception |
| PipelineTheorems.EffectOncePerOrder | src/orders/order.service.ts:172-208 | an order named by one message id only is processed at most once, even when updateOrder sets its status back, with the same exception |
| PipelineTheorems.SecondEffectNeedsDeletedOrder | src/migrations/1770416000000-AddProcessedMessagesTable.ts:16 | a message id takes effect twice only if its first order was deleted since, or was once deleted while an update of it was under way |
| PipelineTheorems.OrderIsFoundAfterMarker | src/orders/order.service.ts:191-197 | once the marker is inserted the order is always found |
| PipelineTheorems.MarkerExactlyWhenProcessed | src/orders/order.service.ts:172-208 | when messages come from the producer only and no update asks for a status: an order has at most one message id, and unless an update of it was under way while it was processed or deleted it has at most one effect and, while it lives, is PROCESSED, with a time, exactly when a committed marker names it |
| PipelineTheorems.ProcessedAtIsFinal | src/orders/order.service.ts:200-207 | in that closed system, with the same exception, no step changes a processed order's row, and no delivery ever finds its order processed already |
| PipelineTheorems.UpdateAlone | src/orders/order.service.ts:315-323 | an update with nothing in between sets the status it is asked to set and changes nothing else |
| ExactlyOnce.PairsOnceExactly | src/orders/order.service.ts:177-207 | for any set of messages that may enter and any set of orders that may be deleted while an update of them is under way: no run lets a (message id, order) pair take effect twice if and only if no message names one of those orders |
| ExactlyOnce.OrdersOnceExactly | src/orders/order.service.ts:191-207 | no run processes an order twice if and only if, besides, no two of the messages name one order under different ids |
| ExactlyOnce.IdsOnceExactly | src/orders/order.service.ts:177-189 | no run lets a message id take effect twice if and only if, besides, each id names one order |
| ExactlyOnce.TwoIdsProcessOneOrderTwice | src/orders/order.service.ts:191-207 | for any two ids and any order, a run in which both take effect and the second overwrites the time of processing |
| ExactlyOnce.OneIdProcessesTwoOrders | src/migrations/1770416000000-AddProcessedMessagesTable.ts:16 | for any id and two orders, a run in which the id takes effect for both, the first having been deleted with its marker |
| ExactlyOnce.OutlivedOrderIsProcessedTwice | src/orders/order.service.ts:315-323 | for any id and order, a run in which one message takes effect twice: updateOrder reads the order, it is processed and deleted, the save inserts it again, and the message is redelivered |
| ExactlyOnce.StatusTellsExactly | src/orders/order.service.ts:315-323 | in the closed system, with any sets of orders that updates may be under way for while they are processed or deleted: an order is PROCESSED exactly when a committed marker names it, in every run, if and only if it is in neither set |
| ExactlyOnce.OvertakenUpdateUndoes | src/orders/order.service.ts:315-323 | for any order, a run in which an updateOrder that changes no status puts PENDING back over a worker's commit while the marker stays |
| ExactlyOnce.OutlivedOrderLosesMarker | src/orders/order.service.ts:315-323 | for any order, a run in which an updateOrder saves a processed order after it was deleted and leaves it PROCESSED without a marker |
| PipelineTermination.WorkIsBounded | src/orders-worker/orders-worker.service.ts:125-188 | from any reachable state on, while no message enters, the steps that move a message number at most the worth of the copies there plus a fixed cost per fault, whatever the interleaving |
| PipelineTermination.NeverStuck | src/orders/order.service.ts:172-208 | while any copy but one of a JSON null is neither acked nor in the DLQ some fault-free step is possible: the marker lock and the row lock cannot deadlock |
| PipelineTermination.NullNeverFinishes | src/orders-worker/orders-worker.service.ts:78-82 | in no reachable state, with or without faults, is a message whose body is the JSON null acked or in the DLQ |
| PipelineTermination.CanFinishExactly | src/orders-worker/orders-worker.service.ts:50-189 | in every reachable state, whatever faults came before, fault-free steps can bring a copy to its ack or the DLQ if and only if its body is not the JSON null |
| PipelineTermination.AllCanFinishExactly | src/orders-worker/orders-worker.service.ts:50-189 | they can bring all copies there if and only if no JSON null ever entered |
| PipelineTermination.StoppedMeansFinished | src/orders-worker/orders-worker.service.ts:50-189 | in a reachable state with no fault-free step left, exactly the copies that are not of a JSON null are acked or in the DLQ; so with WorkIsBounded every maximal run without faults and nulls ends with all of them finished |
| PipelineTermination.WaitsEnd | src/orders/order.service.ts:315-343 | in every reachable state fault-free steps of the worker alone lead to one in which every delete of an order and every pending save of an update goes ahead |
| PipelineTermination.HandlingsAreBounded | src/orders-worker/orders-worker.service.ts:131-188 | a message that entered at attempt a is handled at most max(1, maxAttempts - a) times plus once per requeue, and at least that often before it is given up to the DLQ; nothing in the retry queue has an attempt above maxAttempts - 1 |
| PipelineTermination.AllAttemptsAreMade | src/orders-worker/orders-worker.service.ts:130-188 | while messages come from the producer only, none is given up to the DLQ before it was handled maxAttempts times, and none is handled more often than that plus once for every requeue |
| Worker.RabbitmqService.PublishToQueue | src/rabbitmq/rabbitmq.service.ts:116-137 | a disabled service answers false and enqueues nothing; otherwise it answers as the channel does, or passes on the error of a closed one, and the body is at the end of the named queue unless it was lost; no other queue changes |
| Worker.OrdersService.ProcessOrderMessage | src/orders/order.service.ts:172-226 | deduplicated exactly for a named message whose marker is there, with no change; already processed exactly if marker is missing and the order is PROCESSED, and then only the marker is added; processed exactly if the order is there and is not, and then it is PROCESSED now and the marker added; otherwise it throws and nothing changes |
| Worker.AnswersAreExact | src/orders/order.service.ts:172-226 | over any list of deliveries: each is answered deduplicated exactly if its message was seen through before, already processed or processed exactly by whether its order was processed before, and it throws otherwise; so an order is processed by exactly the first such message |
| Worker.HandlingIsExact | src/orders-worker/orders-worker.service.ts:50-189 | a delivery is published on exactly if it cannot be seen through: to the DLQ with the last attempt or with invalid JSON, else to the retry queue with the next attempt number, an unusable one counting as 0; the handler throws exactly for a JSON null or when that publish is not accepted |
| Worker.OrdersWorkerService.HandleMessage | src/orders-worker/orders-worker.service.ts:50-189 | for every body and every behaviour of database and broker: the new tables, what was published where, whether it throws, and the retry delay, which is the base doubled once for each attempt before, up to the cap |
| Worker.OrdersWorkerService.ConsumeOne | src/rabbitmq/rabbitmq.service.ts:139-166 | the message goes back to the queue if and only if the handler throws; the other queues get what the handler published |
| Worker.DeliveryAloneIsHandled | src/orders-worker/orders-worker.service.ts:50-189 | handling one delivery as the worker does, from any state with no other open transaction, is a run of the pipeline machine with the same tables, ack or requeue, and publish |
| OrderSystem.OnceEndToEnd | src/orders/order.service.ts:46-343 | however often clients repeat a create with one key and the broker redelivers, with lost answers, deletes and updates, as long as no order loses that key: at most one order committed with it, one message id drawn for it, one effect |
| OrderSystem.BooksBalance | src/orders/order.service.ts:46-343 | in every reachable state of shop and pipeline together, updates included: no product is oversold and stock, live items and deleted items add up; both sides know the same orders; and each live order, unless an update of it was under way while it was processed or deleted, holds the items its create asked for and is PROCESSED exactly when a committed marker names it |
| Backoff.DelaysAreMonotone | src/orders-worker/orders-worker.service.ts:191-195 | delays never shrink, never exceed the cap, and stay at the cap once there |
| Backoff.DelaysDouble | src/orders-worker/orders-worker.service.ts:191-195 | the first delay is the base and each next one twice the one before, both up to the cap |
| Backoff.TotalDelayExactly | src/orders-worker/orders-worker.service.ts:191-195 | the delays up to attempt n sum to base * (2^n - 1) if and only if the cap was not exceeded on the way |
| Backoff.TotalDelayBound | src/orders-worker/orders-worker.service.ts:160-161 | the delays up to attempt n sum to at most base * (2^n - 1) and to at most n caps |
| Backoff.ParsePositiveInt | src/orders-worker/orders-worker.service.ts:197-204 | a positive integer setting is taken; anything else gives the fallback |
| Payments.PaymentsService.Authorize | src/payments-service/payments.service.ts:64-91 | tables and returned id are those of the reference step: the recorded id for a used key, else a new AUTHORIZED payment, recorded under a non-empty key |
| Payments.PaymentsService.Capture | src/payments-service/payments.service.ts:93-167 | tables and outcome are those of the reference step, every branch and its caching included |
| Payments.PaymentsService.Refund | src/payments-service/payments.service.ts:169-234 | tables and outcome are those of the reference step, every branch and its caching included |
| Payments.PaymentsService.ShouldFailTransient | src/payments-service/payments.service.ts:248-262 | a call fails exactly if it asks for the outage and no earlier call for its order did, and then the order is remembered |
| PaymentsTheorems.FirstAskFails | src/payments-service/payments.service.ts:248-262 | over any list of calls, exactly the first one for each order that asks for the outage fails |
| PaymentsTheorems.AuthorizeIsExact | src/payments-service/payments.service.ts:64-91 | a first-time authorize answers with the id it draws and creates just that payment, AUTHORIZED, with the call's order, amount and currency, on record under a non-empty key |
| PaymentsTheorems.CaptureIsExact | src/payments-service/payments.service.ts:93-167 | with no answer on record, a capture is ok exactly for a payment AUTHORIZED or CAPTURED, which is CAPTURED afterwards; each refusal has exactly its own status, and then no payment changes |
| PaymentsTheorems.RefundIsExact | src/payments-service/payments.service.ts:169-234 | with no answer on record, a refund is ok exactly for a payment AUTHORIZED, CAPTURED or REFUNDED, which is REFUNDED afterwards; each refusal has exactly its own status, and then no payment changes |
| PaymentsTheorems.StatusIsHistory | src/payments-service/payments.service.ts:64-274 | after any calls exactly the payments drawn by first-time authorizes exist, and a payment is REFUNDED if a first-time refund asked for it since, else CAPTURED if a first-time capture did, else AUTHORIZED, where first-time is told from the keys alone |
| PaymentsTheorems.DetailsAreHistory | src/payments-service/payments.service.ts:72-84 | after any calls a payment has the order, amount and currency of the call that created it |
| PaymentsTheorems.RecordsStay | src/payments-service/payments.service.ts:264-274 | an answer on record under a key is never changed by any list of calls |
| PaymentsTheorems.RetryAnswersAlike | src/payments-service/payments.service.ts:64-234 | a call that repeats an (operation, non-empty key) pair is answered as the first one was and changes nothing, whatever came between and whatever else it asks |
| PaymentsTheorems.RetriesAreInvisible | src/payments-service/payments.service.ts:64-234 | any list of calls leaves the payments and all three caches as the list without its retries does |
| PaymentsTheorems.LifeCycle | src/payments-service/payments.service.ts:93-234 | over any run no payment is lost, its order, amount and currency stay, its status only moves forward, and an ok capture (refund) on record implies a payment at least CAPTURED (REFUNDED) |
| PaymentsTheorems.RetryIsTrueExactlyForItsPayment | src/payments-service/payments.service.ts:93-234 | the ok a repeated capture (refund) gets under a used key is true of the payment it names, on every ledger and after any calls in between, if and only if it names the payment it named first |
| PaymentsTheorems.EffectsHappenOnce | src/payments-service/payments.service.ts:93-234 | each payment is created, captured and refunded at most once over any run |
| PaymentsTheorems.KeyCreatesOnce | src/payments-service/payments.service.ts:64-91 | a non-empty key creates at most one payment over any run, none if it is on record already |
| PaymentsRpc.PaymentsGrpcController.Authorize | src/payments-service/payments.grpc.controller.ts:14-67 | reply and new state are those of the reference server: refused if malformed, unavailable once if simulated, else the service's payment id |
| PaymentsRpc.PaymentsGrpcClient.Authorize | src/orders/payments-grpc.client.ts:82-121 | the loop ends with the state, reply and number of requests of the recursive reference, and waits min(base * 2^(k-1), cap) before retry k |
| PaymentsRpc.LoopPerforms | src/orders/payments-grpc.client.ts:82-121 | the server's ledger after the loop is that of performing, in order, the calls that reached it, other clients' included |
| PaymentsRpc.AttemptsBounded | src/orders/payments-grpc.client.ts:97-114 | between one and maxRetries + 1 requests are sent |
| PaymentsRpc.RetriesExactly | src/orders/payments-grpc.client.ts:97-121 | request k + 1 is sent if and only if k <= maxRetries and the first k replies were all UNAVAILABLE; the caller is told the reply to the last request sent; any other first reply ends it after one request |
| PaymentsRpc.ServeIsExact | src/payments-service/payments.grpc.controller.ts:14-67 | INVALID_ARGUMENT exactly without an order, a positive finite amount or three capital letters of currency; UNAVAILABLE exactly for the first well-formed request of an order that asks for it; otherwise the payment id of the service; a refusal leaves the payments alone |
| PaymentsRpc.KeyedAuthorizeIsSafe | src/orders/payments-grpc.client.ts:82-121 | for any loss of requests and replies and any other traffic, a non-empty key creates at most one payment, and a success names the payment on record for the key |
| PaymentsRpc.LostReplyPaysOnceExactlyWithKey | src/payments-service/payments.service.ts:65-70 | when the first reply is lost and the second request gets through, the order is paid once if and only if the request carries a non-empty key |
| OrderEvents.OrdersEventsService.PublishStatusChanged | src/orders/orders-events.service.ts:27-62 | counters, group state and output after an event are those of the reference step |
| OrderEvents.OrdersEventsService.TimerFired | src/orders/orders-events.service.ts:41 | counters, group state and output after a throttle timer are those of the reference step |
| OrderEventsTheorems.StreamsAreIndependent | src/orders/orders-events.service.ts:28-49 | the output for one order, and the state kept for it, are those of that order's events alone |
| OrderEventsTheorems.DropsAreCounted | src/orders/orders-events.service.ts:30-40 | the tap counts exactly the events the duplicate filter drops, which are exactly those repeating their order's previous version |
| OrderEventsTheorems.EveryEventIsAccountedFor | src/orders/orders-events.service.ts:21-62 | received = duplicates dropped + superseded + pending + emitted, after any input |
| OrderEventsTheorems.OutputIsSubsequence | src/orders/orders-events.service.ts:27-49 | subscribers see a subsequence of the order's events |
| OrderEventsTheorems.AtLeast300MsApart | src/orders/orders-events.service.ts:41 | the j-th and i-th emissions for an order are at least 300 (j - i) ms apart |
| OrderEventsTheorems.LatestIsDelivered | src/orders/orders-events.service.ts:41 | when nothing is pending the last version shown is the last one published; otherwise the pending one is |
| OrderEventsTheorems.ShownAtOnceExactly | src/orders/orders-events.service.ts:40-41 | an event is shown the moment it is published if and only if it has a new version and nothing was shown yet or a timer has fired idly since the last showing |
| OrderEventsTheorems.PendingGoesOut | src/orders/orders-events.service.ts:41 | an event that waits was published no earlier than the last emission, carries the newest version, and is what the next timer shows, which may fire from exactly 300 ms after that emission on |
| OrderEventsTheorems.VersionsStrictlyIncrease | src/orders/orders-events.service.ts:40-41 | non-decreasing published versions give strictly increasing shown versions |
| OrderEventsTheorems.EachOrdersStream | src/orders/orders-events.service.ts:27-62 | in a mixed stream of many orders each order's output has all of these properties at once, and shows no version twice if equal versions were published together |
| OrderEventsTheorems.ShownAgainExactly | src/orders/orders-events.service.ts:40-41 | for any list of events published for an order: no timing shows subscribers a version twice in a row, or twice at all, if and only if events with equal versions are contiguous in the list |
| RateLimit.RealtimeClient.AssertRateLimit | src/realtime/orders.gateway.ts:240-256 | log and verdict after a call are those of the reference step |
| RateLimit.LogIsExactly | src/realtime/orders.gateway.ts:240-256 | for any clock: the pruned log shows the entries the whole history would, at every call, if and only if no accepted call that was outside the window at one reading is back inside it at a later one |
| RateLimit.PrunedLogIsExact | src/realtime/orders.gateway.ts:240-256 | for any non-decreasing clock a call is let through exactly if fewer than five were let through in the 3000 ms up to now |
| RateLimit.AtMostFivePerWindow | src/realtime/orders.gateway.ts:243-251 | no half-open window of 3000 ms, wherever it starts, contains more than five accepted calls |
| RateLimit.LogIsBounded | src/realtime/orders.gateway.ts:250-255 | the log never holds more than five entries, whatever the clock does |
| RateLimit.BackwardClockForgets | src/realtime/orders.gateway.ts:250 | five calls at 0, one at 3000 and one at 0 again: the last is let through although the history shows more than five in its window |
| FileBinding.KeyNamesTarget | src/files/files.service.ts:243-263 | round trip: the target can be read back from any key built for it |
| FileBinding.PrefixDeterminesTarget | src/files/files.service.ts:305-319 | a built key passes the prefix check of a target if and only if it was built for that target |
| FileBinding.FilesService.CreatePresignedUpload | src/files/files.service.ts:43-80 | refused exactly for an avatar with a product id and for a product image without one or with an unknown one; otherwise one more record, the caller's, PENDING, for that product or none, under the key users/ID/avatars/ or products/ID/images/ with a new name; no other record changes |
| FileBinding.FilesService.CompleteUpload | src/files/files.service.ts:82-97 | tables and success are those of the reference completion, for every refusal |
| FileBinding.CompleteIsExact | src/files/files.service.ts:82-97 | a completion succeeds exactly if the file is the caller's, its object is there or was found before, the caller asks for the target the key was built for, and that exists; then the file is READY and linked there, and otherwise nothing changes |
| FileBinding.FilesService.AttachFileToDomain | src/files/files.service.ts:265-303 | links the file exactly when the key fits the target and the target exists, and then changes only that link |
| FileRuns.LinksAreSound | src/files/files.service.ts:82-97 | in every reachable state of the upload protocol, also after a crash between binding and saving: an avatar is a file of that user built for that avatar, a product image a file built for that product, and both objects exist; READY files have their object |
| FileRuns.OneTargetPerFile | src/files/files.service.ts:265-303 | no reachable state shows one file for two targets |
| FileRuns.UninterruptedIsAlone | src/files/files.service.ts:82-97 | a completion that is not interrupted does what the service alone does |
| FileRuns.UploaderCompletes | src/files/files.service.ts:43-97 | from any reachable state, who presigns an avatar or a product image and uploads it can complete it, and then it is READY and shown there |

## Left out

- JWT, passwords, guards, roles and scopes: each is settled by reading one branch.
- Users and products CRUD, the product loader, GraphQL resolvers, seeds: wrappers around one query. In the shop half
  the users and products are fixed and stock changes through creates only (deleting a user also takes the user's
  orders). In the files half a file link changes through completions and product deletion only: PUT /users/:id
  (`src/users/user.controller.ts`, lines 38-39) takes an unchecked `Partial<User>` that may carry `avatarFileId`, and
  what it writes is outside the claims about links.
- `getAllConnection` and its page arithmetic: only easy members, and the query has no tie-break to state more.
- gRPC error mapping, log lines, and the metadata of republished messages (reason, time, correlation id).
- Order totals in floating point (`src/orders/order.controller.ts`).
- Item price snapshots are carried as integers and never computed with.
- That an order is processed at all: `publishOrderCreated` ignores the result of the publish, so nothing holds before
  the message is in the broker.
- In the pool: other services' queries, which take connections away; several API processes, each with its own pool; and
  a `startTransaction` that fails after `connect`, outside the try block, and so never gives its connection back.
- The order of messages within a queue, prefetch, and the moment a retry's delay ends: any waiting message may be
  delivered next, and any retry may come back at any time. `Worker.OrdersWorkerService.ConsumeOne` takes the first.
- The status event published after processing or an update: the stream is modelled on its own.
- In `CreateRuns` an update appears by what it writes: its key (`Rekey`, any key at any time) or the whole order again
  (`Restore`); `OrderSystem` adds the reads, and excludes updates that ask for a status and messages from elsewhere.
- The worker's own `save` is one step with its look-up; it always writes both status and time, and a stale key it may
  write back is covered by `Rekey`.
- Deleting an order waits for open `processOrderMessage` transactions but not for anything in the shop half, where no
  transaction refers to an existing order; a key write may wait for them too (its index is unique), which only removes
  runs.
- The payments service's restart, which empties its tables; rejected `capture` and `refund` requests without a payment
  id at the controller.
- `PaymentsRpc.PaymentsGrpcClient.constructor`: the client's settings are naturals here; the source also takes
  fractional backoff times.
- A request that reaches the payments server only after the client gave up: it is one of the other calls of a later
  run.
- The end of the status stream at shutdown, and a second subscriber.
- Content types, sizes, the extension table, URLs and the bucket itself: presigning starts from checked input.
- The HTTP layer: status codes, headers, validation pipes.
