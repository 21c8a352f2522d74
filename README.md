# kafka-keyvalue: the at-least-once consumer and the cache read API, in Dafny

kafka-keyvalue materialises Kafka topics into an in-memory key-value cache. It
serves reads of that cache over HTTP and forwards new updates to an `OnUpdate`
port. This project models two parts of it and proves properties of that model:

- `ConsumerAtLeastOnce`, the consumption engine. It has a rebalance listener.
  On assignment, the listener records each partition's position as its start
  offset and then seeks every partition to the beginning. The engine also has
  the bounded poll loop. The loop puts every record in the cache, fails when a
  record's partition has no start offset, and forwards to `handle` only the
  records at or above the start offset. It then commits the batch. The rule
  behind this: the cache is rebuilt from the whole log on every start, while
  records already acknowledged are not notified again.
- `CacheResource`, the read API. It has the argument checks of
  `getCacheValue` and `getCurrentOffset`, and the newline-separated listings
  written by `keys()` and `values()`.

Files:

- `kafka_model.dfy` (module `KafkaModel`): records, topic-partitions, update
  records, byte strings, and `Option` for Java `null`.
- `consumption.dfy` (module `Consumption`): the engine as functions over
  `Snapshot(cache, nextUncommitted, log)`, with the lemmas. `Poll` models one
  loop iteration, `Assign` and `Rebalanced` the listener, and `Iterate` (the
  `for` loop over any loop body) and `RunSpec` a whole run. `log` records, in order, the calls the engine makes
  on the broker and on the port: `Position`, `SeekToBeginning`, `Handle` and
  `CommitSync`.
- `consumer.dfy` (module `ConsumerLoop`): class `ConsumerAtLeastOnce`. Its
  fields are `cache` and `nextUncommitted`, plus a ghost `log`. Its methods
  are `OnPartitionsAssigned`, `OnPartitionsRevoked`, `OnRebalance`,
  `ProcessPoll`, `Run` and `IsReady`. `OnPartitionsAssigned`, `ProcessPoll`
  and `Run` are written as the source's loops and proved equal to `Assign`,
  `Poll` and `RunSpec`. `OnRebalance` is proved equal to `Rebalanced`.
  `OnPartitionsRevoked` is proved to change nothing, and `IsReady` to return
  false.
- `cache_resource.dfy` (module `CacheResource`): the validators as functions
  over an abstract `KafkaCache`. `Lines` specifies the listing format and
  `SplitLines` reads a listing back. `WriteKeys` and `WriteValues` loop over
  the iterator and write to an `OutputStream` object.

How the broker is abstracted: a run gets a function `broker: nat -> PollEvent`.
`broker(0)` is what the initial one-nanosecond poll delivers. That poll can
trigger an assignment, and the code discards its records.
`broker(n + 1)` is what the poll of loop iteration `n` delivers: an optional
rebalance, then the batch of records, then `handleThrows`, which says for which
updates of that batch the `OnUpdate` port's `handle` throws. A rebalance holds
the partitions revoked, the partitions assigned, and the broker's answer to
`consumer.position(p)`.

How `handle` can fail: `OnUpdate.java:5-11` says a port that gives up throws
from `handle`, which should restart the service without committing from the
failed offset. A port that uses its `completion` argument also throws, because
the loop passes null. Such an exception leaves the record loop before
`commitSync`, and `run()` catches only `InterruptedException`, so the run
ends. The model stops the batch right after the failing `handle` call, with
the error `HandleThrew(update)`: the record is cached, no commit is made, and
no later iteration runs.

Where the code differs from its own comments and from the `OnUpdateNOP` port,
the model follows the code:

- The loop never calls `pollStart` or `pollEndBlockingUntilTargetsAck`, and
  the acknowledgment step the comment at `ConsumerAtLeastOnce.java:154-155`
  asks for is not there. The loop calls `handle(update, null)`, then
  `commitSync` straight after the batch, so the model has no acknowledgment
  gate.
- `OnUpdate` declares `handle(update, completion)`. `OnUpdateNOP` instead
  implements `pollStart`, `handle(update)` and `pollEndBlockingUntilTargetsAck`.
  The model follows the call the engine makes.

Other behaviour of the code that the model keeps:

- A poll budget `polls <= 0` runs no iterations at all (the loop condition at
  `ConsumerAtLeastOnce.java:120`).
- Partitions come from `subscribe` with a rebalance listener. A new
  assignment overwrites the recorded start offsets.
- Only `nextUncommitted` is new for each run (line 96); the cache is not
  cleared between runs.

## Model

| member | source | states |
|---|---|---|
| `Consumption.CacheAfter` | src/main/java/se/yolean/kafka/keyvalue/ConsumerAtLeastOnce.java:137-141 | defines the cache after a batch: one `put` of each record's key and value, in iteration order |
| `Consumption.CacheAfterKeys` | src/main/java/se/yolean/kafka/keyvalue/ConsumerAtLeastOnce.java:137-141 | after a batch, a key is cached exactly when it was cached before or some record of the batch carried it |
| `Consumption.LastWriteWins` | src/main/java/se/yolean/kafka/keyvalue/ConsumerAtLeastOnce.java:137-141 | the cached value of a key is the value of the last record in iteration order with that key, including a null value |
| `Consumption.CacheAfterUntouched` | src/main/java/se/yolean/kafka/keyvalue/ConsumerAtLeastOnce.java:137-141 | a key that no record of the batch carried keeps its earlier entry, or stays absent |
| `Consumption.Forwarded` | src/main/java/se/yolean/kafka/keyvalue/ConsumerAtLeastOnce.java:142-150 | defines which records reach `handle`: the partition has a start offset and the offset is at or above it |
| `Consumption.Notified` | src/main/java/se/yolean/kafka/keyvalue/ConsumerAtLeastOnce.java:146-150 | defines the updates handed to `handle` for a sequence of records: one per forwarded record, in iteration order |
| `Consumption.NotifiedInOrder` | src/main/java/se/yolean/kafka/keyvalue/ConsumerAtLeastOnce.java:137-150 | `handle` calls follow record iteration order: a concatenation of batches notifies the first part's updates, then the second's; one record gives exactly one update when forwarded and none when suppressed |
| `Consumption.NotifiedExactlyForwarded` | src/main/java/se/yolean/kafka/keyvalue/ConsumerAtLeastOnce.java:146-150 | an update reaches `handle` if and only if a record of the batch produced it with an offset at or above its partition's start offset; there are at most as many updates as records |
| `Consumption.SuppressedBelowStart` | src/main/java/se/yolean/kafka/keyvalue/ConsumerAtLeastOnce.java:146-150 | records all below their partition's start offset produce no `handle` call |
| `Consumption.Stops` | src/main/java/se/yolean/kafka/keyvalue/ConsumerAtLeastOnce.java:142-147 | defines the records that end a batch: no start offset, or forwarded with a `handle` that throws |
| `Consumption.FirstStop` | src/main/java/se/yolean/kafka/keyvalue/ConsumerAtLeastOnce.java:138-152 | finds the first record that ends the batch, with no earlier record ending it; when there is none, no record of the batch ends it |
| `Consumption.FirstStopAt` | src/main/java/se/yolean/kafka/keyvalue/ConsumerAtLeastOnce.java:138-152 | the loop stops at the first record that ends the batch, and at no other record |
| `Consumption.ProcessOne` | src/main/java/se/yolean/kafka/keyvalue/ConsumerAtLeastOnce.java:139-150 | processing one more record is one `put` into the cache, then one `handle` call exactly when the record is forwarded |
| `Consumption.AbortAt` | src/main/java/se/yolean/kafka/keyvalue/ConsumerAtLeastOnce.java:141-145 | when no record before `j` ends the batch and record `j` has no start offset, the poll's outcome is the state after records `..j`, plus the `put` of record `j`, and the error naming record `j` |
| `Consumption.ThrowAt` | src/main/java/se/yolean/kafka/keyvalue/ConsumerAtLeastOnce.java:146-147 | when no record before `j` ends the batch and `handle` throws on forwarded record `j`, the poll's outcome is the state after records `..j + 1`, `handle` call included, and the `handle` error |
| `Consumption.CompleteAll` | src/main/java/se/yolean/kafka/keyvalue/ConsumerAtLeastOnce.java:137-156 | when no record ends the batch, the poll's outcome is the state after all records plus one `commitSync`, and the batch is committed |
| `Consumption.Poll` | src/main/java/se/yolean/kafka/keyvalue/ConsumerAtLeastOnce.java:126-157 | defines one loop iteration over a polled batch: the no-assignment check, then the record loop, which stops at the first record that ends the batch, else commits |
| `Consumption.PollStopped` | src/main/java/se/yolean/kafka/keyvalue/ConsumerAtLeastOnce.java:138-147 | defines a batch that stopped at record `j`: records through `j` cached; `handle` called for forwarded records before `j`, and on `j` itself when it was the call that threw |
| `Consumption.PollCompleted` | src/main/java/se/yolean/kafka/keyvalue/ConsumerAtLeastOnce.java:137-156 | defines a batch that went through: every record cached, every forwarded update handled, then one `commitSync` |
| `Consumption.PollBeforeAssignment` | src/main/java/se/yolean/kafka/keyvalue/ConsumerAtLeastOnce.java:130-135 | with no start offsets recorded, a non-empty poll throws with its record count and an empty one is skipped; neither changes the cache, calls `handle` or commits |
| `Consumption.PollCommitted` | src/main/java/se/yolean/kafka/keyvalue/ConsumerAtLeastOnce.java:137-156 | a batch commits if and only if start offsets exist, every record's partition has one, and `handle` throws on no forwarded update; the cache then holds every record, `handle` got exactly the forwarded updates in order, one `commitSync` follows, and it is the last call |
| `Consumption.PollMissingStartOffset` | src/main/java/se/yolean/kafka/keyvalue/ConsumerAtLeastOnce.java:141-145 | a record without a start offset throws naming its partition, offset and key; its value is already in the cache; only the forwarded records before it were handled; no commit happens |
| `Consumption.PollHandleThrows` | src/main/java/se/yolean/kafka/keyvalue/ConsumerAtLeastOnce.java:146-147 | when `handle` throws on a forwarded record, the batch fails with that update and no commit; the record is cached, and the failing update is the last one handled, after the forwarded records before it |
| `Consumption.PollCommitsOnlyWhenCommitted` | src/main/java/se/yolean/kafka/keyvalue/ConsumerAtLeastOnce.java:142-156 | one iteration commits exactly once when it completes and never when it throws or is skipped; start offsets are unchanged by polling |
| `Consumption.ReplayScenario` | src/main/java/se/yolean/kafka/keyvalue/ConsumerAtLeastOnce.java:137-156 | one key written at offsets 0, 1, 2 with start offset 1 and a `handle` that never throws: the cache ends with the offset-2 value, `handle` sees offsets 1 then 2, and there is one commit |
| `Consumption.HandleThrowScenario` | src/main/java/se/yolean/kafka/keyvalue/ConsumerAtLeastOnce.java:137-156 | the same batch with `handle` throwing on offset 1: the cache holds the offset-1 value, `handle` saw only offset 1, offset 2 is not reached, and nothing is committed |
| `Consumption.Assign` | src/main/java/se/yolean/kafka/keyvalue/ConsumerAtLeastOnce.java:108-112 | defines the start offsets after the listener: each assigned partition mapped to its position, other entries kept |
| `Consumption.PositionCalls` | src/main/java/se/yolean/kafka/keyvalue/ConsumerAtLeastOnce.java:108-112 | defines the position reads of the listener: one per assigned partition, in order |
| `Consumption.AssignCalls` | src/main/java/se/yolean/kafka/keyvalue/ConsumerAtLeastOnce.java:106-114 | defines the listener's broker calls: the position reads, then one `seekToBeginning` of all assigned partitions |
| `Consumption.AssignStep` | src/main/java/se/yolean/kafka/keyvalue/ConsumerAtLeastOnce.java:108-112 | recording one more partition's position is one `put` of that position into the start offsets |
| `Consumption.AssignStartOffsets` | src/main/java/se/yolean/kafka/keyvalue/ConsumerAtLeastOnce.java:106-114 | after assignment, each assigned partition's start offset is its position as read, even if an entry existed before; other partitions keep their entries |
| `Consumption.AssignCallsQuiet` | src/main/java/se/yolean/kafka/keyvalue/ConsumerAtLeastOnce.java:106-114 | the assignment listener calls neither `handle` nor `commitSync`, and `seekToBeginning` of the assigned partitions comes after every position read |
| `Consumption.PositionCallsQuiet` | src/main/java/se/yolean/kafka/keyvalue/ConsumerAtLeastOnce.java:108-112 | reading positions calls neither `handle` nor `commitSync` |
| `Consumption.Rebalanced` | src/main/java/se/yolean/kafka/keyvalue/ConsumerAtLeastOnce.java:98-116 | defines the listener callbacks of one rebalance: revocation only logs, assignment records start offsets and seeks |
| `Consumption.RebalanceQuiet` | src/main/java/se/yolean/kafka/keyvalue/ConsumerAtLeastOnce.java:98-116 | a rebalance never touches the cache and calls neither `handle` nor `commitSync`; the revoked partitions make no difference to the new state; no rebalance leaves the state unchanged |
| `Consumption.RebalanceStartOffsets` | src/main/java/se/yolean/kafka/keyvalue/ConsumerAtLeastOnce.java:105-114 | after a rebalance, each assigned partition's start offset is its position as read; every other partition keeps its entry or stays absent |
| `Consumption.Iterate` | src/main/java/se/yolean/kafka/keyvalue/ConsumerAtLeastOnce.java:120-159 | defines the `for` loop for a given loop body: `polls` iterations when positive, none otherwise, ending early at the first iteration that throws |
| `Consumption.Iteration` | src/main/java/se/yolean/kafka/keyvalue/ConsumerAtLeastOnce.java:120-156 | defines the source's loop body: the rebalance delivered during the poll, then the batch |
| `Consumption.RunStart` | src/main/java/se/yolean/kafka/keyvalue/ConsumerAtLeastOnce.java:96-118 | defines the state before the loop: fresh start offsets, then the rebalance of the initial poll, whose records are discarded |
| `Consumption.RunSpec` | src/main/java/se/yolean/kafka/keyvalue/ConsumerAtLeastOnce.java:96-159 | defines a run: the loop with the source's body, from `RunStart` |
| `Consumption.IterationCommits` | src/main/java/se/yolean/kafka/keyvalue/ConsumerAtLeastOnce.java:120-156 | one loop iteration adds a commit exactly when its batch is committed, and leaves the start offsets alone when the poll delivers no rebalance |
| `Consumption.IterationIsWellBehaved` | src/main/java/se/yolean/kafka/keyvalue/ConsumerAtLeastOnce.java:120-156 | the source's loop body commits at most once per iteration, never in an iteration that throws, and changes start offsets only on a rebalance |
| `Consumption.IterateCount` | src/main/java/se/yolean/kafka/keyvalue/ConsumerAtLeastOnce.java:120 | from iteration `n`, the loop runs to exactly `polls` iterations unless one throws, which ends it after at least one more iteration |
| `Consumption.IterateCommits` | src/main/java/se/yolean/kafka/keyvalue/ConsumerAtLeastOnce.java:120-159 | for a body that commits at most once per iteration and not when it throws, the commits added are at most the iterations run, and at least one fewer when a throw ended the loop |
| `Consumption.IterateStopsAtFailure` | src/main/java/se/yolean/kafka/keyvalue/ConsumerAtLeastOnce.java:126-156 | an iteration that throws is the last: the loop ends with that iteration's state and error, and no later iteration starts |
| `Consumption.RunBounds` | src/main/java/se/yolean/kafka/keyvalue/ConsumerAtLeastOnce.java:118-159 | a run makes exactly `polls` iterations when `polls > 0` and none otherwise, unless one throws; it commits at most once per iteration; with no later rebalance the start offsets of the initial poll hold throughout; with `polls <= 0` it neither handles, commits nor changes the cache |
| `Consumption.IterationHandleThrows` | src/main/java/se/yolean/kafka/keyvalue/ConsumerAtLeastOnce.java:126-147 | a loop iteration in which `handle` throws, with start offsets from before or from the poll's rebalance, fails with that update, adds no commit and handles nothing after it |
| `Consumption.RunEndsWhenHandleThrows` | src/main/java/se/yolean/kafka/keyvalue/ConsumerAtLeastOnce.java:120-159 | when `handle` throws in the first iteration, the run ends after that one iteration with the `handle` error, no commit, and no update handled after the failing one; the start offsets may come from the initial poll or from a rebalance in the first loop poll |
| `Consumption.StartOffsetsFixed` | src/main/java/se/yolean/kafka/keyvalue/ConsumerAtLeastOnce.java:120-159 | for a loop body that changes start offsets only on a rebalance, when no rebalance follows the start offsets stay fixed for the rest of the loop |
| `ConsumerLoop.ConsumerAtLeastOnce.OnPartitionsRevoked` | src/main/java/se/yolean/kafka/keyvalue/ConsumerAtLeastOnce.java:100-103 | revocation leaves the whole state unchanged |
| `ConsumerLoop.ConsumerAtLeastOnce.OnPartitionsAssigned` | src/main/java/se/yolean/kafka/keyvalue/ConsumerAtLeastOnce.java:105-114 | the listener loop leaves the start offsets equal to `Assign` of the old ones and appends one position read per partition, then one `seekToBeginning`; the cache is untouched |
| `ConsumerLoop.ConsumerAtLeastOnce.OnRebalance` | src/main/java/se/yolean/kafka/keyvalue/ConsumerAtLeastOnce.java:98-116 | delivering a rebalance, revocation first, moves the state to `Rebalanced` of the old state |
| `ConsumerLoop.ConsumerAtLeastOnce.ProcessPoll` | src/main/java/se/yolean/kafka/keyvalue/ConsumerAtLeastOnce.java:126-157 | the record loop, including a `handle` that throws, leaves the state, and returns the result, that `Poll` gives for the old state and the batch |
| `ConsumerLoop.ConsumerAtLeastOnce.Run` | src/main/java/se/yolean/kafka/keyvalue/ConsumerAtLeastOnce.java:96-159 | the run resets the start offsets, takes the initial poll's rebalance, then runs the `for` loop, stopping at the first iteration that throws; it ends in the state and error of `RunSpec` |
| `ConsumerLoop.ConsumerAtLeastOnce.IsReady` | src/main/java/se/yolean/kafka/keyvalue/ConsumerAtLeastOnce.java:163-165 | the consumer never reports ready |
| `CacheResource.GetCacheValue` | src/main/java/se/yolean/kafka/keyvalue/http/CacheResource.java:41-53 | a null key is refused first; the interned empty literal is refused next; otherwise a null cache value gives `NotFound` and a non-null one is returned unchanged |
| `CacheResource.EmptyKeyMayBeLookedUp` | src/main/java/se/yolean/kafka/keyvalue/http/CacheResource.java:45-52 | an empty key that is not the interned literal passes the check and is looked up, so empty keys are not guaranteed to be refused |
| `CacheResource.CacheValueOnlyFromCache` | src/main/java/se/yolean/kafka/keyvalue/http/CacheResource.java:48-52 | a value is returned if and only if the key passed the checks and the cache holds a non-null value for it, and that value is what is returned |
| `CacheResource.GetCurrentOffset` | src/main/java/se/yolean/kafka/keyvalue/http/CacheResource.java:65-76 | a null topic, then an empty topic, then a null partition are refused with `BadRequest`, in that order; the call succeeds exactly when none applies, returning the cache's offset unchanged |
| `CacheResource.Lines` | src/main/java/se/yolean/kafka/keyvalue/http/CacheResource.java:135-138 | defines the listing format: each item's bytes followed by one newline byte, in iterator order |
| `CacheResource.KeysListing` | src/main/java/se/yolean/kafka/keyvalue/http/CacheResource.java:85-93 | defines the `keys()` body: the listing of every key's encoded bytes |
| `CacheResource.ValuesListing` | src/main/java/se/yolean/kafka/keyvalue/http/CacheResource.java:129-142 | defines the `values()` body: the listing of every value |
| `CacheResource.LinesLength` | src/main/java/se/yolean/kafka/keyvalue/http/CacheResource.java:135-138 | a listing is as long as all its items together plus one newline per item |
| `CacheResource.LinesSnoc` | src/main/java/se/yolean/kafka/keyvalue/http/CacheResource.java:135-138 | writing one more item extends the listing by that item's bytes and one newline |
| `CacheResource.NewlineIndex` | src/main/java/se/yolean/kafka/keyvalue/http/CacheResource.java:92 | finds the first newline byte, with no newline before it, or the end of the input when there is none |
| `CacheResource.SplitLinesCons` | src/main/java/se/yolean/kafka/keyvalue/http/CacheResource.java:135-138 | a piece without a newline, followed by a newline and more bytes, is read back as that piece followed by the reading of the rest |
| `CacheResource.LinesRoundTrip` | src/main/java/se/yolean/kafka/keyvalue/http/CacheResource.java:135-138 | when no item contains a newline, splitting a listing at its newlines gives back exactly the items, in order |
| `CacheResource.KeysListingLength` | src/main/java/se/yolean/kafka/keyvalue/http/CacheResource.java:90-93 | the `keys()` body is as long as the sum of the key byte lengths plus the number of keys |
| `CacheResource.KeysListingRoundTrip` | src/main/java/se/yolean/kafka/keyvalue/http/CacheResource.java:85-93 | when no key's bytes contain a newline, the `keys()` body splits back into every key's bytes, in iterator order |
| `CacheResource.WriteKeys` | src/main/java/se/yolean/kafka/keyvalue/http/CacheResource.java:84-97 | the streaming loop appends exactly the key listing to the output stream |
| `CacheResource.WriteValues` | src/main/java/se/yolean/kafka/keyvalue/http/CacheResource.java:129-142 | the streaming loop appends exactly the value listing to the output stream |

## Left out

- The `OnUpdate` port is not a separate interface here. Each `handle(update, null)` call is a `Handle` entry in the ghost call log, and whether it throws is the input `handleThrows`. What the port does with an update, and which exception it throws, are not modelled. `OnUpdateNOP` only logs and never throws.
- Broker calls are not modelled as foreign code. `poll` is the input `broker`, and `position` is the input `position` of each rebalance. `position`, `seekToBeginning` and `commitSync` are entries in the call log. `subscribe` is only implicit: its listener runs through each poll event's optional `Rebalance` (see `Rebalanced`). `KafkaConsumer` construction and `close` are not modelled.
- Broker calls are assumed to return normally. In the source, an exception from `poll` (which also runs the listener callbacks), `position`, `seekToBeginning` or `commitSync` ends the run, because `run()` catches only `InterruptedException`. So a `commitSync` that throws, after the batch's `handle` calls, is not modelled.
- RunBounds: "no error means exactly `polls` iterations" holds only under the assumption that broker calls return normally; in the source a throwing broker call is one more way for a run to end early.
- What the broker returns after `seekToBeginning`, and which offsets `commitSync` stores, belong to the broker. The model only records that these calls were made.
- The topic-existence wait loop is not modelled. It depends on `TopicCheck` and `Create`, which are not part of this model, and on sleeping.
- `Thread.sleep` pacing, the wrap of `InterruptedException` in `run`, and logging are not modelled. They concern timing, interruption and output only.
- The Quarkus `start`/`stop` hooks and `DurationConverter` are not modelled. They are framework bootstrap and configuration parsing.
- `App.java` and `KeyvalueUpdateIntegrationTest.java` are not modelled. One is Kafka Streams topology and server wiring; the other tests the streams-based variant, which is not part of this model.
- `keysJson` is not modelled, because it delegates to a JSON library. JAX-RS annotations, routing and `Response` building are not modelled either.
- `KafkaCache`, the object behind the read API, is not part of this model. It appears only as its lookups and its key and value iterators. Its `getValues` iterator is taken to yield non-null arrays.
- `String.getBytes()` uses the platform charset. It is the parameter `encode`.
- Null record keys are not modelled: record keys are non-null strings. Null record values are modelled.
- Offsets, partition numbers and the loop counter are unbounded integers. Java's `int` and `long` widths are not modelled, because no realistic run reaches them.
- Concurrent readers of the cache are not modelled, because the loop is single-threaded and readers never write.
- `GetCacheValue`: the `key == ""` test compares references. The model makes whether it holds an input (`keyIsEmptyLiteral`) and promises nothing about empty keys in general.
