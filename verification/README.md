# orkid task lifecycle in Dafny

orkid is a task queue built on Redis Streams. A producer appends a task to a
queue's stream, guarded by an optional deduplication key. Consumers read tasks
through one consumer group per queue and run a handler on each. A task is then
acknowledged and deleted, sent back with a higher retry count, or moved to the
dead list. Every outcome is recorded on capped result, failed and dead lists.
Each consumer's loop starts with a cleanup pass. The pass takes over the
pending tasks of consumers whose connections are gone, and it removes
long-idle consumers that left nothing behind.

This project models that core as pure functions over an immutable Redis store:

- `Store` holds the streams with their consumer groups, pending-entry lists
  (PELs) and registered consumers, plus the sets. Each Redis command the core
  uses is one function.
- `Commands` holds the four server-side Lua scripts: `enqueue`, `requeue`,
  `dequeue` and `delconsumer`.
- `Transformers` holds the reply parsers.
- `TaskModel` holds task validation and `incrRetry`.
- `Producer` holds `addTask`.
- `Cleanup` holds the cleanup pass.
- `Outcomes` holds the capped outcome lists.
- `ConsumerUnit` holds reading, waiting, processing, the loop round and the
  loop flags.
- `Consumer` holds the pool.
- `Decimal`, `Text` and `Resp` are support modules. They cover decimal text,
  `split`/`join`, and the Redis replies with the JavaScript coercions the
  parsers depend on.

Some things are parameters rather than parts of the model:

- JSON parsing and printing (`decode`, `encode`).
- The handler together with its timeout. The handler returns an `Outcome`,
  and a timeout is one way of raising.
- Time stamps (`at`, `clock`).
- The CLIENT LIST reply text.
- The names units get when they connect.

The source has three bugs, described under Findings. `Cleanup.Build` selects
either the behaviour as written (`AsWritten`) or the evidently intended one
(`Corrected`). For the reply parser and for `requeue`, separate corrected
members sit next to the as-written ones.

## Model

| member | source | states |
|---|---|---|
| Decimal.ValueOfShow | src/task.ts:10-13 | a retry count written as decimal text reads back as the same number |
| Decimal.ShowInjective | src/consumer-unit.ts:401 | different retry counts are sent as different texts |
| Decimal.ParseNat | src/task.ts:10-13 | digit text converts to a number exactly when it is non-empty and all digits |
| Decimal.ParseNatOfShow | src/task.ts:10-13 | a count the consumer writes is accepted and converted back to itself |
| Text.Split | src/consumer-unit.ts:224-233 | `split` on one character gives at least one piece, and no piece holds the separator |
| Text.SplitOfJoin | src/consumer-unit.ts:224-233 | splitting joined pieces gives the pieces back when none holds the separator |
| Text.JoinOfSplit | src/consumer-unit.ts:224-233 | joining the pieces of a split gives the text back |
| Resp.Index | src/redis-transformers.ts:20-24 | indexing `null` throws, an array gives its element, and past the end gives `undefined` |
| Resp.ParseIntOfInteger | src/redis-transformers.ts:59-60 | `parseInt` reads an integer reply as the same integer |
| Transformers.AssignLastWins | src/redis-transformers.ts:9-13 | building an object by assignment defines exactly the assigned keys, each holding its last value |
| Transformers.AssignFrom | src/redis-transformers.ts:9-13 | every property value came from some pair |
| Transformers.FieldPairs | src/redis-transformers.ts:10-12 | an alternating array gives one assignment per key, rounding up |
| Transformers.ParseObjectResponse | src/redis-transformers.ts:5-14 | a non-array is returned unchanged and an array becomes an object |
| Transformers.ObjectResponseFields | src/redis-transformers.ts:5-14 | the object has exactly the keys of the array, each with the value of its last occurrence |
| Transformers.ParseMessage | src/redis-transformers.ts:20-24 | a null message throws; otherwise the result is its id and its parsed fields |
| Transformers.ParseMessages | src/redis-transformers.ts:20-25 | mapping succeeds iff no message is null, pointwise and length-preserving |
| Transformers.ParseMessageResponse | src/redis-transformers.ts:16-26 | a non-array gives `[]`, and an array gives its messages |
| Transformers.StreamPairs | src/redis-transformers.ts:33-35 | one stream-name/messages pair per stream; succeeds iff no stream is null and every message list parses |
| Transformers.ParseStreamResponse | src/redis-transformers.ts:28-37 | a non-array passes through; an array fails iff some stream is null or some message list fails; otherwise the object has exactly the streams' names as keys, each holding the parsed messages of its last stream of that name |
| Transformers.ParseConsumerCounts | src/redis-transformers.ts:48-53 | the summary consumers parse iff none is null, length-preserving |
| Transformers.ParsePendingRecord | src/redis-transformers.ts:56-61 | a detailed record parses iff it is not null |
| Transformers.ParsePendingRecords | src/redis-transformers.ts:55-62 | records parse pointwise iff none is null |
| Transformers.ParseXPendingResponse | src/redis-transformers.ts:39-63 | falsy or empty gives `[]`; any length-4 reply is read as the summary form; other arrays are read as records |
| Transformers.PendingIds | src/consumer-unit.ts:253-256 | the claimed ids are the record ids; the summary form gives none |
| Transformers.ParseXPendingCorrected | src/redis-transformers.ts:43 | the summary form is chosen only when the first element is a count; four detailed entries are read as records |
| TaskModel.StringField | src/task.ts:4-9 | a required string field, the empty string allowed, and nothing else accepted |
| TaskModel.New | src/task.ts:35-51 | a falsy id throws first; otherwise success iff the raw data is an object conforming to the schema (a retry count that is a safe integer, at most 2^53 - 1) and the data decodes; the fields are copied |
| TaskModel.CountField | src/task.ts:10-14 | `retryCount` is accepted iff present as a non-negative safe integer or as its digit text; the value read is that number |
| TaskModel.NewRejectsUnsafeCount | src/task.ts:10-14 | a retry count above 2^53 - 1 makes the constructor throw |
| TaskModel.IncrRetry | src/task.ts:53-55 | the retry count goes up by one and nothing else changes |
| TaskModel.NewConvertsCountText | src/task.ts:10-20 | a task written with the decimal text of a safe-integer retry count is read back with that count |
| Defaults.KeysDistinct | src/consumer-unit.ts:52-55 | the stream key differs from the bare queue name, the dedup set and the group name |
| Defaults.QueueKeyInjective | src/producer.ts:39 | different queues use different stream keys |
| Store.ParseIdText | src/consumer-unit.ts:369 | an id read from a reply names the same entry when sent back |
| Store.SAdd | src/commands.ts:71 | SADD adds the member and touches nothing else |
| Store.SRem | src/commands.ts:155 | SREM removes the member and touches nothing else |
| Store.XAdd | src/commands.ts:74 | XADD appends an entry with an id above every earlier one, and only that stream changes |
| Store.XDel | src/commands.ts:86 | XDEL removes the named entry; its reply is positive iff the entry existed; the groups are untouched |
| Store.XAck | src/commands.ts:85 | XACK removes the id from the group's PEL, keeping its last-delivered id, its consumers and every other group; a missing group acknowledges nothing |
| Store.XGroupCreate | src/consumer-unit.ts:97-110 | after creation the group exists; an existing group is left alone |
| Store.Owned | src/consumer-unit.ts:250 | a consumer's pending entries are exactly the PEL items it owns |
| Store.Seen | src/consumer-unit.ts:259-268 | a consumer that reads or claims becomes registered |
| Store.XInfoConsumers | src/consumer-unit.ts:199 | fails iff the group is missing; otherwise one record per registered consumer with its true pending count |
| Store.XGroupDelConsumer | src/commands.ts:193 | drops the registration and the consumer's pending items; the entries, the last id and every other group stay as they were |
| Store.Take | src/consumer-unit.ts:139-140 | COUNT limits the reply, and COUNT 0 means no limit |
| Store.XReadGroupHistory | src/consumer-unit.ts:135-144 | reading from id 0 gives the consumer's own pending entries, oldest first, up to COUNT; in the store only that group changes: the reader is registered, the items returned are delivered again, and the mark, the entries and the last id stay |
| Store.Redeliver | src/consumer-unit.ts:135-144 | delivering again keeps every pending item's id and owner, and leaves other consumers' items as they were |
| Store.RedeliverReadsOwn | src/consumer-unit.ts:135-144 | exactly the consumer's first COUNT items (all when COUNT is 0) are delivered again: idle time reset and delivery count up by one while the entry is stored; its other items are unchanged |
| Store.Undelivered | src/consumer-unit.ts:163-174 | the entries after the last one delivered |
| Store.XReadGroupNew | src/consumer-unit.ts:163-174 | reading `>` delivers never-delivered entries and adds them to this consumer's PEL; the group's mark moves to the last entry delivered, the reader is registered, and nothing else changes |
| Store.XAddKeepsAscending | src/commands.ts:74 | XADD keeps stream ids strictly increasing and within the stream's last id |
| Store.NoRedelivery | src/consumer-unit.ts:163-174 | in such a stream a `>` read hands out the first undelivered entries, and afterwards exactly the rest remain undelivered, so no entry is handed out twice |
| Store.XPendingOf | src/consumer-unit.ts:250 | the detailed XPENDING form lists the consumer's first entries |
| Store.ClaimOne | src/consumer-unit.ts:259-268 | an entry changes owner iff it is pending and idle at least min-idle |
| Store.ClaimAll | src/consumer-unit.ts:259-268 | claiming keeps ids and delivery counts, and each item is unchanged or now owned by the claimer |
| Store.XClaim | src/consumer-unit.ts:259-268 | XCLAIM changes only the group's bookkeeping and registers the claimer |
| Store.ClaimAllExact | src/consumer-unit.ts:259-268 | with distinct ids, exactly the named idle-enough entries change owner, and the reply lists exactly them |
| Store.OwnedIdsName | src/consumer-unit.ts:250-256 | the offered ids name only the orphan's entries, and all of them when they fit the limit |
| Commands.Enqueue | src/commands.ts:104-128 | the queue is registered; with no key, or a key not held, an entry is appended and its id returned; a held key gives nil and no change |
| Commands.Requeue | src/commands.ts:58-88 | the enqueue insert, then the original is acknowledged and deleted whatever the insert did: a PEL item stays iff it was there and is not the original; an entry is there iff it was there or is the inserted copy, and is not the original; other groups are untouched |
| Commands.AckThenDelete | src/commands.ts:85-86 | XACK then XDEL: exactly the named id leaves the entries and the group's PEL; the last id, the consumers and other groups are kept; an unparsable id changes nothing |
| Commands.InsertHeld | src/commands.ts:71-79 | the queue is registered, a non-empty key is held, and exactly one entry is appended at last id + 1 |
| Commands.HeldKeyRequeueDropsTask | src/commands.ts:73-88 | a retry whose key is held returns nil; the original is deleted; the key stays held |
| Commands.RequeueCorrected | src/commands.ts:73-88 | the retry is always appended at last id + 1, the key stays held, and the original is acknowledged and deleted; no other entry appears and no item becomes pending |
| Commands.RequeueCorrectedAgrees | src/commands.ts:73-74 | with no dedup key, the corrected script and the script as written agree |
| Commands.Dequeue | src/commands.ts:144-160 | the key is released; the entry and its PEL item go; the reply counts deletions; the last id stays, no entry appears and no item becomes pending |
| Commands.ConsumerMapOfStats | src/commands.ts:178-190 | the Lua table lists exactly the registered consumers with their true pending counts |
| Commands.DelConsumer | src/commands.ts:173-194 | fails iff the group is missing; deletes the consumer iff it is registered with nothing pending; a deletion removes exactly that registration, keeps the group's other fields, the stream's last id and every other group |
| Commands.HeldUntilReleased | src/commands.ts:119-125 | a held key stays held until a `dequeue` of it |
| Commands.DedupExclusive | src/commands.ts:119-125 | after a successful keyed enqueue, every later enqueue with that key returns nil until the key is released |
| Commands.ReleasedKeyEnqueues | src/commands.ts:152-157 | after `dequeue` releases a key, the next enqueue with it succeeds |
| Producer.AddTask | src/producer.ts:51-57 | one enqueue into the namespaced stream at retry 0; other streams unchanged |
| Producer.DedupSetIsNotQueueNames | src/producer.ts:40 | a queue's dedup set is never the queue-names set |
| Producer.AddTaskReturnsId | src/producer.ts:55-56 | without a held key the new id is returned |
| Producer.SecondAddWithSameKeyIsNil | src/producer.ts:55-56 | a second add with the same key gives nil and leaves the stream alone |
| Outcomes.LTrimHead | src/consumer-unit.ts:371 | LTRIM 0 stop keeps the first stop+1 elements; a negative stop counts from the end |
| Outcomes.PushTrim | src/consumer-unit.ts:370-371 | LPUSH then LTRIM changes only that list |
| Outcomes.PushTrimBounded | src/consumer-unit.ts:370-377 | the record comes first, the length is capped, and the rest is the old list with its oldest elements cut |
| Outcomes.PushBoth | src/consumer-unit.ts:370-377 | only the global and per-queue lists change |
| Outcomes.PerQueueIsNotGlobal | src/consumer-unit.ts:372 | the per-queue key differs from its global list |
| Outcomes.PushBothHeads | src/consumer-unit.ts:370-377 | both lists start with the record and stay within their caps |
| Outcomes.ListKeysApart | src/consumer-unit.ts:410-433 | the result, failed and dead keys and their per-queue copies are six different keys |
| Cleanup.DataFields | src/consumer-unit.ts:202-205 | a consumer's object holds its name, pending count and idle time |
| Cleanup.ConsumerInfoOf | src/consumer-unit.ts:200-207 | the info object lists exactly the consumers of the records |
| Cleanup.Keys | src/consumer-unit.ts:209 | `Object.keys` lists each name once, with no repeats, in order of first appearance |
| Cleanup.Partition | src/consumer-unit.ts:214-221 | pending iff the pending count is truthy; empty iff not pending and idle above the bound |
| Cleanup.Classify | src/consumer-unit.ts:209-221 | the two lists are disjoint, hold only consumer names and repeat none |
| Cleanup.ClassifyGroup | src/consumer-unit.ts:214-221 | against the group itself: pending iff the consumer owns an entry; empty iff it owns none and is idle beyond the bound |
| Cleanup.Tokens | src/consumer-unit.ts:229-231 | the space-separated tokens of every line |
| Cleanup.ActiveWorkers | src/consumer-unit.ts:224-239 | the names announced by `name=` tokens, each once |
| Cleanup.ActiveWorkersOfClientList | src/consumer-unit.ts:224-239 | read from the CLIENT LIST reply, a name is active iff it is non-empty and some connection carries it |
| Cleanup.Without | src/consumer-unit.ts:189-195 | the difference keeps the elements of the first list not in the second, in order, and a list without repeats stays without |
| Cleanup.Offered | src/consumer-unit.ts:250-256 | the ids sent to XCLAIM: the orphan's first 1000 pending entries, or none when the as-written parser reads four entries as the summary |
| Cleanup.ParsePendingList | src/consumer-unit.ts:250-256 | the detailed reply parses, and its ids are those of the offered entries |
| Cleanup.ClaimFrom | src/consumer-unit.ts:248-272 | per orphan: entries unchanged; the claimer registered; exactly the offered idle entries change owner; the count is their number |
| Cleanup.ClaimedFromOffered | src/consumer-unit.ts:259-268 | XCLAIM of the offered ids hands over exactly the stale ones |
| Cleanup.FourPendingNeverClaimed | src/redis-transformers.ts:43 | as written, an orphan with exactly four pending entries gives up none of them |
| Cleanup.CorrectedClaimsStaleEntries | src/consumer-unit.ts:248-271 | corrected, every entry of an orphan with at most 1000 pending goes to the claimer once idle long enough |
| Cleanup.ClaimEach | src/consumer-unit.ts:248-272 | each PEL item stays unchanged, or belonged to an orphan, was idle long enough, and now belongs to the claimer |
| Cleanup.ClaimEachExactly | src/consumer-unit.ts:248-271 | with distinct ids, distinct orphans and a claimer that is not one of them: each orphan's count is the number of its offered entries idle long enough, and a PEL item changes owner to the claimer iff it is one of those |
| Cleanup.Reclaim | src/consumer-unit.ts:248-281 | the claim loop then the deletion loop: `claimInfo` has exactly the orphans as keys, each holding its claim count; the PEL changes only by claims to this consumer (exactly the stale offered entries under the same conditions); exactly the orphan-empty consumers with nothing pending are unregistered |
| Cleanup.ClaimInfoValues | src/consumer-unit.ts:270 | with distinct orphans, `claimInfo[w]` is the length of `w`'s own XCLAIM reply |
| Cleanup.DeleteEach | src/consumer-unit.ts:276-281 | exactly the listed consumers with nothing pending are unregistered, and the PEL is untouched |
| Cleanup.Run | src/consumer-unit.ts:187-297 | fails iff the group is missing; only group bookkeeping changes; orphans are the inactive pending consumers, orphan-empty the inactive empty ones; every PEL item is unchanged or was an orphan's, idle at least twice the timeout, and now belongs to this consumer; a consumer disappears iff it is orphan-empty with nothing pending; when this consumer is among the active workers, the orphans repeat none, each `claimInfo[w]` is the number of `w`'s offered entries idle at least twice the timeout, and a PEL item changes owner iff it is one of those |
| Cleanup.RunClaimsExactly | src/consumer-unit.ts:224-271 | when the CLIENT LIST reply shows this unit's own connection (the unit names its connection, src/consumer-unit.ts:123-124), cleanup succeeds with exactly those claim counts and exactly those PEL changes |
| Cleanup.ClaimInfoKeys | src/consumer-unit.ts:270 | `claimInfo` has exactly the orphans as keys |
| ConsumerUnit.TasksOf | src/consumer-unit.ts:150-153 | every message becomes a task, in order; the first invalid one throws |
| ConsumerUnit.GetPendingTasks | src/consumer-unit.ts:131-157 | a missing group fails and changes nothing; the buffer keeps its prefix and grows by at most COUNT tasks, each naming one of the unit's own pending entries; the store, also when the reply then fails to become tasks, differs only by the unit's registration and its items delivered again |
| ConsumerUnit.HistoryTasksFromOwn | src/consumer-unit.ts:146-153 | the tasks built from the history reply are no more than COUNT and than the unit's pending entries, and each names one of those entries |
| ConsumerUnit.HistoryMessages | src/consumer-unit.ts:146-148 | the history reply parses into one message per own pending entry, carrying its id text |
| ConsumerUnit.GetPendingTasksReadsEntries | src/consumer-unit.ts:131-157 | entries written by the scripts read back as the tasks they encode, in PEL order |
| ConsumerUnit.WrittenCountReadsBack | src/consumer-unit.ts:401 | a retry count the unit writes is the count the next read sees |
| ConsumerUnit.WaitForTask | src/consumer-unit.ts:159-177 | a missing group fails; at most one never-delivered entry joins the unit's PEL; none iff nothing is undelivered; the group's mark moves to that entry, and the unit is registered |
| ConsumerUnit.ProcessSuccess | src/consumer-unit.ts:353-379 | the result record heads both result lists within their caps; other lists unchanged; the entry and its PEL item go; the key is released |
| ConsumerUnit.Expire | src/consumer-unit.ts:405-420 | dequeued, with the record at the head of both dead lists, each within its cap; exactly the task's PEL item leaves the group |
| ConsumerUnit.ProcessFailure | src/consumer-unit.ts:381-437 | the failure record, with the pre-increment count, heads both failed lists; below `maxRetry` the store is the retry's and the dead lists are unchanged; otherwise the task is dequeued, exactly its PEL item leaves the group, and it is also recorded as dead, heading both dead lists within their caps; the result lists are unchanged |
| ConsumerUnit.RetryAsWrittenLeavesTaskPending | src/consumer-unit.ts:401 | as written, a retry leaves the task's own stream, and its PEL item, exactly as they were |
| ConsumerUnit.RetryCorrectedRequeues | src/consumer-unit.ts:396-404 | corrected, the entry is replaced by a copy with retry count +1, the PEL item goes, and the key stays held |
| ConsumerUnit.ProcessTask | src/consumer-unit.ts:323-351 | an empty buffer changes nothing; otherwise the oldest task is taken off and counted |
| ConsumerUnit.ProcessTaskRoutes | src/consumer-unit.ts:339-349 | a returned task goes to the result lists only; a failed task with retries left to the failed lists only; a failed task out of retries to the failed and the dead lists |
| ConsumerUnit.Drain | src/consumer-unit.ts:315-317 | the inner loop empties the buffer and counts every task in it |
| ConsumerUnit.Round | src/consumer-unit.ts:307-318 | a missing group fails and changes nothing; on success the buffer ends empty, everything buffered before is run plus at most one buffer's worth of new reads, and nothing but the buffer and the count changes in the unit; a round that fails later keeps what its completed commands did: no list changes, and every pending item keeps the owner cleanup gave it |
| ConsumerUnit.ProcessTaskKeepsCaps | src/consumer-unit.ts:366-436 | processing a task leaves the result, failed and dead lists and their per-queue copies within their caps |
| ConsumerUnit.DrainKeepsCaps | src/consumer-unit.ts:315-317 | however many tasks the inner loop runs, all six lists stay within their caps |
| ConsumerUnit.RoundKeepsCaps | src/consumer-unit.ts:307-318 | a round, successful or failed, leaves all six lists within their caps |
| ConsumerUnit.RoundWaitReads | src/consumer-unit.ts:307-313 | a successful round with nothing buffered after the history read ends in the wait: its store is what the `>` read leaves, and the unit and the lists are as the history read left them |
| ConsumerUnit.WaitHandsOutFirst | src/consumer-unit.ts:159-177 | with no undelivered entry the group is unchanged; otherwise the first undelivered entry joins the PEL as the unit's, delivered once, it becomes the unit's last pending item for the next history read, and the mark moves to it |
| ConsumerUnit.ProcessTaskAdvances | src/consumer-unit.ts:339-437 | processing only moves the queue forward: the group stays, the last id never falls, every new entry has a fresh id, and no item becomes pending |
| ConsumerUnit.ProcessTaskRetires | src/consumer-unit.ts:339-421 | a task that returned, ran out of retries, or was retried by the corrected script leaves the queue: no entry and no pending item carries its id afterwards |
| ConsumerUnit.DrainAdvances | src/consumer-unit.ts:315-317 | the inner loop as a whole only moves the queue forward |
| ConsumerUnit.DrainRetires | src/consumer-unit.ts:315-317 | every buffered task whose route ends it has left the queue once the buffer is drained; later tasks never bring it back |
| ConsumerUnit.BatchIssued | src/consumer-unit.ts:308-309 | every task in a round's buffer carries an id the stream has issued, those read back because cleanup keeps every pending id |
| ConsumerUnit.RoundRetires | src/consumer-unit.ts:307-318 | after a successful round, every task it ran whose route ends it is stored and pending no more |
| ConsumerUnit.Step | src/consumer-unit.ts:74-89 | `start` clears the pause and starts a loop only when the flag is clear; `pause` sets the pause; a loop ends normally only when it finds the unit paused, which clears the flag; a round that throws ends the loop and leaves the flag set |
| ConsumerUnit.AtMostOneLoop | src/consumer-unit.ts:300-321 | over any sequence of start, pause, resume, loop checks and failed rounds, at most one loop runs per unit, and none without the flag |
| ConsumerUnit.FailedRoundSticks | src/consumer-unit.ts:300-321 | a round that throws leaves the flag set with no loop running |
| ConsumerUnit.StuckForever | src/consumer-unit.ts:300-304 | once stuck, no sequence of later calls runs a loop again: `start()` returns at the flag check |
| ConsumerUnit.PauseThenResumeKeepsLoop | src/consumer-unit.ts:83-89 | for a running loop, a pause then a resume keeps the same loop; a pause then a loop check stops it |
| Consumer.OrDefault | src/consumer.ts:39 | a given option wins, otherwise the default |
| Consumer.Merged | src/consumer.ts:39-40 | each option merged over its default (concurrency 1, maxRetry 0, 24 h timeout, buffer 10) |
| Consumer.New | src/consumer.ts:38-55 | concurrency below 1 throws InvalidConfigError first, then a missing or non-function handler throws "workerFn is required"; otherwise exactly `concurrency` fresh units with the merged options |
| Consumer.FanOut | src/consumer.ts:57-73 | one event goes to every unit, and only the loop flags change |
| Consumer.Start | src/consumer.ts:57-61 | every unit becomes unpaused with a loop started |
| Consumer.Pause | src/consumer.ts:63-67 | every unit becomes paused |
| Consumer.Resume | src/consumer.ts:69-73 | every unit gets `start()` |
| Consumer.NewPoolHealthy | src/consumer.ts:50-54 | new units are paused with no loop |
| Consumer.FanOutKeepsHealthy | src/consumer.ts:57-73 | pool calls keep at most one loop per unit |
| Consumer.StartedPoolRunsOneLoopEach | src/consumer.ts:57-61 | after `start()`, each unit runs exactly one loop, except a unit stuck by an earlier failed round, which runs none |
| Consumer.FanOutTouchesOnlyControl | src/consumer.ts:57-73 | fan-out keeps each unit's queue, name, options, buffer and count |

## Left out

- Connections, `duplicate()`, `disconnect` and script loading. These are I/O.
- Initialisation and unit names. A unit's name comes from its client id plus a random suffix. The model takes the names as a parameter and assumes the group exists, which is what `XGroupCreate` gives.
- Statistics (the HINCRBY counters) and logging. Neither affects the store state the model tracks.
- JSON text. `JSON.parse` and `JSON.stringify` are the `decode` and `encode` parameters. A record's JSON text is modelled as the record value.
- Time stamps. They are parameters.
- The worker timeout race. Its result is the handler's `Outcome`, where a timeout is one way of raising.
- The blocking of `XREADGROUP ... BLOCK 0`. `ConsumerUnit.WaitForTask` models a read that has returned; an empty read stands for a wait still in progress.
- Interleavings between units, and between a unit and a `pause()` during a drain. A round runs atomically. The loop flags are modelled separately, as an event sequence.
- ConsumerUnit.Round models one pass of the outer loop. The unbounded `while` is modelled through the loop flags (`Step`), not as repeated rounds. A round that throws is the `RoundFailed` event; which store error caused it is not tracked there.
- Redis ids are modelled as `<n>-0` with ids given out as last id + 1. Real ids come from the clock. Malformed id texts name no entry.
- The passing of time between commands. Idle times are values in the store: delivery and claims reset them, and nothing in the model advances them.
- Redis-version differences in XCLAIM's registration of the claimer. The model always registers the claimer.
- Store.ClaimOne: follows XCLAIM up to Redis 6.2, which claims a pending item whose entry was deleted like any other. From Redis 7.0, XCLAIM instead drops such an item from the PEL and leaves it out of the reply. The model does not carry this version difference, so for deleted-but-pending items its claim counts are those of Redis 6.2.
- The order of XINFO CONSUMERS. Redis lists a group's consumers sorted by name; the model lists them in registration order. This changes the order of `consumerNames`, of the orphan lists, of `deleteInfo` and of the claim and delete loops (src/consumer-unit.ts:199-221, 248-292). The contracts of `Cleanup.Run` state which consumers are in these lists and what happens to each one, and leave the order open.
- ConsumerUnit.RoundRetires: stated for a group whose pending ids are distinct and were issued by the stream, with the buffered tasks' ids issued too, which XADD and the scripts keep but the model does not carry as an invariant across rounds. A task retried by the script as written is not retired: its entry stays pending (see Findings).
- Client names containing `=` or spaces. The model reads only plain names back from CLIENT LIST.
- Two orderings are simplified:
  - `Object.values` over several streams, and `Object.keys` ordering of integer-like names: the model assumes a single stream and keys in insertion order.
  - `parseInt` on hexadecimal or exponent text: only decimal text is modelled.
- Joi conversions for `retryCount` other than digit text to a number, such as signs, decimal points and surrounding spaces. The safe-integer bound is modelled.
- Cleanup.Run: the exact claim counts and PEL changes are stated only when this unit is among the active workers, which holds whenever the CLIENT LIST reply shows its own connection (`RunClaimsExactly`). Otherwise only the one-way form holds, because the unit could be one of the orphans and be offered its own entries.
- Cleanup.ClaimEach: its own contract is the one-way form; the exact form is `ClaimEachExactly`, under distinct ids and orphans and a claimer that is not an orphan.
- A fractional or non-numeric `concurrencyPerInstance`. Options are integers here.
- WRONGTYPE errors. Keys always hold the type the code expects.

## Findings

| source | as written | input that shows it | evidently intended | confidence | as-written member | corrected member |
|---|---|---|---|---|---|---|
| src/redis-transformers.ts:43 | Any XPENDING reply of length 4 is read as the summary form, because `Number.isNaN` is false for every reply element. | An orphaned consumer with exactly four pending entries. Cleanup sends XCLAIM no ids, and the entries are never reclaimed. | Read the summary form only when the first element is the count. | not executed | Cleanup.FourPendingNeverClaimed | Cleanup.CorrectedClaimsStaleEntries |
| src/consumer-unit.ts:401 | `requeue` is given the bare queue name as its stream key. | Any failed task with retries left. XACK and XDEL run on stream `qname` and miss, so the original stays pending and is read again at the same retry count. A task without a dedup key also gets a copy in stream `qname`, which no consumer reads. For a task with a dedup key nothing is inserted at all, because the namespaced dedup set still holds its key. | Pass the namespaced stream key. | not executed | ConsumerUnit.RetryAsWrittenLeavesTaskPending | ConsumerUnit.RetryCorrectedRequeues |
| src/commands.ts:73-88 | `requeue` refuses to insert when the task's dedup key is held, but still acknowledges and deletes the original. | Latent while the stream key at src/consumer-unit.ts:401 is wrong, since the script then acknowledges and deletes nothing. Once that key is corrected: a retry of a task added with a dedup key. The key is always held, since it was taken at enqueue. The task vanishes and the key stays held for ever. | Always re-add the retry, keeping the key held. | not executed; shows only after the fix in the row above | Commands.HeldKeyRequeueDropsTask | Commands.RequeueCorrected |
