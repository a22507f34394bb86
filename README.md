# gRPC endpoint comparison engine, in Dafny

This project models the comparison engine of `compareGrpcEndpoints` in
`src/grpc-bench/grpc-comparison.ts`. The engine subscribes to slot
notifications from several gRPC endpoints and decides which endpoint
delivers each slot first, and by how many milliseconds the others lag.
It then reduces its per-endpoint records to a report.

The model has three modules:

- `Aggregation` (`aggregation.dfy`) holds the values: a slot notification
  (`BlockData`), an endpoint record (`EndpointStats`), the completion test
  of a slot group, and the aggregation of a group.
  - Aggregation counts the group for every active endpoint that has an
    entry in it.
  - It then credits every entry against the earliest arrival, either as a
    first arrival or as a positive latency sample.
  - Lemmas prove that a complete group holds exactly one entry per active
    endpoint.
  - They prove that aggregating it credits each participant exactly once,
    that at least one participant gets a first arrival, and that every
    record stays balanced: `firstReceived + |latencies| == totalReceived`
    and `totalLatency == Sum(latencies)`.
- `Reporting` (`reporting.dfy`) models the pure reduction inside `endTest`.
  - It produces one summary per configured endpoint.
  - It ranks the endpoints that have data by descending first-arrival
    rate, using a stable insertion sort.
  - It returns one of three outcomes: a ranking, a single-endpoint notice,
    or a no-data notice.
- `Engine` (`engine.dfy`) models the event handlers as the class
  `Comparison`.
  - The class fields are the state the closures of `compareGrpcEndpoints`
    share: the active set, the first-slot flags, the records, the two
    slot-keyed buffers, the formal-statistics flag, and the two timers.
  - Every handler is a method: a slot message, a stream error, a connection
    failure, the one-shot availability check, the one-second tick, and the
    end of test.
  - Each method states its whole new state in terms of the old state and
    the functions of `Aggregation` and `Reporting`.
  - Every handler, and every step it is built from, preserves the
    invariant `Valid()`. The two loop helpers are the exceptions:
    `EvictOldSlots` speaks only of the slot buffer, and
    `ProcessCollectedData` keeps only the shape part `WellFormed()`.
    Their callers re-establish `Valid()`.
  - The loops of the source (the availability check, the replay of pending
    data, counting a group, crediting a group, evicting old slots) are
    `while`/`for` loops proved against those functions.

Clock readings (`performance.now()`, `Date.now()`) are integer arguments of
the event methods. Timers are flags that the caller honours: a cleared
timer's method requires the flag to be set.

### Behaviours of the code that are easy to miss

The model follows the code in each of these cases:

- The replay of data collected before formal statistics
  (`processCollectedData`) never aggregates anything.
  - Each entry is recorded in `blockDataBySlot` before it is stored as
    pending, and nothing is evicted before formal statistics.
  - So every pending slot is skipped, and the replay only empties the
    pending buffer (`ReplaySkipsAll`, `StartFormalStats`).
  - The model still includes the aggregation branch of the replay in
    `Replay` and `ProcessCollectedData`.
- Entries for the same (slot, endpoint) pair are not deduplicated. A
  repeated entry makes the list longer, so the group can no longer
  complete.
- A completed group stays in `blockDataBySlot`.
  - Slots are evicted only after a group completes, and the bound is the
    completed slot minus 100, not the highest slot seen.
  - A late entry for an evicted slot starts a new list for that slot.
- Once formal statistics have started, no rule requires two active
  endpoints. With one active endpoint, a single entry from that endpoint
  completes its slot's group. A single entry from an inactive endpoint
  does not.
- The end of test has no guard. Every trigger clears the timers again and
  produces the report again.
- `totalReceived` grows only for entries from active endpoints. Every
  entry of the list is credited, though, and in formal mode a complete
  group holds only active endpoints anyway.

## Model

| member | source | states |
|---|---|---|
| Aggregation.Endpoints | src/grpc-bench/grpc-comparison.ts:264-267 | The set of endpoints of a group: it contains the endpoint of every entry, and each of its members has an entry in the group. |
| Aggregation.EndpointsCardinality | src/grpc-bench/grpc-comparison.ts:264-269 | A group has no more distinct endpoints than entries. The two counts are equal exactly when no endpoint appears twice. |
| Aggregation.CompleteIsExact | src/grpc-bench/grpc-comparison.ts:260-269 | The completion test holds exactly when the group's endpoints are the active set and each appears once. So a complete group has one entry per active endpoint and none from any other endpoint. |
| Aggregation.Earliest | src/grpc-bench/grpc-comparison.ts:279 | The earliest timestamp of a nonempty group is at most every entry's timestamp, and some entry has it. |
| Aggregation.Complete | src/grpc-bench/grpc-comparison.ts:260-269 | The completion test, by definition: as many entries as active endpoints, and every active endpoint among them. `CompleteIsExact` characterises it. |
| Aggregation.Credit | src/grpc-bench/grpc-comparison.ts:283-293 | One entry's credit, by definition: a positive latency is appended to the samples and added to the total, and otherwise the first-arrival count grows. `CreditCountedGroup` characterises it. |
| Aggregation.Counted | src/grpc-bench/grpc-comparison.ts:274 | One more counted group, by definition. `CreditCountedGroup` and `AggregateComplete` use it. |
| Aggregation.CreditAll | src/grpc-bench/grpc-comparison.ts:282-294 | Crediting the entries of a group keeps the same set of endpoint records. |
| Aggregation.CountReceived | src/grpc-bench/grpc-comparison.ts:271-276 | Counting a group keeps the same set of endpoint records. |
| Aggregation.Aggregate | src/grpc-bench/grpc-comparison.ts:269-294 | Aggregating a group keeps the same set of endpoint records. |
| Aggregation.CreditCountedGroup | src/grpc-bench/grpc-comparison.ts:274-293 | Counting a record once and crediting it with one latency gives exactly one more group. The group is either one more first arrival, or one more positive latency sample added to the total. The flags do not change and the record stays balanced. |
| Aggregation.CreditAllOthers | src/grpc-bench/grpc-comparison.ts:282-294 | Crediting a group leaves the record of every endpoint outside the group unchanged. |
| Aggregation.CreditAllAt | src/grpc-bench/grpc-comparison.ts:282-294 | In a group where each endpoint appears once, each entry's endpoint ends up credited with that entry's latency relative to the earliest arrival, and with nothing else. |
| Aggregation.CreditAllDistinct | src/grpc-bench/grpc-comparison.ts:282-294 | In a group where each endpoint appears once, every entry is credited to its own endpoint and every other record is unchanged. |
| Aggregation.AggregateComplete | src/grpc-bench/grpc-comparison.ts:269-294 | Aggregating a complete group leaves endpoints outside the active set alone and gives every relative latency as at least 0. Each entry's endpoint is counted once and credited with its own latency. |
| Aggregation.AggregateCreditsEachOnce | src/grpc-bench/grpc-comparison.ts:269-294 | Aggregating a complete group credits every active endpoint exactly once, and every balanced record stays balanced. |
| Aggregation.AggregateHasFirstArrival | src/grpc-bench/grpc-comparison.ts:279-292 | Aggregating a complete group gives some active endpoint one more first arrival. |
| Reporting.MinOf | src/grpc-bench/grpc-comparison.ts:399 | The minimum of a nonempty latency list is at most every element, and it is one of them. |
| Reporting.MaxOf | src/grpc-bench/grpc-comparison.ts:400 | The maximum of a nonempty latency list is at least every element, and it is one of them. |
| Reporting.MinLatency | src/grpc-bench/grpc-comparison.ts:399 | The reported minimum, by definition: `MinOf` of the samples, or 0 without samples. `AverageWithinRange` bounds it. |
| Reporting.MaxLatency | src/grpc-bench/grpc-comparison.ts:400 | The reported maximum, by definition: `MaxOf` of the samples, or 0 without samples. `AverageWithinRange` bounds it. |
| Reporting.AverageLatency | src/grpc-bench/grpc-comparison.ts:397-398 | The mean of the samples, or 0 without samples, by definition. `AverageWithinRange` bounds it by the minimum and the maximum. |
| Reporting.FirstRate | src/grpc-bench/grpc-comparison.ts:453-454 | The first-arrival rate, `firstReceived / totalReceived`, by definition. `FirstRateIsFraction` bounds it. |
| Reporting.AverageOverall | src/grpc-bench/grpc-comparison.ts:464-467 | The latency total over all counted groups, or 0 without groups, by definition; it fills a ranking row. |
| Reporting.Summarize | src/grpc-bench/grpc-comparison.ts:395-438 | One endpoint's summary, by definition: the counts, rate, mean, minimum, maximum and sample count when it has data, and otherwise a no-data notice. `ReportOf` states when each case occurs. |
| Reporting.InsertByRate | src/grpc-bench/grpc-comparison.ts:451-455 | One insertion step of the sort, by definition. `InsertByRateElements`, `InsertByRateSorted` and `InsertByRateMultiset` characterise it. |
| Reporting.Row | src/grpc-bench/grpc-comparison.ts:458-467 | One ranking line, by definition: the name, the rate, the mean when slower and the overall mean. |
| Reporting.Compare | src/grpc-bench/grpc-comparison.ts:457-477 | The comparison, by definition. `CompareOutcome`, `RankingIsSorted` and `RankingIsComplete` characterise it. |
| Reporting.AverageWithinRange | src/grpc-bench/grpc-comparison.ts:397-400 | For a balanced record with samples, the reported minimum is positive and at most the maximum. The reported mean lies between them. |
| Reporting.FirstRateIsFraction | src/grpc-bench/grpc-comparison.ts:420 | For a balanced record, the first-arrival rate is between 0 and 1. It is exactly 1 when the record has data and no latency sample. |
| Reporting.CandidateOf | src/grpc-bench/grpc-comparison.ts:446-449 | One endpoint paired with its record, by definition, and with the rate the ranking sorts by. `WithData` builds its candidates with it. |
| Reporting.DataCount | src/grpc-bench/grpc-comparison.ts:445-457 | The number of endpoints with data, by definition: the length tested at lines 457 and 473. `WithData` and `DataCountZero` characterise it. |
| Reporting.DataCountZero | src/grpc-bench/grpc-comparison.ts:445-450 | No configured endpoint has data exactly when every endpoint's `totalReceived` is 0. |
| Reporting.WithData | src/grpc-bench/grpc-comparison.ts:445-450 | The candidates are exactly the configured endpoints with `totalReceived > 0`. Each one carries its own record and its rate, and their number is the data count. |
| Reporting.InsertByRateElements | src/grpc-bench/grpc-comparison.ts:451-455 | Inserting a candidate makes the list one longer, and every element is the new candidate or came from the list. |
| Reporting.InsertByRateSorted | src/grpc-bench/grpc-comparison.ts:451-455 | Inserting into a list sorted by descending rate keeps it sorted. |
| Reporting.InsertByRateMultiset | src/grpc-bench/grpc-comparison.ts:451-455 | Inserting adds exactly the new candidate to the list's multiset. |
| Reporting.SortByRate | src/grpc-bench/grpc-comparison.ts:451-455 | The sort's output is sorted by descending first-arrival rate and is a permutation of its input. |
| Reporting.Rows | src/grpc-bench/grpc-comparison.ts:458-471 | One comparison line per ranked endpoint, in order. |
| Reporting.CompareOutcome | src/grpc-bench/grpc-comparison.ts:457-477 | The comparison is a ranking exactly when at least two endpoints have data, and a single-endpoint notice exactly when one does. Otherwise it is a no-data notice, which happens exactly when no endpoint has data. The single endpoint named is a configured endpoint with data. |
| Reporting.RankedRows | src/grpc-bench/grpc-comparison.ts:445-471 | The rows of the sorted candidates are in descending rate. There is one row per candidate, every candidate has a row, and no row comes from anything else. |
| Reporting.RankingIsSorted | src/grpc-bench/grpc-comparison.ts:445-471 | A ranking has one row per endpoint with data, in descending first-arrival rate. |
| Reporting.RankingIsComplete | src/grpc-bench/grpc-comparison.ts:445-471 | A ranking names only configured endpoints, and every configured endpoint with data has its row. |
| Reporting.ReportOf | src/grpc-bench/grpc-comparison.ts:392-438 | The report holds one summary per configured endpoint, in order and under its name. A summary is a no-data notice exactly when that endpoint's `totalReceived` is 0. |
| Engine.AvailabilityDelay | src/grpc-bench/grpc-comparison.ts:104 | The delay of the availability check is at most 5000 ms and at most a third of the duration. It is 5000 or the largest such integer, i.e. `min(floor(duration*1000/3), 5000)`. |
| Engine.Record | src/grpc-bench/grpc-comparison.ts:236-244 | Appending an entry to its slot's list, creating the list if needed, by definition. `RecordKeepsBuffers` and `RecordEntry` use it. |
| Engine.Evicted | src/grpc-bench/grpc-comparison.ts:297-300 | The buffer without the slots below the bound, by definition. `EvictOldSlots` proves its loop computes it. |
| Engine.Unavailable | src/grpc-bench/grpc-comparison.ts:79 | The record marked unavailable, by definition. It is also used at line 309 and line 359. |
| Engine.MarkedReceived | src/grpc-bench/grpc-comparison.ts:214 | One record marked as having data, by definition. `Marked` applies it. |
| Engine.Marked | src/grpc-bench/grpc-comparison.ts:214 | The records with the endpoint marked as having data, by definition. `MarkKeepsAgreement` uses it. |
| Engine.ReceivedCount | src/grpc-bench/grpc-comparison.ts:220-222 | The number of records marked as having data, by definition. `MarkFirstSlot` compares it with the endpoint count. |
| Engine.RecordKeepsBuffers | src/grpc-bench/grpc-comparison.ts:236-255 | Appending an entry to its slot's list keeps every buffered entry under its own slot and from a configured endpoint. |
| Engine.EvictedKeepsBuffers | src/grpc-bench/grpc-comparison.ts:297-300 | Eviction keeps every buffered entry under its own slot and from a configured endpoint. |
| Engine.ProgressMarks | src/grpc-bench/grpc-comparison.ts:513-518 | The progress condition on whole elapsed seconds holds exactly in the first second of every fifth second after the start. |
| Engine.MarkKeepsAgreement | src/grpc-bench/grpc-comparison.ts:212-214 | Marking the first slot of an endpoint in both its flag and its record keeps the records agreeing with the flags and the active set. |
| Engine.DeactivateKeepsAgreement | src/grpc-bench/grpc-comparison.ts:309-310 | Marking an endpoint unavailable and removing it from the active set keeps the agreement. |
| Engine.AggregateKeepsAgreement | src/grpc-bench/grpc-comparison.ts:269-294 | Aggregating a complete group keeps the agreement. |
| Engine.CheckKeepsAgreement | src/grpc-bench/grpc-comparison.ts:76-83 | Making every endpoint without data unavailable and inactive keeps the agreement. |
| Engine.ActiveData | src/grpc-bench/grpc-comparison.ts:120-122 | The filter keeps exactly the entries of the pending list that come from an active endpoint with data: every kept entry qualifies and comes from the list, and every qualifying entry of the list is kept. |
| Engine.Replay | src/grpc-bench/grpc-comparison.ts:113-151 | Replaying the pending slots keeps the same set of endpoint records. |
| Engine.ReplaySkipsAll | src/grpc-bench/grpc-comparison.ts:113-117 | When every pending slot is also buffered by slot, the replay leaves every record unchanged. |
| Engine.ReplayStep | src/grpc-bench/grpc-comparison.ts:113-151 | One more pending slot either is skipped (already buffered by slot) or has its filtered entries aggregated when there are at least two of them. |
| Engine.CountReceivedFor | src/grpc-bench/grpc-comparison.ts:271-276 | The loop over the active set counts the group for exactly the active endpoints with an entry. |
| Engine.CreditLatencies | src/grpc-bench/grpc-comparison.ts:282-294 | The loop over the group credits its entries in order, as `CreditAll` does. |
| Engine.AggregateGroup | src/grpc-bench/grpc-comparison.ts:269-294 | Counting, taking the earliest arrival and crediting together compute `Aggregate`. |
| Engine.AggregateAgreeing | src/grpc-bench/grpc-comparison.ts:269-294 | Aggregating a complete group computes `Aggregate`, keeps the same records, and keeps the agreement. |
| Engine.CheckAvailability | src/grpc-bench/grpc-comparison.ts:76-83 | The availability loop marks exactly the endpoints without a first slot unavailable and leaves the other records unchanged. An endpoint stays active exactly when it was active and has delivered a slot. |
| Engine.Comparison.constructor | src/grpc-bench/grpc-comparison.ts:35-69 | Initially every endpoint is active, has no first slot and has the initial record. Both buffers are empty, formal statistics have not started, and both timers are armed. The end time is the start plus the duration. |
| Engine.Comparison.EndTest | src/grpc-bench/grpc-comparison.ts:365-477 | Ending the test clears both timers and returns the report of the current records. It changes nothing else and has no guard against a second call. |
| Engine.Comparison.ClearTimers | src/grpc-bench/grpc-comparison.ts:366-367 | Clears both timers and nothing else. |
| Engine.Comparison.EvictOldSlots | src/grpc-bench/grpc-comparison.ts:297-300 | After eviction, a slot is buffered exactly when it was buffered before and is not below the bound. The remaining lists do not change. |
| Engine.Comparison.ProcessCollectedData | src/grpc-bench/grpc-comparison.ts:111-155 | The replay loop leaves the records as `Replay` of the pending slots in insertion order, and empties the pending buffer. |
| Engine.Comparison.StartFormalStats | src/grpc-bench/grpc-comparison.ts:226-230 | Starting formal statistics sets the flag and empties the pending buffer. The replay leaves every record unchanged. |
| Engine.Comparison.MarkFirstSlot | src/grpc-bench/grpc-comparison.ts:212-233 | The first slot of an endpoint marks its flag and its record. Formal statistics then start exactly when they had not started and every configured endpoint has data, and starting them empties the pending buffer. |
| Engine.Comparison.MarkReceived | src/grpc-bench/grpc-comparison.ts:212-214 | Sets the endpoint's first-slot flag and its record's data mark, and nothing else. |
| Engine.Comparison.RecordEntry | src/grpc-bench/grpc-comparison.ts:235-256 | The entry is appended to its slot's list. Before formal statistics it is also appended to the pending list, and a new pending slot goes to the end of the pending order. No deduplication is done. |
| Engine.Comparison.CheckGroup | src/grpc-bench/grpc-comparison.ts:259-301 | A group completes exactly when the completion test holds. It then gets aggregated, which happens at most once per buffered slot, and the slots more than 100 below it are evicted. The slot is noted as aggregated, and only slots still buffered stay noted. Otherwise nothing changes. |
| Engine.Comparison.InstallStats | src/grpc-bench/grpc-comparison.ts:269-294 | Stores the aggregated records and notes the slot as aggregated. |
| Engine.Comparison.RetireSlotsBelow | src/grpc-bench/grpc-comparison.ts:296-300 | Evicts the slots below the bound. Only slots still buffered remain noted as aggregated. |
| Engine.Comparison.OnSlot | src/grpc-bench/grpc-comparison.ts:207-302 | The whole slot handler. It describes the first-slot flag, the start of formal statistics, and the pending buffer. It says when the group completes (never before formal statistics) and the records afterwards, aggregated or not. It gives the slot buffer with or without eviction, the pending key order, and the set of aggregated slots, so that "at most once per buffered slot" chains across calls. |
| Engine.Comparison.OnAvailabilityCheck | src/grpc-bench/grpc-comparison.ts:72-103 | After the check, an endpoint is active exactly when it was active and has delivered a slot. Exactly the endpoints without data are marked unavailable. If formal statistics had not started, at least two active endpoints start them and fewer end the test with the report. |
| Engine.Comparison.ApplyAvailabilityCheck | src/grpc-bench/grpc-comparison.ts:74-83 | Disarms the timeout and applies the availability loop's result to the active set and the records. |
| Engine.Comparison.Deactivate | src/grpc-bench/grpc-comparison.ts:309-310 | Marks the endpoint unavailable and removes it from the active set. |
| Engine.Comparison.OnStreamError | src/grpc-bench/grpc-comparison.ts:306-322 | A stream error deactivates the endpoint. The test ends with the report exactly when fewer than two endpoints remain active and formal statistics have not started. Otherwise no timer changes. |
| Engine.Comparison.OnConnectFailure | src/grpc-bench/grpc-comparison.ts:356-361 | A connection failure deactivates the endpoint, with no further check. |
| Engine.Comparison.Tick | src/grpc-bench/grpc-comparison.ts:512-527 | A tick shows progress exactly in the first second of every fifth second. It ends the test with the report exactly when the end time is reached. |

## Left out

- The gRPC transport is not modelled. This covers client construction, subscribing, the subscribe-request write and its error path, the keepalive pings and the `pong` messages. A connection failure is an event the caller invokes (`OnConnectFailure`), at any point.
- The order in which connections interleave with the handlers is not modelled. The source awaits each connection in turn. Meanwhile the availability timeout and the earlier streams' handlers can already run, but the check interval does not exist yet: it is created at line 512, after the loop. The model arms the check interval in the constructor, so it lets `Tick` run during the connection phase, which the source cannot do. Otherwise the caller may invoke any handler in any order.
- Closing the streams and clients, and `process.exit`, are not modelled because they are I/O. `EndTest` only clears the timers before producing the report.
- `main`, the environment-variable endpoint discovery and the default endpoints are not modelled because they are process configuration.
- The slot number is an integer argument of `OnSlot`. `parseInt` of the message field is not modelled.
- Two paths can end the test while later connections are still being awaited: the availability check (72-102), and a stream error on an endpoint that connected earlier (306-320). `endTest` then reads the `checkInterval` constant before its declaration has run, and JavaScript throws. That case is not modelled: `ClearTimers` always clears both timers.
- The standard deviation and the percentiles are left out. They are computed with floating-point square roots and powers, and are never printed.
- All log text and number formatting (`toFixed`, `padEnd`, `padStart`) are left out; the report keeps the numbers. The percentage in the summary is the rate of `Reporting.FirstRate`, not the rate times 100.
- Engine.Comparison.Tick: the source reads `Date.now()` twice, once for the elapsed time (line 513) and once for the end test (line 524). The model uses one reading `now` for both, so it does not cover a clock that moves between the two reads.
- Times are integers and averages and rates are exact `real` divisions. JavaScript doubles and their rounding are not modelled.
- Reporting.SortByRate: the contract states that the output is sorted by descending rate and is a permutation of the input, but not that it is stable. The body is a stable insertion sort, so it orders equal rates as the source's `Array.prototype.sort` does (stable since ES2019). No lemma states stability.
- Reporting.Candidate stores the rate once, when the candidate is built. The source's comparator recomputes it from the same record, which gives the same value.
