# CoreC, verified model

CoreC is an industrial data gateway: it polls devices, filters and routes points by rules, batches
them to transports, executes write commands and reloads its configuration while it runs. This
project models the parts where that is hard to get right and proves what they promise, over every
input, every run or every interleaving.

Code that changes state is a class or a method with loops, tied by its postconditions to functions
on values; concurrent code is a state machine whose events are the atomic steps of the goroutines,
and a run is any sequence of events. Time is integer, floats are reals (or bit patterns in the
codecs), channels are sequences, directories and device memories are maps or functions. What a
device, a disk, a clock or the network answers to each single request is a parameter or left open,
so every answer is covered.

| file | content |
|---|---|
| `RuleSpec.dfy`, `RuleEngine.dfy` | rule matching: the linear scan, the driver index, when they agree |
| `BatcherProtocol.dfy`, `BatcherProgress.dfy`, `Batcher.dfy` | batch delivery to one transport |
| `OfflineProtocol.dfy`, `OfflineBuffer.dfy` | the shared on-disk replay store and the retry loop that feeds it |
| `RangeMerge.dfy` | greedy merging of address ranges and its optimality |
| `S7Codec.dfy`, `S7Read.dfy`, `S7Driver.dfy` | merged S7 reads |
| `S7Write.dfy` | what survives an S7 write and read, by Go kind, value and type |
| `ModbusPlan.dfy`, `ModbusWrap.dfy`, `ModbusFewest.dfy`, `ModbusRead.dfy` | merged Modbus reads |
| `Reload.dfy` | configuration reload with rollback |
| `CommandProtocol.dfy`, `Commands.dfy` | write commands: slots, retries, dead letters, audit |
| `CacheProtocol.dfy`, `CacheProgress.dfy`, `Cache.dfy` | the latest-value cache |
| `Cycles.dfy` | cycle detection among derived tags |
| `Deadband.dfy`, `RateWindow.dfy` | deadband filter, sliding rate window |
| `Alerts.dfy`, `TokenBucket.dfy` | alert registry, per-client rate limit |
| `History.dfy`, `StableSort.dfy`, `Common.dfy` | bounded histories, stable sorting, optional values and sequence facts |

## Where a promise needs a condition

These are promises the code keeps only under a condition. Each has a concrete failure and an exact
condition, proved in both directions.

- Indexed rule matching equals the linear scan exactly when no rule filed under one driver fires on
  a point of another (`RuleSpec.IndexTransparentIff`, over whole runs `IndexTransparentOnEveryRunIff`).
  The textual filter can file a rule that does: `driver == 'a' && p || q` and
  `driver == 'a' && p ? q : r` (`FilterUnsoundExample`, `ChoiceUnsoundExample`, exact condition
  `FilterSoundIff`).
- `stop` leaves nothing in the queue exactly when no batch was enqueued after the flush loop had
  gone. That cannot happen when `stop` itself cancels the context; when the parent context goes
  first it can (`BatcherProtocol.StopLeavesNothing`, `EarlyCancelStrands`).
- A Modbus batch covers all its tags exactly when no tag that ends at or below 65535 touches a later
  one that ends beyond; otherwise 16-bit wrap-around makes decoding index past the response
  (`ModbusWrap.CoveredIff`, `UncoveredExample`).
- Writing an S7 value and reading it gives it back exactly when the type can be read, the address is
  large enough, and the value is in range and of a Go kind its conversion helper lists, or zero; a
  float given to an integer tag must also not be negative (`S7Write.WriteThenReadIff`). The helper for
  8-bit tags lists neither `uint8` nor `int8`, the kinds the decoder itself hands out, so writing back
  the 5 such a tag reads stores 0 (`EightBitExample`, exact condition `WriteBackIff`).
- After any sequence of reloads the engine's derived tags are those of the configuration exactly when
  the engine can apply them while running or they are those of the start again
  (`Reload.Executor.ApplyAll`, failure `StaleDerivedExample`). The shipped engine can
  (engine/engine_stats.go:117), so the failure takes an engine without that role.
- A rate bucket saturates correctly exactly when the 64-bit addition does not wrap
  (`RateWindow.SaturatesIff`, `WrapExample`).
- Overflow of the alert registry clears an older alert for certain exactly when some active alert was
  fired before the new one; with equal fire times the new alert can be cleared before it is reported
  (`Alerts.OverflowSafeIff`). A run of 1001 fires of one moment does so (`TieRun`); over whole runs the
  logs are in order exactly when no overflow cleared the alert it recorded (`RunOrderlyIff`).
- Every rate bucket holds the newest second of its slot and that second's count at all times exactly
  when no observation is of an earlier second than one before it in its slot, which only a clock that
  steps back by whole minutes can bring about (`RateWindow.RightIff`, failure `StepBackExample`).
- A command whose write is rejected by pacing is said to be dead-lettered at once
  (engine/write_manager.go:109-114). Its first write being paced, it is so exactly when there are no
  retries or the driver's name, which the pacing message quotes, contains one of the patterns of
  permanent failures, such as the name "s7 encoder" (`Commands.WriteManager.ExecuteWriteWithRetry`,
  `PacedEndsIff`); otherwise it is retried, and may well succeed (`PacedExample`).
- The Modbus planner makes the fewest requests that the true ends of the tags allow exactly when, from
  the first tag that reaches address 65535 on, it opens at most one batch, and none if the batch before
  could have taken all those tags (`ModbusFewest.FewestIff`). Two tags at address 65535 are fetched
  with two requests although one would do (`TwiceExample`).

## Model

| member | source | states |
|---|---|---|
| RuleSpec.IndexTransparentIff | rule/engine.go:106-170 | indexed matching gives the linear scan's results and hit and miss counters for a point if and only if no rule filed under another driver fires within the linear scan's reach |
| RuleSpec.RunsAgreeWhenScoped | rule/engine.go:117-170 | over any sequence of points and enable/disable operations both matchers give the same results and counters if driver-filed rules are false on other drivers |
| RuleSpec.IndexTransparentOnEveryRunIff | rule/engine.go:106-170 | they agree on every run if and only if every driver-filed rule is false on every point of another driver |
| RuleSpec.CountersCount | rule/wrapper.go:59-85 | over every run of points and switches, indexed or not, a rule's hits have grown by the number of results that list it and its misses by the number of points for which the scan came to it, switched on, and did not list it |
| RuleSpec.ScanCounts | rule/wrapper.go:59-85 | one point adds one hit to each listed rule and one miss to each rule passed over, and changes nothing else |
| RuleSpec.AgreeWhenNoForeignHit | rule/engine.go:138-170 | without a foreign hit the merged scan and the recorded misses reproduce the linear scan |
| RuleSpec.DifferOnForeignHit | rule/engine.go:138-170 | with one, the results differ |
| RuleSpec.FilterSoundIff | rule/rule_build.go:297-349 | the extracted driver filter is sound for a rule text if and only if what is left of the text without its leading conjunction, the other alternatives or the arm of a choice they select, is false on other drivers |
| RuleSpec.FilterUnsoundExample | rule/rule_build.go:297-349 | a text the filter accepts whose rule fires on another driver |
| RuleSpec.ChoiceUnsoundExample | rule/rule_build.go:297-349 | the same with a choice `cond ? yes : no` |
| StableSort.SortSorts | driver/s7/s7_merge.go:96-100 | sorting orders by key and keeps every element as often as it was there |
| StableSort.SortIsStable | rule/rule_build.go:94-103 | elements of one key keep their order |
| RuleEngine.StableSortCorrect | rule/rule_build.go:94-112 | the sort orders by priority, keeps all rules, and keeps configuration order within every priority |
| RuleEngine.FiledIsOrdered | rule/rule_build.go:113-133 | index lists are ascending and hold exactly the rules filed under their driver |
| RuleEngine.Engine.constructor | rule/rule_build.go:79-143 | an empty engine with a correct index |
| RuleEngine.Engine.SetRules | rule/rule_build.go:79-143 | on success the rows are the stably sorted rules with fresh counters and a correct index; on a bad rule nothing changes |
| RuleEngine.Engine.BuildIndex | rule/rule_build.go:113-133 | every rule is in exactly its driver's list, or in the universal list, by position |
| RuleEngine.Engine.SetRuleDisabled | rule/rule_build.go:193-209 | sets one rule's flag and nothing else, or fails for an index out of range |
| RuleEngine.Engine.TryMatch | rule/rule_match.go:78-91 | reports whether an enabled rule fired and counts one hit if it did, one miss if it did not, nothing for a disabled rule |
| RuleEngine.Engine.MatchInRules | rule/rule_match.go:96-115 | the loop is the linear scan: results in order, one more hit for each listed rule and one more miss for each rule passed over |
| RuleEngine.Engine.MatchMerged | rule/rule_match.go:38-75 | merging the two lists on the fly visits the relevant rules in list order up to the first terminal hit |
| RuleEngine.Engine.RecordForeignMisses | rule/engine.go:146-170 | the rules never evaluated get the misses the linear scan would have counted, up to the terminal hit |
| RuleEngine.Engine.Match | rule/engine.go:117-170 | results are those of the index semantics, one more hit for each listed rule and one more miss for each enabled rule the scan came to and did not list; results and counters are those of the linear scan unless it reaches a foreign rule that fires; the index stays correct |
| BatcherProtocol.NextKeepsInv | engine/batcher.go:249-523 | every atomic step of producers, flush loop and stop keeps sizes, evictions, the split of points and the phase order |
| BatcherProtocol.DeliveryInOrder | engine/batcher.go:283-330 | in every interleaving the points handed over are a subsequence of the accepted points in order |
| BatcherProtocol.PointsConserved | engine/batcher.go:410-493 | accepted points are exactly those left, queued, in hand, flushed and buffered; evicted points are dropped times batch size; the still-full branch is never taken |
| BatcherProtocol.StopLeavesNothing | engine/batcher.go:249-275 | after stop the buffer is empty, the queue is empty if and only if nothing was enqueued after the loop exited, which never happens when stop cancels the context; later points are rejected and counted |
| BatcherProtocol.EarlyCancelStrands | engine/runtime.go:156-158 | a run in which the parent context is cancelled first and a batch stays in the queue after stop |
| BatcherProgress.TakeHandsOver | engine/batcher.go:299-300 | from every reachable state at its select with a batch queued, the loop hands over exactly the oldest batch and is back |
| BatcherProgress.TickHandsOver | engine/batcher.go:301-313 | from every reachable state at its select with no producer at work, a tick hands over the whole queue and then the buffer, in order, and leaves both empty |
| BatcherProgress.StopFinishes | engine/batcher.go:249-276 | from every reachable state `stop` can run to its end |
| Batcher.TransportBatcher.constructor | engine/batcher.go:170-200 | starts in the initial protocol state |
| Batcher.TransportBatcher.Publish | engine/batcher.go:410-468 | is the protocol's publish steps; fails exactly when stopped |
| Batcher.TransportBatcher.DrainFlushBatches | engine/batcher.go:321-330 | publishes all queued batches in order, as a run of drain steps |
| Batcher.TransportBatcher.Flush | engine/batcher.go:482-493 | publishes the partial buffer only when no older batch is queued |
| Batcher.TransportBatcher.FlushFinal | engine/batcher.go:506-523 | publishes what is left and empties the buffer |
| OfflineProtocol.EveryBatchAccountedFor | engine/offlinebuffer.go:129-354 | whatever fails in whatever interleaving, every stored batch is on disk unchanged, replayed, a counted eviction, or a file that was read and did not decode; replays go through the owner only |
| OfflineProtocol.PushKeepsNewest | engine/offlinebuffer.go:129-245 | a push leaves exactly the highest-numbered entries up to the limit and counts what it evicted |
| OfflineProtocol.PushStores | engine/offlinebuffer.go:129-199 | whatever removals fail, a push stores its entry under the next number exactly when it has points and is written |
| OfflineProtocol.EvictFacts | engine/offlinebuffer.go:203-245 | eviction removes only listed, removable files and leaves the others unchanged |
| OfflineProtocol.EvictOldest | engine/offlinebuffer.go:203-245 | what is evicted is older than all that stays |
| OfflineProtocol.EvictSize | engine/offlinebuffer.go:203-245 | just enough is evicted for one more entry |
| OfflineProtocol.ReplaysInOrder | engine/offlinebuffer.go:262-354 | when removals succeed, each source's replays have strictly increasing numbers across all drains of a process |
| OfflineProtocol.RestartNeverReuses | engine/offlinebuffer.go:86-112 | in every run after a restart the number of the next push is above everything on disk, and the push overwrites nothing |
| OfflineBuffer.Buffer.constructor | engine/offlinebuffer.go:71-112 | scanning for the highest number on disk gives the protocol's start state |
| OfflineBuffer.Buffer.EvictIfNeeded | engine/offlinebuffer.go:203-245 | the loop performs the eviction function and counts it |
| OfflineBuffer.Buffer.Push | engine/offlinebuffer.go:129-199 | is the protocol's push; fails exactly when the write fails |
| OfflineBuffer.Buffer.Drain | engine/offlinebuffer.go:262-354 | is a run of the protocol's drain steps. With no older entry unreadable or of the source and failing to publish, it replays an entry exactly when that is the source's own and publishes; it counts those, removes them and the files that do not decode where removal succeeds, and reports an error exactly when it comes upon an entry it cannot read |
| OfflineBuffer.DoneThere | engine/offlinebuffer.go:302-350 | a drain that is through, or stopped by the oldest entry on its list, has replayed and removed exactly what the directory as a whole determines |
| OfflineBuffer.PublishWithRetryAndBuffer | engine/batcher_retry.go:21-114 | at most retry+1 attempts, stopping at the first success or a cancelled pause; an unpublished batch is pushed to the buffer once, or dropped if there is none |
| RangeMerge.CutDominates | driver/s7/s7_merge.go:98-135 | a greedy cut begins at a range that ends beyond every range of the run it closes but the first |
| RangeMerge.Exchange | driver/s7/s7_merge.go:98-135 | any run reaching past a greedy cut can be shortened to start there |
| RangeMerge.GreedyOptimal | driver/s7/s7_merge.go:98-135 | no cutting of a sorted list into runs under the same limits has fewer runs than the greedy one |
| RangeMerge.SpansAreRuns | driver/modbus/modbus_read.go:516-556 | every run built range by range is a run under the limits |
| RangeMerge.SpansCount | driver/modbus/modbus_read.go:516-556 | building runs range by range gives the greedy number of runs |
| RangeMerge.GreedyCutting | driver/s7/s7_merge.go:98-135 | some cutting has exactly the greedy number of runs |
| RangeMerge.SpansOptimal | driver/modbus/modbus_read.go:516-556 | the runs built range by range are as few as any cutting's |
| S7Codec.BytesRoundTrip | driver/s7/s7_codec.go:77-120 | big-endian bytes of any width read back as the number |
| S7Codec.BytesWeigh | driver/s7/s7_codec.go:56-67 | the first of 2, 4 or 8 bytes weighs most |
| S7Codec.DecodesWord | driver/s7/s7_codec.go:52-59 | an 8- or 16-bit tag's value from its bytes, the top bit of the first being the sign |
| S7Codec.DecodesDoubleWord | driver/s7/s7_codec.go:60-65 | a 32-bit tag's value from its four bytes |
| S7Codec.DecodesLong | driver/s7/s7_codec.go:66-67 | a 64-bit float's bit pattern from its eight bytes |
| S7Codec.ComparesFromTheFirst | driver/s7/s7_codec.go:56-67 | one number of any width is less than another if and only if its bytes are at the first difference |
| S7Codec.BitsMakeTheByte | driver/s7/s7_codec.go:50-51 | a byte is the sum of the weights of its set bits |
| S7Write.WriteThenReadIff | driver/s7/s7_codec.go:77-120 | encoding any value for any type and decoding it gives back what the command said, on every machine, if and only if the address is large enough, the type is readable, and kind and range are ones the conversion keeps |
| S7Write.WholeIff | common/util/util.go:159-242 | for integers: the kind is one the helper lists, or the value is zero, and it fits the type |
| S7Write.FloatSurvives | common/util/util.go:177-242 | a float whose whole part is not negative and fits the type comes back by its whole part |
| S7Write.FloatLost | common/util/util.go:177-242 | any other float given to an integer tag does not, on a machine that makes zero of what does not fit |
| S7Write.WriteBackIff | driver/s7/s7_codec.go:48-111 | writing a tag's own reading back leaves its number as it was if and only if the tag has more than 8 bits or reads zero |
| S7Write.EightBitExample | driver/s7/s7_codec.go:94-95 | an 8-bit tag that reads 5 and is written back holds 0 |
| S7Read.SegmentsAreRuns | driver/s7/s7_merge.go:98-135 | the planner's segments are the greedy runs of the group |
| S7Read.GroupIsSound | driver/s7/s7_merge.go:113-135 | every planned segment covers all its tags' bytes and stays within 480 bytes if its tags do |
| S7Read.PlanOptimal | driver/s7/s7_merge.go:98-135 | a group is read with the fewest requests the gap and length limits allow |
| S7Read.SegmentIsTight | driver/s7/s7_merge.go:98-135 | a segment ends with its tags and reads over at most 32 bytes in a row that none of them needs |
| S7Read.SegmentsAreApart | driver/s7/s7_merge.go:98-135 | neighbouring segments are more than 32 bytes apart or together longer than 480 |
| S7Read.AppendAllEntries | driver/s7/s7_merge.go:98-135 | no tag is lost, repeated or reordered by merging |
| S7Read.SortFacts | driver/s7/s7_merge.go:96-100 | sorting a group orders it by start and keeps its members |
| S7Driver.LeastKey | driver/s7/s7_merge.go:88-93 | the next area and block in order |
| S7Driver.GroupByKey | driver/s7/s7_merge.go:70-87 | groups hold exactly the tags of one area and block, in order |
| S7Driver.PlanS7ReadSegments | driver/s7/s7_merge.go:70-106 | the plan is the merged groups of all areas and blocks with tags, in ascending order; its segments are sound and hold every tag exactly once |
| S7Driver.PlanIsOptimal | driver/s7/s7_merge.go:70-106 | no way of cutting the sorted groups under the same limits makes fewer requests than the whole plan |
| S7Driver.PlanOverHolds | driver/s7/s7_merge.go:70-106 | a plan holds each tag of its areas and blocks as often as it was asked for |
| S7Driver.SliceIsOwnRead | driver/s7/s7_merge.go:215-258 | a covered tag's slice of the shared buffer is what its own read returns, for every memory |
| S7Driver.TagFromMemory | driver/s7/s7_codec.go:12-74 | a tag's own read from the bytes of device memory, and undecodable if too short |
| S7Driver.ReadMergedSegment | driver/s7/s7_merge.go:215-258 | every tag of the segment gets its own value if the segment is answered and fails if not; other slots are untouched |
| S7Driver.ReadBitTags | driver/s7/s7_merge.go:262-277 | bit tags are read one by one into their slots |
| S7Driver.ReadS7Batch | driver/s7/s7_merge.go:164-209 | results in input order: an unknown tag is not found, a bit tag has its own answer, and every other tag is held by a planned segment and has its own value exactly when that segment was answered |
| S7Driver.WordIsPlanned | driver/s7/s7_merge.go:186-208 | every requested word tag is an entry of the plan, so it has the reading of the segment that holds it |
| ModbusPlan.MergeBatches | driver/modbus/modbus_read.go:516-556 | the loop over the current batch and its 16-bit end is the tag-by-tag merge function |
| ModbusPlan.BatchesAreRuns | driver/modbus/modbus_read.go:516-556 | each batch has the start, quantity and tags of one greedy run |
| ModbusWrap.CoveredIff | driver/modbus/modbus_read.go:527-556 | all batches cover all their tags if and only if no tag below 65536 touches a later one beyond |
| ModbusWrap.HazardUncovers | driver/modbus/modbus_read.go:527-556 | any such pair leaves some batch with a tag outside it |
| ModbusWrap.UncoveredExample | driver/modbus/modbus_read.go:527-556 | registers 65534 and 65535 become a batch of one register |
| ModbusWrap.BatchBounds | driver/modbus/modbus_read.go:516-556 | no batch exceeds the limit and none starts after one of its tags |
| ModbusWrap.BatchesPartition | driver/modbus/modbus_read.go:516-556 | the batches hold every tag of the group once, in order |
| ModbusWrap.NothingUnneeded | driver/modbus/modbus_read.go:516-556 | a batch asks for no register or bit that none of its tags occupies |
| ModbusWrap.BatchesAreApart | driver/modbus/modbus_read.go:527-545 | neighbouring batches do not touch or would together exceed the limit |
| ModbusWrap.BatchesOptimal | driver/modbus/modbus_read.go:516-556 | with ends at or below 65535 no cutting under the limit has fewer requests |
| ModbusFewest.FewestIff | driver/modbus/modbus_read.go:516-556 | no cutting of the true ranges has fewer requests if and only if, from the first tag that reaches 65535 on, at most one batch is opened, and none if the batch before could take all those tags |
| ModbusFewest.TrueCount | driver/modbus/modbus_read.go:516-556 | with true ends the tags from the first that reaches 65535 on need no request of their own if they all fit the run before, else exactly one |
| ModbusFewest.TwiceExample | driver/modbus/modbus_read.go:534-545 | two tags at address 65535 make two batches although one request has room for both |
| ModbusRead.ExtractIsOwnRead | driver/modbus/modbus_read.go:563-595 | decoding at an offset of the batch response equals the tag's individual read for every type and memory, and indexes past the response exactly when the tag is outside the batch |
| ModbusRead.TagFromRegisters | driver/modbus/modbus_read.go:563-580 | a tag of one or two registers from device memory, the first register weighing most and its top bit being the sign |
| ModbusRead.WideTagFromRegisters | driver/modbus/modbus_read.go:563-596 | the same for four registers, and for a coil |
| ModbusRead.GroupFacts | driver/modbus/modbus_read.go:390-404 | a group is sorted by address and holds exactly the batchable tags of its area with their quantities |
| ModbusRead.ReadBatch | driver/modbus/modbus_read.go:465-511 | panics exactly when a tag is not covered; otherwise every tag of the batch gets its own value |
| ModbusRead.ReadGroup | driver/modbus/modbus_read.go:399-427 | all batches served, refused, or the phase ends at a lost connection or a panic |
| ModbusRead.PerformBatchReads | driver/modbus/modbus_read.go:382-430 | every value is the tag's own; a batchable tag without one was in a refused batch; with all requests answered it panics if and only if some area has a wrapping pair |
| Reload.Registry.Add | hub/executor/executor_diff.go:106-125 | starts a component under a free name, or fails without effect |
| Reload.Registry.Remove | hub/executor/executor_diff.go:95-117 | stops a running component, or fails without effect |
| Reload.RecordRemoval | hub/executor/executor_diff.go:95-121 | recording a removal keeps the record able to restore what was there |
| Reload.RecordAddition | hub/executor/executor_diff.go:106-125 | the same for an addition |
| Reload.Diff | hub/executor/executor_diff.go:83-177 | after success exactly the listed components run, each name with the setting listed last; wherever it fails, the record accounts for every difference |
| Reload.ByNameRuns | hub/executor/executor_diff.go:84-92 | a name runs if and only if the list has it, with the setting of the last such component |
| Reload.RunsIsByName | hub/executor/executor_diff.go:84-92 | only one set of running components is what a list means |
| Reload.UniqueAllRun | hub/executor/executor_diff.go:84-125 | with unique names every component runs with its own setting and nothing else runs |
| Reload.StopAdded | hub/executor/executor_diff.go:35-64 | every recorded addition can be and is undone |
| Reload.RestoreRemoved | hub/executor/executor_diff.go:44-71 | then every recorded removal is restored and the set is what it was before |
| Reload.Executor.constructor | hub/executor/executor_apply.go:46-49 | without a configuration the engine is in sync with the empty one |
| Reload.Executor.Rollback | hub/executor/executor_diff.go:35-77 | brings transports, drivers and rules back to the current configuration |
| Reload.Executor.ApplyConfig | hub/executor/executor_apply.go:46-113 | afterwards exactly the components of the current configuration run, each name with the setting listed last, and its rules apply; a failed attempt changes nothing, an attempt in which no call fails succeeds; derived tags agree if and only if they can be applied live or did not change |
| Reload.Executor.ApplyAll | hub/executor/executor_apply.go:13-113 | engine and configuration agree after any sequence of attempts; derived tags do if and only if they can be applied live or are those of the start again |
| Reload.StaleDerivedExample | hub/executor/executor_apply.go:92-110 | an engine without live derived tags keeps the old ones after a reload that succeeded |
| CommandProtocol.NextKeepsInv | engine/write_manager.go:182-452 | every atomic step of listeners and workers keeps holders, slots and logs in agreement |
| CommandProtocol.CommandsAccountedFor | engine/write_manager.go:182-452 | never more running commands than slots; at most retry+1 writes per command, one audit entry each; exactly one dead letter for a dead-lettered command and none otherwise; the queue is the newest dead letters |
| CommandProtocol.NothingVanishes | engine/write_manager.go:182-273 | once nothing is held and no slot is in use, every command taken has ended |
| CommandProtocol.EndIsFinal | engine/write_manager.go:345-439 | how a command ended never changes |
| CommandProtocol.CancelBuries | engine/write_manager.go:192-219 | a command held when its listener is cancelled, or found in the channel then, has a dead letter |
| CommandProtocol.CancelledExits | engine/write_manager.go:192-194 | a cancelled listener drains and then exits |
| CommandProtocol.TakenRuns | engine/write_manager.go:195-228 | an idle listener takes a command, and with a slot free the command runs and the listener is idle again |
| Commands.WriteManager.RecordAudit | engine/write_audit_store.go:29-40 | the trail is the newest 1000 entries of all ever recorded |
| Commands.WriteManager.AddDeadLetter | engine/write_manager.go:443-452 | the queue is the newest dead letters, and every push is counted |
| Commands.WriteManager.WriteTag | engine/write_manager.go:87-139 | one audit entry whatever happens; accepted exactly when driver known, tag writable, not paced and the device succeeds; fails for good exactly when read-only, when an unknown or paced driver's name holds a pattern of permanent failures, or when the device's failure does; only an accepted write moves the pacing clock |
| Commands.AcceptedApart | engine/write_pacing.go:75-113 | in every run the accepted writes to a driver are at least the interval apart |
| Commands.PacedIff | engine/write_pacing.go:75-113 | a write is paced if and only if an accepted write to its driver is less than the interval ago; failed writes do not count |
| Commands.WriteManager.ForwardOrGiveUp | engine/write_manager.go:350-367 | without a local driver a command is forwarded or dead-lettered |
| Commands.WriteManager.AttemptOnce | engine/write_manager.go:372-404 | one attempt is one protocol step with the verdict of the write, and the dead letter if it was the last |
| Commands.WriteManager.AttemptAndWait | engine/write_manager.go:372-432 | one attempt and the wait after it settle the command, or leave it running, exactly as its verdict, the retries left and the shutdown say |
| Commands.WriteManager.ExecuteWriteWithRetry | engine/write_manager.go:345-439 | the worker's loop is a run of the protocol that ends with the first attempt that settles the command: accepted, failed for good, the last, or shut down in the wait; each attempt is audited with its verdict; paced at first, it is dead-lettered at once if and only if there are no retries or the driver's name is marked |
| Commands.OnlyLastSucceeds | engine/write_manager.go:371-381 | of the audited writes of a command only the last can be a success, and it is exactly when the command succeeded |
| Commands.EndsOnce | engine/write_manager.go:345-439 | what the attempts meet determines how and with which attempt the command ends |
| Commands.PacedEndsIff | engine/write_manager.go:109-114 | a command whose first write is paced ends there as a dead letter if and only if there are no retries or the driver's name contains a pattern of permanent failures |
| Commands.PacedExample | engine/write_manager.go:109-114 | with three retries a paced command is not dead-lettered at once but accepted at its second attempt, unless the driver's name is marked |
| Commands.WriteManager.DeadLetterStranded | engine/write_manager.go:243-273 | the held command and then the channel's commands are dead-lettered in order |
| History.LastNStep | engine/write_manager.go:443-452 | trimming after every append keeps the newest entries of the whole log |
| History.LastNIsEnd | engine/write_audit_store.go:29-40 | a trimmed log is the end of the whole one, as much as fits, with its newest entry |
| CacheProtocol.CleanSnapshotIsLive | engine/cache.go:96-128 | with the flag clear and no writer on the way to it, the snapshot equals the live map |
| CacheProtocol.ReadsAreFresh | engine/cache.go:96-128 | a read returns the live map of one moment, no older than the newest change whose writer had returned when it began |
| CacheProtocol.BeginsAfterReturn | engine/cache.go:51-73 | a read that begins after an update returned has that change or a newer one as its floor |
| CacheProtocol.ReadSeesUpdate | engine/cache.go:51-128 | in every interleaving a read that begins after an update returned gives the live map of a moment at or after that update |
| CacheProtocol.ReturnedGrows | engine/cache.go:51-195 | returned changes stay returned and past versions of the live map never change |
| CacheProtocol.WriteIsNewest | engine/cache.go:69-72 | an update becomes the newest version of the live map, pending until it marks the cache dirty |
| CacheProtocol.DeleteIsNewest | engine/cache.go:178-195 | a deletion is the newest version and takes out just its tag |
| CacheProgress.ReadCompletes | engine/cache.go:96-128 | from every reachable state with the lock free a read completes by its own steps and returns the published snapshot if the flag is clear, else the live map |
| CacheProtocol.ReturnedSnapshotsStay | engine/cache.go:112-127 | a snapshot once returned never changes |
| CacheProtocol.NextKeepsCopies | engine/cache.go:112-127 | every step keeps finished copies equal to the version they were made from |
| CacheProtocol.NextKeepsFlag | engine/cache.go:51-195 | every step keeps the meaning of a clear dirty flag |
| Cache.DriverCache.GetAll | engine/cache.go:96-128 | reused or rebuilt, the snapshot is the live map |
| Cache.LatestCache.Update | engine/cache.go:51-73 | changes one tag of one driver and nothing else |
| Cache.LatestCache.DeleteTag | engine/cache.go:178-195 | removes one tag of one driver and nothing else |
| Cache.LatestCache.GetByDriver | engine/cache.go:96-128 | returns all live values of the driver and changes none |
| Cycles.Detector.Visit | engine/derived.go:160-198 | finds nothing exactly when no walk on from here repeats a tag; what it finds is a real closing walk; the visiting set is restored; terminates |
| Cycles.DetectDerivedCycles | engine/derived.go:151-206 | nil if and only if no walk from any tag repeats; with unique names if and only if the graph is acyclic, and the reported path is a cycle |
| Cycles.CleanIffAcyclic | engine/derived.go:151-206 | with unique names, non-repeating walks and acyclicity are the same |
| Cycles.Splice | engine/derived.go:163-173 | the reported path starts at the first visit of the tag that closes it |
| Deadband.TaskRunner.ApplyDeadbandFilter | engine/scheduler.go:478-529 | output and new state are those of the sample-by-sample rule |
| Deadband.SuppressedIsClose | engine/scheduler.go:478-529 | a suppressed sample is a good number less than one deadband from the last released one, two with a heartbeat, whose period has then not elapsed |
| Deadband.TwoDeadbandsAreReached | engine/scheduler.go:517-524 | with a heartbeat every distance below two deadbands is reached by some stream, for every deadband and period |
| Deadband.ReleasedIffFar | engine/scheduler.go:505-511 | without a heartbeat a sample is suppressed if and only if it is within one deadband of the last released one |
| Deadband.SuppressedIff | engine/scheduler.go:508-527 | with or without a heartbeat a sample is suppressed if and only if it is less than a deadband from the last one released for its distance and, with a heartbeat, less than its period after the last one released |
| Deadband.PassesIff | engine/scheduler.go:489-507 | a sample passes unfiltered and without trace if and only if it is bad, no number or of a tag without a deadband |
| Deadband.BeatsCounted | engine/scheduler.go:520-526 | the heartbeat counter is the number of samples let through within a deadband of the baseline |
| Deadband.BadSamplesIrrelevant | engine/scheduler.go:489-503 | leaving out bad and non-numeric samples anywhere changes neither state nor which good ones are released |
| Deadband.ReadByRead | engine/scheduler.go:478-529 | filtering read by read is filtering the stream |
| RateWindow.PackRoundTrip | common/metrics/rate.go:50-60 | seconds below 2^40 and capped counts survive packing |
| RateWindow.SaturatesIff | common/metrics/rate.go:75-80 | a bucket saturates correctly if and only if the 64-bit sum does not wrap |
| RateWindow.WrapExample | common/metrics/rate.go:75-80 | two observations whose sum wraps to nothing |
| RateWindow.RingBuckets | common/metrics/rate.go:64-86 | unless the clock steps back by whole minutes every bucket holds the newest second that fell in it and that second's tally |
| RateWindow.RightIff | common/metrics/rate.go:64-86 | all buckets are right at all times if and only if no observation is of an earlier second than one before it in its slot |
| RateWindow.TallyIsCapped | common/metrics/rate.go:50-80 | without 64-bit wrap-around, saturating step by step is saturating the total |
| RateWindow.StepBackExample | common/metrics/rate.go:72-78 | a clock that steps back a minute makes the ring forget a newer second |
| RateWindow.RingRefinesHistory | common/metrics/rate.go:93-113 | unless the clock steps back by whole minutes the ring's sum is the history's sum over the last sixty seconds, each second saturated as 64-bit counting does, which without wrap-around is its points capped at 2^24-1 |
| RateWindow.Window.constructor | common/metrics/rate.go:45-47 | an empty window |
| RateWindow.Window.Observe | common/metrics/rate.go:64-86 | for any second and any 64-bit count the words are those of the longer history; no points change nothing |
| RateWindow.Window.Sum | common/metrics/rate.go:93-113 | the sum of the buckets stamped in (now-60, now]; unless the clock steps back by whole minutes the points of those seconds, each capped at 2^24-1 |
| Alerts.FireKeepsOrderIff | engine/alerts.go:155-210 | a fire keeps all logs well formed if and only if overflow does not clear the alert being reported |
| Alerts.OverflowSafeIff | engine/alerts.go:182-201 | the cleared alert is never the new one if and only if some active alert was fired earlier |
| Alerts.TieBreaksOrder | engine/alerts.go:182-204 | with equal fire times the new alert can be cleared before it is reported, which breaks its log |
| Alerts.TieRun | engine/alerts.go:182-204 | a run of 1001 fires of one moment that ends with a log out of order |
| Alerts.RunOrderlyIff | engine/alerts.go:155-284 | over every run the logs are well formed if and only if no overflow cleared the alert it recorded |
| Alerts.RegistryBounded | engine/alerts.go:182-201 | never more than 1000 active alerts |
| Alerts.LogsStayOrderly | engine/alerts.go:155-284 | with strictly increasing fire times every key's log is (fired acked* cleared)*, open exactly while active |
| Alerts.AcksStick | engine/alerts.go:246-265 | in every run an active alert is marked acknowledged exactly when it was acknowledged since it last became active, however often it fired again |
| Alerts.AckMarks | engine/alerts.go:249-265 | in every run an acknowledgement marks an active alert, writes to the log and changes nothing else |
| Alerts.AlertsCountFires | engine/alerts.go:177-180 | in every run an active alert carries the number of its fires since it became active and the time of the last |
| Alerts.ExpiresIffSilent | engine/alerts.go:269-284 | an alert can expire if and only if it is active and its last fire is a whole window ago |
| Alerts.AlertManager.constructor | engine/alerts.go:76-89 | an empty registry |
| Alerts.AlertManager.Record | engine/alerts.go:155-210 | one fire counted; a new alert beyond the cap clears a least recently fired one first |
| Alerts.AlertManager.FindLeastRecent | engine/alerts.go:188-194 | an alert no other was fired before |
| Alerts.AlertManager.AppendHistory | engine/alerts.go:214-219 | the history is the newest 500 events of the full log |
| Alerts.AlertManager.Ack | engine/alerts.go:249-265 | marks an active alert, or fails |
| Alerts.AlertManager.Sweep | engine/alerts.go:269-284 | clears exactly the alerts silent for a whole window and keeps every log well formed |
| TokenBucket.RateLimiter.Handle | hub/route/middleware.go:110-159 | refill, admit and take a token as the step function says, whose admissions are bounded from above and guaranteed from below |
| TokenBucket.RateLimiter.EvictStale | hub/route/middleware.go:88-108 | drops exactly the buckets idle for longer than five minutes |
| TokenBucket.AdmissionBound | hub/route/middleware.go:110-159 | in any window of T seconds of any run with a monotone clock a client is admitted at most perSec + ceil(perSec T) times |
| TokenBucket.BurstAdmitted | hub/route/middleware.go:110-159 | after any run, of n requests at one moment exactly min(n, available) are admitted: tokens in hand and whole tokens earned since the last refill, up to perSec, and perSec for a new client |
| TokenBucket.NeverStarved | hub/route/middleware.go:110-159 | in any run with a monotone clock a client has been admitted again once the time of one token has passed since one of its requests and it asks, however often it asked in between |
| TokenBucket.EvictionIrrelevant | hub/route/middleware.go:88-108 | all decisions are those of the same run without evictions |
| TokenBucket.StaleRefills | hub/route/server.go:46 | a bucket idle for its time to live is refilled to what a new one holds |

## Left out

- RuleEngine.Engine.Match: targets, transforms and messages of a match are not carried, only which rule matched; rule identity is its position.
- RuleEngine.Engine.SetRules: expressions are an abstract predicate; sub-rule sets and their inner counters are not modelled.
- Batcher.TransportBatcher.Flush: the sequential methods start from the loop position they run at; their interleaving is the subject of the protocol.
- OfflineBuffer.Buffer.Drain: runs without pushes in between; their interleaving is the subject of the protocol. File name parsing and the wrap-around of sequence numbers are not modelled.
- Commands.WriteManager.WriteTag: messages are not text; which drivers' names contain a pattern of permanent failures is given, and whether a driver's own failure does is part of its reply.
- Commands.WriteManager.ExecuteWriteWithRetry: the pacing clock does not move between a command's attempts, as another worker's accepted write to the same driver could make it.
- S7Driver.ReadS7Batch: device memory does not change during a batch.
- S7Write.WriteThenReadIff: single-bit addresses, written by read-modify-write of their byte, and strings, which have a library layout, are not modelled; floating-point conversions are any functions on bit patterns that keep their width and map only zero to zero.
- RuleSpec.FilterSoundIff: a text is a choice of alternatives of conjunctions of comparisons; parentheses and word operators count as part of a comparison.
- ModbusRead.PerformBatchReads: the retry loop around one request and the later per-tag fallback reads are an outcome of the device, not steps.
- Reload.Diff: a failed engine call has no effect and a compensating call under a free or running name succeeds; components whose stop fails half-way are not modelled. Drivers and transports share one model.
- RateWindow.Window.Observe: one observation at a time; the compare-and-swap loop is the atomic step.
- TokenBucket.AdmissionBound: earned tokens are exact whole tokens, not a floating-point product, and a request reads the clock once.
- Alerts.AlertManager.Record: alert keys are opaque; the event stream to subscribers is not modelled.
- Deadband.SuppressedIsClose: values are reals, so not-a-number and infinities are not modelled.
- Scale and offset transforms of read values, and the scheduler's error and recovery back-off.
- Cache: `DeleteDriver`, `GetAll` over drivers and `Clear`; the shard hash only partitions drivers.
- Trigger gating of tag groups, resource deletion through the API, discovery, statistics, configuration validation, backups.
- HTTP handlers, WebSocket streams, logging, metrics rendering, TLS, protocol client libraries: input, output and foreign code.
- Expression compilation and regular expressions; a rule's condition is an abstract predicate.
- Persistence of dead letters and audit entries on disk; back-off durations.
