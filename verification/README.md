# A verified model of CapMesh's packet pipelines and retention ledgers

CapMesh captures packets on many nodes, streams them to a server, reorders and rebatches them there,
fans them out to subscribers and records them to disk. This project models the parts of that system
whose correctness does not follow from reading one function, and proves what they keep over every run.

| file | what it models |
|---|---|
| `Packets`, `PacketHeap` | packets, batches and sources; the reorder buffer, a binary heap of packet items changed in place |
| `StreamModel` | the server pipeline as a state machine: every region under the pipeline's mutex is one event |
| `StreamOrder`, `StreamDelivery` | theorems about every run of that machine: what is emitted, in which order, and who receives it |
| `Regroup`, `Pipeline`, `Schedule` | one call of `emitUntil` as "sort, take while ready, cut greedily", the pipeline object itself, and whole schedules of calls on it |
| `SessionRecorder` | the packet recorder: segments, rotation, rolling retention and final status |
| `LogLedger`, `LogRecorder` | the workload-log recorder: many active writers under one quota |
| `Recovery` | the recovery file protocol, with a crash at any step |
| `Reconcile`, `Convergence` | session reconciliation under the pod and per-node limits, and when it reaches what is wanted |
| `Cleanup` | the cleanup of finished session recordings and its dry run |
| `Batchers` | the two batchers of the capture agent |
| `Analyzer`, `Header` | the benchmark's packet analyzer and its packet header |

How the pieces fit together:

- The event machine of `StreamModel` allows every interleaving of publishing, emitting, subscribing,
  removing, receiving and the two halves of closing, so that a theorem over `After(config, run)` holds
  whatever the goroutines do. One `Emit` event is one round of the outer loop of `emitUntil`.
- The methods of `Pipelines.Pipeline` are the code, with the heap, the nested loops and the subscriber
  table. Each of them records in a ghost `trace` which events it performed, and `Valid()` says that the
  object's state is the machine's state after that trace. The theorems about runs therefore hold of
  every object (`PipelineGuarantees`), and over whole schedules of calls (`Serve`).
- A recorder reads one loss-aware queue of such a pipeline. `RecordSession` joins the recorder's event
  loop with the pipeline's delivery theorem.
- A buffered item's *template* is the batch a packet arrived in, without its packets; it stands for the
  source. `late` counts the packets published behind the last emitted timestamp.

Three promises one might expect do not hold of the code in general; the model keeps the code and states
exactly when they do:

- Cleanup: a real run deletes what the dry run listed if and only if each listed recording also passes
  the check made just before deletion (`RealIsDryIff`). That check looks at the session ID inside the
  metadata while the scan looks at the directory name, so an active session whose directory has another
  name is listed but not deleted (`MisnamedStoreDiffers`); where the names agree the two runs agree.
- Reconcile: answers within the limits may be out of reach, since each target is judged against what
  still runs for the targets after it. `PassConverges` gives the exact condition on the sources running
  beforehand, and `SwapIsStuck` two targets that are turned away forever.
- Recovery: writing a newer state is crash-atomic if and only if the `.part` file does not win over the
  main file beforehand (`AtomicUnlessPartWins`). `SecondCrashLoses` gives the two failing histories.

## Model

| member | source | states |
|---|---|---|
| `StreamOrder.ReorderWindow` | internal/application/stream/service.go:80-229 | with a monotone clock, if every packet is published at most `window` after its timestamp, then over any interleaving up to and including the closing drain no packet is ever late and everything emitted is in timestamp order |
| `StreamOrder.OneTickTooLate` | internal/application/stream/service.go:93-98 | the window is tight: a run in which a packet published one tick beyond it is counted late |
| `StreamOrder.EmissionExplained` | internal/application/stream/service.go:171-229 | over every run, a tick lets a packet out only when its timestamp is a window and its arrival the rebatch delay in the past, and a batch ends only when nothing is left or the least packet left must still wait, is of another source, or has no room by packets or bytes |
| `StreamOrder.DescentsAtMostLate` | internal/application/stream/service.go:80-229 | with no timing assumption at all, the adjacent timestamp descents in everything emitted are at most the late packets counted |
| `StreamOrder.Conservation` | internal/application/stream/service.go:80-255 | in every reachable state the accepted packets are, as a multiset, the emitted ones plus the buffered ones |
| `StreamOrder.SourceOrder` | internal/application/stream/heap.go:20-44 | if a source publishes in increasing sequence and non-decreasing time, what is emitted of it is exactly a prefix of what it published, whatever other sources do |
| `StreamDelivery.BatchesCarryEmitted` | internal/application/stream/service.go:193-229 | in every reachable state the emitted batches laid end to end are the emitted packets with their sources, each batch is non-empty, holds one source, and is within the packet and byte limits unless it is a single packet |
| `StreamDelivery.Delivery` | internal/application/stream/service.go:120-149 | every queue in every reachable state: no more than its capacity waits, the sent batches are emitted ones in order and none twice, delivered plus dropped packets are those emitted while subscribed, a loss-aware queue has no gap, and after closing none is open |
| `StreamDelivery.ClosedForGood` | internal/application/stream/service.go:236-284 | over any continuation of a run a queue only gains batches, and once closed nothing more is sent to it, nothing dropped and no second closing happens |
| `StreamDelivery.DroppedIffFull` | internal/application/stream/service.go:236-251 | at any point of any run an open queue gets the next batch if and only if it has room, and is closed with its drop signal if and only if it is loss-aware and full |
| `StreamDelivery.LossAwareIsContiguous` | internal/application/stream/service.go:236-251 | the batches queued to a loss-aware subscriber are a contiguous run of the emitted ones from its subscription up to its end, less the one that did not fit if it overflowed |
| `StreamDelivery.SubscriberSeesSourceInOrder` | internal/application/stream/service.go:185-251 | for a source that publishes in order every subscriber is sent strictly increasing sequence numbers, whatever it missed |
| `StreamDelivery.Independence` | internal/application/stream/service.go:236-284 | taking out of any run everything other subscribers did, from the first event on, leaves a run with the same acceptances and emissions and, subscriber numbering apart, the same queue for this subscriber |
| `StreamModel.NewChannel` | internal/application/stream/service.go:132-138 | a new queue is open and empty with the wanted capacity, or the default one when that is below one |
| `Regroup.PopsAreSortThenTake` | internal/application/stream/service.go:188-229 | popping least items while they are ready equals sorting the buffer and taking its ready prefix |
| `Regroup.ReadyLeavesAll` | internal/application/stream/service.go:188-192 | when every buffered packet is ready, as in the closing drain, everything leaves |
| `Regroup.GreedyIsUnique` | internal/application/stream/service.go:193-229 | a grouping in which every batch grew by admissible packets and none could take the next one is the greedy cut of its concatenation |
| `PacketHeaps.RootIsLeast` | internal/application/stream/heap.go:20-26 | the root of a heap precedes or equals every packet in it |
| `PacketHeaps.PacketHeap.Swap` | internal/application/stream/heap.go:27-27 | two items change places and every item's index is still its position |
| `PacketHeaps.PacketHeap.Push` | internal/application/stream/heap.go:28-44 | adds exactly one item and keeps the heap order and every index |
| `PacketHeaps.PacketHeap.Pop` | internal/application/stream/heap.go:33-39 | removes and returns a least item by (timestamp, sequence), keeping the heap order and every index |
| `Pipelines.Normalize` | internal/application/stream/service.go:51-73 | limits below their minimum are raised to it and all others kept |
| `Pipelines.Pipeline.Publish` | internal/application/stream/service.go:80-101 | refines the publish event: late packets counted against the last emitted timestamp, all packets buffered, nothing done when closed or empty |
| `Pipelines.Pipeline.Subscribe` | internal/application/stream/service.go:120-149 | refines the subscribe event: refused when closed, otherwise a fresh identifier and queue |
| `Pipelines.Pipeline.RemoveSubscriber` | internal/application/stream/service.go:261-269 | refines the remove event: the queue is closed only if it is still subscribed |
| `Pipelines.Pipeline.Receive` | internal/application/stream/service.go:137-148 | a reader gets the oldest waiting batch, if there is one |
| `Pipelines.Pipeline.GatherBatch` | internal/application/stream/service.go:193-229 | the inner loop takes least items first, all ready and of one source, until the batch is full or the next item may not join |
| `Pipelines.Pipeline.FanOut` | internal/application/stream/service.go:236-251 | offering subscriber by subscriber, in any order, has the same effect as offering to all at once |
| `Pipelines.Pipeline.EmitUntil` | internal/application/stream/service.go:185-255 | what leaves is the sorted ready prefix of the buffer, cut into exactly the greedy batches, one emit event each, with the reason for every cut in packets, bytes, source or time; the nested loops terminate and a drain empties the heap |
| `Pipelines.Pipeline.Tick` | internal/application/stream/service.go:171-178 | every packet emitted is past both the timestamp and the receive-time watermark, and the root that stays is not past one of them; what leaves is sorted and cut greedily, one emission in the trace for each batch, and nothing is accepted |
| `Pipelines.Pipeline.Drain` | internal/application/stream/service.go:271-272 | the first half of close emits everything, sorted and cut greedily, one emission each in the trace, and leaves the heap empty and the pipeline open |
| `Pipelines.Pipeline.MarkClosed` | internal/application/stream/service.go:273-283 | the second half closes every live queue once |
| `Pipelines.Pipeline.Close` | internal/application/stream/service.go:271-284 | with nothing published between its halves, close is the drain's emissions followed by one closing event, with nothing buffered and no one subscribed afterwards |
| `Pipelines.PipelineGuarantees` | internal/application/stream/service.go:80-284 | every pipeline object conserves packets, pays for descents with late packets, serves every queue correctly, and keeps the reorder window's promise |
| `Schedules.Serve` | internal/application/stream/service.go:80-284 | a new pipeline put through any schedule of publishes, ticks, subscriptions, removals, receptions, drains and closings keeps published = emitted + buffered; if the schedule is punctual nothing is late and what comes out is in timestamp order; if it ends with the drain, what comes out is all that was published |
| `Schedules.PublishExplained` | internal/application/stream/service.go:80-101 | whether a schedule is punctual can be read off the calls: a publish in time after them is in time after everything they emitted |
| `SessionRecorders.RecordSession` | internal/adapter/recording/manager.go:409-498 | a recorder that ends COMPLETED has written, in order and each once, exactly the packets the pipeline emitted from its subscription to the pipeline's close; the packet count is their number and the sum over the segments of the run, pruned ones included |
| `SessionRecorders.SessionRecorder.constructor` | internal/adapter/recording/manager.go:295-339 | starts with a true ledger over the existing segments, already pruned to leave room for the first segment, and numbers that segment one above the highest number this run left in the directory |
| `SessionRecorders.SessionRecorder.OpenSegment` | internal/adapter/recording/manager.go:559-573 | a rolling recording opens a segment only where total plus segment size is within the session size |
| `SessionRecorders.SessionRecorder.PruneOldest` | internal/adapter/recording/manager.go:859-879 | removes exactly the shortest oldest prefix that makes room, keeps the total and the published usage equal to the listed sizes, and over the whole run prunes nothing that there was room for |
| `SessionRecorders.SessionRecorder.FinishSegment` | internal/adapter/recording/manager.go:634-699 | a segment with packets joins the ledger with its size, counts and contents, an empty one vanishes |
| `SessionRecorders.SessionRecorder.Rotate` | internal/adapter/recording/manager.go:619-632 | only a segment that has reached its size is finished, exactly as it is; then pruning and reopening lose no written packet and leave all limits respected |
| `SessionRecorders.SessionRecorder.WritePacket` | internal/adapter/recording/manager.go:526-541 | one packet is appended to the active segment and to every count |
| `SessionRecorders.SessionRecorder.WriteBatch` | internal/adapter/recording/manager.go:512-557 | all packets written and a normal recording still below its size; or a non-empty part of them, ending with the first packet that makes total and active segment reach the session size (normal recordings only); or those before the packet that failed |
| `SessionRecorders.SessionRecorder.DiskUseBounded` | internal/adapter/recording/manager.go:611-632 | a rolling recording's ledger plus active segment stays below the session size plus the last encoded packet |
| `SessionRecorders.SessionRecorder.Complete` | internal/adapter/recording/manager.go:701-738 | closes the active segment, keeps the ledger and the log exact, leaves a rolling recording within its session size by the shortest cut that does, and lets only the last segment be short |
| `SessionRecorders.SessionRecorder.HandleEnd` | internal/adapter/recording/manager.go:434-452 | the end of the queue yields COMPLETED if the recorder was not cancelled and the pipeline closed the queue, and PARTIAL otherwise |
| `SessionRecorders.SessionRecorder.HandleBatch` | internal/adapter/recording/manager.go:453-468 | goes on with the whole batch written, or ends FAILED after a failing write, or TRUNCATED for a normal recording whose total has reached the session size |
| `SessionRecorders.SessionRecorder.HandleFlush` | internal/adapter/recording/manager.go:472-487 | a flush tick truncates if and only if a normal recording has reached the session size, rotates only a full segment, and writes nothing |
| `SessionRecorders.SessionRecorder.Run` | internal/adapter/recording/manager.go:409-498 | over any schedule the ledger and the log stay exact; COMPLETED means all that was sent was written, PARTIAL an overflow or cancellation, FAILED a failing write, TRUNCATED a normal recording that reached its size; while it runs, everything received is written |
| `LogRecorders.LogRecorder.constructor` | internal/adapter/logrecording/manager.go:160-176 | scanning and pruning what is on disk starts within the quota, deleting only what had to go |
| `LogRecorders.LogRecorder.Write` | internal/adapter/logrecording/manager.go:242-287 | every successful write, of any size, leaves the total within the quota and exact, each stream's retained records a suffix of its history, and an oversized segment with a single record; each deletion was needed when its turn came, nothing is deleted when the record fits, and a segment is finished only when full, when the record has no room in it, or when nothing older is left to delete; a closed recorder refuses and changes nothing |
| `LogRecorders.LogRecorder.WriteAll` | internal/adapter/logrecording/manager.go:242-287 | the same over any sequence of records to any streams: every record is in its stream's history, and had any deleted segment been kept with those deleted after it, the quota would be exceeded |
| `LogRecorders.LogRecorder.Prune` | internal/adapter/logrecording/manager.go:419-452 | terminates (twice the active writers plus the finished segments decreases) with room for the reserve or nothing retained; the total before each deletion plus the reserve exceeded the quota, files are closed only when no finished segment is left, the first opened first, and with room already there nothing changes at all |
| `LogRecorders.LogRecorder.DeleteOldest` | internal/adapter/logrecording/manager.go:439-449 | the deleted segment comes first of all finished ones by finish time, then stream, then number, and the total drops by its size |
| `LogRecorders.LogRecorder.OldestActive` | internal/adapter/logrecording/manager.go:454-465 | finds the writer with data that was opened first, the first by key among those opened together, or none exactly when there is none |
| `LogRecorders.LogRecorder.Finish` | internal/adapter/logrecording/manager.go:367-393 | a non-empty file becomes exactly one finished segment with its number, records, size and the time, an empty one is dropped; the total and the other writers stay as they are |
| `LogRecorders.LogRecorder.OpenFile` | internal/adapter/logrecording/manager.go:335-365 | opens an empty file numbered one above the writer's last number or, at its first file, one above the stream's highest |
| `LogRecorders.LogRecorder.Close` | internal/adapter/logrecording/manager.go:295-333 | ends with no active file and a total that is the sum of finished segments and within the quota, deleting only what had to go; closing again changes nothing |
| `Recovery.ReadRecovery` | internal/adapter/recording/manager.go:812-842 | returns the newest copy that decodes, the main file's on a tie, and fails if and only if neither decodes |
| `Recovery.RecoveryFiles.WriteRecovery` | internal/adapter/recording/manager.go:844-857 | stopping after any number of steps leaves one of the five crash states |
| `Recovery.RecoveryFiles.SetDesired` | internal/adapter/recording/manager.go:206-223 | fails without touching anything when nothing is readable; a complete write leaves the wanted state one generation up for the same subject; and where the part file does not win beforehand, a crash leaves the old state or the new one, by whether the part was fully written |
| `Recovery.AtomicUnlessPartWins` | internal/adapter/recording/manager.go:844-857 | writing a newer state is crash-atomic if and only if the part file does not win beforehand |
| `Recovery.LastOrPrevious` | internal/adapter/recording/manager.go:812-857 | after any number of completed writes and one crash the last state or the one before is read, by whether the part was fully written |
| `Recovery.SecondCrashLoses` | internal/adapter/recording/manager.go:849-856 | two histories in which a second crash loses a state that had been readable |
| `Reconcile.ValidateDistribution` | internal/application/session/service.go:834-843 | accepts if and only if no node holds more than fifty sources |
| `Reconcile.SessionRuntime.WorkloadSourceCountExcluding` | internal/application/session/service.go:592-604 | counts the running workload sources of other targets |
| `Reconcile.SessionRuntime.RuntimeSourcesExcluding` | internal/application/session/service.go:606-618 | lists other targets' running sources, with the right number on every node |
| `Reconcile.SessionRuntime.Admits` | internal/application/session/service.go:560-568 | the guards pass if and only if the resolved set fits the target's, the session's and every node's limit |
| `Reconcile.SessionRuntime.BuildDesired` | internal/application/session/service.go:569-572 | the resolved sources by ID, the last one of a repeated ID |
| `Reconcile.SessionRuntime.StopStale` | internal/application/session/service.go:573-582 | a running source of the target that is wanted with the same node, interface and IP stays the same entry and gets no command; any other is removed with exactly one stop command to its node |
| `Reconcile.SessionRuntime.StartWanted` | internal/application/session/service.go:583-587 | sends one start to each wanted source whose agent can be reached and no other command, and records exactly those that started |
| `Reconcile.SessionRuntime.ReconcileTarget` | internal/application/session/service.go:556-588 | nothing happens for an interface target, one not followed or one not resolved; an admitted one reaches its specified outcome, leaves sources wanted where they run alone and stops the others |
| `Reconcile.SessionRuntime.ReconcileAll` | internal/application/session/service.go:551-590 | a whole reconcile keeps both limits, and sends no command when everything matches |
| `Reconcile.ReconciledWithin` | internal/application/session/service.go:560-588 | an admitted target ends within both limits, whichever start commands fail |
| `Reconcile.PassWithin` | internal/application/session/service.go:551-590 | a reconcile over any targets, resolutions and failures keeps 100 workload sources and 50 per node |
| `Reconcile.ReconciledMatches` | internal/application/session/service.go:569-587 | when the agents accept, the target's running sources are the resolved ones, each with the resolved node, interface and IP |
| `Reconcile.TurnByFields` | internal/application/session/service.go:569-587 | one turn source by source: wanted with the same node, interface and IP keeps its entry, any other wanted one that starts becomes the wanted entry, and the rest of the target is gone |
| `Reconcile.TurnConverges` | internal/application/session/service.go:556-588 | a turn ends matched if and only if its guards let it act or it was matched already |
| `Reconcile.OthersUntouched` | internal/application/session/service.go:573-587 | one target's turn leaves all that runs for other targets as it is, whichever start commands fail |
| `Convergence.PassConverges` | internal/application/session/service.go:551-590 | when agents accept, one reconcile brings every followed target up to date if and only if each target, counted from the sources running beforehand, fits in its turn beside the answers before it and what still runs of the others, or matches already |
| `Convergence.ActsIffFits` | internal/application/session/service.go:560-568 | once the targets before it match, the guards let a target through exactly if it fits in its turn, as counted from the start |
| `Convergence.PassKeeps` | internal/application/session/service.go:551-590 | whatever the guards decide, a reconcile leaves what runs for targets it does not handle as it is |
| `Convergence.ReconcileTwice` | internal/application/session/service.go:551-590 | where the first of two reconciles converges, everything matches afterwards and the second sends no command |
| `Convergence.SwapIsStuck` | internal/application/session/service.go:560-568 | two targets of fifty pods that are to swap their nodes: before and after are within the limits and every agent accepts, yet the guards turn both away on every reconcile |
| `Reconcile.MatchedPass` | internal/application/session/service.go:551-590 | a reconcile over matching targets changes nothing |
| `Reconcile.MatchedIsQuiet` | internal/application/session/service.go:573-587 | a matching target has nothing to stop and nothing to start |
| `Cleanup.Store.CleanSessionRecordings` | internal/adapter/recording/catalog.go:57-127 | fails exactly without a limit; otherwise the deleted list is the shortest oldest-first run of eligible recordings reaching half the limit, or all of them; what goes has metadata, a final status, no symbolic link and no active or resumable session, and is no younger than anything that could have gone instead; what may not go at the last check is reported; sizes add up, a dry run changes nothing and a real one removes exactly the list |
| `Cleanup.Store.Clean` | internal/adapter/recording/catalog.go:67-116 | the loop's part of that, with the deleted size the sum over the list |
| `Cleanup.SortSorts` | internal/adapter/recording/catalog.go:74-79 | the scanned recordings are put in order of time and, for equal times, session ID, none lost or added |
| `Cleanup.EligibleIff` | internal/adapter/recording/catalog.go:183-240 | both checks before deletion, field by field |
| `Cleanup.PlanIsUnique` | internal/adapter/recording/catalog.go:80-109 | there is only one shortest plan |
| `Cleanup.RealIsDryIff` | internal/adapter/recording/catalog.go:80-109 | on an unchanged store the real run deletes the dry-run list if and only if every listed recording passes the check before deletion |
| `Cleanup.NamedStoresAgree` | internal/adapter/recording/catalog.go:183-240 | where every directory is named after its session the two runs always agree |
| `Cleanup.MisnamedStoreDiffers` | internal/adapter/recording/catalog.go:158-240 | a misnamed directory of an active session is listed by the dry run and spared by the real one |
| `Batchers.Flush` | internal/adapter/capture/dumpcap.go:118-131 | a flush moves the batch to the output and starts a new one; an empty batch is never sent |
| `Batchers.TakePacket` | internal/adapter/capture/dumpcap.go:146-178 | one arrival keeps every limit and the order, and sends a batch only because it is full or the packet would make it too large |
| `Batchers.BatchCapturedPackets` | internal/adapter/capture/dumpcap.go:110-187 | for any arrival and timer schedule the batches are non-empty, within limits unless single, and concatenate to a prefix of the arrivals, to all of them when the input ends; each was full, left no room for the next packet, or was sent when the timer fired or the input ended; while it runs the rest is the one batch being filled, nothing is unsent right after the timer, and without cancellation it is never interrupted |
| `Batchers.CaptureLoop` | internal/adapter/capture/afpacket_linux.go:131-216 | the same for the packet ring, with sequence numbers exactly 1 to k; once a batch is past its age nothing but the frame just read is unsent |
| `Batchers.TakeFrame` | internal/adapter/capture/afpacket_linux.go:176-214 | one frame, copied and tagged, joins the packets kept so far in order, after a flush if the batch is past its age |
| `Batchers.NumberedFromOne` | internal/adapter/capture/afpacket_linux.go:196-204 | captured frames are numbered from one without gaps, none longer than the snap length |
| `Batchers.CapturedPacketLength` | internal/adapter/capture/afpacket_linux.go:218-227 | the length announced is the length of the frame as it was on the wire, cut to the snap length |
| `Batchers.AppendCapturedPacket` | internal/adapter/capture/afpacket_linux.go:229-245 | the arena grows by exactly the frame with its VLAN tag put back, cut to the snap length |
| `Batchers.TagRoundTrip` | internal/adapter/capture/afpacket_linux.go:229-245 | the tag can be read back and taken out again, giving the frame as the kernel delivered it |
| `Analyzers.SampleEvery` | internal/benchmark/analyzer.go:33-36 | the least positive sampling step that is large enough for at most a million samples |
| `Analyzers.HoldsAfterSet` | internal/benchmark/analyzer.go:56-70 | setting one bit adds exactly that number to the set the words represent |
| `Analyzers.Analyzer.constructor` | internal/benchmark/analyzer.go:32-49 | starts with a bitset that represents the empty set |
| `Analyzers.Analyzer.Observe` | internal/benchmark/analyzer.go:51-78 | accepts if and only if the first header of this run carries an expected sequence number; that number joins the set once, and a first sighting on a sampling step adds its latency |
| `Analyzers.Analyzer.Mark` | internal/benchmark/analyzer.go:56-77 | one accepted number: the counts stay the set's size, the repeats and the overtaken arrivals |
| `Analyzers.Analyzer.Bounds` | internal/benchmark/analyzer.go:32-78 | received never exceeds expected, and there are at most a million samples |
| `Analyzers.Generate` | internal/benchmark/generator.go:43-73 | the generator numbers its packets from zero without gaps and ends by itself if and only if it has sent as many as expected, so that with `Bounds` the loss subtraction in runner.go:290 cannot wrap |
| `Analyzers.Analyzer.Result` | internal/benchmark/analyzer.go:91-103 | sorting loses no sample, and the reported percentiles rise to the maximum |
| `Analyzers.NearestRank` | internal/benchmark/analyzer.go:105-117 | the percentile is the least sample that at least that share of the samples does not exceed |
| `Analyzers.PercentileMonotone` | internal/benchmark/analyzer.go:105-117 | a higher percentage never gives a smaller value |
| `Header.EncodeHeader` | internal/benchmark/protocol.go:13-18 | writes the header in place and leaves the rest of the packet alone |
| `Header.DecodeIsBigEndian` | internal/benchmark/protocol.go:13-35 | numbers are read with the most significant byte first |
| `Header.NoSelfOverlap` | internal/benchmark/protocol.go:20-35 | the magic never begins inside itself, so jumping by four misses nothing |
| `Header.IndexMagic` | internal/benchmark/protocol.go:22-25 | the first occurrence of the magic from an offset, or none |
| `Header.DecodeHeader` | internal/benchmark/protocol.go:20-35 | finds the header at the least offset that holds a whole one with the wanted run ID, and fails if and only if there is none |
| `Header.RoundTrip` | internal/benchmark/protocol.go:13-35 | an encoded header after any prefix without an earlier match decodes to the same sequence number and time |

## Left out

- gRPC, TLS, the command line, Kubernetes clients and metrics: edges without a hard property.
- The stream service's table of sessions (opening, looking up and deleting a session) and the interval of its ticker: ticks come at any time here.
- Time is a natural number of nanoseconds since Go's zero time, so that earlier timestamps are not modelled; identifiers are numbers, compared for equality and, where the code sorts by them, by order.
- Integers are unbounded, so 64-bit overflow of counters, sizes and of an analyzer's expected count near 2^64 is not modelled.
- The standard library's heap is modelled from its documented sift-up and sift-down.
- Subscriber channels are values in a map, with history fields that no decision reads; the methods of `Pipelines.Pipeline` let readers take batches between calls, while the event machine lets them do so between any two batches.
- PCAPNG bytes, original lengths and link types: a packet write adds a positive number of bytes or fails.
- Failing file operations other than a packet write: opening, syncing, renaming and removing succeed.
- metadata.json, segment names, directory scans that find existing segments (they arrive in order) and usage reports beyond retained size and segment count.
- Log recorder: streams are numbered in the order of their paths; segment numbers beyond six digits, colliding directory names and the sync loop are not modelled, and segments found at start are not newer than the clock.
- LogRecorders.LogRecorder.Write: the single-record rule covers segments finished in this run, since those found on disk may have been written under other limits; an empty record adds no data.
- Recovery: the scan for recoverable sessions and runs, and any guarantee over two crashes without a completed write in between, which the code does not give.
- Reconcile is one atomic step; restarting recovered sessions, creating sessions, the status table and the node list are not modelled, and the target an identifier belongs to is a function instead of a text format.
- Cleanup: the store does not change meanwhile and removal succeeds; recordings with the same time and session ID stay in scan order, which Go's sort leaves open; the capacity check before a normal recording and the extra entry saying that the target was not reached are left out.
- Batchers: timers and cancellation are event schedules; buffer pre-sizing and ring statistics are left out.
- Analyzer: 64-bit words are naturals below 2^64 with bit operations by halving; loss percentages in floating point, the generator's rate arithmetic and its socket errors are left out.
