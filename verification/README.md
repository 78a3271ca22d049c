# Queuemaxxing: a verified model

This project models the core of the Queuemaxxing message queue and proves what its parts promise:

- **The engine** (`pkg/engine/queue.go`): two index-tracked binary heaps over shared items, an ID
  index and lazy promotion, written as classes that update the heaps in place. Go's `container/heap`
  algorithms are written out over them. Every method is proved to compute a function on a plain
  value (`Scheduling.QueueState`), and over whole runs that value is proved to answer like one
  undivided set of messages from which the best available one is taken.
- **The log** (`pkg/storage/wal.go`): a text file of flat JSON records, appends that may fail
  part-way, streaming recovery with one line of lookahead, and the tail window.
- **The service** (`pkg/service/queue_service.go`): log first, memory second; restart; the protocol one
  step at a time with a crash possible anywhere; and the interleavings its RWMutex admits.
- **The client's predictor** (`cmd/client/main.go`): a second implementation of the scheduling rule,
  proved to give the engine's pop sequence, or the exact condition under which it does.

How the modules build on one another:

| module | contents |
|---|---|
| `Model`, `Selection` | messages, requests, delay arithmetic; the two orders |
| `Scheduling` | the queue as a value, and the simple queue it refines |
| `Engine` | the heaps and the queue, in place |
| `Codec`, `Log`, `Replay` | one record as text; lines, torn and glued tails; replay as a fold |
| `Wal`, `Service` | the log object and the service object, with the functions they compute |
| `Promises` | what each call of the service answers, in terms of the request |
| `Durability` | whole operations and restarts; what failed appends that leave bytes do, exactly |
| `Bisimulation`, `Recovery` | recovered and never-crashed services answer alike, also after runs with crashes |
| `Protocol` | every protocol step, crashes anywhere, and what the steps do to the file |
| `Agreement`, `LiveSeqs`, `Ledger` | memory against log; record numbers and Seqs; nothing lost, nothing twice; whole runs |
| `Readers` | interleavings of readers and writers |
| `Client`, `Prediction` | the simulated drain; when it is what the engine hands out |

Instants are integer nanoseconds. The clock, new IDs and the outcome of each append are parameters.
The text of the log is generic in the codec wherever only four laws of it matter
(`Codec.RecordCodec.Sound`); `Codec.Json` is a concrete one that meets them.

## Where the code and its documentation differ

- **A torn tail is dropped only in memory.** The documentation says that a torn last line is dropped.
  The bytes stay in the file, and the next record is written straight after them.
  `Log.AppendAfterTail`: that record is read back if and only if there was no tail, and once another
  follows it recovery fails.
- **A failed append may leave its record.** `ARCHITECTURE.md` says that a failed sync leaves memory
  untouched, which is so, but the log may have changed. `Durability.FailedEnqueueAgreesIff`: memory and
  log agree after a failed Enqueue if and only if the record did not reach the file whole; if it did,
  the next restart brings the message.
- **A failed Dequeue may lose its message.** The code puts the message back and says that memory then
  matches the log. `Durability.FailedDequeueAgreesIff`: they match if and only if the tombstone did not
  reach the file whole; if it did, the next restart drops the message, which nobody was given.
- **An accepted message can be lost to the failure before it.** If the append before left part of its line,
  the accepted record is glued to it. `Durability.AcceptedIsRecoveredIff`: a restart has the message if and
  only if the failed append left nothing or its whole line.
- **Seqs can be shared and reused.** Seq is documented never to collide. After a failed Enqueue its Seq is
  given again; two live messages share it after a restart if and only if the refused record stayed whole
  with its newline (`Durability.SeqsCollideIff`, with a run in `Durability.SeqsCanCollide`). A restart
  resumes above the survivors, so a consumed message's Seq can be given again (`Durability.SeqIsReused`),
  exactly when the last numbered message is gone (`Durability.RestartResumesIff`). Over all runs live Seqs
  stay distinct, bounded and in log order while no refused ENQUEUE record is in the file
  (`Ledger.LiveSeqsStayDistinct`).
- **The prediction can fail.** The client says that it replays the engine's rules. It breaks a tie of priority
  and Seq by the place in the snapshot, the engine by arrival in the direction of the mode.
  `Prediction.TiedPredictionFails` is an input; `Prediction.PredictionIsTheDrain` the exact condition.
- **Concurrent readers can see ahead of their own clock reading.** `ARCHITECTURE.md` says that they
  cannot derive inconsistent views. Each answer is exact for one instant between the reader's clock
  reading and the answer, but not always for the reading itself (`Readers.AReaderCanBeOvertaken`;
  `Readers.CountIsOwnInstantIff` and `Readers.SnapshotIsOwnInstantIff` say when).

## Model

| member | source | states |
|---|---|---|
| Model.DelayIsExact | pkg/model/message.go:119-143 | The int64 product is exact if and only if it fits in 63 bits; every delay that validation accepts is, so AvailableAt is never before EnqueuedAt |
| Model.AcceptedRequests | pkg/model/message.go:119-143 | A request is accepted exactly with a payload and a delay of 0 to 315360000 seconds; a refused one is told its first fault |
| Model.UncappedDelayWraps | pkg/model/message.go:119-128 | Without the cap a delay of some 292 years would make the message available at once |
| Selection.BeforeIsStrictOrder | pkg/engine/queue.go:54-113 | Both comparators are strict orders, total on distinct arrival counters |
| Selection.InOrderListsAll | pkg/engine/queue.go:331-364 | The ordered list of a set has each of its members once |
| Selection.AscendingIsInOrder | pkg/engine/queue.go:331-364 | A set has only one ascending listing, whatever sort made it |
| Scheduling.PopTakesTheBest | pkg/engine/queue.go:40-70 | Pop finds nothing iff nothing held is available; else it takes one available message and only that: highest priority, then lowest Seq in FIFO and highest in LIFO mode, then earliest arrival in FIFO and latest in LIFO mode; Peek agrees and removes nothing |
| Scheduling.PromoteSplitsByAvailability | pkg/engine/queue.go:366-377 | Under a non-decreasing clock the ready part is exactly what is available now, and promotion loses nothing |
| Scheduling.EngineIsSimple | pkg/engine/queue.go:138-167 | Every run of Push, Pop, Peek, Remove, AvailableLen and Snapshot is answered as by one undivided set of messages filtered by availability, whatever was promoted before |
| Scheduling.SnapshotPredictsDrain | pkg/engine/queue.go:275-329 | The ready list is what repeated Pop(now) would return, cut to the limit; its flag says exactly whether it was cut, its length is the whole one, and nothing leaves the queue |
| Scheduling.SnapshotListsDelayed | pkg/engine/queue.go:284-329 | The delayed list is a prefix of the one listing by maturity of all that is held back, which has every such message once and nothing due; with no limit it is that listing; flag and lengths are exact |
| Scheduling.DrainedWhenAvailable | pkg/engine/queue.go:205-220 | A held message is handed out by repeated Pop(now) iff it is available at now |
| Scheduling.PoppedWhenAvailable | pkg/engine/queue.go:205-220 | No Pop returns a message before it is available, and from then on no Pop is empty while it is held |
| Engine.RootIsNotPreceded | pkg/engine/queue.go:45-113 | In a heap nothing precedes the root |
| Engine.RootIsFirst | pkg/engine/queue.go:213-217 | The root of a heap is the first of the set it holds, and only an empty heap has none |
| Engine.IndexCounts | pkg/engine/queue.go:237-242 | The ID index counts exactly the messages in the two heaps |
| Engine.OrderedMessages | pkg/engine/queue.go:331-364 | The page is the one ordered listing of the items, cut to the limit with the flag saying so |
| Engine.ItemHeap.Swap | pkg/engine/queue.go:72-76 | Exchanges two slots and repoints both items |
| Engine.ItemHeap.Push | pkg/engine/queue.go:78-83 | Adds the item and restores the heap with every item knowing its slot and heap |
| Engine.ItemHeap.Pop | pkg/engine/queue.go:85-93 | Takes the root, with index -1, and restores the heap |
| Engine.ItemHeap.Remove | pkg/engine/queue.go:254-273 | Takes the item from any slot and restores the heap |
| Engine.FrankensteinQueue.Push | pkg/engine/queue.go:185-203 | A held ID is left alone; otherwise the message enters the delayed heap with the next arrival counter; the invariant of heaps, back-pointers and index is kept |
| Engine.FrankensteinQueue.Promote | pkg/engine/queue.go:366-377 | Moves exactly what has matured |
| Engine.FrankensteinQueue.Pop | pkg/engine/queue.go:205-220 | Computes the specified pop on what the heaps hold and keeps the invariant |
| Engine.FrankensteinQueue.Peek | pkg/engine/queue.go:222-235 | Shows the message Pop would take |
| Engine.FrankensteinQueue.Remove | pkg/engine/queue.go:254-273 | Removes the message with the ID from whichever heap holds it and tells whether there was one |
| Engine.FrankensteinQueue.Len | pkg/engine/queue.go:237-242 | Counts all that is held |
| Engine.FrankensteinQueue.AvailableLen | pkg/engine/queue.go:244-252 | Counts the ready part after promotion |
| Engine.FrankensteinQueue.Snapshot | pkg/engine/queue.go:302-329 | Both ordered pages and both lengths as of one promotion |
| Codec.DecodeUndoesEncode | pkg/storage/wal.go:423-427 | A record written is the record read |
| Codec.JsonIsOneLine | pkg/storage/wal.go:423-427 | An encoded record is one line |
| Codec.TornDoesNotDecode | pkg/storage/wal.go:276-282 | No strict prefix of a record decodes |
| Codec.GluedDoesNotDecode | pkg/storage/wal.go:427-428 | A record written after left-over bytes does not decode |
| Codec.JsonIsSound | pkg/storage/wal.go:423-428 | The concrete codec meets the four laws that are all the log relies on: one line, round trip, no strict prefix decodes, no glued line decodes |
| Replay.EnqueueRecordKeepsMessage | pkg/storage/wal.go:123-146 | A message with a Seq and a status comes back from its ENQUEUE record unchanged |
| Replay.RecordsWritten | pkg/storage/wal.go:134-164 | The operations are named ENQUEUE and DEQUEUE, the envelope has version 1 and the given number, an absent status is written PENDING |
| Replay.LiveIsSaid | pkg/storage/wal.go:215-248 | An ID is live iff some ENQUEUE of it has no DEQUEUE after it and every earlier one was dequeued before it; the message is what that record says, with the record's number for an absent Seq, priority 0, status PENDING and the zero time for what else is absent |
| Replay.ReplayHasClosedForm | pkg/storage/wal.go:204-253 | An ID ends with the first ENQUEUE after its last DEQUEUE, or, never dequeued, with what it started with or else its first ENQUEUE |
| Replay.FinalValueIsUnique | pkg/storage/wal.go:204-253 | The closed form determines the value |
| Replay.ReplayIsIdempotent | pkg/storage/wal.go:171-175 | Replaying the same records on the state they produced changes nothing |
| Replay.MaxNoIsHighest | pkg/storage/wal.go:212-214 | The number recovery takes up is that of the highest record, unknown operations included |
| Log.FirstBad | pkg/storage/wal.go:264-272 | Names the first line that is neither blank nor decodable, if there is one |
| Log.ScanRule | pkg/storage/wal.go:255-282 | The rule for a whole file in full: the first line before the last that is neither blank nor decodable is the error; else the records of the decodable lines, in order |
| Log.SplitIsUndone | pkg/storage/wal.go:349 | No piece holds a newline, and with newlines between them the pieces are the text |
| Log.SplitConcat | pkg/storage/wal.go:349 | The lines of a concatenation: the last of one is joined to the first of the other |
| Log.AnyCutReadsWholeRecords | pkg/storage/wal.go:255-282 | However a log of whole records is cut, recovery succeeds with exactly the records wholly before the cut, counting one that lacks only its newline |
| Log.AppendAfterTail | pkg/storage/wal.go:276-282 | After a torn tail the next record is read back iff there was no tail; glued, it is dropped while last and a hard error once followed |
| Wal.WAL.AppendLocked | pkg/storage/wal.go:412-435 | Uses up a record number on success and failure alike; success leaves the whole line synced, failure some prefix of it unsynced |
| Wal.WAL.WriteEnqueue | pkg/storage/wal.go:121-150 | Refuses the empty ID, otherwise appends the message's record |
| Wal.WAL.WriteDequeue | pkg/storage/wal.go:152-169 | Refuses the empty ID, otherwise appends a tombstone |
| Wal.WAL.ApplyLine | pkg/storage/wal.go:201-253 | One line's effect on the live map and the highest number; a line that does not parse changes nothing |
| Wal.WAL.FoldLines | pkg/storage/wal.go:255-282 | The loop with one pending line equals the whole-file rule: the first bad line before the last is the error, else the fold of all records |
| Wal.WAL.Recover | pkg/storage/wal.go:187-311 | The survivors by Seq and then ID, the record counter at the highest number read; on an error the counter is unchanged |
| Wal.ListingIsUnique | pkg/storage/wal.go:286-310 | The live messages have one listing by Seq and ID, whatever order the map gave them in |
| Wal.StringLessIsLexicographic | pkg/storage/wal.go:301-308 | IDs compare as in a dictionary |
| Wal.ListLive | pkg/storage/wal.go:286-310 | Collecting the map in any order and sorting gives that listing |
| Wal.WAL.Tail | pkg/storage/wal.go:313-376 | The records are the last valid lines of the whole file, within the cap, all of them unless Truncated; short of the cap every valid line that follows a newline in the window is among them; of a log of whole records that fits 4 MiB the records as written, the last ones under a cap |
| Wal.TrimSpaceTrims | pkg/storage/wal.go:359 | Trimming takes space, tab, newline, return, vertical tab and form feed off both ends, all of them and nothing else |
| Wal.ValidLinesArePicked | pkg/storage/wal.go:357-364 | The lines shown are those that are not blank and are valid once trimmed, in order |
| Wal.WindowShowsWholeLines | pkg/storage/wal.go:349-364 | Dropping the window's first piece never drops a line that begins after a newline inside it |
| Service.QueueService.New | pkg/service/queue_service.go:47-90 | Recovery, a push of every survivor in order, and the counter at their highest Seq; an error if the log is corrupt |
| Service.QueueService.Load | pkg/service/queue_service.go:72-78 | Pushes the messages in turn and finds their highest Seq |
| Service.QueueService.Enqueue | pkg/service/queue_service.go:92-128 | Validation first, then the closed check, then the log, then memory; a failed append gives the Seq back and leaves memory untouched |
| Promises.EnqueueAnswers | pkg/service/queue_service.go:95-128 | A request is taken iff it is valid, the service is open, the ID is not empty and the log takes the record; the answer has the ID, payload, priority, instant, delay and status PENDING asked for and the next Seq; a refusal leaves memory and counter |
| Promises.HeldAsRequested | pkg/service/queue_service.go:110-127 | Under a fresh ID the message held, and the one a restart has, is what was asked for |
| Service.QueueService.Dequeue | pkg/service/queue_service.go:130-150 | Pops, writes the tombstone, and puts the message back if that fails |
| Promises.DequeueAnswers | pkg/service/queue_service.go:134-150 | Nothing iff nothing held is available; else an available message that no other available one precedes by priority and then Seq in the direction of the mode, and only it is gone |
| Service.QueueService.GetStats | pkg/service/queue_service.go:198-211 | Total, available and delayed counts of what is held |
| Promises.StatsAnswers | pkg/service/queue_service.go:198-211 | Total counts what is held, available what of it is available at the instant, delayed the rest |
| Service.QueueService.Snapshot | pkg/service/queue_service.go:152-181 | Mode, instant, the two pages and their summed counts from one call of the engine, with nothing else of the service changed |
| Promises.SnapshotAnswers | pkg/service/queue_service.go:152-181 | Mode, instant and counts as in Stats; the ready list is what repeated Dequeues at the instant would be given, the delayed list what is held back, each cut to the limit with an exact flag |
| Service.QueueService.Close | pkg/service/queue_service.go:213-224 | Closes the log once; memory stays |
| Promises.ClosedAnswers | pkg/service/queue_service.go:213-224 | After Close every Dequeue and every Enqueue of a valid request is told so and changes nothing; memory stays and Stats and Snapshot answer as before |
| Durability.StaysConsistentIff | pkg/service/queue_service.go:92-150 | For each operation or restart: memory equals the fold of the log afterwards, with Seqs and record numbers in order, iff it is harmless, as seen before it is made: its append succeeds or leaves no bytes or leaves whole a record whose ID is held; IDs may collide |
| Durability.RestartIsConsistent | pkg/service/queue_service.go:66-90 | A restart over whole records succeeds, holds exactly the live messages, and never raises either counter |
| Durability.RunsStayConsistentIff | pkg/service/queue_service.go:47-150 | Over any run of operations and restarts memory equals the fold of the log after every one iff every one is harmless |
| Durability.ListingIsLogOrderIff | pkg/storage/wal.go:286-310 | Sorting the survivors gives the log order of their ENQUEUE records iff their Seqs, and the IDs of those that share one, ascend in the log |
| Durability.OlderLogKeepsOrder | pkg/storage/wal.go:227-234 | From records without a Seq every message takes its record's number, and messages are recovered in record order |
| Durability.RestartResumesIff | pkg/service/queue_service.go:72-85 | A restart resumes the Seq counter where it stood iff the message numbered last is still held |
| Durability.SeqIsReused | pkg/service/queue_service.go:72-85 | A concrete run in which a consumed message's Seq is given again |
| Durability.FailedEnqueueAgreesIff | pkg/service/queue_service.go:122-125 | After a failed Enqueue memory and log agree iff the record did not reach the file whole |
| Durability.FailedDequeueAgreesIff | pkg/service/queue_service.go:130-149 | After a failed Dequeue the message is held as before; memory and log agree, and a restart still has the message, iff the tombstone did not reach the file whole |
| Durability.SeqsCollideIff | pkg/service/queue_service.go:110-126 | After a failed Enqueue, an accepted one and a restart two live messages share a Seq iff the refused record stayed whole with its newline |
| Durability.SeqsCanCollide | pkg/service/queue_service.go:110-126 | A concrete run after which two live messages share a Seq |
| Durability.AcceptedIsRecoveredIff | pkg/storage/wal.go:423-433 | An Enqueue accepted after a failed one is recovered iff the failed append left nothing or its whole line |
| Durability.AcceptedAfterFailedDequeueIff | pkg/storage/wal.go:423-433 | The same after a Dequeue that failed |
| Durability.EnqueuedIsHeldAndRecovered | pkg/service/queue_service.go:110-127 | The message a successful Enqueue returns is the one held and the one recovered |
| Durability.VisibleFromItsDelay | pkg/service/queue_service.go:110-120 | The message of an accepted Enqueue is drained at exactly the instants from EnqueuedAt plus its delay on, popped at none before, by this service and by the one recovered from its log |
| Bisimulation.StepStaysAlike | pkg/service/queue_service.go:92-150 | One operation on two services alike up to an order-preserving renaming of Seqs gives answers alike and leaves them alike |
| Bisimulation.RunsAnswerAlike | pkg/service/queue_service.go:92-150 | One renaming serves all answers of a run |
| Bisimulation.RecoveredAnswersAlike | pkg/service/queue_service.go:66-150 | Where memory holds what the file says and Seqs ascend in it, the running service and the one rebuilt from the file answer every later run of Enqueue, Dequeue, Stats and Snapshot alike, up to one order-preserving renaming that leaves survivors' Seqs alone |
| Recovery.RunEndsInStep | pkg/service/queue_service.go:66-150 | That is so after every run of protocol steps, with crashes anywhere, that leaves nothing in doubt and no refused ENQUEUE in the file |
| Recovery.RecoveredAnswersAlike | pkg/service/queue_service.go:66-150 | So after every such run the service as it stands and the one rebuilt from its file answer every later run alike |
| Bisimulation.ListingIsRenamed | pkg/engine/queue.go:302-329 | Messages whose Seqs are renamed in order are listed in the same order |
| Bisimulation.FailedDequeueIsUnobservable | pkg/service/queue_service.go:141-148 | Until a restart: after a Dequeue whose tombstone fails the same messages are held and every later run is answered as without it |
| Bisimulation.FailedDequeueThenRestart | pkg/service/queue_service.go:141-148 | Nor does a restart right after it show anything, if the tombstone did not reach the file whole |
| Ledger.StepKeeps | pkg/service/queue_service.go:95-150 | Every protocol step, failed or not, every crash, every foreign record and every restart keeps what file, memory, Seqs and history must agree on |
| Ledger.NothingLostNothingTwice | pkg/service/queue_service.go:95-150 | After any run under fresh IDs and any last crash: recovery succeeds, nothing delivered is recovered, everything accepted without a surviving tombstone is, nothing else was made up, and nothing was delivered twice |
| Ledger.RecordNumbersAscend | pkg/storage/wal.go:418-433 | After any run and any last crash the numbers of the records recovery reads strictly ascend, up to the writer's counter, failed appends, restarts and foreign records included |
| Ledger.MemoryAgreesOutsideDoubt | pkg/service/queue_service.go:110-149 | What recovery would read agrees with memory on every ID, repeated ones included, outside the operation in progress, for which no append returned an error since the service was opened |
| Ledger.LiveSeqsStayDistinct | pkg/service/queue_service.go:72-126 | After any run, with crashes anywhere and IDs that may repeat: if no ENQUEUE record left in the file was refused, a restart has distinct live Seqs, none above its counter, listed in log order |
| Ledger.HeldSeqsAreDistinct | pkg/service/queue_service.go:110-126 | The same of the messages in memory, outside doubt and the operation in progress |
| Protocol.EnqueueIsItsSteps | pkg/service/queue_service.go:95-128 | An Enqueue of the service is a run of its steps |
| Protocol.DequeueIsItsSteps | pkg/service/queue_service.go:134-150 | A Dequeue of the service is a run of its steps |
| Protocol.StepMoves | pkg/storage/wal.go:412-435 | After every step and every crash the file is whole records, the synced ones among them, and at most one torn one; what was added or lost is exactly what the step says |
| Agreement.StepAgrees | pkg/service/queue_service.go:110-149 | Every step keeps memory and log in agreement ID by ID, the first of colliding ENQUEUEs winning in both |
| LiveSeqs.StepKeepsSeqs | pkg/service/queue_service.go:110-126 | Every step keeps record numbers ascending, and the Seqs of survivors ascending at every cut a crash could make, unless a refused ENQUEUE is left by it |
| Readers.EveryInterleavingIsSafe | pkg/service/queue_service.go:134-211 | In every interleaving under a non-decreasing clock Dequeue takes the best message available at its instant and none before its time; Stats and Snapshot are exact for one instant between the reader's clock reading and the answer, with counts that add up |
| Readers.CountIsOwnInstantIff | pkg/service/queue_service.go:199-211 | A reader's count is exact for its own clock reading iff nothing became available between that and the latest instant given to the engine |
| Readers.SnapshotIsOwnInstantIff | pkg/service/queue_service.go:162-181 | A reader's snapshot, and each of its two lengths, is that of its own clock reading iff nothing became available between that and the latest instant given to the engine |
| Readers.AReaderCanBeOvertaken | pkg/service/queue_service.go:199-211 | From a service just opened, a concrete interleaving in which a reader counts a message as available before its time |
| Client.SimulateDrain | cmd/client/main.go:281-316 | For any snapshot that lists no item twice: terminates, and returns its drain: the best ready item, of tied ones the one that joined first, and one interval, or a jump of the clock to the soonest maturity |
| Client.SliceStable | cmd/client/main.go:294-310 | The stable sort: in order, each item once, level items as they stood |
| Client.SnapshotDrainIsUnique | cmd/client/main.go:281-330 | A snapshot has one such drain, so the result is determined |
| Client.DrainsAgreeUpToTies | cmd/client/main.go:281-330 | Any two drains of the same items hand out items of the same priority and Seq in every turn, however they break ties |
| Prediction.TiedPredictionFails | cmd/client/main.go:281-330 | Two delayed messages of one priority, Seq and maturity in a LIFO queue: the engine hands out the later arrival first, the prediction the earlier |
| Client.DrainIsUnique | cmd/client/main.go:281-330 | A precedence that puts any two items in one order only admits one drain |
| Client.DrainIsPermutation | cmd/client/main.go:281-330 | It hands out every item exactly once |
| Client.DrainsUnderOtherIff | cmd/client/main.go:281-330 | A drain under one way of breaking ties is one under another iff it lets tied items go as the other wants |
| Prediction.EngineDrainEnds | pkg/engine/queue.go:205-220 | The engine driven by the same schedule ends |
| Prediction.EngineDrainIsDrain | pkg/engine/queue.go:205-220 | What the engine hands out under the schedule is such a drain of what it holds, whatever it promoted before |
| Prediction.PredictionIsTheDrain | cmd/client/main.go:281-316 | From any untruncated snapshot, an overtaken reader's included, prediction and engine hand out every message once and in every turn one of the same priority and Seq; the very same one throughout iff whenever a message goes while a tied one is ready the engine prefers it |
| Prediction.PredictionIsExactInLine | cmd/client/main.go:281-316 | They are the same if tied messages stand in the snapshot as the engine prefers them, which shows before any simulation |
| Prediction.ReadyTiesAreInLine | cmd/client/main.go:281-316 | So they do when the messages that share priority and Seq, if any, are all in the ready list |
| Prediction.SnapshotCanBeSimulated | cmd/client/main.go:285-299 | An untruncated snapshot lists no item twice, which is all that the simulation asks of its input |
| Client.PredictLabels | cmd/client/main.go:266-279 | One label for each item of the one drain of the snapshot whose ID is this run's own, in the order of the drain |
| Prediction.LabelsAreTheEngines | cmd/client/main.go:266-279 | The labels are then those of this run's own messages in the order in which the engine hands them out |

## Left out

- HTTP routing, status codes, flags, the console and the demo client apart from its predictor: no queue logic.
- UUID generation: the ID is a parameter, assumed fresh only in `Ledger.NothingLostNothingTwice`, where delivery at most once needs it.
- Clocks: instants are parameters, non-decreasing where a statement needs it.
- Files, seeking and fsync: the log is a text with a synced length; an append either succeeds or fails leaving any prefix of its line, and a failure to marshal is one that leaves nothing.
- Full JSON and timestamp text: the codec writes and reads flat objects of strings and integers, instants as nanoseconds; characters stand for bytes. It accepts leading zeros, takes the last of duplicate keys, matches field names exactly and escapes braces inside strings. Trimming of `\r` and the 16 MiB line limit of the scanner are not modelled.
- Which lines are valid JSON for Tail is a parameter, and only ASCII white space is trimmed; the path in its answer is left out.
- Wrap-around of `uint64` counters and of instants: counters are natural numbers and instants integers. Only the delay product wraps.
- Mode strings and their validation: a mode is FIFO or LIFO. Reopening a log under another mode is not part of this model.
- `container/heap` is written once for both heaps, with the comparator as a rule in place of two struct types. `slices.SortFunc` and `sort.SliceStable` are met by insertion.
- Delegation of WalTail by the service.
- Client.SimulateDrain: a round of the loop, its promotion loop and its sort are methods of their own.
- Ledger.NothingLostNothingTwice: no record is written and no restart made over a log that does not end in a newline, except that a last crash may cut anywhere; `Log.AppendAfterTail` says what happens otherwise. The same goes for the other statements about runs of protocol steps.
- Ledger.LiveSeqsStayDistinct: goes one way; a refused record that stays does no harm until its Seq is given again, and `Durability.SeqsCollideIff` is exact for that case.
- Bisimulation.RecoveredAnswersAlike: of the delayed list of Snapshot it compares which messages it has; those of equal maturity it lists by arrival, which a restart renumbers.
- Recovery.RecoveredAnswersAlike: for services at rest with no append in doubt and no refused ENQUEUE in the file; `Durability.FailedEnqueueAgreesIff`, `Durability.FailedDequeueAgreesIff` and `Durability.SeqsCollideIff` show what happens otherwise.
- Fairness and progress of mutexes, panics and memory bounds.
