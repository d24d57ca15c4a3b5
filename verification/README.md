# Gicame: verified models of its queues, signals, worker, RPC stream and binary codec

This project models the concurrent and wire-level core of Gicame in Dafny and proves properties of
the model. Nothing here runs the C++ program; where the code and its comments differ, the model
follows the code.

- **ByteRing** (`ByteRingProtocol.dfy`, `ByteRingProgress.dfy`): producer and consumer as an
  interleaved protocol over a shared ring with private, possibly stale index snapshots. Every index
  load and store, every copied byte (in any order inside a chunk) and every return of the wait policy
  is a step; safety, and progress under any wait policy.
- **Signal and SignalGroup** (`Signal.dfy`, `SignalGroup.dfy`, `SignalCalls.dfy`,
  `SignalRefinement.dfy`): sticky flags, a mutex and a condition variable, for any number of threads
  and flags, with load and compare-exchange as separate steps, non-atomic scans, timeouts and
  spurious wakeups.
- **SPSCQueue over two Signals** (`SpscQueue.dfy`, `SpscTimed.dfy`, `SpscWork.dfy`,
  `SpscDeadlock.dfy`, `SpscCompletion.dfy`, `SpscProgress.dfy`, `SpscText.dfy`): safety for arbitrary
  requests, what a timed pop has found when it answers false, bounded work, for every list of pushes and blocking pops the exact conditions under which it deadlocks and
  under which it always finishes, progress for matched sizes, and whole lists of texts end to end.
- **The copies and loops themselves** (`RingBuffer.dfy`, `Framing.dfy`, `MemoryStream.dfy`,
  `BinaryCodec.dfy`, `Rpc.dfy`): classes and methods over arrays and mutable fields, proved against
  specification functions about which the round trips are then proved.
- **TaskExecutor** (`TaskExecutor.dfy`, `TaskNotify.dfy`, `TaskStop.dfy`, `TaskClient.dfy`,
  `TaskAnswers.dfy`): worker, slot and condition variables as a state machine; the destructor always
  returns; for any number of clients exactly when a task can
  be forgotten; for one client exactly the lists of calls on which it can hang, or be answered early.

Conventions. Atomic accesses are sequentially consistent. A protocol is a pair `Enabled`/`Next`; a
run is a sequence of states linked by enabled actions, and the theorems hold at every index of every
run. Fields called history in the comments (streams, logs, snapshot positions) are read by no step.
Timeouts and spurious wakeups are actions that may or may not happen; nothing is claimed about
durations. An index word has 64 bits (`WORD`); the protocols assume that twice the capacity fits it,
and `IndexUpdateExact` and `CopyCellsExact` say exactly what happens beyond. `size()` loads its
own index together with the other side's, which changes nothing since nobody else writes it.
The queue of the model has a buffer of `capacity` cells and at least 2 of them: the constructor at
`src/concurrency/SPSCQueue.cpp:41-45` leaves the vector empty, and `ByteRing` makes the second check at
`headers/concurrency/ByteRing.h:107`. A deadlock of the queue is for good; a task client counts as
hanging when only spurious wakeups are left.

What the code does, differently from what its comments or names suggest:

- A push chunk and a pop chunk can block each other for good, because both sides wait for a whole
  chunk; which lists of requests do this, and that then every schedule does, is `DeadlockIff`.
- The worker frees its slot without notifying submitters, so a submit right behind a submit can leave
  the submitter asleep on a free slot until a spurious wakeup; a wait with no task to wait for, or for
  an empty one, can sleep for good, and does so behind calls that are otherwise in order. These are
  exactly the ways in which one client can hang (`CanHangIffMisused`).
- A wait can return the outcome of an earlier task while a later one is still in the slot: with one
  client exactly when the last submit before it came right behind the submit of a non-empty task, and
  no earlier wait is without a task to wait for (`CanAnswerLateIff`). On lists without such a wait every
  answer is right (`PromptAnswersAreRight`).
- Submitters and worker sleep on the same condition variable, so a submit's only notification can go
  to a submitter and an accepted task is then never started. That needs two clients, and any two can
  do it (`CanForgetIff`); it never happens while no two clients are inside a submit at once
  (`SubmitsOneAtATimeAreNoticed`).
- A request with 6 parameters can be built but the server refuses it, and a refused request leaves its
  parameter bytes in the stream (`DispatchIff`); a server that goes on serves them as requests
  (`RefusedDumpIsServedAsCalls`).
- With a buffer that is too short, `binarySerialize` fills it and returns -1 as a `size_t`
  (`SerializeToBuffer`).

The step functions follow these lines: `ByteRingProtocol.ProducerNext`, `ConsumerNext` and `Next`
`headers/concurrency/ByteRing.h:58-87` and `:124-212`; `Signal.WaitStep` and `SignalStep`
`headers/concurrency/Signal.h:134-182`; `SignalGroup.WaitNext`, `SignalNext` and `Next`
`headers/concurrency/Signal.h:195-309`; `SpscQueue.ProducerMove`, `ConsumerMove` and `Next`
`src/concurrency/SPSCQueue.cpp:11-39` and `:49-124`; `TaskExecutor.WorkerNext` and `ClientNext`
`src/concurrency/TaskExecutor.cpp:7-76`.

## Model

| member | source | states |
|---|---|---|
| `CircularBuffer.SizeAtPositions` | headers/concurrency/implementation_details/CircularBuffer.h:36-43 | the size and free-space formulas, wrap-around included, return the distance of the two stream positions and what is left of capacity - 1 |
| `CircularBuffer.IndexUpdateExact` | headers/concurrency/ByteRing.h:144-148 | the conditional subtraction and SPSCQueue's modulo give the same next index for every capacity, and the right one exactly when the sum does not wrap around the word |
| `CircularBuffer.CopyCellsExact` | headers/concurrency/ByteRing.h:136-142 | the two-segment copy always touches the cells (h + i) mod capacity; the byte-by-byte modulo loop touches the same cells exactly when no sum wraps around the word |
| `CircularBuffer.HugeCapacityGoesWrong` | src/concurrency/SPSCQueue.cpp:59-62 | a concrete capacity for which the modulo loop and both index updates miss their cell |
| `CircularBuffer.IndexFollowsPosition` | src/concurrency/SPSCQueue.cpp:79-84 | while twice the capacity fits the word, every form of the index arithmetic follows the stream position |
| `RingMemory.WriteCell` | headers/concurrency/ByteRing.h:140-142 | writing a byte of a chunk that fits behind head disturbs no published byte and no byte of the chunk written before |
| `RingMemory.AdvanceHead` | headers/concurrency/ByteRing.h:150-151 | storing head after the whole chunk is written appends exactly the chunk to the published stream |
| `RingMemory.AdvanceTail` | headers/concurrency/ByteRing.h:186-187 | storing tail releases exactly the bytes read and keeps the rest published |
| `ByteRingProtocol.NextKeepsInv` | headers/concurrency/ByteRing.h:58-212 | every step of either side keeps the ring, snapshot, copy and size-query invariants |
| `ByteRingProtocol.RunsNeverLeaveTheRange` | headers/concurrency/ByteRing.h:58-212 | every enabled step can be appended to a run: the side condition on indices never excludes a behaviour |
| `ByteRingProtocol.FifoInEveryRun` | headers/concurrency/ByteRing.h:124-194 | in every interleaving and under any wait policy the popped bytes are a prefix of the pushed ones, no byte is lost, and at most capacity - 1 are outstanding, for requests of any size |
| `ByteRingProtocol.SnapshotChainInEveryRun` | headers/concurrency/ByteRing.h:58-87 | cachedTail, tail, cachedHead and head stay in order within capacity - 1 as stream positions, each index is its position mod capacity, and a snapshot never over-reports data or space |
| `ByteRingProtocol.WriterAndReaderDisjoint` | headers/concurrency/ByteRing.h:133-142 | at every step the cells still being written are disjoint from the cells that may still be read |
| `ByteRingProtocol.SizesStaySound` | headers/concurrency/ByteRing.h:196-212 | what the consumer got from size() stays available until its next pop, and what the producer got from freeSpace() stays free until its next push |
| `ByteRingProgress.StreamsAreTheCalls` | headers/concurrency/ByteRing.h:124-194 | the bytes given are exactly those of the calls of push in order, and finished pops have handed back exactly as many bytes as they asked for |
| `ByteRingProgress.ProducerWaitsOnlyWhenFull` | headers/concurrency/ByteRing.h:75-87 | a producer goes into its wait policy only when, at the moment of its last load of tail, the ring really had too little room for its chunk |
| `ByteRingProgress.ConsumerWaitsOnlyWhenEmpty` | headers/concurrency/ByteRing.h:58-72 | a consumer goes into its wait policy only when, at the moment of its last load of head, too few bytes were published |
| `ByteRingProgress.RoomLeadsToCopy` | headers/concurrency/ByteRing.h:75-87 | from any point of a push, once there is room for the pending chunk, the producer is in its copy after at most 4 steps of its own, returns of the wait policy included, whatever the consumer does |
| `ByteRingProgress.DataLeadsToRead` | headers/concurrency/ByteRing.h:58-72 | the same for a pop once its chunk is published |
| `ByteRingProgress.StepsAreBounded` | headers/concurrency/ByteRing.h:124-194 | under any wait policy each side takes at most 20 steps per byte, 8 per call and 5 per step into the wait |
| `ByteRingProgress.ProducerCanMove` | headers/concurrency/ByteRing.h:124-158 | a producer inside a call always has a step of its own |
| `ByteRingProgress.ConsumerCanMove` | headers/concurrency/ByteRing.h:160-194 | a consumer inside a call always has a step of its own |
| `ByteRingProgress.IdleSideCanCall` | headers/concurrency/ByteRing.h:46-49 | outside its calls each side can make any of them, whatever the other side is doing |
| `ByteRingProgress.FreshRing` | headers/concurrency/ByteRing.h:110-117 | every capacity in range has a fresh ring from which runs start |
| `ByteRingProgress.AttachingIsExact` | headers/concurrency/ByteRing.h:118-121 | a side that attaches has an exact snapshot of the other side's index |
| `ByteRingProgress.SnapshotSavesTheLoad` | headers/concurrency/ByteRing.h:75-79 | while the snapshot shows enough room a round of push reaches its copy in two steps, without a load of tail |
| `ByteRingProgress.SnapshotSavesTheLoadOfHead` | headers/concurrency/ByteRing.h:59-64 | while the snapshot shows enough bytes a round of pop reaches its copy in two steps, without a load of head |
| `ByteRingProgress.EveryStoreIsSignalled` | headers/concurrency/ByteRing.h:150-153 | between a store of head or tail and that side's next step stands its signal |
| `ByteRingProgress.SizeTellsWhatWasThere` | headers/concurrency/ByteRing.h:196-203 | size() tells exactly what was available at its call |
| `ByteRingProgress.FreeSpaceTellsWhatIsThere` | headers/concurrency/ByteRing.h:205-212 | freeSpace() tells exactly the room at the moment it loads tail |
| `SignalGroup.NextKeepsWakeInv` | headers/concurrency/Signal.h:255-309 | every step keeps: a thread that has passed flag j under the lock, or sleeps on it, has a notify coming whenever flag j is set |
| `SignalGroup.NextKeepsMutexAt` | headers/concurrency/Signal.h:220-226 | after every step a thread is inside its critical section exactly when it owns the mutex |
| `SignalGroup.NoLostWakeup` | headers/concurrency/Signal.h:203-309 | for any number of threads and flags: a sleeper one of whose flags is set implies a signaler that stored that flag and has not yet done its notify_all |
| `SignalGroup.QuietMeansNothingPending` | headers/concurrency/Signal.h:212-309 | when only new calls, timeouts and spurious wakeups are left, every thread is outside or asleep, and no sleeper's flag is set |
| `SignalGroup.SignalsAreConserved` | headers/concurrency/Signal.h:195-200 | per flag, consumptions plus the flag equal the 0-to-1 transitions and never exceed the signals given |
| `SignalGroup.AnswerIsWhatWasConsumed` | headers/concurrency/Signal.h:212-294 | a finished wait consumed exactly the flag it returns, and none when it returns false or NO_SIGNALS |
| `SignalGroup.ScanSawLowerZeros` | headers/concurrency/Signal.h:203-210 | a scan that has reached flag k has, for every lower flag of its range, itself loaded or compare-exchanged that flag at 0 and moved on past it, all within that same scan |
| `SignalGroup.WaitOneTakesLowestSeen` | headers/concurrency/Signal.h:203-210 | the flag waitOne consumes is the lowest that its own scan has not found at 0 on its way |
| `SignalCalls.CallStays` | headers/concurrency/Signal.h:212-309 | until it returns, waitOne waits for all flags of the group and wait(i) for flag i alone, each with its caller's patience; an index out of range throws |
| `SignalCalls.ThreadCanMove` | headers/concurrency/Signal.h:203-309 | a thread can always call, step, return, be woken or time out, as its place asks for; only the mutex and sleep hold it up |
| `SignalCalls.FreshGroup` | headers/concurrency/Signal.h:189-193 | any number of flags and any set of threads make a fresh group from which runs start |
| `SignalCalls.SleeperOfACallIsNotified` | headers/concurrency/Signal.h:255-309 | a thread asleep in waitOne while any flag of the group is set, or in wait(i) while flag i is, has a signaler of that flag before its notify_all |
| `SignalCalls.NoSignalsSawEveryFlagAtZero` | headers/concurrency/Signal.h:271-294 | a waitOne that answers NO_SIGNALS has in its last scan itself found every flag of the group at 0: the only scan of a try, or the one after its timeout, which has happened |
| `SignalCalls.SleeperSawEveryFlagAtZero` | headers/concurrency/Signal.h:255-269 | a waitOne asleep has in its last scan found every flag of the group at 0 while it held the mutex |
| `SignalCalls.LateHasTimedOut` | headers/concurrency/Signal.h:233-252 | a wait with a deadline that has given up, or makes its last check, has timed out in this call |
| `SignalCalls.RunKeepsPatience` | headers/concurrency/Signal.h:212-252 | a wait of 0 ms never touches the mutex, and a wait without a deadline never gives up |
| `SignalCalls.CasFollowsLoad` | headers/concurrency/Signal.h:195-201 | a thread compare-exchanges a flag only behind its own load that saw it set |
| `SignalCalls.CallTakesBoundedSteps` | headers/concurrency/Signal.h:203-309 | on a group of N flags a call takes at most 4 N + 2 steps of its own, and 2 N + 2 more per wakeup |
| `SignalCalls.EverySignalStoresOnce` | headers/concurrency/Signal.h:296-309 | per flag, the stores and the threads still about to store are exactly the calls of signal |
| `SignalRefinement.StepRefines` | headers/concurrency/Signal.h:212-309 | watched at one index, every step of the group is the corresponding step of a standalone Signal, a spurious wakeup, or nothing |
| `SignalRefinement.GroupRunIsSignalRun` | headers/concurrency/Signal.h:83-95 | every run of a group without waitOne, watched at one index, is a run of a fresh standalone Signal |
| `SpscQueue.NextKeepsInv` | src/concurrency/SPSCQueue.cpp:11-124 | every step of queue and Signals keeps the stream, mutex and wakeup invariants |
| `SpscQueue.FifoInEveryRun` | src/concurrency/SPSCQueue.cpp:49-111 | for arbitrary pushes and arbitrary, adaptive, blocking or timed pops, what is delivered is a prefix of what was pushed and at most capacity - 1 bytes are outstanding |
| `SpscQueue.PopIsAllOrNothing` | src/concurrency/SPSCQueue.cpp:71-111 | a pop that answers false has not moved tail; any other has handed out exactly the next n bytes and moved tail behind them |
| `SpscTimed.TimedOutMeansTooFew` | src/concurrency/SPSCQueue.cpp:19-31 | a timed pop that answers false asks for more than the ring can hold, or has found too few bytes at some moment of the call behind all its timeouts; and unless its timeout was 0 ms, its deadline has passed or it has consumed the signal before |
| `SpscTimed.TimedPopSleepsWithADeadline` | src/concurrency/SPSCQueue.cpp:19-31 | a consumer asleep in a timed pop has its deadline running and its timeout was not 0 ms; one asleep in a plain pop has none |
| `SpscTimed.TimedPopIsNeverStuck` | src/concurrency/SPSCQueue.cpp:93-111 | where a plain pop could be stuck, a timed pop still has its timeout |
| `SpscQueue.SizeStaysSound` | src/concurrency/SPSCQueue.cpp:113-120 | what size() tells the consumer from two loads at different moments is there until its next release, whatever the producer does |
| `SpscQueue.FreeSpaceStaysSound` | src/concurrency/SPSCQueue.cpp:122-124 | what freeSpace() tells the producer stays free until its next store of head |
| `SpscQueue.NoLostWakeup` | src/concurrency/SPSCQueue.cpp:11-91 | a consumer asleep although enough is published implies the producer is between its head store and its notify_all; symmetrically for a producer asleep on free space; timed pops included |
| `SpscQueue.StuckOnlyOnMismatch` | src/concurrency/SPSCQueue.cpp:49-91 | a run stops only with each side finished or really short of data or room, and with both short only when the two pending chunks sum to more than the capacity |
| `SpscQueue.BothStarveIff` | src/concurrency/SPSCQueue.cpp:11-39 | a fill level that fails both wait conditions exists exactly when the two chunks sum to more than the capacity |
| `SpscDeadlock.DeadlockIff` | src/concurrency/SPSCQueue.cpp:49-91 | for given lists of pushes and blocking pops some schedule deadlocks if and only if a push chunk ends beyond the room that the first j pop chunks leave while pop chunk j ends beyond what the push chunks before it offer; then every schedule that has come to its end is deadlocked |
| `SpscDeadlock.RunToItsEnd` | src/concurrency/SPSCQueue.cpp:49-91 | every run over such lists can be carried on to an end |
| `SpscDeadlock.DeadlockIsForGood` | src/concurrency/SPSCQueue.cpp:11-39 | after a deadlock nothing that can happen, spurious wakeups included, ever lets a side out of its wait or moves a byte |
| `SpscDeadlock.EqualRequestsNeverBlock` | src/concurrency/SPSCQueue.cpp:49-91 | pops of the sizes of the pushes never meet the deadlock condition |
| `SpscCompletion.AlwaysFinishesIff` | src/concurrency/SPSCQueue.cpp:49-91 | for given lists of pushes and blocking pops every ended schedule has finished both sides if and only if no two chunks block each other, the pops ask for no more than is pushed, and at most capacity - 1 bytes are left over |
| `SpscCompletion.FinishedPopsGotTheBytes` | src/concurrency/SPSCQueue.cpp:71-91 | where both sides are finished the pops have received the first bytes of all pushes, in order |
| `SpscCompletion.SmallChunksNeverDeadlock` | src/concurrency/SPSCQueue.cpp:49-91 | lists of which no push chunk and pop chunk together exceed the capacity cannot deadlock |
| `SpscDeadlock.DeadlockIffMismatch` | src/concurrency/SPSCQueue.cpp:49-91 | some lists of requests deadlock on chunks of exactly a and b bytes if and only if a + b exceeds the capacity |
| `SpscDeadlock.MismatchDeadlocks` | src/concurrency/SPSCQueue.cpp:49-91 | for all such a and b, pushes of b - 1 and a bytes against one pop of b bytes deadlock on exactly these chunks |
| `SpscProgress.RemainsGap` | src/concurrency/SPSCQueue.cpp:52-53 | of two sides cutting the same request into chunks, the one ahead is ahead by the other's whole chunk |
| `SpscProgress.NeverBothStarved` | src/concurrency/SPSCQueue.cpp:49-91 | when the k-th pop has the size of the k-th push, the two sides are never both short |
| `SpscWork.WorkIsSpent` | src/concurrency/SPSCQueue.cpp:11-111 | every step other than a spurious wakeup, timeouts and timed pops included, raises a measure of the work done |
| `SpscWork.WorkIsBounded` | src/concurrency/SPSCQueue.cpp:11-111 | whatever is pushed and popped, every schedule does at most 200 steps per byte, 20 per call, 200 more per timed pop and 7 per spurious wakeup |
| `SpscProgress.MatchedQueueDelivers` | src/concurrency/SPSCQueue.cpp:49-91 | with matched sizes every schedule does boundedly much work apart from spurious wakeups, and where it ends both sides are done and the replies are the pushes |
| `SpscText.TextEnvIsMatched` | headers/dataTransfer/TextReceiver.h:37-55 | a receiver that decides by the bytes it got asks for exactly the sizes the sender sends |
| `SpscText.TextsArrive` | headers/dataTransfer/TextSender.h:36-51 | over the queue, for every capacity >= 2 and every list of texts: no deadlock, bounded work, and exactly those texts in order |
| `SpscText.ReceivedTextsAreAPrefix` | headers/concurrency/SPSCQueue.h:61-71 | at any moment of any schedule the texts received are the first ones sent |
| `Framing.ReadFrameUndoesFrame` | headers/dataTransfer/TextReceiver.h:37-55 | receiveText undoes sendText and stops at the end of the frame; a text over the limit is refused with only its length consumed |
| `Framing.FramesRoundTrip` | headers/dataTransfer/TextSender.h:36-51 | a list of texts, empty ones included, comes back from its wire form |
| `Framing.SendBlock` | headers/dataTransfer/TextSender.h:39-49 | the do-while loop sends the whole block once and in order, however few bytes each call moves |
| `Framing.ReceiveBlock` | headers/dataTransfer/TextReceiver.h:40-52 | the do-while loop fills the whole buffer with the next bytes, however few bytes each call moves |
| `Framing.SendText` | headers/dataTransfer/TextSender.h:36-51 | appends the 8-byte length and the text, and returns the text's length |
| `Framing.ReceiveText` | headers/dataTransfer/TextReceiver.h:37-55 | takes one frame off the transport, or only its length when it exceeds maxTextSize |
| `RingBuffer.CopyInSegments` | headers/concurrency/ByteRing.h:136-142 | the two memcpy calls leave the buffer that the byte-by-byte loop leaves |
| `RingBuffer.CopyInModulo` | src/concurrency/SPSCQueue.cpp:59-60 | the modulo loop leaves the same buffer as the two-segment copy |
| `RingBuffer.CopyOutSegments` | headers/concurrency/ByteRing.h:173-178 | the two memcpy calls fill the output as the byte-by-byte loop does |
| `RingBuffer.CopyOutModulo` | src/concurrency/SPSCQueue.cpp:81-82 | the modulo loop fills the output as the two-segment copy does |
| `RingBuffer.BlitPublishes` | headers/concurrency/ByteRing.h:136-151 | copying a chunk behind head and advancing head appends it to the stream |
| `RingBuffer.GatherTakes` | headers/concurrency/ByteRing.h:173-187 | copying from tail yields the next bytes of the stream and releases them |
| `RingBuffer.ByteRing.constructor` | headers/concurrency/ByteRing.h:100-122 | a ring whose capacity passes the checks starts empty and consistent |
| `RingBuffer.CapacityIff` | headers/concurrency/ByteRing.h:104-108 | a ring is set up exactly for capacities of at least 2 that an index word can hold, each other one refused for its reason |
| `RingBuffer.ByteRing.WaitFreeSpace` | headers/concurrency/ByteRing.h:75-87 | returns with a snapshot that really leaves room for the chunk |
| `RingBuffer.ByteRing.WaitElemPresent` | headers/concurrency/ByteRing.h:59-72 | returns with a snapshot behind which the chunk is really published |
| `RingBuffer.ByteRing.Push` | headers/concurrency/ByteRing.h:125-158 | appends the whole request to the stream, larger than the ring or not |
| `RingBuffer.ByteRing.Pop` | headers/concurrency/ByteRing.h:161-194 | fills the caller's buffer with exactly the next bytes of the stream |
| `TaskExecutor.TasksAreConserved` | src/concurrency/TaskExecutor.cpp:7-42 | with any number of clients, accepted tasks are the finished ones, then the running one, then the slot: each starts at most once, in order; between any two moments a task in the slot stays there or is the next started, so none is overwritten; after stop at most the slot's task is left out |
| `TaskNotify.CanForgetIff` | src/concurrency/TaskExecutor.cpp:67-76 | with a given set of clients some schedule leaves an accepted task in the slot with the worker asleep and nobody to notify it, if and only if there are at least two clients |
| `TaskNotify.SubmitsOneAtATimeAreNoticed` | src/concurrency/TaskExecutor.cpp:67-76 | for any number of clients, as long as at most one at a time is inside a submit, a worker asleep on a full slot always has a notification coming |
| `TaskNotify.NotifyOneCanMissTheWorker` | src/concurrency/TaskExecutor.cpp:67-76 | any two clients, whatever others there are and whatever the tasks, can leave a task forgotten with nothing able to move |
| `TaskNotify.ForgottenIsNeverStarted` | src/concurrency/TaskExecutor.cpp:12-19 | over the whole rest of any run, whatever is called, the destructor included, a forgotten task stays in the slot and the worker starts nothing, unless it wakes up spuriously before the stop flag is set |
| `TaskStop.DestructorReturns` | src/concurrency/TaskExecutor.cpp:52-59 | when nothing but new calls and spurious wakeups is left, nobody is inside the destructor |
| `TaskStop.IdleClientCanCall` | src/concurrency/TaskExecutor.cpp:52-76 | outside its calls a client can submit, wait, or begin the destructor in any state |
| `TaskStop.StopEndsTheWorker` | src/concurrency/TaskExecutor.cpp:12-19 | after the stop flag is set the worker takes at most four steps and starts no task |
| `TaskStop.StopWakesEverybody` | src/concurrency/TaskExecutor.cpp:57 | the destructor's notification leaves neither the worker nor any submitter asleep |
| `TaskStop.CallTakesFewSteps` | src/concurrency/TaskExecutor.cpp:52-76 | inside a call, the destructor included, a client takes at most 3 steps of its own and 2 more per wakeup |
| `TaskStop.WorkerTakesFewSteps` | src/concurrency/TaskExecutor.cpp:7-42 | the worker takes at most 5 steps per task, one per wakeup, and one more |
| `TaskClient.NextKeepsClientInv` | src/concurrency/TaskExecutor.cpp:7-76 | every step of a client whose calls are orderly keeps track of where its last task is and who owes whom a notify |
| `TaskClient.OrderlyClientIsServed` | src/concurrency/TaskExecutor.cpp:61-76 | a client without misused calls (one that alternates submit and wait among them) never finds the slot full, gets from each wait DONE iff its last task returned and DONE_WITH_ERRORS iff it threw anything, with the stored exception there iff that task threw one, and no sleeper is without its notifier |
| `TaskClient.AlternationIsOrderly` | src/concurrency/TaskExecutor.cpp:61-76 | alternating submit and wait over any list of non-empty tasks misuses no call |
| `TaskClient.OrderlyClientNeverHangs` | src/concurrency/TaskExecutor.cpp:61-76 | such a client is never left inside a call when nothing but spurious wakeups can happen |
| `TaskClient.CanHangIffMisused` | src/concurrency/TaskExecutor.cpp:7-76 | some schedule leaves a client with this list of calls hanging in one of them if and only if a submit comes right behind a submit, or a wait has no earlier submit or comes behind the submit of an empty task |
| `TaskClient.BackToBackSubmitCanStrand` | src/concurrency/TaskExecutor.cpp:67-76 | behind any calls whose waits have a task to wait for, two submits in a row can leave the client asleep on a free slot with the worker asleep |
| `TaskClient.WaitOnNothingNeverReturns` | src/concurrency/TaskExecutor.cpp:61-65 | behind any orderly calls, a wait with no task to wait for returns in no run |
| `TaskAnswers.CanAnswerLateIff` | src/concurrency/TaskExecutor.cpp:35-39 | some schedule answers a wait of this list of calls while an accepted task is unfinished if and only if one of the calls is a wait whose last submit comes right behind the submit of a non-empty task, and every wait before it has a task to wait for |
| `TaskAnswers.PromptAnswersAreRight` | src/concurrency/TaskExecutor.cpp:21-42 | on every list without such a call, back-to-back submits and empty tasks included, each wait that is answered has all tasks finished and answers DONE iff the last one returned and DONE_WITH_ERRORS iff it threw anything |
| `TaskAnswers.NextKeepsRecord` | src/concurrency/TaskExecutor.cpp:15-38 | with any number of clients every step keeps: a completion on record is the outcome of the task finished last |
| `TaskAnswers.LateDoneAnswersTheWrongTask` | src/concurrency/TaskExecutor.cpp:35-39 | behind any calls whose waits have a task to wait for, a wait after two submits can return the outcome of the first while the second is still in the slot |
| `Rpc.DecodeUndoesEncode` | headers/rpc/RpcCommon.h:103-110 | deserializing the packed header gives back every field |
| `Rpc.EncodeUndoesDecode` | headers/rpc/RpcCommon.h:47-73 | every 57 bytes are the picture of exactly one header |
| `Rpc.HeaderLayout` | headers/rpc/RpcCommon.h:47-73 | the magic is in bytes 0-3, the function id in 4-7, the six sizes in 8-55 and the count in byte 56, little-endian and without padding |
| `Rpc.Build` | headers/rpc/RerBuilding.h:18-44 | the header lists the argument sizes in order and the dump is the concatenated arguments |
| `Rpc.RpcClient.SendExeRequest` | src/rpc/RpcClient.cpp:14-19 | header and dump leave in one send, in this order |
| `Rpc.DispatchIff` | headers/rpc/RpcCommon.h:90-101 | a built request is dispatched iff it has at most 5 parameters and a registered id, with exactly its header and dump; otherwise the stream stays aligned iff the dump is empty |
| `Rpc.RoundIff` | src/rpc/RpcServer.cpp:39-76 | on any input at all the round is closed iff there is no header; refused for integrity iff the header does not begin with EF BE AD DE or counts 6 or more; else refused for its id or for cut-off parameters, or served with exactly its parameters |
| `Rpc.IntegrityIff` | headers/rpc/RpcCommon.h:99-101 | any 57 bytes pass the check iff they begin with EF BE AD DE and end with a count below 6 |
| `Rpc.CutRequest` | src/rpc/RpcServer.cpp:41-66 | a request cut off inside its header closes, and cut off inside its dump is refused for its parameters |
| `Rpc.ServerAnswersCallsInOrder` | src/rpc/RpcServer.cpp:39-84 | for every list of calls of which each is dispatchable, or refused with an empty dump by a handler that goes on, the server does one round per call it finds the connection open for, in order, serving or refusing each for its reason |
| `Rpc.ServerServesCallsInOrder` | src/rpc/RpcServer.cpp:39-84 | every list of dispatchable calls the server finds the connection open for is served once each, in order, with the stream used up; it stops there when it then finds the connection closed, or a cut-off request behind them closes it |
| `Rpc.CallAndServe` | src/rpc/RpcClient.cpp:14-19 | what a client sends for a list of dispatchable calls makes the server loop answer all of them, in order |
| `Rpc.CallOneByOne` | src/rpc/RpcClient.cpp:14-24 | a client that waits for each reply before its next call gets, for each, exactly the reply to that call |
| `Rpc.RepliesInOrder` | src/rpc/RpcServer.cpp:69-73 | the replies go out in the order of the calls |
| `Rpc.RefusedDumpIsServedAsCalls` | src/rpc/RpcServer.cpp:46-54 | when the handler answers true to a refusal and the refused dump is the wire form of calls, the server serves these calls, which nobody made, before the ones behind |
| `Rpc.RefusalEndsTheRun` | src/rpc/RpcServer.cpp:78-84 | a refused call whose handler throws, or answers false, ends the run right there: the calls before it have had their rounds, its dump and everything behind are unread |
| `Rpc.RegisteredFunctionServes` | src/rpc/RpcServer.cpp:35-37 | after registering, every built call with that id and at most 5 parameters is served by this function with its header and dump, and the rounds of all other calls are unchanged |
| `Rpc.RpcServer.OneShot` | src/rpc/RpcServer.cpp:39-76 | one round consumes, answers or refuses as the round's specification says |
| `Rpc.RpcServer.Run` | src/rpc/RpcServer.cpp:78-84 | the loop asks for the connection before each round, does the rounds of the whole-stream specification and sends their replies in order |
| `MemoryStream.PutPut` | headers/stream/MemoryStream.h:41-46 | two writes in a row leave what one write of both leaves, even when they do not fit |
| `MemoryStream.TakeTake` | headers/stream/MemoryStream.h:48-53 | two reads in a row leave what one read over both destinations leaves |
| `MemoryStream.MemoryStreamBuf.Xsputn` | headers/stream/MemoryStream.h:41-46 | writes what fits at the position, nothing else, and advances by it |
| `MemoryStream.MemoryStreamBuf.Xsgetn` | headers/stream/MemoryStream.h:48-53 | reads what is left, leaves the rest of the destination, and advances by it |
| `BinaryCodec.PutValueIsOneWrite` | headers/serialization/Binary.h:75-101 | serializing leaf by leaf is one write of the whole encoding, however short the buffer is |
| `BinaryCodec.TakeValueIsOneRead` | headers/serialization/Binary.h:117-143 | deserializing leaf by leaf is one read over the whole memory of the target, which keeps its type |
| `BinaryCodec.EncodeInjective` | headers/serialization/Binary.h:31-34 | within one type the bytes determine the value |
| `BinaryCodec.SerializeFillsBuffer` | headers/serialization/Binary.h:106-112 | the buffer ends up with exactly the first bufferSize bytes of the encoding, or all of it with the rest untouched, and the stream is good iff it fits |
| `BinaryCodec.RoundTrip` | headers/serialization/Binary.h:75-154 | deserialize undoes serialize for every nested value and any target of its type, and both end at the same position |
| `BinaryCodec.TruncatedInput` | headers/serialization/Binary.h:148-154 | a cut-off encoding overwrites the front of the target's memory and leaves the rest at its old value |
| `BinaryCodec.BinarySerialize` | headers/serialization/Binary.h:75-101 | the recursion on the stream object does what the specification recursion does |
| `BinaryCodec.BinaryDeserialize` | headers/serialization/Binary.h:117-143 | the recursion returns the specified value and leaves the stream as specified |
| `BinaryCodec.SerializeToBuffer` | headers/serialization/Binary.h:106-112 | returns the encoding's length when it fits, and -1 as a size_t with the buffer full when it does not |

## Left out

- InterprocessSignal, Futex and InterprocessQueue: operating-system primitives and memory mapping. ByteRing's safety is proved for any wait policy, so it covers them; wakeup claims are made for Signal only, since the POSIX branch keeps no sticky flag.
- Weak memory orders: acquire, release and relaxed accesses are sequentially consistent steps.
- Real time: timeouts are free choices, so nothing is said about durations.
- RingBuffer.ByteRing.constructor: leaves out capacities above half the index word, on which the index update goes wrong (`IndexUpdateExact`).
- RingBuffer.ByteRing.WaitFreeSpace: here the consumer only moves while the producer waits and every wait makes progress; arbitrary interleavings and spurious waits are in ByteRingProtocol, without the array.
- RingBuffer.ByteRing.WaitElemPresent: likewise for the producer.
- RingBuffer.ByteRing.Push: likewise; its waits are WaitFreeSpace's.
- RingBuffer.ByteRing.Pop: likewise; its waits are WaitElemPresent's, and the bytes must be sent at some time.
- Framing.SendBlock: a sender that keeps moving no byte is not covered; the code then loops forever.
- Framing.ReceiveBlock: requires that the peer sends the bytes at some time, before or during the call; otherwise the code waits forever.
- Framing.ReceiveText: likewise for the whole frame.
- BinaryCodec.RoundTrip: leaves are their memory bytes; the meaning of floating-point or padded bytes is the machine's.
- ObjectSender and ObjectReceiver: the same two loops as the text classes, with a caller's buffer.
- TaskClient.OrderlyClientIsServed: no destructor among the calls; getLastTaskException reads without the lock and is not modelled beyond whether an exception is stored; submitTask and futures are object lifetimes, not protocol.
- Rpc.CallOneByOne: the reply counts as received whole; the receive by the result type's size, and typed arguments and results (their evaluation order is unspecified), are left out.
- toBinary and fromBinary for members that are neither fundamental nor have properties: declared, not defined.
- Sockets, pipes, serial ports, files, dynamic libraries, cryptography, MultiLock, Numbers and Semaphore: foreign calls or short facts that would only add easy members.
