# POSIX programming exercises: a model and its proofs

The repository holds C exercises on POSIX inter-process communication. This project models the
ones that carry state and proves what they promise, for any number of processes, any capacity
and every run.

- **Message queue** (TME10-11): POSIX message queues rebuilt over a shared segment, after
  `mq_send()` and `mq_receive()` in IEEE Std 1003.1-2008, System Interfaces, chapter 3. `Messages`,
  `Slots` and `SequentialQueue` say what a bounded priority queue is. `MessageQueue` is the segment
  updated in place by one caller at a time. `QueueProtocol` is the step relation of any number of
  senders and receivers with program counters, a call being six steps; `QueueTokens`,
  `QueueDeadlock`, `QueueHistory`, `QueueOrder`, `QueueRefinement`, `QueueRange`, `QueueTheorems`,
  `QueueLate`, `QueueRuns`, `QueueFinish`, `QueueNonBlocking` and `QueueRefusals` prove its
  properties. `QueueSplit` takes the steps apart at every access to the shared count: a store
  searches, tests, moves and writes, reading the count each time, and a count is read and then
  written back.
  `QueueExclusive`, `QueueReduce`, `QueueExpand` and `QueueProgress` relate the two, and
  `QueueRepairs`, `QueueRace`, `QueueOnlySends` and `QueueLowered` say what holds of the split steps.
- **Conversion service** (TME9): `Converters` holds the conversions and the plain loop of TME8,
  `ConversionService` the server, its forked children and any number of clients;
  `ConversionTokens`, `ConversionAnswers` and `ConversionTheorems` prove its properties.
- **List, stacks and queue** (TME1): `LinkedList` and `StacksAndQueue`.
- **Indexed file** (TME7): `Records`, `IndexedFile`, `RecordPrograms` and `Reindex`.
- **Signal barrier** (TME5): `Barrier`, for n children with one signal each.
- **Hand-off of words** (TME9): `HandOff`.

`Runs`, `Totals` and `Options` are shared by the models.

## Where the code departs from its intent

The message queue as written does not do what `mq_send()` and `mq_receive()` promise. Its step
relation therefore takes a `Config` with three repairs, each on or off, and `Config(false, false,
false)` is the code as it stands:

- `tokenFirst`: the slot or message semaphore is waited on before the mutex. The code waits on it
  while holding the mutex (`TME10-11/src/myqueue.c:180`, `:210`, `:266`, `:290`), and the author's
  comment at `:266` says that this deadlocks. `DeadlockPossible` says exactly when.
- `countInside`: the count goes up before the mutex is released, not after it (`:245-252`).
- `fullShift`: the shift at `:240` moves the `cur - i` messages behind the insertion point, not
  `cur - (i + 1)`. `WrittenStoreInserts` says exactly when the shorter move does no harm.

What the code keeps and loses is stated for each system of processes and each `Config`, of the
split steps:

- `SplitDeadlockPossible`: which systems can get stuck, the same as with whole steps
  (`DeadlockPossible`). Progress rests on the first repair; `FinishPossible` says which systems have
  a run that makes every call, in either lock order.
- `ExclusiveExactly` and `CountExactly`: in which systems no call is at the count or the array while
  another one is, and in which the count agrees with the semaphores in every run. Both are those
  whose count is safe (`CountSafe`): it is raised inside, or nothing is sent, or nothing is received
  and one process at most ever gets to raise it. There steps may be taken as one (`Reduce`), so
  that what is proved of whole steps with the count inside holds of split ones.
- `RangeExactly`: which systems never reach outside the array, whatever the messages
  (`RangeSafe`). Without the second repair nothing may be sent, or nothing received and the slots or
  the messages beside each sender's own must be few: a count written back late can be lower than the
  one that a store has tested, and the move at `:240` then has a negative size. `LateCountTurnsBack`
  builds such runs.
- `SoundExactly`: which systems stay inside the array and, whenever no call is under way, have the
  contents that the history says, in every run and whatever the array held at the start. The count
  has to be safe, and stores have to be in place (`StoresInPlace`: the full shift, or no message that
  can still be in the queue when one of higher priority is stored, `Ascends`). `ServesFromZeros` is
  the same for the zeros of a new segment (`:18`).
- `AsWrittenExactly` puts these together for the code as it stands.
- `RangeKeptExactly` and `HistoryKeptExactly` draw the conclusion for all systems at once.

Each failing half is a run built for any system that does not meet the condition:
`ShortShiftLoses`, `LateCountLoses`, `LateCountLeavesArray`, `ManyTurnBack`.

With O_NONBLOCK a sender compares the count with the capacity under the mutex (`:190`).
`NonBlockingExactly` shows that it then never waits for a slot exactly when the count is raised
inside: with the late count it can pass the test on a full array and wait with the mutex taken. A
refused message leaves no trace (`TestOutcome`), and every message is stored, refused or unsent, in
order (`EveryMessageAccounted`).
`mq_receive` never looks at the flag and blocks on an empty queue all the same (`:258-290`).

The class `Queue` has the shift, and the missing release of the mutex on the short-buffer return
(`:271-274`), as switches too. A queue that such a return has locked answers every later call with
`Blocked`. The length check compares with the number of slots, as the code does at `:185`; both
limits are 32 there.

In the list, extraction as written never lowers the size, keeps links to the freed cell, leaves
head and tail on the last cell, and reads the content after freeing it
(`TME1/src/list_impl.c:28-51`). `ExtractHead` and `ExtractTail` are the intent of
`TME1/include/list.h:31-35`; `ExtractHeadAsWritten` and `ExtractTailAsWritten` show that the written
ones leave every list broken.

The search buffer at `TME7/src/ficindex_enonce.c:76` has the size of an `int`. `Search` takes its
size as it comes and says when a read overruns it: on a well-formed file, exactly when a record is
left and longer than the buffer (`SearchRecords`). `TME7/README:37` calls `indxchg` unfinished. The
model follows its code, which keeps the contract of its header file on files of whole records;
`RecopyCount` says what it does with a last record that is cut short.

A conversion request in an unknown currency ends the child that handles it while the child holds
the inner semaphore. `EndsDoneExactly` shows that the service then never answers anybody again.

## Model

| member | source | states |
|---|---|---|
| Messages.InsertIsStable | TME10-11/src/myqueue.c:228-243 | a message goes behind those of equal or higher priority: its own class grows at the end, the others stay as they are |
| Messages.InsertKeepsSorted | TME10-11/src/myqueue.c:233-242 | the queue stays in descending priority |
| Messages.StableSortUnique | TME10-11/src/myqueue.c:234 | descending priority and arrival order per priority determine the queue |
| Messages.HeadIsOldestOfHighest | TME10-11/src/myqueue.c:303-306 | the first message has the highest priority and is the oldest of it |
| Slots.FullStoreInserts | TME10-11/src/myqueue.c:239-242 | the full shift and the store insert in the array, and leave the rest of it alone |
| Slots.WrittenStoreInserts | TME10-11/src/myqueue.c:240 | the shift as written inserts if and only if no message has a lower priority or the slot behind the queue equals the last message |
| Slots.WrittenStoreDropsLast | TME10-11/src/myqueue.c:240 | when a message does not go last, the shift as written leaves the insertion without its last message, and the slot behind the queue as it was |
| Slots.WrittenStoreAfterDeletion | TME10-11/src/myqueue.c:240 | the first send after a receive that left a message is right even as written |
| SequentialQueue.ReplaySorted | TME10-11/src/myqueue.c:228-243 | a legal history leaves a sorted queue within its capacity |
| SequentialQueue.ReplayConserves | TME10-11/src/myqueue.c:228-315 | inserted messages are, as a multiset, the removed ones and the queue |
| SequentialQueue.ReplayFifo | TME10-11/src/myqueue.c:228-315 | per priority, inserted messages are the removed ones followed by the queue, in order |
| SequentialQueue.InsertAllSorts | TME10-11/src/myqueue.c:228-243 | inserting a list into an empty queue yields its stable descending sort |
| MessageQueue.Queue.constructor | TME10-11/src/myqueue.c:30-59 | an opened queue is empty, with one mutex token, as many slot tokens as slots, and the non-blocking flag it was opened with |
| MessageQueue.Queue.SetAttr | TME10-11/src/myqueue.c:162 | the non-blocking flag can be set and never cleared |
| MessageQueue.Queue.FindPlace | TME10-11/src/myqueue.c:233-237 | the search stops at the insertion point |
| MessageQueue.Queue.Store | TME10-11/src/myqueue.c:228-243 | search, in-place shift and store make exactly the array of the step relation |
| MessageQueue.Queue.Send | TME10-11/src/myqueue.c:172-256 | when a send is refused, blocks or succeeds, the queue, semaphores and mutex after each, and that the array changes in the queue and its next slot at most, and only by a send that succeeds |
| MessageQueue.Queue.Receive | TME10-11/src/myqueue.c:258-325 | when a receive is refused, blocks or succeeds, what it returns, that a short buffer leaves the mutex taken unless repaired, and that every slot behind the remaining queue stays as it was |
| MessageQueue.Queue.ReceiveThenSend | TME10-11/src/myqueue.c:228-315 | a receive that leaves a message, then a send: the message is inserted into the rest of the queue, even with the shift as written |
| MessageQueue.Queue.SendAllThenReceiveAll | TME10-11/src/test1_myqueue.c:20-33 | sending any list that fits and receiving it all yields its stable descending sort |
| QueueTokens.TokensRun | TME10-11/src/myqueue.c:43-56 | in every run the mutex is in one place, and slot tokens, message tokens and calls between their two semaphore operations add up to the capacity |
| QueueTokens.MutualExclusion | TME10-11/src/myqueue.c:180-245 | at most one call is inside, and the mutex is then taken |
| QueueTokens.RunLength | TME10-11/src/myqueue.c:172-325 | every step lowers the number of steps left by one |
| QueueDeadlock.DeadlockExactly | TME10-11/src/myqueue.c:266 | with the written lock order a reachable state is stuck with calls left if and only if the holder of the mutex waits for a missing token and no count is pending |
| QueueDeadlock.BlockedForever | TME10-11/src/myqueue.c:210 | once the holder waits this way no later step frees it or changes the messages |
| QueueDeadlock.StuckIsFinished | TME10-11/src/myqueue.c:210-221 | with tokens first, a run that can go no further has finished every call if and only if sends minus receives lie between 0 and the capacity |
| QueueDeadlock.DeadlockPossible | TME10-11/src/myqueue.c:180-290 | for each lock order, the exact systems of processes that can get stuck |
| QueueProgress.SplitDeadlockPossible | TME10-11/src/myqueue.c:180-317 | the same systems can get stuck when every access to the count is a step of its own |
| QueueFinish.FinishPossible | TME10-11/src/myqueue.c:180-317 | in either lock order a run that makes every call exists if and only if sends minus receives lie between 0 and the capacity; with tokens first these are the systems that cannot get stuck |
| QueueDeadlock.BalancedRunsFinish | TME10-11/src/test1_myqueue.c:20-37 | n sends and n receives with tokens first: runs have at most 12 n steps, are stuck if and only if they have that many, and then everything is finished and every slot free |
| QueueHistory.HistoryIsReal | TME10-11/src/myqueue.c:223-306 | with or without repairs, the history is what each process was given to send and has returned, in its own order |
| QueueHistory.WhoStored | TME10-11/src/myqueue.c:223-243 | every message ever stored is one that some sender was given, and that sender has got that far in its list |
| QueueOrder.GoesLast | TME10-11/src/myqueue.c:233-240 | in a system without ascents, whatever the repairs, a message that is stored finds no lower priority in the queue |
| QueueRefinement.RefinesStep | TME10-11/src/myqueue.c:228-317 | with the count inside and a store in place, a store inserts into the abstract queue when there is room, a take removes its head and returns it, and every other step leaves it alone |
| QueueRefinement.RunRefines | TME10-11/src/myqueue.c:180-317 | with the count inside and stores in place, every run, in either lock order, has a legal history of the sequential queue, which the array and the count represent |
| QueueTheorems.FifoPerPriority | TME10-11/src/myqueue.c:228-315 | per priority, what was received is a prefix of what was sent, and between calls the rest is in the array |
| QueueTheorems.NothingLost | TME10-11/src/myqueue.c:228-315 | between calls the array is sorted, and it and what was received are what was stored |
| QueueTheorems.TakesOldestOfHighest | TME10-11/src/myqueue.c:303-310 | a receive returns the oldest message of the highest priority present, whatever runs beside it |
| QueueTheorems.EverythingDelivered | TME10-11/src/test1_myqueue.c:20-37 | with tokens first, the count inside, stores in place and as many receives as sends, the receivers end with exactly the messages the senders were given |
| QueueExclusive.ExclusiveExactly | TME10-11/src/myqueue.c:180-317 | in every run one call at most is at the count or the array if and only if the count is safe |
| QueueReduce.Reduce | TME10-11/src/myqueue.c:223-315 | where the count is safe every run of the split steps is one of whole steps, with those under way not yet made |
| QueueExpand.Expand | TME10-11/src/myqueue.c:223-315 | every run of whole steps is one of split steps, unless that one leaves the array on the way |
| QueueRace.CountExactly | TME10-11/src/myqueue.c:245-252 | the count with the stores not yet counted agrees with the message tokens in every run if and only if it is safe |
| QueueRace.SemaphoresCount | TME10-11/src/myqueue.c:49-56 | where the count is safe and the mutex free, the two semaphores, with the tokens held by waiting callers, count messages and empty slots, less the stores not counted; with the count inside there are none of these, with the written lock order no such callers |
| QueueOnlySends.LowRun | TME10-11/src/myqueue.c:233-252 | in systems that only send, with updates lost and counts written back late, the count is at least 1 once a store is counted and never more than the stores counted |
| QueueLate.LateCountFaithful | TME10-11/src/myqueue.c:228-252 | with the late count, when nobody receives and there is one slot or one sender, and stores are in place, the contents between calls are those of the history |
| QueueRepairs.ShortShiftLoses | TME10-11/src/myqueue.c:240 | without the full shift every system with an ascent has a run that loses a message |
| QueueRepairs.LateCountLoses | TME10-11/src/myqueue.c:245-252 | without the count under the mutex any two senders have a run in which both store in the first slot and a message is lost |
| QueueRepairs.LateCountLeavesArray | TME10-11/src/myqueue.c:310-315 | without the count under the mutex every system that sends and receives has a run that moves messages with a negative count |
| QueueRepairs.RangeWithReceives | TME10-11/src/myqueue.c:240-315 | a system that receives stays inside the array in every run if and only if the count is inside or nothing is sent |
| QueueLowered.LateCountTurnsBack | TME10-11/src/myqueue.c:233-252 | a sender that writes the count back late turns back another one between the test and the size of its move, which then is negative |
| QueueLowered.RangeExactly | TME10-11/src/myqueue.c:228-317 | for every system and all repairs: whatever the messages and the array, no run reaches outside it if and only if the count is inside, or nothing is sent, or nothing is received and there are few slots or few messages beside each sender's own |
| QueueRepairs.SoundExactly | TME10-11/src/myqueue.c:228-317 | for each system and all repairs: every run, from any array, stays inside it and between calls leaves the contents of its history if and only if the count is safe and stores are in place |
| QueueRepairs.ServesFromZeros | TME10-11/src/myqueue.c:18-59 | the same from the zeros of a new segment, for processes that do not send the zero message |
| QueueRepairs.AsWrittenExactly | TME10-11/src/myqueue.c:172-325 | the systems that the code as it stands serves rightly without ever getting stuck: no receives, all messages fit, one slot or one sender, no ascent |
| QueueRepairs.SingleSlotFaithful | TME10-11/src/myqueue.c:228-317 | with one slot the contents between calls are those of the history wherever the count is safe |
| QueueRepairs.RangeKeptExactly | TME10-11/src/myqueue.c:245-252 | for every capacity, no run of any system moves memory outside the array if and only if the count is raised under the mutex |
| QueueRepairs.HistoryKeptExactly | TME10-11/src/myqueue.c:240-252 | for every capacity, all systems stay inside the array and keep it true to the history if and only if the count is inside and the shift is full or there is one slot |
| QueueNonBlocking.TestIsExact | TME10-11/src/myqueue.c:190-210 | with the count inside, a non-blocking sender is refused exactly when there is no slot token |
| QueueNonBlocking.NonBlockingExactly | TME10-11/src/myqueue.c:190-210 | for every capacity, no non-blocking sender that has passed its test ever waits if and only if the count is raised under the mutex |
| QueueRefusals.TestOutcome | TME10-11/src/myqueue.c:190-193 | a refused send releases the mutex and drops its own message, a send that passes keeps the mutex; neither changes the array, count, tokens, history or another process |
| QueueRefusals.EveryMessageAccounted | TME10-11/src/myqueue.c:190-252 | in every run with non-blocking senders each list is, in order, what was stored and what was refused, and then what is unsent; receivers return what they took |
| QueueRefusals.NbRunRefines | TME10-11/src/myqueue.c:190-315 | with the count inside and stores in place, every run with non-blocking senders has a legal history of the sequential queue, which the array and the count represent |
| QueueRefusals.AcceptedIsKept | TME10-11/src/myqueue.c:190-315 | whatever is refused, no accepted message is lost, duplicated or out of order |
| Converters.AnswerExactly | TME9/src/converters.c:9-73 | converter i answers in the i-th currency, at the ratio of the two rates of the header file |
| Converters.ThereAndBack | TME9/src/converters.c:47-49 | an answer in the request's own currency is the request, and converting an answer back gives the request |
| Converters.ServableExactly | TME9/src/converters.c:9-62 | five converters answer exactly the requests in one of the five currencies |
| Converters.TableExactly | TME8/src/conversion_server.c:62-63 | the loop's table is the converters' answers in their order |
| Converters.Serve | TME8/src/conversion_server.c:62-63 | the plain loop makes that table, or stops at the first converter without an answer |
| ConversionTokens.TokensRun | TME9/src/multi_converter.c:95-117 | client semaphore, server semaphore, clients in a section and the server's round add up to one, and so do the inner semaphores with father and child |
| ConversionTokens.OneHolder | TME9/src/conversion_client.c:45-70 | one party at most holds the exchange segment |
| ConversionTokens.FatherAndChild | TME9/src/multi_converter.c:128-161 | father and child are never both between wait and post |
| ConversionAnswers.InvRun | TME9/src/multi_converter.c:121-167 | in every run the segment holds the last writer's request, and once a round is served its answer |
| ConversionTheorems.DisplayIsAnAnswer | TME9/src/conversion_client.c:60-70 | what a client shows is some client's request with the loop's table for it, after a round was served |
| ConversionTheorems.RoundRefinesLoop | TME9/src/multi_converter.c:128-161 | before round i the first i rows are the plain loop's on an unchanged request |
| ConversionTheorems.OwnAnswerExactly | TME9/src/conversion_client.c:45-70 | from its post on, a client is shown its own request if and only if no other client enters before it takes the semaphore back |
| ConversionTheorems.StepsBounded | TME9/src/multi_converter.c:121-167 | with n converters every run has at most 8 n + 9 steps for each client |
| ConversionTheorems.EndsDoneExactly | TME9/src/converters.c:19-23 | a run that can go no further has answered every client if and only if every currency asked for is known to all converters, and otherwise a child has exited with the token |
| ConversionTheorems.ServiceComesToAnEnd | TME9/src/multi_converter.c:121-167 | every system has a run that can go no further, and it has answered everybody if and only if all currencies are known |
| LinkedList.List.InsertHead | TME1/src/list_impl.c:13-25 | a new first element, on a list that stays linked both ways with the right size |
| LinkedList.List.ExtractHead | TME1/src/list_impl.c:28-38 | the intent: the first element leaves and the list stays well formed |
| LinkedList.List.ExtractTail | TME1/src/list_impl.c:41-51 | the intent: the last element leaves and the list stays well formed |
| LinkedList.List.CountCells | TME1/src/list_impl.c:55-65 | the traversal counts what the cached size says |
| LinkedList.List.ExtractHeadAsWritten | TME1/src/list_impl.c:28-38 | as written, for every list: the size is wrong and a freed cell stays linked |
| LinkedList.List.ExtractTailAsWritten | TME1/src/list_impl.c:41-51 | as written, for every list: the size is wrong and a freed cell stays linked |
| StacksAndQueue.SameStackExactly | TME1/include/stack.h:10-19 | without a pop of an empty stack, both stacks show the same pops and sizes if and only if nothing is pushed onto a full array |
| StacksAndQueue.RunListStack | TME1/src/stack_list.c:9-28 | a program on the heap list sees what the unbounded stack shows |
| StacksAndQueue.RunArrayStack | TME1/src/stack_array.c:12-48 | a program on the array sees what the bounded stack shows |
| StacksAndQueue.ArrayStack.Push | TME1/src/stack_array.c:24-31 | a push is refused on a full stack and otherwise goes on top |
| StacksAndQueue.ArrayStack.Pop | TME1/src/stack_array.c:35-42 | a pop yields the top, or nothing of an empty stack |
| StacksAndQueue.RunQueue | TME1/src/fifo_list.c:15-23 | what has left the queue and what is in it, oldest first, are what came, in order |
| Records.EncodeDigits | TME7/src/ficindex_enonce.c:14 | the header holds the record size to the base 256, the low digit first |
| Records.DecodeEncode | TME7/src/ficindex_enonce.c:11-15 | a record size written to the header is read back |
| Records.EncodeDecode | TME7/src/ficindex_enonce.c:11-12 | any header is that of the size read from it |
| Records.SplitJoin | TME7/src/ficindex_enonce.c:66-73 | records laid end to end are found again |
| Records.RecordAt | TME7/src/ficindex_enonce.c:69 | record i lies i record sizes after the header |
| IndexedFile.OverwriteAt | TME7/src/ficindex_enonce.c:50-63 | a write changes the bytes it covers and no others, and fills a gap behind the end with zeros |
| IndexedFile.OverwriteRecord | TME7/src/ficindex_enonce.c:50-63 | a write at record i replaces it and nothing else |
| IndexedFile.AppendRecord | TME7/src/ficindex_enonce.c:50-63 | a write at the end adds a record |
| IndexedFile.File.Open | TME7/src/ficindex_enonce.c:7-26 | an empty file gets its header; another one keeps its bytes and the size in its header, of which a file of one to three bytes gives the first bytes only |
| IndexedFile.File.Read | TME7/src/ficindex_enonce.c:34-47 | what is read, where the cursor goes, and when the count is refused |
| IndexedFile.File.Write | TME7/src/ficindex_enonce.c:50-63 | what is written, where the cursor goes, and when the count is refused |
| IndexedFile.File.Seek | TME7/src/ficindex_enonce.c:66-72 | a move lands on a record if and only if that record is not before the first, and otherwise ends in the header or fails |
| IndexedFile.File.WriteThenRead | TME7/src/ficindex_enonce.c:34-72 | records behave as an array, and the header never changes |
| IndexedFile.File.Append | TME7/src/ficindex_enonce.c:50-72 | a record written at the end is added to the array |
| IndexedFile.ScanFinds | TME7/src/ficindex_enonce.c:79-86 | the loop yields the first content of its buffer that matches, after as many reads as it takes, and nothing exactly when none does, having read to the end |
| IndexedFile.FetchedCut | TME7/src/ficindex_enonce.c:75-86 | a last record that is cut short is compared in a buffer that goes on as the record before it does |
| IndexedFile.File.Search | TME7/src/ficindex_enonce.c:75-87 | on any file from any place: the loop's result and the bytes it reads, when a read overruns the buffer, and nothing for a negative size; a search without result ends at the end of the file |
| IndexedFile.File.SearchRecords | TME7/src/ficindex_enonce.c:75-87 | on a well-formed file the search overruns if and only if a record is left and longer than the buffer; with a buffer of the record size it finds the first match from the cursor on and stops behind it, or nothing exactly when none is left, and stops behind the last record |
| RecordPrograms.RunProgram | TME7/src/ficindex_enonce.c:34-72 | a program of record moves, reads and writes, of one or more records each, sees what an array with a cursor shows, growing with zeros where it is written behind its end, and leaves the header alone |
| RecordPrograms.LongRecordsOk | TME7/src/ficindex_enonce.c:66-72 | with records longer than the header every program of whole-record writes is such a program |
| RecordPrograms.WriteAll | TME7/src/ficindex_enonce.c:50-63 | a write of several records at any record boundary replaces, appends, or leaves records of zeros before what it appends |
| Reindex.Indxchg | TME7/src/ficindex_enonce.c:90-128 | the loop over the two files writes a header that is read back as the new size and the recopied bytes, on files with or without a cut last record; a negative old size fails at once, and a new size that is negative as an int as soon as there is something to copy |
| Reindex.IndxchgWhole | TME7/include/ficindex_enonce.h:74-87 | on a well-formed file the new one is well formed, with the new size and as many records, each cut short or filled up |
| Reindex.ReindexRecords | TME7/include/ficindex_enonce.h:74-87 | count and order of records are kept, and each starts with the first bytes of its old one |
| Reindex.NarrowTwice | TME7/include/ficindex_enonce.h:80 | narrowing in two steps is narrowing in one |
| Reindex.ThereAndBackExactly | TME7/src/ficindex_enonce.c:104-122 | another size and back restores the file if and only if the size did not shrink or the lost bytes were in the second buffer |
| Reindex.RecopyCount | TME7/src/ficindex_enonce.c:109-122 | the count is kept exactly on whole files; a cut last record becomes one more |
| Reindex.RecopyCut | TME7/src/ficindex_enonce.c:109-122 | a cut last record becomes one that goes on as the record before it does |
| Barrier.NobodyStartsEarly | TME5/synchro3.c:51-73 | nobody computes a second time before all have computed once |
| Barrier.NoSignalLost | TME5/synchro3.c:55-68 | no signal is sent while it is pending where it goes |
| Barrier.StepsMade | TME5/synchro3.c:48-75 | every step is one of a fixed number |
| Barrier.EveryoneEnds | TME5/synchro3.c:55-75 | a run that can go no further has ended in every process |
| Barrier.BarrierEnds | TME5/synchro3.c:48-75 | there is a run in which all processes meet and end |
| HandOff.Capitalize | TME9/src/capitalize.c:105-108 | the in-place loop makes the capitals of the buffer |
| HandOff.UpperExactly | TME9/src/capitalize.c:105-108 | every lowercase letter becomes the capital of the same place in the alphabet, nothing else changes, and a second time changes nothing |
| HandOff.LogIsUpper | TME9/src/capitalize.c:71-116 | the printed words are the words read, in order and in capitals, at most one behind; exactly one process can step |
| HandOff.LogGrows | TME9/src/capitalize.c:84-116 | a word is printed every 106 steps |
| HandOff.RunOfLength | TME9/src/capitalize.c:71-116 | the hand-off goes on for ever: there is a run of any length |

## Left out

- QueueTheorems.EverythingDelivered: blocking mode only, as in the rest of the step relation but `QueueNonBlocking`.
- QueueLowered.RangeExactly: quantifies over the messages; for given ones without receives there is the sufficient condition and the failing family of `LateCountTurnsBack`.
- QueueRefusals.NbRunRefines: with the short shift it asks for no ascent at all; the bound of `Ascends` by the capacity does not carry over, because refused messages take no room.
- QueueNonBlocking.NonBlockingExactly: the lock order as written and whole steps; the class `Queue` has the flag too.
- IndexedFile.File.Search: nothing is said of what follows an overrun of the buffer. A read of more bytes than a signed size can hold is taken to fail, here and in `Indxchg`.
- RecordPrograms.RunProgram: no write that ends inside a record, and no move that ends inside the header.
- Reindex.Indxchg: the old file exists, and the new file is another one.
- HandOff.LogIsUpper: words of at most 99 characters; a longer one overruns the buffer.
- `mq_getattr`, `mq_notify`, `mq_close`, `mq_unlink`: copies, or operating-system plumbing.
- Failures of `sem_wait`, `sem_post`, `read`, `write` and `fork`, and signals that end a program.
- What an out-of-range move of the unrepaired queue does outside the array; inside it, it may leave anything.
- The value `mq_receive` returns, and the text limits of payloads and currencies: strings are opaque.
- Segments, descriptors, names, permissions and unlinking; a fork is a step and a semaphore a counter.
- Rounding: amounts are reals, and process numbers in the answers are not kept.
- Integer overflow of file offsets and of the list's size; header bytes are taken low byte first.
- The extra parameters of `Open`, `Search` and `Indxchg` stand for the contents of uninitialised memory.
- The other exercises, which show single system calls.
