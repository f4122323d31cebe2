# A verified model of the Hermit BitNet unikernel

Dafny models of the parts of this repository whose correctness is hardest to see from the code, with
proofs of what they are meant to do. `dafny verify dfyconfig.toml` checks the whole project.

- **The RAM shell's memory log** (`Bytes`, `Decimal`, `WordMatch`, `LogParser`, `History`, `LogReplay`,
  `MemorySession`, `RamShell`): an append-only log of framed records, a parser that resynchronises and
  falls back to plain lines, keyed upsert and forget, and byte caps. The main result says exactly when
  reading the log back gives the live history and what it gives otherwise, whatever bytes the records
  carry, as long as the unsaved part is not cut.
- **Matrix products in Z order** (`BitOps`, `ZOrder`, `SplayedCounter`, `Matrices`, `Matmul`,
  `Strassen`): the bit-interleaved triple loop, the eight-way recursion and Strassen's recursion all
  write the textbook product.
- **The futex stack** (`Bitmap`, `PrioQueue`, `HandleLists`, `Futex`, `FutexRuns`, `TaskNotify`,
  `Mutex`, `CondVar`): the priority queue of task handles, the parking lot, and on top of it the
  executor's notifier, the pthread mutex with its lazily created lock object and the condition
  variable. One step is one atomic access or one critical section, and the results hold over every
  interleaving.
- **The per-core scheduler** (`TaskLists`, `Scheduler`, `SchedulerRuns`, `PerCoreScheduler`,
  `SchedulerDriver`, `SchedFutex`): where every task is over every run, which one runs, and exactly when
  a futex wake or an exit finds the tasks it wakes.
- **The xHCI rings** (`ProducerRing`, `RingRuns`, `EventRing`, `EventRouting`, `EventPollers`,
  `TransferSplit`): the cycle-bit protocol of sections 4.9.2 and 4.9.4 of the xHCI specification, the
  routing of events among concurrent pollers and the splitting of a transfer into transfer request
  blocks (TRBs).
- **Console and in-memory file system** (`ConsoleLog`, `Console`, `DirTree`, `Getdents`).

Code that updates objects in place is a class whose methods are proved against functions of the whole
state; the functions carry the invariants and the statements over runs.

What the proofs show about the code that its comments or names do not say:

- `contains_word_sequence` misses occurrences of some patterns. `MatcherExactCondition` says which: those
  with a stale border. All patterns in use are free of them.
- `SplayedBitsCounter` never ends for matrices of more than `4^15` entries, because its mask has 32 bits.
- A futex wake can reach `unreachable!()`. It takes a handle from the lot and searches the blocked list for
  the task in vain when the timer has passed the time of the wait, or another wake-up has named the task,
  and the task has not run since. `WakesFindAllExactly` says that these are the only cases. The second
  needs no futex timeout: the table behind `sys_wakeup_task` keeps handles of tasks that have long moved on.
- An exit can reach it too, when a task that waits for it was woken otherwise. Running again does not help
  that task: its loop puts it into the list a second time.
- An `erase memory` that the device refuses, and the command `reset`, leave the stored records behind, and
  the cap on the history leaves the oldest ones behind in the log; they come back at the next boot, as far
  as they fit.
- Two concurrent polls of the controller can reverse two events in the pending queue, and a matching poll
  can return nothing while another holds the event it wants. The two queues lose nothing; `wait_command`
  and `poll` discard what they take.
- `futex_wake_or_set` with a count of 0 stores its value while tasks stay parked; its comment says it stores
  when no task is available.
- Blocking a task with a time re-arms the one-shot timer for that task even if another one is due earlier.
- The comment in `cleanup_tasks` speaks of removing a task from `TASKS`; the code only drops it. The model
  follows the code, so task ids are not used again.
- A producer ring with one TRB more than `size - 2` outstanding stalls a controller that rests at the link.
- `create_file` replaces an existing node, directories included.
- `getdents` also returns 0 when the next entry does not fit the buffer.

## Model

| member | source | states |
|---|---|---|
| `Bytes.FindByteIsFirst` | bitapp/src/hermit_app.rs:627-629 | the position found is the first one that holds the byte, and `None` means that no position does |
| `Bytes.FindSubIsFirst` | bitapp/src/hermit_app.rs:631-638 | `find_subslice` finds the first occurrence of the needle, and `None` means there is none |
| `Bytes.TrimAscii` | bitapp/src/hermit_app.rs:789-805 | the loop that moves both ends inwards computes `Trim` |
| `Bytes.TrimSplits` | bitapp/src/hermit_app.rs:789-805 | a text is white space, its trimmed part and white space, and the trimmed part has none at either end |
| `Decimal.AppendDecimal` | bitapp/src/hermit_app.rs:161-177 | the digits collected backwards in a buffer of 20 slots and appended in reverse are the decimal form of every 64-bit value |
| `Decimal.TwentyDigits` | bitapp/src/hermit_app.rs:161-177 | 20 digit slots are enough for every `usize` |
| `Decimal.ParseDecimal` | bitapp/src/hermit_app.rs:613-625 | the checked 64-bit loop accepts exactly the non-empty digit strings whose value fits, and returns that value |
| `Decimal.RoundTrip` | bitapp/src/hermit_app.rs:161-177 | `parse_decimal` undoes `append_decimal` for every 64-bit value |
| `WordMatch.MatcherExactCondition` | bitapp/src/hermit_app.rs:253-285 | the matcher with its simplified fallback answers rightly on every word list if and only if the pattern has no stale border (a border of a prefix that is followed by another word than the prefix is) |
| `WordMatch.StaleBorderMisses` | bitapp/src/hermit_app.rs:253-285 | for every pattern with a stale border, a word list that contains the pattern and is rejected |
| `WordMatch.StaleBorderText` | bitapp/src/hermit_app.rs:253-285 | the same with a real text, its words separated by spaces |
| `WordMatch.DistinctHasNoStaleBorder` | bitapp/src/hermit_app.rs:253-285 | patterns of pairwise distinct words meet the condition |
| `WordMatch.ContainsWordSequence` | bitapp/src/hermit_app.rs:253-285 | the byte-by-byte loops compute the matcher on the maximal alphanumeric words of the text, ASCII case ignored; for patterns without stale border the answer is true exactly when the pattern occurs as consecutive words |
| `WordMatch.TextIsLayout` | bitapp/src/hermit_app.rs:253-285 | every text is its words with gaps between them, so the words are the maximal runs and nothing else |
| `WordMatch.WordsOfLayout` | bitapp/src/hermit_app.rs:253-285 | and any words with gaps between them are the words of the text they make |
| `History.PatternsAreExact` | bitapp/src/hermit_app.rs:287-309 | every pattern `memory_key_from_text` uses is free of stale borders |
| `History.KeyIdempotent` | bitapp/src/hermit_app.rs:287-309 | every memory key is its own memory key and is not changed by trimming |
| `History.ForgetIsThorough` | bitapp/src/hermit_app.rs:362-402 | after a forget no record is left that has the key, or that mentions it; without a key, none that mentions the phrase |
| `History.UpsertReplaces` | bitapp/src/hermit_app.rs:355-360 | after an upsert the new record is last and the only one with its key, and every record with another key comes right behind those before it that stay |
| `History.UpsertKeepsUnique` | bitapp/src/hermit_app.rs:355-360 | an upsert keeps the keys of a history distinct |
| `History.ForgetKeepsUnique` | bitapp/src/hermit_app.rs:380-384 | so does a forget |
| `History.ForgetContents` | bitapp/src/hermit_app.rs:380-384 | a forget keeps exactly the records that do not match |
| `LogParser.MarkerIsNotLast` | bitapp/src/hermit_app.rs:673-766 | the slice `header[a_marker + 3..header.len() - 1]` is in bounds for every header that reaches it |
| `LogParser.ReadQaAt` | bitapp/src/hermit_app.rs:673-766 | reading a question/answer record with absolute offsets and saturating 64-bit sums gives what unbounded arithmetic on the remaining bytes gives |
| `LogParser.ReadDelAt` | bitapp/src/hermit_app.rs:673-766 | the same for a forget record |
| `LogParser.ParseLegacyRecords` | bitapp/src/hermit_app.rs:640-671 | the loop over plain `Q:`/`A:` lines ends on every byte string and plays exactly the entries `Legacy` reads |
| `LogParser.ParseStructuredRecords` | bitapp/src/hermit_app.rs:673-766 | the resynchronising loop ends on every byte string, its offset only advances, and it plays exactly the entries `Decode` reads |
| `LogReplay.AppendSerializedQa` | bitapp/src/hermit_app.rs:179-192 | a question/answer record is appended with a newline before it unless the log is empty |
| `LogReplay.AppendSerializedForget` | bitapp/src/hermit_app.rs:194-203 | the same for a forget record |
| `LogReplay.DecodesRecord` | bitapp/src/hermit_app.rs:673-766 | behind a text without markers, a written record is read back whole whatever bytes it carries (markers, newlines, brackets), then whatever follows is read |
| `LogReplay.DecodesLog` | bitapp/src/hermit_app.rs:179-203 | a log of written records, separated or not, is read back entry by entry |
| `LogReplay.DecodesPlainText` | bitapp/src/hermit_app.rs:673-766 | a text without markers is read as plain lines |
| `LogReplay.DecodesAfterText` | bitapp/src/hermit_app.rs:673-766 | old plain lines followed by written records are read as both, in order |
| `MemorySession.FramingOverhead` | bitapp/src/hermit_app.rs:179-203 | a record adds at most 60 bytes to its payload, a forget record at most 37, for any 64-bit lengths |
| `MemorySession.ReserveIsEnough` | bitapp/src/hermit_app.rs:205-223 | over every session of modest commands the 64-byte reserve keeps both the history payload and the unsaved log within 65536 bytes |
| `MemorySession.ShellCommandsAreModest` | bitapp/src/hermit_app.rs:205-223 | prompts, phrases and answers within the shell's own buffers are modest |
| `MemorySession.BootIsWithinCaps` | bitapp/src/hermit_app.rs:768-787 | the history loaded from any stored bytes is within the cap |
| `MemorySession.ReplayEqualsLive` | bitapp/src/hermit_app.rs:205-431 | from anything that sessions can have left on the device, over every session that does not cut the unsaved log, with evictions from the history, flushes, resets and erases that the device may refuse: reading the saved log followed by the unsaved part gives the stale records followed by the live history, and so exactly the live history if and only if nothing is stale |
| `MemorySession.StaleAre` | bitapp/src/hermit_app.rs:355-431 | a record is stale exactly if it was when an eviction, a reset or a failed erase last left records behind and no command since has replaced, forgotten or erased it |
| `MemorySession.NothingStale` | bitapp/src/hermit_app.rs:386-431 | where all is loaded at boot and nothing is evicted or reset and no erase fails, nothing is stale |
| `MemorySession.FailedEraseLeaves` | bitapp/src/hermit_app.rs:423-431 | after a flush, an erase that fails leaves all the log says in it and none of it live |
| `MemorySession.ErasedComesBack` | bitapp/src/hermit_app.rs:423-431 | the shortest such session, from an empty log |
| `MemorySession.RebootRestores` | bitapp/src/hermit_app.rs:768-787 | after a final flush a reboot gives the newest of what the log says, stale records included, as far as the cap allows; where all of it fits, the session itself if and only if nothing is stale |
| `MemorySession.DeltaContinues` | bitapp/src/hermit_app.rs:673-766 | reading a log and its continuation is reading the log and replaying the continuation over the result |
| `MemorySession.KeysStayUnique` | bitapp/src/hermit_app.rs:355-402 | in every session no two records carry the same key |
| `RamShell.ForgetHistoryRecords` | bitapp/src/hermit_app.rs:380-384 | the in-place filter keeps what `Forget` keeps and counts what it removed |
| `RamShell.Shell.constructor` | bitapp/src/hermit_app.rs:768-787 | loading the stored log |
| `RamShell.Shell.ShrinkHistory` | bitapp/src/hermit_app.rs:139-146 | the loop drops oldest records until the needed bytes fit |
| `RamShell.Shell.ShrinkDelta` | bitapp/src/hermit_app.rs:148-159 | the log loses its front |
| `RamShell.Shell.AppendToHistory` | bitapp/src/hermit_app.rs:205-223 | one question/answer command takes the session to its next state |
| `RamShell.Shell.AppendForgetToHistory` | bitapp/src/hermit_app.rs:386-402 | one forget command, blank phrases included |
| `RamShell.Shell.FlushMemoryDb` | bitapp/src/hermit_app.rs:409-421 | a flush moves the unsaved part to the saved log if the device takes it |
| `RamShell.Shell.ResetSession` | bitapp/src/hermit_app.rs:981-983 | a reset empties history and unsaved log and leaves the saved one |
| `RamShell.Shell.EraseMemoryDb` | bitapp/src/hermit_app.rs:423-431 | an erase empties history and unsaved log, and the saved log only if the device erases it |
| `ZOrder.ZOfRowCol` | hermit-rs/examples/demo/src/matmul.rs:89-101 | an index is recovered from its row and column |
| `ZOrder.RowColOfZ` | hermit-rs/examples/demo/src/matmul.rs:89-101 | row and column are recovered from the index |
| `ZOrder.EvenMaskTakesColumn` | hermit-rs/examples/demo/src/matmul.rs:91-93 | masking with `0x5555_5555` leaves the spread column |
| `ZOrder.OddMaskTakes` | hermit-rs/examples/demo/src/matmul.rs:91-93 | masking with `0xaaaa_aaaa` leaves the spread row |
| `ZOrder.OrPutsTogether` | hermit-rs/examples/demo/src/matmul.rs:94-101 | row and column bits joined with `or` are the index |
| `SplayedCounter.AdvanceShowsNext` | hermit-rs/examples/demo/src/matmul.rs:49-61 | setting all odd bits and adding one carries to the next number whose odd bits are zero |
| `SplayedCounter.StopsExactlyUpTo15` | hermit-rs/examples/demo/src/matmul.rs:46-62 | for `4^m` entries the iterator comes to an end if and only if `m <= 15` |
| `SplayedCounter.SplayedBitsCounter.constructor` | hermit-rs/examples/demo/src/matmul.rs:40-44 | a new iterator stands at 0 |
| `SplayedCounter.SplayedBitsCounter.Next` | hermit-rs/examples/demo/src/matmul.rs:49-61 | each call yields the next splayed index, in order, none skipped or repeated, and after the last one the iterator stays exhausted |
| `Matmul.IndexTricks` | hermit-rs/examples/demo/src/matmul.rs:89-101 | `ij & 0xaaaa_aaaa or k` and `k << 1 or ij & 0x5555_5555` are the places of `[row, k]` and `[k, column]`, within bounds |
| `Matmul.SeqMatmulz` | hermit-rs/examples/demo/src/matmul.rs:76-103 | the bit-interleaved triple loop writes the textbook product into its slice and nothing else |
| `Matrices.BlockQuarter` | hermit-rs/examples/demo/src/matmul.rs:179-208 | each quarter of a product in Z order is the sum of two products of quarters |
| `Matmul.QuarterChunks` | hermit-rs/examples/demo/src/matmul.rs:109-116 | the four chunks are the quarters in Z order |
| `Matmul.RMatSum` | hermit-rs/examples/demo/src/matmul.rs:302-306 | adds the source to the slice, entry by entry, and changes nothing else |
| `Matmul.RMatSub` | hermit-rs/examples/demo/src/matmul.rs:308-312 | subtracts likewise |
| `Matmul.RCopy` | hermit-rs/examples/demo/src/matmul.rs:314-324 | the copy by halves copies all |
| `Matmul.Matmulz` | hermit-rs/examples/demo/src/matmul.rs:179-208 | the eight-way recursion writes the product, for every power-of-four length |
| `Matrices.ProductSumLeft` | hermit-rs/examples/demo/src/matmul.rs:247-285 | the product is linear in its left factor |
| `Matrices.ProductSumRight` | hermit-rs/examples/demo/src/matmul.rs:247-285 | and in its right factor |
| `Strassen.StrassenIdentity` | hermit-rs/examples/demo/src/matmul.rs:219-239 | the seven products, combined as in the code, are the matrix product |
| `Strassen.MatmulStrassen` | hermit-rs/examples/demo/src/matmul.rs:210-240 | the seven-product recursion writes the product, for every power-of-four length |
| `PrioQueue.OrderOfPush` | kernel/src/scheduler/task/mod.rs:184-196 | putting a handle at the end of its priority's queue inserts it behind all at least as urgent ones in the list of all handles |
| `PrioQueue.MarksAbove` | kernel/src/scheduler/task/mod.rs:38-40 | the highest bit of the bitmap is the most urgent queue in use |
| `PrioQueue.TaskHandlePriorityQueue.constructor` | kernel/src/scheduler/task/mod.rs:163-169 | a new queue is empty |
| `PrioQueue.TaskHandlePriorityQueue.IsEmpty` | kernel/src/scheduler/task/mod.rs:172-174 | the bitmap is zero exactly when no handle is queued |
| `PrioQueue.TaskHandlePriorityQueue.Contains` | kernel/src/scheduler/task/mod.rs:178-181 | finds a handle exactly when it is queued |
| `PrioQueue.TaskHandlePriorityQueue.Push` | kernel/src/scheduler/task/mod.rs:184-196 | keeps the bitmap in step and the list in order of priority, first come first served |
| `PrioQueue.TaskHandlePriorityQueue.Pop` | kernel/src/scheduler/task/mod.rs:198-215 | takes the first of the list |
| `PrioQueue.TaskHandlePriorityQueue.PopWithPrio` | kernel/src/scheduler/task/mod.rs:323-331 | takes the first of the list if it is urgent enough |
| `PrioQueue.TaskHandlePriorityQueue.Remove` | kernel/src/scheduler/task/mod.rs:219-241 | takes out every entry of a handle and says whether there was one |
| `PrioQueue.RemoveAll` | kernel/src/scheduler/task/mod.rs:219-241 | the index loop over one queue removes exactly the entries with that id |
| `Futex.ParkingLot.Enter` | kernel/src/synch/futex.rs:43-59 | compares (and for the second call replaces) the word and parks the handle in one critical section |
| `Futex.ParkingLot.Recheck` | kernel/src/synch/futex.rs:61-95 | the three outcomes after a wake-up, and that an emptied queue is dropped |
| `Futex.ParkingLot.Wake` | kernel/src/synch/futex.rs:172-198 | wakes the first waiters up to the count, all for `i32::MAX`, returns the saturated number, -EINVAL for a negative count |
| `Futex.ParkingLot.WakeOrSet` | kernel/src/synch/futex.rs:204-237 | the same, and stores the new value when it woke nobody |
| `FutexRuns.FutexAccounting` | kernel/src/synch/futex.rs:37-198 | over every run: no empty queue is stored, no handle is parked twice, and the sum of wake results is the number of waits that returned 0 or are about to, unless one saturated |
| `FutexRuns.Outcomes` | kernel/src/synch/futex.rs:61-95 | in every reachable state a wait returns 0 exactly when a wake took its handle, times out exactly when the time came first and it took its own handle out, and otherwise sleeps on with nothing changed |
| `FutexRuns.NextKeeps` | kernel/src/synch/futex.rs:37-237 | every step of every task keeps the accounting invariant |
| `FutexRuns.SetsExactlyWhen` | kernel/src/synch/futex.rs:204-237 | `futex_wake_or_set` stores exactly when nobody waits or the count is 0 |
| `TaskNotify.Notify.Wait` | kernel/src/executor/mod.rs:81-87 | a wait parks only if no wake is on record, and clears the record |
| `TaskNotify.Notify.WakeByRef` | kernel/src/executor/mod.rs:95-97 | a wake takes the waiter or leaves a record |
| `TaskNotify.NeverParkedWithWakePending` | kernel/src/executor/mod.rs:81-97 | in every run a wake on record never coexists with a parked waiter |
| `TaskNotify.WakeTakesEffect` | kernel/src/executor/mod.rs:95-97 | a wake while parked releases the waiter, a wake while not parked is recorded |
| `TaskNotify.NextWaitDoesNotPark` | kernel/src/executor/mod.rs:81-87 | after a wake while nobody was parked, whatever happens in between, the next wait returns without parking |
| `Mutex.NextKeeps` | bitapp/native/bitapp_runtime.cpp:262-284 | every atomic step of every thread keeps the invariant: one object, one holder, nobody stranded |
| `Mutex.MutualExclusion` | bitapp/native/bitapp_runtime.cpp:393-428 | over every run from a static initialiser all threads work on one object, at most one holds the mutex, and the word is 1 exactly when one does |
| `Mutex.NobodyStranded` | bitapp/native/bitapp_runtime.cpp:399-428 | over every run, while somebody is parked, somebody holds the mutex or some thread will wake one or try again |
| `Mutex.WorksOnLiveObjects` | bitapp/native/bitapp_runtime.cpp:262-284 | no thread ever works on a freed object, and every live object is the mutex's own or still with the thread that made it, so the loser of the race frees its copy |
| `CondVar.BroadcastReleases` | bitapp/native/bitapp_runtime.cpp:470-478 | once a broadcast has returned, in every continuation, a thread that read the number before it is not parked unless at least 2^32 notifications came between its read and its parking |
| `CondVar.BroadcastEmpties` | bitapp/native/bitapp_runtime.cpp:470-478 | a broadcast leaves nobody parked |
| `CondVar.ParksExactlyWhen` | bitapp/native/bitapp_runtime.cpp:455-469 | a waiter parks exactly when the number of notifications since its read is a multiple of 2^32 |
| `CondVar.WrapIsSleptThrough` | bitapp/native/bitapp_runtime.cpp:455-469 | for every `n` a run in which a thread reads the number, `n` broadcasts follow and the thread waits: it sleeps through all of them if and only if `n` is a multiple of 2^32 |
| `CondVar.SignalReleasesOne` | bitapp/native/bitapp_runtime.cpp:480-488 | a signal releases the first parked thread or finds none parked |
| `CondVar.NextKeeps` | bitapp/native/bitapp_runtime.cpp:455-504 | every step, timed waits included, keeps the invariant |
| `SchedulerRuns.ExactlyOnePlace` | kernel/src/scheduler/mod.rs:750-851 | over every run a live task runs, or is in the ready queue once, or in the blocked list once, and in no two of these |
| `SchedulerRuns.NobodyLost` | kernel/src/scheduler/mod.rs:750-851 | over every run a live task stays live unless it was current at an exit |
| `SchedulerRuns.NextKeeps` | kernel/src/scheduler/mod.rs:179-851 | spawn, block, wake of any blocked task, join, exit, timer and reschedule keep the partition and the task count |
| `SchedulerRuns.FoundExactlyWhen` | kernel/src/scheduler/task/mod.rs:620-676 | a row of wake-ups finds every task if and only if all are blocked and none is named twice |
| `SchedulerRuns.IdleOnlyWithoutWork` | kernel/src/scheduler/mod.rs:750-851 | after a reschedule the idle task is current exactly when no task runs, and then nothing is ready |
| `SchedulerRuns.MostUrgentRuns` | kernel/src/scheduler/mod.rs:750-851 | after a reschedule no ready task is more urgent than the one that runs |
| `SchedulerRuns.WokenBeforeSwitch` | kernel/src/scheduler/mod.rs:810-822 | a task that blocked, was woken and is picked before it switched away runs on and is in neither list |
| `SchedulerRuns.WakeupFindsExactlyBlocked` | kernel/src/scheduler/task/mod.rs:620-676 | the search of `custom_wakeup` succeeds exactly for blocked tasks |
| `SchedulerRuns.TickArmsEarliest` | kernel/src/scheduler/task/mod.rs:682-726 | after the timer interrupt the timer is set for the earliest of the tasks still blocked |
| `SchedulerRuns.BlockArmsExactlyWhenFirst` | kernel/src/scheduler/task/mod.rs:565-617 | blocking leaves the timer at the earliest time if and only if the new task comes first or has no time |
| `SchedulerRuns.LaterSleeperDelaysEarlier` | kernel/src/scheduler/task/mod.rs:565-617 | a second, later sleeper moves the timer past the first one's time |
| `SchedulerRuns.LaterSleeperRun` | kernel/src/scheduler/task/mod.rs:565-617 | a run from boot that does so |
| `PerCoreScheduler.AddBlocked` | kernel/src/scheduler/task/mod.rs:565-617 | the cursor scan puts a node behind those not later than it |
| `PerCoreScheduler.TakeBlocked` | kernel/src/scheduler/task/mod.rs:620-676 | the cursor search removes the task's node or finds none |
| `PerCoreScheduler.ExtractDue` | kernel/src/scheduler/task/mod.rs:700-709 | splits the list into the elapsed tasks and the others, in order |
| `PerCoreScheduler.PerCore.SpawnTask` | kernel/src/scheduler/mod.rs:243-305 | takes the core to the next state |
| `PerCoreScheduler.PerCore.BlockCurrentTask` | kernel/src/scheduler/mod.rs:429-434 | likewise |
| `PerCoreScheduler.PerCore.CustomWakeup` | kernel/src/scheduler/mod.rs:403-409 | likewise, or runs into `unreachable!()` exactly when the task has no node |
| `PerCoreScheduler.PerCore.HandleWaitingTasks` | kernel/src/scheduler/task/mod.rs:682-726 | likewise |
| `PerCoreScheduler.PerCore.JoinTask` | kernel/src/scheduler/mod.rs:953-976 | likewise, one turn of the loop |
| `PerCoreScheduler.PerCore.ExitTask` | kernel/src/scheduler/mod.rs:179-206 | likewise, up to the reschedule; it runs into `unreachable!()` exactly when a task that waits for the end is not found, and the state is the one reached until then |
| `PerCoreScheduler.PerCore.Reschedule` | kernel/src/scheduler/mod.rs:750-851 | likewise |
| `SchedulerDriver.Take` | kernel/src/scheduler/mod.rs:179-851 | in every state that the invariant allows, each method can be called where the model can take the step, and leads to the same state |
| `SchedulerDriver.Run` | kernel/src/scheduler/mod.rs:179-851 | the methods carry out every run from boot |
| `SchedFutex.WakesFindAllExactly` | kernel/src/synch/futex.rs:37-198 | over every run of scheduler steps, futex waits with and without timeout, rechecks, wakes, joins, exits and `sys_wakeup_task`: a wake finds every task it takes if and only if none of them has, since it last blocked, been passed by the timer or been named by another wake-up |
| `SchedFutex.ExitsFindAllExactly` | kernel/src/scheduler/mod.rs:197-202 | over every such run: an exit finds every task that waits for it if and only if none of them has been named by another wake-up since it began to wait |
| `SchedFutex.QuietRunsFindAll` | kernel/src/synch/futex.rs:172-198 | over every run without futex timeouts and other wake-ups, wakes and exits find all |
| `SchedFutex.UndisturbedWaitReturns` | kernel/src/synch/futex.rs:61-95 | over every run: a task that runs inside a futex wait undisturbed returns 0 |
| `SchedFutex.StepKeeps` | kernel/src/synch/futex.rs:37-198 | every step keeps the invariant that ties parked and joining tasks to the blocked list |
| `SchedFutex.TimedWaitIsMissed` | kernel/src/synch/futex.rs:61-95 | a run from boot in which the timer passes a timed wait and the next wake does not find the task |
| `SchedFutex.OtherWakeupIsMissed` | kernel/src/syscalls/tasks.rs:206-245 | a run from boot without futex timeout: a handle left over by `sys_block_current_task_with_timeout` lets `sys_wakeup_task` wake a parked task, and the next `futex_wake` does not find it |
| `SchedFutex.JoinerIsMissed` | kernel/src/scheduler/mod.rs:953-976 | the same with a joining task and the exit it waits for |
| `ProducerRing.SetCycleSetsOnlyThat` | usb-oxide/src/ring.rs:32-44 | setting the cycle bit sets that bit and nothing else |
| `ProducerRing.LinkIs` | usb-oxide/src/ring.rs:383-391 | the Link TRB has the Link type, the Toggle Cycle flag, the cycle bit and the ring's address |
| `ProducerRing.Ring.constructor` | usb-oxide/src/ring.rs:359-367 | a zeroed ring |
| `ProducerRing.Ring.Enqueue` | usb-oxide/src/ring.rs:377-394 | writes the TRB and, at the end, the link; returns the slot's address |
| `ProducerRing.WriteAgrees` | usb-oxide/src/ring.rs:377-381 | with at most `size - 2` TRBs outstanding, writing a TRB keeps what producer and consumer agree on |
| `ProducerRing.LinkAgrees` | usb-oxide/src/ring.rs:383-391 | so does writing the link, with any looks of the consumer between the two writes |
| `ProducerRing.LookSees` | usb-oxide/src/ring.rs:377-394 | the consumer sees the oldest outstanding TRB, or the link to follow, or nothing exactly when there is nothing |
| `ProducerRing.AtTheBound` | usb-oxide/src/ring.rs:377-394 | with one more outstanding the consumer still finds the oldest if and only if it does not rest at the link |
| `RingRuns.FirstInFirstOut` | usb-oxide/src/ring.rs:351-394 | over every run, with the consumer looking between any two writes, it takes exactly the enqueued TRBs in order, none stale, and the addresses of outstanding TRBs are pairwise distinct |
| `RingRuns.StallIsReached` | usb-oxide/src/ring.rs:377-394 | a run of a zeroed ring of three slots that reaches the bound, where one TRB more hides the outstanding one |
| `RingRuns.NeverStuck` | usb-oxide/src/ring.rs:351-394 | while TRBs are outstanding the consumer takes one within two looks |
| `EventRing.Ring.constructor` | usb-oxide/src/ring.rs:418-435 | a zeroed event ring |
| `EventRing.Ring.TryDequeue` | usb-oxide/src/ring.rs:445-463 | returns the oldest event not taken, and `None` exactly when there is none |
| `EventRing.Ring.Arrive` | usb-oxide/src/ring.rs:418-463 | the controller's side of the ring: a posted event comes behind all that wait |
| `EventRing.PostAgrees` | usb-oxide/src/ring.rs:445-463 | a controller that does not overrun the driver keeps what both sides agree on |
| `EventRouting.Controller.PollEvent` | usb-oxide/src/xhci.rs:487-493 | delivers the oldest undelivered event |
| `EventRouting.Controller.PollEventMatching` | usb-oxide/src/xhci.rs:496-513 | delivers the oldest undelivered event that matches and keeps all others in order |
| `EventPollers.NothingIsLost` | usb-oxide/src/xhci.rs:476-513 | over every run of any number of pollers, each with its own place in the code, and of `wait_command`: every event taken from the ring is pending, held by one poller or handed to whoever took it, in exactly one of these places, once |
| `EventPollers.OrderOfRuns` | usb-oxide/src/xhci.rs:496-513 | the pending queue is in posting order all along a run if and only if every push finds only older events in it; and so in every run in which no two pollers hold an event at the same time |
| `EventPollers.PushKeepsOrder` | usb-oxide/src/xhci.rs:509 | a push keeps the order if and only if nothing newer is pending |
| `EventPollers.OrderCanBreak` | usb-oxide/src/xhci.rs:496-513 | a run of two pollers that reverses two events |
| `EventPollers.RingGivesOldestExactlyWhen` | usb-oxide/src/xhci.rs:504-512 | what a matching poll takes from the ring is the oldest undelivered match if and only if no pending or held event matches; it returns nothing although a match is undelivered if and only if one does |
| `EventPollers.PendingGivesOldestExactlyWhen` | usb-oxide/src/xhci.rs:497-502 | what it takes from the pending queue is the oldest undelivered match if and only if no older pending or held event matches |
| `EventPollers.AloneGetsOldest` | usb-oxide/src/xhci.rs:496-513 | over every run with one poller at a time a matching poll always gets the oldest match, and nothing only if there is none |
| `EventPollers.MatchCanBeMissed` | usb-oxide/src/xhci.rs:496-513 | a run of two pollers in which one returns nothing while the other holds the match |
| `TransferSplit.QueueTransfer` | usb-oxide/src/dev.rs:791-846 | queues exactly the TRBs of `Transfer` for every buffer in the 64-bit address space, the empty one included |
| `TransferSplit.TransferIsRight` | usb-oxide/src/dev.rs:813-838 | for every address and non-zero length the pieces are contiguous, non-empty, sum to the length and do not cross a 64 KiB boundary; TD Size is 0, IOC set and Chain clear exactly on the last |
| `TransferSplit.NextBoundaryIs` | usb-oxide/src/dev.rs:818-819 | in wrapping 64-bit arithmetic the mask finds the distance to the next 64 KiB boundary for every address, the last ones included |
| `TransferSplit.StatusIs` | usb-oxide/src/dev.rs:833 | length and TD Size do not overlap in the status word |
| `ConsoleLog.Log.constructor` | kernel/src/console_log.rs:13-20 | an empty log with capture on |
| `ConsoleLog.Log.Append` | kernel/src/console_log.rs:22-52 | the ring holds the longest suffix, up to its capacity, of all bytes appended while capture was on |
| `ConsoleLog.Log.SetCaptureEnabled` | kernel/src/console_log.rs:87-89 | changes the switch and nothing else |
| `ConsoleLog.Log.Read` | kernel/src/console_log.rs:54-71 | copies out exactly the requested window and leaves the rest of the output alone |
| `Console.IoDevice.WriteAll` | kernel/src/console.rs:55-72 | what goes out is logged |
| `Console.Console.Write` | kernel/src/console.rs:160-182 | device output followed by the buffer is everything accepted; a successful write leaves no newline in the buffer; it fails exactly when the device is down and is needed |
| `Console.Console.Flush` | kernel/src/console.rs:185-191 | the buffer goes out, or stays if the device is down |
| `DirTree.SplitJoins` | kernel/src/fs/mod.rs:163-209 | the parts of a path have no slash in them and joined with slashes are the path |
| `DirTree.Prepare` | kernel/src/fs/mod.rs:163-209 | the stack holds all parts but the first, the next one to walk on top |
| `DirTree.StatIsLookup` | kernel/src/fs/mem.rs:636-653 | `stat` answers for the node at a path |
| `DirTree.MkdirIs` | kernel/src/fs/mem.rs:524-545 | succeeds exactly in an existing directory on a free name, adds an empty directory there, and otherwise changes nothing |
| `DirTree.RmdirIs` | kernel/src/fs/mem.rs:547-570 | succeeds exactly on a directory and removes it; otherwise, the take-out-and-put-back branch included, changes nothing |
| `DirTree.UnlinkIs` | kernel/src/fs/mem.rs:572-595 | succeeds exactly on a file and removes it; otherwise changes nothing |
| `DirTree.OpenIs` | kernel/src/fs/mem.rs:471-506 | when it succeeds, and that it changes the tree exactly when it creates |
| `DirTree.CreateFileIs` | kernel/src/fs/mem.rs:684-709 | succeeds in every existing directory and replaces what the name stood for |
| `DirTree.PutSeenBelow` | kernel/src/fs/mem.rs:524-595 | a change at a path is seen at and below it |
| `DirTree.PutNotSeenElsewhere` | kernel/src/fs/mem.rs:524-595 | and nowhere else; the directories above stay directories |
| `DirTree.OthersUnchanged` | kernel/src/fs/mem.rs:471-709 | every operation leaves the nodes on all other paths as they were |
| `DirTree.MkdirRmdir` | kernel/src/fs/mem.rs:524-570 | `mkdir` and then `rmdir` restores the tree |
| `DirTree.OpenUnlink` | kernel/src/fs/mem.rs:471-595 | creating with `open` and then `unlink` restores the tree |
| `DirTree.CreateFileUnlink` | kernel/src/fs/mem.rs:684-709 | `create_file` and then `unlink` restores the tree if and only if the name was free |
| `Getdents.MemDirectoryInterface.constructor` | kernel/src/fs/mem.rs:381-388 | a new listing starts at the first name |
| `Getdents.MemDirectoryInterface.Getdents` | kernel/src/fs/mem.rs:393-432 | packs as many of the next entries as fit, and leaves the rest of the buffer alone; it stops exactly when one of those is too long for its 16-bit length |
| `Getdents.WalkPacked` | kernel/src/fs/mem.rs:393-432 | walking the returned bytes by `d_reclen` reads back exactly the packed names |
| `Getdents.PackedInOrder` | kernel/src/fs/mem.rs:393-432 | entries lie behind one another within the bytes returned |
| `Getdents.TotalAligned` | kernel/src/fs/mem.rs:399-400 | every entry starts at a multiple of 8 |
| `Getdents.ZeroExactly` | kernel/src/fs/mem.rs:393-432 | 0 is returned exactly at the end of the directory or when the next entry does not fit |
| `Getdents.ListsInOrder` | kernel/src/fs/mem.rs:393-432 | with buffers for the largest entry, successive calls pack the names in key order, each once, at least one per call until all are packed |
| `Getdents.ReadAll` | kernel/src/fs/mem.rs:393-432 | a reader that calls until 0 comes back and walks the bytes of every call reads the names that are left, in key order, each once, up to the end or the first one that does not fit its buffer |

## Left out

- Matmul.SeqMatmulz: entries are exact real numbers, not `f32`, so rounding is not modelled; `m <= 15` because the code does not end beyond that.
- Matmul.Matmulz: `rayon::join` on disjoint slices is sequential, and so it is in Strassen.MatmulStrassen; `seq_matmul` in row-major order, timing and printing are not modelled.
- MemorySession.ReplayEqualsLive: says nothing once more than 64 KiB are unsaved, where the log is cut in the middle of a record; the device behind the log either carries out a flush or an erase or leaves its log as it was.
- MemorySession.RebootRestores: the stored log must not exceed the 64 KiB that are read at boot.
- LogParser.ParseStructuredRecords: inputs are at most `isize::MAX` bytes long, as every slice is.
- FutexRuns.FutexAccounting: a task's priority does not change while it waits.
- Mutex.MutualExclusion: no destruction or second initialisation of a mutex in use; only holders unlock; a null mutex pointer, which returns 22, is not modelled.
- CondVar.BroadcastReleases: the mutex that a waiter releases and takes again, and the lazy creation of the object, are those of the mutex model and are not repeated.
- SchedulerRuns.NextKeeps: one core; tasks sent from other cores, changes of priority, context switches, the FPU owner and the network timer are not modelled; a task that has blocked does not exit before it is rescheduled.
- SchedFutex.WakesFindAllExactly: the wakes come from the same core as the waits.
- RingRuns.FirstInFirstOut: rings of at least 3 slots; chained transfers across the link are not modelled.
- EventPollers.NothingIsLost: the controller does not overrun the event ring; `push_pending_event`, which nothing calls, is not modelled; a filter is a fixed predicate; an event that `wait_command` or `poll` takes counts as handed out, although they discard events.
- TransferSplit.QueueTransfer: additions wrap, as in a build without overflow checks; how many TRBs fit the ring is the caller's concern.
- Console.IoDevice.WriteAll: the device writes all of its input or nothing; the memory-backed serial console, which can take a part, is not modelled, and the same holds for Console.Console.Write.
- DirTree.MkdirIs: the tree is a value, here and in the other operations of that module; the shared, locked maps of the code, and handles that stay open to removed nodes, are not modelled; nor are permissions, times, mounts and `rmdir`'s missing check for emptiness beyond removing what is below.
- Getdents.MemDirectoryInterface.Getdents: the directory does not change between calls.
- The non-SMP pthread stubs, semaphores, recursive mutexes, thread creation and `malloc`.
- Memory management, paging, the loader, drivers for network, mass storage and HID devices, the model runtime and the shell's user interface.
