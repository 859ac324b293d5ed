# A verified model of sylar's fiber runtime, timers, byte arrays, WebSocket framing and of the ttcp and echo programs

The project models the concurrent and stateful core of the repository and proves what it promises.

- **Fiber runtime** (`Tasks`, `FdTable`, `FdMeaning`, `Semaphores`, `Runtime`, `RuntimeBooks`, `HandOvers`,
  `WakeSafety`, `SafetyExact`, `WakeTokens`, `TokenMoves`, `LibraryWakeups`, `RuntimeRuns`, `RuntimeSteps`, `IoWaits`,
  `Scheduler`, `IOManager`). Worker threads share one list of entries. A run is any sequence of steps; each
  lock-protected section, each access to a fiber's state, each `epoll_ctl` and each kernel report is one step, so
  every interleaving of any number of workers, fibers and outside threads is a run. The classes `TaskList`, `FdEvents`
  and `FiberSemaphore` are the in-place code of the locked sections, proved equal to the functions the runs are made
  of.
- **Timers** (`Timers`, `TimerRuns`, `TimerManagers`). An ordered set keyed by a field that is changed in place, with the
  flag that suppresses repeated wake-ups.
- **Byte arrays** (`Bits`, `Blocks`, `ByteArrays`, `Codec`, `Varint`, `TypedValues`, `Serializer`). A list of fixed-size
  blocks with a cursor, proved to be one flat byte sequence, and the typed readers and writers on top of it.
- **WebSocket and base64** (`WebSocket`, `WsSession`, `Base64`, `HashUtil`). Frames over streams that transfer less than
  asked; the two base64 loops.
- **Protocols** (`Ttcp`, `Echo`). Two processes over two bounded byte channels.

`Folds` holds sums over sequences and invariants along runs. Clock readings, random masking keys, kernel results, how
much a read or write transfers and the order of steps are parameters or are chosen arbitrarily, so the results hold
for all of them.

Choices of the model: accesses to `m_state` are sequentially consistent; the pick loop (sylar/scheduler.cc:186-208)
reads the states of the fibers it passes in one step, while the code reads them one after another; a registration in
the fd table counts as a wake-up on its way whatever the kernel reports, although with edge-triggered epoll a report
is gone when `epoll_ctl` fails in the dispatch loop (sylar/iomanager.cc:364-370); looking up and growing the
fd-context table is one step (sylar/iomanager.cc:101-110 drops one lock before it takes the other); timers of the
runtime fire in any order at any time, their order and deadlines are the subject of `Timers`; `ceil(1.0 * size /
base)` is taken exactly; sizes of byte arrays are unbounded; registering an event that is already registered, on which
`addEvent` aborts (sylar/iomanager.cc:118), is not a step of the runtime, so runs that abort there are left out
(`FdTable.AddEventKeepsTable` says when that is).

Where the code departs from what one would expect, the model follows the code, and the departure is stated:

- "Handed to `schedule` at most once between swap-ins" is not enough for safety. A fiber that yields READY is handed over
  once more by its worker (`YieldedFiberHandedBreaks`, `HandedFiberYieldsBreaks`), and a finished callback fiber is kept
  for reuse in state INIT (`EndedCallbackFiberHandedBreaks`, `HandedCallbackFiberEndsBreaks`). `MayHand` is the exact
  condition on a hand-over: a step, and a run, keeps the invariant behind safety if and only if each of its hand-overs
  meets it (`StepKeepsInv`, `DisciplineIsExact`), and in a quiet state a hand-over can lead to an unsafe state if and only
  if it violates it (`SafeExactly`). Fibers that have ended for good may be handed over at will. Only calls of `schedule`
  count; pending timers, registrations and semaphore places do not. Every run in which fibers park through the library
  meets the condition (`LibraryRunIsDisciplined`).
- `delEvent` under a waiting fiber, and a bare `YieldToHold`, take a waiting fiber its only wake-up; nothing else does
  (`NoWakeupIsLost`).
- `Scheduler::stopping()` can answer true while a READY fiber is not back on the list (`StoppingMissesRequeue`), exactly
  while some worker is between its decrement and its requeue of such a fiber (`StoppingMissesExactly`).
- Idle dispatch fires every registered event, reported or not; agreement with epoll is lost exactly then, for the rest of
  the run, and so is every later registration on that fd (`RunsAgree`, `UnreportedFiringBlocksRegistration`).
- A timer with a null callback enters the set and cannot be cancelled, refreshed or reset; it leaves only by expiring, and
  a recurring one never (`NullStaysExactly`, `RecurringNullIsForever`). A stale clock reading that is
  taken for a rollover reschedules a recurring timer before the deadline without a wake-up (`StaleReadingUncovers`);
  `CoveredExactly` and `RolloverCoverage` say exactly when that happens.
- `ByteArray::clear` keeps the size (`Clear`); `read` of 0 bytes at capacity dereferences null (`ReadOutcome`); the
  positional `read` starts in the current node and the positional `getReadBuffers` clamps by the current position
  (`ReadAt`, `GetReadBuffersAt`); `readUint64` stops after five bytes (`Uint64RoundTrip`).
- WebSocket payloads of length 0 close the connection on both sides, those of 2^31 bytes and more on the receiving side,
  and a fragment behind 2^31 bytes is refused or read to a negative index (`RefusedFragment`, `FragmentsRoundTrip`,
  `WSSendMessage`).
- `total_len` of ttcp is negative for the four largest lengths (`TotalLength`), and then both ends fail their assertion
  on the allocated message (`TooLongFails`, `EndsWellExactly`).

## Model

| member | source | states |
|---|---|---|
| WakeSafety.DisciplinedRunIsSafe | sylar/scheduler.cc:163-268 | in every interleaving, as long as each fiber handed to schedule may be handed (it has ended for good; or there is no other hand-over since its last swap-in, it has not yielded READY, and it is not an ended or idle callback fiber), no fiber is held by two workers, the assertions in swapIn and reset hold in every state, and at most one hand-over per live fiber is outstanding; pending timers, fd events and semaphore places are not restricted |
| WakeSafety.DisciplineIsExact | sylar/scheduler.h:33-85 | over whole runs the invariant behind safety holds all along if and only if every hand-over met that condition when it was made |
| WakeSafety.HandOverExact | sylar/scheduler.h:78-85 | putting entries on the list keeps the invariant if and only if each fiber among them may be handed over and none that is not retired is there twice |
| SafetyExact.SafeExactly | sylar/scheduler.cc:183-248 | in a quiet state (all workers at the top of their loops, at least two, nothing on the list but unpinned entries of the fiber) a hand-over is followed only by safe states, however the workers go on, if and only if it may be made |
| WakeSafety.StepKeepsInv | sylar/fiber.cc:93-220 | a step of a worker, fiber, outside thread or idle fiber keeps the invariant if and only if it is disciplined: a fiber in EXEC is held by exactly one worker and in no hand, a READY fiber is held or handed over but not both, and an idle cached callback fiber is neither |
| WakeSafety.InvIsSafe | sylar/fiber.cc:110-120 | the invariant gives single execution and the assertions in swapIn and reset |
| LibraryWakeups.LibraryRunIsDisciplined | sylar/hook.cc:91-225 | runs in which fibers park only through do_io, the sleep hooks, FiberSemaphore::wait, switchTo or YieldToReady are disciplined, hence safe, however timeout timers, cancelEvent, cancelAll and idle dispatch race: no fiber ever has two outstanding wake-ups |
| LibraryWakeups.NoWakeupIsLost | sylar/hook.cc:117-161 | in such runs every waiting fiber has exactly one wake-up on its way, in every state, if and only if no registration is deleted under a waiting fiber and no fiber yields without arranging for its return |
| LibraryWakeups.LosesNoneExactly | sylar/iomanager.cc:153-187 | the same for one step |
| LibraryWakeups.TidyIsDisciplined | sylar/hook.cc:126-134 | what a timeout, cancelEvent, cancelAll, dispatch, notify, sleep timer or switchTo hands to schedule may be handed over |
| LibraryWakeups.StepKeepsTidy | sylar/hook.cc:117-161 | at most one wake-up per fiber; one that has not reached the scheduler belongs to a parked fiber; a fiber that runs unparked, or has ended, has none |
| TokenMoves.StepTokens | sylar/hook.cc:117-225 | every step conserves the wake-ups of every fiber up to the one gained by parking, spawning, requeueing or an outside hand-over, the one used by swap-in, and those thrown away by delEvent |
| TokenMoves.StepKeepsOrder | sylar/hook.cc:122-158 | in every run the timer of a do_io call that waits, if still pending, is the timeout of exactly this call on exactly its fd and event, and a fiber that is new, READY or ended is not inside a call |
| IoWaits.WaitBegins | sylar/hook.cc:121-150 | a call that finds its event free registers the calling fiber for exactly that event, with its own timeout pending if it has one |
| IoWaits.CallsStayRegistered | sylar/hook.cc:138-150 | in every run a call that waits is the registered waiter of its event or has been put on the list; only delEvent can forget it |
| IoWaits.TimeoutWakes | sylar/hook.cc:126-134 | the timeout of a live call cancels exactly the registration of that call: its fiber and nobody else goes on the list, the event is free again, the call is marked |
| IoWaits.TimeoutEndsWait | sylar/hook.cc:126-134 | in every run a call that waits and has not been woken is woken by its timeout |
| IoWaits.LateTimeoutIsIdle | sylar/hook.cc:127-131 | the timeout of a call that is over or has timed out does nothing |
| IoWaits.WokenCall | sylar/hook.cc:150-160 | a woken call cancels its timer, and returns if and only if it timed out; otherwise it tries again |
| IoWaits.CallbackRegistered | sylar/iomanager.cc:143-148 | addEvent with a callback makes that callback the waiter |
| RuntimeSteps.HandedRunsThere | sylar/scheduler.cc:186-206 | in library runs a fiber handed over for a thread (switchTo, schedule with a thread) is next swapped in by that thread, whatever happens in between |
| RuntimeSteps.HandsToThread | sylar/scheduler.h:33-45 | switchTo, spawn, submit and schedule put the entry on the list for the thread asked for |
| RuntimeSteps.RequeuedForAny | sylar/scheduler.cc:219-221 | a fiber that yielded READY is put back for any thread |
| RuntimeSteps.CallbackRuns | sylar/scheduler.cc:228-236 | a callback entry is run as it is, on the kept or a new callback fiber |
| RuntimeSteps.TimersRun | sylar/iomanager.cc:325-332 | expired callbacks are scheduled in order, one-shot timers are gone and recurring ones stay |
| RuntimeSteps.UserTimers | sylar/timer.cc:107-121 | user timers are added and cancelled one at a time |
| RuntimeSteps.FiberEnds | sylar/fiber.cc:184-215 | a fiber ends in EXCEPT iff its function threw a std::exception, in TERM iff it returned |
| RuntimeSteps.CallBegins | sylar/hook.cc:113-114 | every call has a timer_info of its own, reachable and not cancelled |
| RuntimeSteps.CallEnds | sylar/hook.cc:138-148 | a call that returns or cannot register leaves its timer_info unreachable and its timer cancelled |
| RuntimeSteps.WorkersStopWhenAsked | sylar/scheduler.cc:249-268 | in every run a worker ends its idle fiber or exits only after a request to stop |
| RuntimeSteps.IdleWorkerExits | sylar/scheduler.cc:249-268 | an idle worker that finds stopping() true exits in two steps |
| RuntimeSteps.StopRequested | sylar/scheduler.cc:276-280 | after the request, stopping() depends on the list and the active count alone |
| WakeTokens.CancelAllMoves | sylar/iomanager.cc:221-258 | cancelAll turns each registered waiter into exactly one scheduled task |
| WakeTokens.CancelEventMoves | sylar/iomanager.cc:189-219 | cancelEvent moves the one waiter from the table to the run list |
| WakeTokens.DispatchMoves | sylar/iomanager.cc:335-383 | idle dispatch neither loses nor duplicates a waiter |
| WakeTokens.NotifyMoves | sylar/mutex.cc:63-72 | notify moves the first waiter of the semaphore to the run list |
| RuntimeBooks.RunKeepsBooks | sylar/scheduler.cc:183-268 | on every run accepted entries = queued + in hand + consumed as multisets, the active and idle counters count the workers in their windows, and fd table and semaphores are consistent |
| RuntimeBooks.StepKeepsBooks | sylar/scheduler.h:33-85 | every single step keeps those books, with no hypothesis on the callers |
| RuntimeBooks.StoppingMeansQuiet | sylar/scheduler.cc:276-280 | stopping() is true exactly when stop was requested, the list is empty and no worker is between dequeue and decrement; the active count never underflows |
| RuntimeBooks.TakeIsEarliestEligible | sylar/scheduler.cc:183-208 | the entry taken is the earliest this thread may run; pinned entries are taken only by their thread |
| RuntimeRuns.HandedTwiceBreaks | sylar/fiber.cc:110-120 | a concrete run: a fiber handed over twice makes the assertion in swapIn fail |
| RuntimeRuns.EndedCallbackFiberHandedBreaks | sylar/scheduler.cc:228-248 | a concrete run: handing over a finished, cached callback fiber once breaks the runtime |
| RuntimeRuns.HandedCallbackFiberEndsBreaks | sylar/scheduler.cc:228-248 | a concrete run: so does a callback fiber that ends with a hand-over outstanding |
| RuntimeRuns.HandedFiberYieldsBreaks | sylar/scheduler.cc:213-226 | a concrete run: a fiber that yields READY with a hand-over outstanding is entered by two threads |
| RuntimeRuns.YieldedFiberHandedBreaks | sylar/scheduler.cc:213-226 | a concrete run: handing over a fiber once after it yielded READY puts two threads into it |
| RuntimeRuns.StoppingMissesExactly | sylar/scheduler.cc:276-280 | in every reachable state of a disciplined run in which stopping() is true, some fiber is READY if and only if some worker has decremented the active count and not yet requeued its READY fiber |
| RuntimeRuns.ReadyIsHeldOrHanded | sylar/scheduler.cc:217-226 | a READY fiber is held by one worker or has one entry on the list or in a hand, never both and never neither |
| RuntimeRuns.StoppingMissesRequeue | sylar/scheduler.cc:217-226 | a concrete run: stopping() answers true although a READY fiber is requeued two steps later |
| RuntimeRuns.EntryLeavesOnlyByTake | sylar/scheduler.cc:195-206 | an entry leaves the list only by being taken, and a fiber only once it is out of EXEC |
| RuntimeRuns.EntryStaysQueued | sylar/scheduler.cc:183-208 | over a run, an entry stays on the list until some worker takes it |
| RuntimeRuns.NotifiedFiberStaysQueued | sylar/mutex.cc:50-72 | a notify that lands between the waiter's unlock and its yield still leaves the fiber queued until a worker takes it |
| Scheduler.TaskList.ScheduleNoLock | sylar/scheduler.h:78-85 | appends a non-empty entry; asks for a tickle iff the list was empty |
| Scheduler.TaskList.ScheduleBatch | sylar/scheduler.h:47-60 | appends the whole batch in order; asks for a tickle iff the list was empty and the batch is not |
| Scheduler.TaskList.Pick | sylar/scheduler.cc:183-211 | the loop removes exactly the earliest eligible entry, counts the thread active, and asks for a tickle iff an entry pinned elsewhere was passed over or entries remain behind |
| FdTable.PerformKeepsTable | sylar/iomanager.cc:29-46 | any operation, with failing epoll_ctl or not, keeps: a bit is set iff its context has exactly one of fiber and callback, and the pending count is the number of set bits |
| FdTable.AddEventKeepsTable | sylar/iomanager.cc:98-151 | addEvent keeps the table consistent, so its emptiness assertion never fails; it refuses a registered event, and otherwise exactly when epoll_ctl fails or the kernel's set disagrees with the registered events |
| FdTable.PerformKeepsAgreement | sylar/iomanager.cc:121-137 | ADD, MOD and DEL are always legal for the kernel, and the interest mask agrees with the registered events afterwards iff the operation is not a dispatch that fires an unreported event |
| FdTable.UnreportedFiringBlocksRegistration | sylar/iomanager.cc:345-382 | after such a dispatch, in every later state of the run, every registration on that fd fails and the kernel disagrees with the table |
| FdTable.OrphansStay | sylar/iomanager.cc:121-137 | an fd the kernel watches without a registered event stays that way under every operation, and cannot be registered |
| FdTable.RunsKeepTable | sylar/iomanager.cc:98-258 | the table is consistent after every run from a new IOManager, whatever epoll_ctl does |
| FdTable.RunsAgree | sylar/iomanager.cc:335-383 | after a run the kernel's interest agrees with the table if and only if no dispatch of the run fired an unreported event |
| FdMeaning.AddMeans | sylar/iomanager.cc:98-151 | addEvent registers exactly the given waiter for exactly that event and tells epoll, iff nobody is registered and epoll_ctl works; otherwise nobody's registration changes |
| FdMeaning.RemoveMeans | sylar/iomanager.cc:153-219 | delEvent and cancelEvent remove exactly a registered event, iff somebody waits for it and epoll_ctl works; cancelEvent wakes that waiter and nobody else |
| FdMeaning.CancelAllMeans | sylar/iomanager.cc:221-258 | cancelAll wakes everybody who waits on the fd, READ's waiter first, and takes the fd out of epoll |
| FdMeaning.DispatchMeans | sylar/iomanager.cc:335-383 | a report fires iff EPOLLIN meets a READ waiter, EPOLLOUT a WRITE waiter, or an error or hang-up any; then everybody on the fd is woken, READ's waiter first, and epoll keeps the registered events the report does not concern |
| FdMeaning.AgreementMeans | sylar/iomanager.cc:121-137 | when the kernel agrees, it would report exactly the events somebody waits for |
| FdMeaning.GrowsByHalf | sylar/iomanager.cc:107-110 | a table that is too short grows to one and a half times the fd |
| IOManager.FdEvents.AddEvent | sylar/iomanager.cc:98-151 | the in-place code computes the table function, including growth and failure |
| IOManager.FdEvents.DelEvent | sylar/iomanager.cc:153-187 | the in-place code computes the table function; true iff somebody was registered and epoll_ctl worked, and then exactly that event is gone |
| IOManager.FdEvents.CancelEvent | sylar/iomanager.cc:189-219 | the in-place code computes the table function; under the same condition exactly that event is gone and exactly its waiter is woken |
| IOManager.FdEvents.CancelAll | sylar/iomanager.cc:221-258 | the in-place code computes the table function and wakes all waiters of the fd, READ's first |
| IOManager.FdEvents.DispatchOne | sylar/iomanager.cc:335-383 | one turn of the dispatch loop computes the table function; it wakes all waiters of the fd iff the report concerns one of them and epoll_ctl works |
| Semaphores.PermitsConserved | sylar/mutex.cc:38-72 | for every list of wait, tryWait and notify calls on a semaphore built with n: n + notifies = count + permits answered and fibers woken; nobody waits while a permit is free; fibers are woken in the order in which they had to wait |
| Semaphores.SemLaws | sylar/mutex.cc:38-72 | a permit is granted iff the count is positive, notify wakes the first waiter, and nobody waits while a permit is free |
| Semaphores.FiberSemaphore.TryWait | sylar/mutex.cc:38-48 | takes a permit iff one is free, never queues |
| Semaphores.FiberSemaphore.Wait | sylar/mutex.cc:50-61 | takes a permit or queues the fiber at the end |
| Semaphores.FiberSemaphore.NotifyOne | sylar/mutex.cc:63-72 | wakes the first waiter, or raises the count by one when nobody waits |
| Timers.ComparatorIsStrictTotalOrder | sylar/timer.cc:6-23 | the comparator, nulls included, is a strict total order |
| Timers.FindFinds | sylar/timer.cc:42-51 | in an ordered set find finds exactly the members, so what is erased is the timer itself |
| Timers.CancelKeeps | sylar/timer.cc:42-51 | cancel removes exactly its timer, returns whether it had a callback, keeps the order and the agreement of set and callbacks, and does nothing to a timer with a null callback |
| Timers.AddTimerKeeps | sylar/timer.cc:107-121 | adding a timer keeps the set ordered, and keeps "in the set iff it has a callback" exactly when the callback is not null |
| Timers.RescheduledKeeps | sylar/timer.cc:54-97 | a key changes only while its timer is outside the set, so the set stays ordered and keeps its members |
| Timers.RefreshKeeps | sylar/timer.cc:54-68 | refresh moves a timer that has a callback to now + ms, fails on any other, and keeps members, order and agreement |
| Timers.ResetKeeps | sylar/timer.cc:71-97 | reset keeps members, order and agreement; its result is true iff the timer has a callback or nothing was to change |
| Timers.ResetMeans | sylar/timer.cc:71-97 | reset changes exactly its own timer, iff that has a callback and something is to change: the new interval counted from now with from_now, from the start of the old interval without |
| Timers.ResetShape | sylar/timer.cc:71-97 | reset calls the wake-up hook iff the timer comes to the front of an untickled set |
| Timers.SplitIsExact | sylar/timer.cc:175-182 | whatever the probe's address, the elements before the split are exactly those with m_next <= now |
| Timers.ListExpiredExact | sylar/timer.cc:154-195 | returns the callbacks of exactly the due timers in set order and leaves the others plus the recurring ones at now + ms; with a rollover every timer is due |
| Timers.RolloverMeaning | sylar/timer.cc:210-218 | a reading is a rollover iff it is more than an hour before the previous one, or before it at all when the previous one is less than an hour after zero |
| TimerRuns.EveryRunKeepsSet | sylar/timer.cc:42-121 | in every reachable state, for all readings, intervals and callbacks, overflowing or null: the set is ordered by the current keys and holds every timer with a callback |
| TimerRuns.AgreesExactly | sylar/timer.cc:107-121 | in every run the set holds exactly the timers with a callback all along if and only if no null callback is ever added |
| TimerRuns.NullStaysExactly | sylar/timer.cc:42-97 | a timer with a null callback leaves the set in a step if and only if the step lists it as expired and it is not recurring; cancel and refresh on it change nothing and fail |
| TimerRuns.RecurringNullIsForever | sylar/timer.cc:183-193 | over runs, a recurring timer with a null callback stays in the set for ever |
| TimerRuns.CoveredExactly | sylar/timer.cc:135-208 | a run stays covered (a wake-up was issued since the last getNextTimer, or no pending timer is due before the deadline it computed) if and only if no refresh and no expiry moves a timer before that deadline unannounced; for all readings, intervals and clocks |
| TimerRuns.CoverageExact | sylar/timer.cc:54-68 | the same for one step |
| TimerRuns.EveryRunIsCovered | sylar/timer.cc:135-208 | under a clock that never goes back, without overflow, every reachable state is covered although refresh and recurring timers bypass the hook, and m_ms <= m_next <= now + m_ms; readings taken for a rollover are allowed where they do no harm |
| TimerRuns.RolloverCoverage | sylar/timer.cc:154-195 | exactly which readings do harm: those taken for a rollover when no wake-up is out and some pending recurring timer would be due again before the deadline |
| TimerRuns.StepKeepsInv | sylar/timer.cc:42-97 | every such step keeps coverage and the bounds |
| TimerRuns.WaitEndsAtDeadline | sylar/timer.cc:135-151 | the wait returned ends at the earliest pending timer, or at once if that has passed |
| TimerRuns.StaleReadingUncovers | sylar/timer.cc:210-218 | a concrete run: a reading held up for two hours is taken for a rollover and uncovers a recurring timer |
| TimerManagers.TimerManager.Schedule | sylar/timer.cc:107-121 | the in-place code computes AddTimer, hook call included, and keeps the order |
| TimerManagers.TimerManager.CancelTimer | sylar/timer.cc:42-51 | the in-place code computes Cancel; the timer is gone unless its callback was null |
| TimerManagers.TimerManager.RefreshTimer | sylar/timer.cc:54-68 | the in-place code computes Refresh; next is now + ms |
| TimerManagers.TimerManager.ResetTimer | sylar/timer.cc:71-97 | the in-place code computes Reset; next is now + ms with from_now, and keeps its start without; all other timers stay |
| TimerManagers.TimerManager.NextTimer | sylar/timer.cc:135-151 | the in-place code computes GetNextTimer |
| TimerManagers.TimerManager.DetectRollover | sylar/timer.cc:210-218 | true iff the reading is more than an hour before the previous one, or before it at all when the previous one is less than an hour after zero; the reading is remembered |
| TimerManagers.TimerManager.ListExpiredCb | sylar/timer.cc:154-195 | both loops compute ListExpired |
| ByteArrays.ByteArray.constructor | sylar/bytearray.cc:34-44 | one block, position 0, size 0, big endian, for every block size >= 1 |
| ByteArrays.ByteArray.CursorIsQuotient | sylar/bytearray.h:123-130 | m_cur is the node at index position / base, null exactly at capacity |
| ByteArrays.ByteArray.FlatByte | sylar/bytearray.h:18-27 | byte i of the flat sequence is byte i % base of node i / base |
| ByteArrays.ByteArray.AddCapacity | sylar/bytearray.cc:523-554 | appends the least number of blocks that makes room, keeps the contents, repairs a null cursor |
| ByteArrays.ByteArray.Write | sylar/bytearray.cc:363-397 | the flat bytes at the position are replaced, all others stay, position, size and capacity move as they should, and the invariant holds |
| ByteArrays.ByteArray.Read | sylar/bytearray.cc:399-427 | the flat slice, out of range iff too few bytes are left, a null dereference exactly at capacity or past it |
| ByteArrays.ByteArray.ReadAt | sylar/bytearray.cc:430-459 | the flat slice that starts in the current node at position % base; the asked-for slice when the position is the current one |
| ByteArrays.ByteArray.ToString | sylar/bytearray.cc:556-564 | all readable bytes, in every valid array |
| ByteArrays.ByteArray.SetPosition | sylar/bytearray.cc:461-478 | refused iff beyond the capacity; otherwise position, size and cursor are right |
| ByteArrays.ByteArray.GetReadBuffers | sylar/bytearray.cc:581-610 | the buffers lie in their blocks and concatenate to exactly the readable flat slice, at most len |
| ByteArrays.ByteArray.GetReadBuffersAt | sylar/bytearray.cc:613-647 | buffers over the flat slice at the given position, of the length clamped by the current position, and a bad node iff that slice ends behind the capacity |
| ByteArrays.ByteArray.PiecesHoldSlice | sylar/bytearray.cc:593-608 | the block-by-block pieces hold exactly the flat slice |
| ByteArrays.ByteArray.Clear | sylar/bytearray.cc:350-361 | one block is kept with its bytes; the array is valid afterwards iff its size was at most one block |
| ByteArrays.ByteArray.SetIsLittleEndian | sylar/bytearray.cc:59-65 | sets the byte order and nothing else |
| Codec.WireOrder | sylar/endian.h:13-29 | the bytes written are those of the chosen order on every host |
| Codec.WireByte | sylar/bytearray.cc:76-117 | byte i on the wire has weight 256^i in little endian and 256^(w-1-i) in big endian order, on every host |
| Codec.FixedRoundTrip | sylar/bytearray.cc:76-117 | every fixed-width number comes back, also between hosts of different byte order |
| Codec.ToBitsOf | sylar/bytearray.cc:68-116 | two's complement and back is the identity on the signed range |
| Codec.ZigzagBijection | sylar/bytearray.cc:119-141 | zigzag is a bijection of the signed onto the unsigned numbers of the width and its decoder, with shift, mask and xor, the inverse; the least value wraps |
| Varint.EncodeInto | sylar/bytearray.cc:149-158 | the loop fills its temporary with the encoding and never runs over it when the value has at most 7 bits for each of its bytes |
| Varint.EncodedLength | sylar/bytearray.cc:149-173 | k bytes suffice iff the value is below 2^(7k) |
| Varint.EncodedDigit | sylar/bytearray.cc:149-173 | byte i carries bits 7i to 7i + 6, and its high bit is set iff more follow |
| Varint.SelfDelimiting | sylar/bytearray.cc:149-173 | no encoding is a prefix of another |
| Varint.Uint32RoundTrip | sylar/bytearray.cc:267-279 | every 32-bit value comes back in at most five bytes, whatever follows |
| Varint.Uint64RoundTrip | sylar/bytearray.cc:285-297 | readUint64 gives the value modulo 2^35; value and position are right iff the value is below 2^35 |
| TypedValues.ValueReads | sylar/bytearray.cc:68-347 | a reader undoes its writer, whatever follows, iff the value is readable: 64-bit varints below 2^35, strings whose length fits the prefix, no empty string at the end of the capacity |
| TypedValues.ListRoundTrip | sylar/bytearray.cc:68-347 | any list of typed values, each in its own byte order, is read back as written and consumed whole if and only if each value is readable; otherwise the reader returns another list or fails |
| TypedValues.LengthReads | sylar/bytearray.cc:188-209 | a length prefix is read back iff it fits 16, 32, 64 bits or, for a varint, 35 |
| TypedValues.TextOnWire | sylar/bytearray.cc:188-209 | strings follow a prefix of 2, 4 or 8 bytes or a varint |
| TypedValues.FixedOnWire | sylar/bytearray.cc:68-117 | fixed-width numbers take their width, in two's complement and the array's byte order |
| Serializer.WriteVarint | sylar/bytearray.cc:149-173 | puts the varint at the position |
| Serializer.WriteFixed | sylar/bytearray.cc:68-117 | puts the number at the position in the array's byte order |
| Serializer.WriteText | sylar/bytearray.cc:188-209 | puts length prefix and bytes at the position |
| Serializer.ReadFixed | sylar/bytearray.cc:217-259 | decodes the readable bytes; nothing is consumed when too few are left |
| Serializer.ReadVarint | sylar/bytearray.cc:267-297 | the loop computes the decoder on the readable bytes, partial consumption on exceptions included |
| Serializer.ReadText | sylar/bytearray.cc:314-347 | decodes prefix and bytes, with its exception and its null dereference |
| Serializer.ReadValue | sylar/bytearray.cc:217-347 | every reader computes its decoder and moves the position by what it consumed |
| Serializer.RoundTrip | sylar/bytearray.cc:461-478 | write any list, seek back, read it: the same list and the same final position if and only if each value is readable where it is, for every block size and previous content; a null dereference if only an empty last string at the end of the capacity is in the way |
| WebSocket.HeadRoundTrip | sylar/http/ws_session.h:12-33 | the fields come back from the two header bytes |
| WebSocket.BytesRoundTrip | sylar/http/ws_session.h:12-33 | two bytes are the header of their fields if and only if the reserved bits are zero |
| WebSocket.MaskUndoes | sylar/http/ws_session.cc:160-164 | masking twice is the identity |
| WebSocket.MaskedWith | sylar/http/ws_session.cc:160-164 | byte i is masked with byte i % 4 of the key |
| WebSocket.MaskedFrame | sylar/http/ws_session.cc:217-236 | in a masked frame the key follows the length, and the masked bytes follow the key |
| WebSocket.ExampleFrames | sylar/http/ws_session.cc:183-201 | the unmasked, fragmented and control frames of section 5.7 of RFC 6455 |
| WebSocket.ExampleHeaders | sylar/http/ws_session.cc:203-215 | the 256-byte and 64-KiB headers of section 5.7 of RFC 6455 |
| WebSocket.ShortestLength | sylar/http/ws_session.cc:190-197 | the shortest length form is used |
| WebSocket.UnmaskedRefused | sylar/http/ws_session.cc:122-125 | a server closes the connection at an unmasked data frame |
| WebSocket.OtherOpcodesSkipped | sylar/http/ws_session.cc:118-119 | of any other frame only the header is read and nothing is answered |
| WebSocket.FragmentsRoundTrip | sylar/http/ws_session.cc:102-265 | for every limit and any fragments, empty and oversized ones included, masked or not, with PINGs and PONGs between them: the concatenation is received under the first opcode that is not CONTINUE, with one PONG written per PING and the rest of the stream unread, if and only if every fragment is taken and the peer takes the PONGs; otherwise no message |
| WebSocket.TakenBelowLimit | sylar/http/ws_session.cc:143-159 | for a limit of at most 2^31 every fragment is taken if and only if none is empty and the message is shorter than the limit |
| WebSocket.RefusedFragment | sylar/http/ws_session.cc:143-159 | a fragment that is empty, has 2^31 bytes or more, or reaches the limit closes the connection: at the limit with key and payload unread, otherwise with the frame consumed |
| WsSession.Stream.ReadFixSize | sylar/stream.cc:6-18 | however the bytes are split, all of them or a failure; lengths of 2^63 and more read nothing |
| WsSession.Stream.WriteFixSize | sylar/stream.cc:32-44 | all bytes, or as many as the peer takes and a failure |
| WsSession.WSRecvMessage | sylar/http/ws_session.cc:102-181 | for every uint32_t limit the receiving loop computes Recv on what arrives, on every branch, with the int cur_len, the uint64_t length check, what a closed connection leaves unread, and the payload read outside the string |
| WsSession.WSSendMessage | sylar/http/ws_session.cc:183-241 | the frame goes out as far as the peer takes it; success iff it all went out and the payload is not empty; a client's message is left masked |
| WsSession.SendControl | sylar/http/ws_session.cc:243-265 | two bytes, or a closed stream |
| WsSession.Transfer | sylar/http/ws_session.cc:102-265 | send with these senders, split the bytes at will, receive: the same message if and only if the receiver takes every fragment and the peer the PONGs |
| Base64.RoundTrip | sylar/util/hash_util.cc:131-238 | decoding an encoding gives back every byte string |
| Base64.TestVectors | sylar/util/hash_util.cc:198-238 | the test vectors of section 10 of RFC 4648 |
| Base64.GroupOfThree | sylar/util/hash_util.cc:198-238 | the four characters of a group are its bits, six at a time from the first byte on, with pads for missing bytes |
| Base64.Canonical | sylar/util/hash_util.cc:131-192 | an accepted string re-encodes to itself iff its unused trailing bits are zero |
| Base64.DecodedLength | sylar/util/hash_util.cc:133-134 | at most three bytes for four characters |
| Base64.DigitsAreAlphabet | sylar/util/hash_util.cc:199 | the character ranges spell out the table |
| HashUtil.Base64Encode | sylar/util/hash_util.cc:198-238 | the loops compute the encoding group by group |
| HashUtil.Base64Decode | sylar/util/hash_util.cc:131-192 | the loops accept exactly the well-formed strings, give their bytes and stay within the buffer of 3/4 of the length |
| Ttcp.NeverBlocks | 1_ttcp/ttcp_blocking.cc:31-112 | for all capacities >= 1, counts and lengths up to 2^31 - 5, on every run: all assertions hold, someone can move until both ends are done, the number of steps is bounded, and the receiver ends with exactly number copies of the payload and empty channels |
| Ttcp.TooLongFails | 1_ttcp/ttcp_blocking.cc:40-45 | for the four largest lengths, on every run: no payload moves, and someone can move until both ends have failed on the allocated message, within 16 steps |
| Ttcp.EndsWellExactly | 1_ttcp/ttcp_blocking.cc:85-89 | every run that can go no further ends with both ends done if the length is at most 2^31 - 5, and with both failed otherwise |
| Ttcp.StepKeepsInv | util/util.cc:3-33 | each partial write or read keeps "in the channel + still to write = still to read" in both directions and decreases the remaining work |
| Ttcp.Int32RoundTrip | 1_ttcp/ttcp_blocking.cc:32-33 | htonl and ntohl between hosts of any byte order |
| Ttcp.Int32Byte | 1_ttcp/ttcp_blocking.cc:32-33 | numbers are sent most significant byte first |
| Ttcp.MessageLayout | 1_ttcp/ttcp_blocking.cc:31-52 | count before length, length before characters, the length as acknowledgement |
| Ttcp.DataIsHex | 1_ttcp/ttcp_blocking.cc:48-50 | the characters are 0 to 9 and A to F over and over |
| Ttcp.TotalLength | 1_ttcp/ttcp_blocking.cc:40 | the total length is right iff the length is at most 2^31 - 5 |
| Echo.Conservation | util/util.cc:3-33 | on every run the bytes are conserved, and no run has more than 4 * len steps |
| Echo.StuckShape | 1_ttcp/echo/echo_server.cc:45-56 | a state is stuck exactly when the client still writes, both channels are full and the server is in the middle of a write |
| Echo.DeadlockThreshold | 1_ttcp/echo/echo_client.cc:36-43 | some run gets stuck iff len > c1 + c2 + 1 |
| Echo.CompletionThreshold | 1_ttcp/echo/echo_client.cc:36-43 | some run completes iff len <= c1 + c2 + min(4096, c1) |
| Echo.ShortMessagePasses | 1_ttcp/echo/echo_client.cc:36-43 | up to c1 + c2 + 1 no reachable state is stuck |
| Echo.LongMessageBlocks | 1_ttcp/echo/echo_server.cc:45-56 | beyond c1 + c2 + min(4096, c1) the client never finishes writing and every run that cannot go on is stuck |

## Left out

- Ragel grammars and the HTTP parsers and bodies built on them.
- `HttpConnectionPool`, `WorkerGroup`, address and mask arithmetic, HTTP servers and servlets.
- `ByteArray::writeToFile`, `readFromFile`, `getWriteBuffers` and `toHexString`.
- `IOManager::stopping`, which reads timers, pending count and queue at three different moments.
- `ucontext` switching, thread start and stop, the caller's root fiber, the pipe behind `tickle`, epoll's own removal of a
  closed fd, sockets, TLS and `dlsym`.
- Exceptions in fibers other than those that end in TERM or EXCEPT; WebSocket CLOSE frames and control frames with payload
  beyond what the receiving loop does with their header.
- `connect_with_timeout`, which waits like `do_io`; `usleep` and `nanosleep` park exactly as `sleep` does.
- Logging, configuration, modules, daemon, the netcat and roundtrip programs, command lines.
- Hex strings, `split` and `replace` of hash_util and the other hash functions, which are single loops over a string.
- Negative lengths of ttcp; for those from -4 to -1 the message is allocated too small for its own header.
- `malloc` failing for a size that is not negative.
- TimerRuns.EveryRunIsCovered: requires that adding an interval to a clock reading does not overflow;
  TimerRuns.CoveredExactly has no condition on readings and intervals.
- ByteArrays.ByteArray.Read: does not describe the array after a null dereference.
