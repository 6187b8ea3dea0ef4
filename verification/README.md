# TETware harness library: a model and its proofs

This project models the stateful core of the TETware harness library (`src/tet3`) in Dafny and proves
what the library promises about it: the thread locking and timer protocols, the table of threads, the
interprocess message format, the journal writer with its error path, and five small algorithms that
other parts rely on. `dafny verify dfyconfig.toml` checks everything.

| file | models |
|---|---|
| `ApiLock.dfy` | the nested API lock, statement by statement, for any number of threads |
| `MutexOrder.dfy`, `LockTraces.dfy` | every code path that takes the five library mutexes, the error reports made under them included, and what each locks and unlocks from beginning to end |
| `AlarmProtocol.dfy` | setting, firing and clearing alarms with a helper thread each |
| `LinkedList.dfy`, `ThreadTable.dfy` | the doubly linked list, and the table of threads built on it |
| `BlockNumbers.dfy` | context, block and sequence numbers of journal lines |
| `Ldst.dfy`, `Avmsg.dfy` | the descriptor-driven serializer, and character-string messages |
| `Journal.dfy`, `LineBuffer.dfy`, `InfoLines.dfy` | breaking text into journal lines, assembling and sending them |
| `LineStamp.dfy` | reading the fields of a journal line back as numbers |
| `MessageForm.dfy` | formatting one line, and what a message is in the journal and on the standard error output |
| `Delivery.dfy`, `ErrorPath.dfy` | which messages arrive where given the outcome of each send, and the mutually recursive error reporting |
| `Bufchk.dfy`, `Numerals.dfy`, `Ftoa.dfy`, `Putenv.dfy`, `TestList.dfy`, `Cancel.dfy` | growing buffers, numbers as text, flag names, the environment, test numbers, cancelled tests |
| `ReportRace.dfy` | errors that several threads report at the same time |
| `Options.dfy` | a pointer that may be null |

The two locks, the alarm protocol, overlapping reports and the numbering are step systems on values,
because their statements interleave: a state, an enabled action, the next state, and theorems about every run.
Memory is sequentially consistent. Everything else has the form of the C code: methods with its loops
over arrays, and classes with its static variables as fields. Allocation, writing and thread creation
may fail at any call: their answers are parameters, and each contract says for which of them the call fails.

## Where the code does not do what its comments say

- **Cleanup order** (`ThreadTable.ChainedJoins`). The comments at
  `src/tet3/apithr/thr_create.c:345-347` and `:494-500` say that a thread that is joining another is
  cleaned up before its target. When A joins B and then C joins A, A is moved back in front of B and
  B is cleaned up first. `ThreadTable.CleanupOrder` gives the order, and `ThreadTable.OrderKeptIff`
  the call that breaks it.
- **Mutex order** (`MutexOrder.CircularWaitIff`). The comments at `src/tet3/apithr/mutexes.c:51-54` and
  `:105` ask for one order. `fatal()` is called with the thread table or `tet_sigalrm_mtx` locked, and
  `error()` with all five; the report then takes the API lock, the first of all. Threads wait for each
  other in a circle exactly if such a report is stopped at the API lock and that belongs to the reporter
  itself or to a thread stopped at one of the reporter's mutexes. `CleanupReportDeadlocks`,
  `AlarmReportDeadlocks` and `SpawnReportDeadlocks` are runs.
- **The API lock taken directly** (`ApiLock.WaitsForItselfIff`). The comments at
  `src/tet3/apilib/tet_fork.c:308-310` and `src/tet3/apilib/tet_spawn.c:166-171` rely on no API function
  calling these two; but `tet_spawn()` reports a failing `pipe()` while it has the mutex, and waits for itself.
- **Mutex order and joins** (`MutexOrder.JoinCircleIff`). The lock order excludes circles of mutex
  waits among ordinary paths, but the cleanup joins a thread while it holds the table mutex. It and its
  target wait for each other exactly if the target is stopped at a mutex of the cleanup, at the API
  lock behind a thread that is about to lock the table, or behind an error report stopped in one of
  these ways. `MutexOrder.CleanupMayJoinItsWaiter` is such a run.
- **Spurious wakeups** (`AlarmProtocol.SafeIffNoSpuriousWakeups`). The wait loops of `alrm_thr()`
  leave on any result but EINTR. If a wait may return 0 unsignalled, a condition variable can be used
  after it was freed; if not, never.
- **An inherited context** (`BlockNumbers.ContextChangeRepeatsPairIff`). When a process that wrote
  under its parent's context takes its own, a (block, sequence) pair can come back, under two
  contexts, exactly if the calling thread's present block already carries a line.
  `BlockNumbers.InheritedContextRepeatsPair` is such a child, with all it inherits at a fork.
- **Threads left over** (`BlockNumbers.SurvivorRepeatsStampIff`). `tet_tpstart()` resets the block counter
  and the calling thread's numbers only, and detached threads are in no table. Some continuation
  repeats a stamp in the new test purpose exactly if another thread has a block at its start.
  `BlockNumbers.DetachedThreadRepeatsStamp` is such a run.
- **Overlapping reports** (`ReportRace.OpenAtEndIff`). `tet_dtcmerror()` saves and restores the state of
  the standard channel without a lock. If one of two calls begins during the other and ends after
  it, the channel is closed for good (`ReportRace.OverlapCloses`); calls inside one another never do that.
- **Lowest component** (`TestList.GetMinIc`). A list that begins with a negative component is said to
  have 0 as its lowest, defined or not.
- **Lost messages** (`Delivery.MessageLostIff`). A message that needs a warning is not reported at
  all if sending the warning fails. A message is lost, in the sense that nothing printed depends on
  it, exactly then or when its own send fails, keeps nothing, and the server library's report about
  that failure fails as well: that report's exit comes before the message is printed.
  `Delivery.LostRun` is a run, and `Delivery.TruncatedShownIff` says it of the two outputs.
- **A dangling environment** (`Putenv.Environment.Putenv`). If the array of our own can not grow,
  `tet_bufchk()` reallocates it at its old size; if that moves it, `environ` still points at the
  storage that is now free. `Putenv.Environment.WillDangle` says before the call whether that happens;
  `Putenv.DanglingRun` is a run.

## Model

| member | source | states |
|---|---|---|
| ApiLock.Execute | src/tet3/apithr/api_lock.c:86-127 | one atomic access of the locking code: each read and write of nestlevel, ownertid and the saved mask is a step of its own |
| ApiLock.InvHolds | src/tet3/apithr/api_lock.c:86-127 | in every state of every run, for every thread: what its program counter says about the mutex, the counter, the owner and the saved mask is true |
| ApiLock.MutualExclusion | src/tet3/apithr/api_lock.c:92-105 | two threads between taking and dropping the top mutex are the same thread, and it is the holder, although the guard reads without the mutex |
| ApiLock.NestlevelNamesHolder | src/tet3/apithr/api_lock.c:83-84 | whenever nestlevel is not 0, ownertid is the mutex holder and nestlevel counts its open calls |
| ApiLock.CallReturns | src/tet3/apithr/api_lock.c:86-127 | in every run a call of tet_api_lock() or tet_api_unlock() returns within eight of the caller's own steps, whatever other threads do, one level deeper or one level up; then the mutex is the caller's exactly if it is still inside |
| ApiLock.GuardSkipsIffHolder | src/tet3/apithr/api_lock.c:92-92 | the guard goes past the mutex only for the thread that holds it, and goes to take it for the others and for a thread that took it without the guard |
| ApiLock.WaitsForItselfIff | src/tet3/apithr/api_lock.c:99-99 | a thread stopped at the mutex waits for itself exactly if it took the mutex directly; otherwise it waits for another thread, which can go on exactly if that one does not wait for itself |
| ApiLock.SelfWaitLasts | src/tet3/apilib/tet_spawn.c:181-187 | a thread that waits for itself does so in every continuation, and keeps the mutex |
| ApiLock.SpawnReportWaitsForItself | src/tet3/apilib/tet_spawn.c:181-221 | a run: the report that pipe() failed waits for the mutex that its own thread has |
| ApiLock.UnlockAssertionsHold | src/tet3/apithr/api_lock.c:113-114 | both assertions at the start of an unlock hold in every run of balanced calls |
| ApiLock.MaskRestored | src/tet3/apithr/api_lock.c:118-125 | outside all calls again, a thread has exactly the signal mask it had before its outermost lock, although the saved mask is one shared static |
| ApiLock.MaskChangedInside | src/tet3/apithr/api_lock.c:94-125 | a run: a thread locks, changes its mask, unlocks, and has its old mask |
| ApiLock.SignalsBlockedInside | src/tet3/apithr/api_lock.c:94-103 | at any nesting depth exactly the blockable signals are blocked beside those blocked before, from the outermost lock to the outermost unlock |
| MutexOrder.Permits | src/tet3/apithr/mutexes.c:102-128 | which lock, unlock, wait and wake each routine may do next |
| MutexOrder.InvHolds | src/tet3/apithr/thr_create.c:490-554 | in every run a mutex is owned by a thread exactly when that thread's code holds it at its program counter |
| MutexOrder.InOrderUnlessReporting | src/tet3/apithr/mutexes.c:105-113 | whatever a thread is about to lock comes after everything it holds, in the documented order, exactly if it is not reporting an error under a mutex |
| MutexOrder.CircularWaitIff | src/tet3/dtet2lib/alarm.c:242-298 | in every reachable state threads wait in a circle, of any length, exactly if a report is stopped at the API lock and that is its own or is held by a thread stopped at the reporter's mutex |
| MutexOrder.AllGoOnIff | src/tet3/apithr/mutexes.c:102-114 | every stopped thread waits, directly or through others, for one that is not stopped, exactly if there is no such report |
| MutexOrder.SomeHolderRuns | src/tet3/apithr/mutexes.c:102-114 | whenever mutexes are held and there is no such report, some holder is not stopped at a held mutex |
| MutexOrder.CleanupReportDeadlocks | src/tet3/apithr/thr_create.c:522-524 | a run: the cleanup can not create its helper while tet_mtx_lock() is stopped at the thread table |
| MutexOrder.AlarmReportDeadlocks | src/tet3/dtet2lib/alarm.c:266-293 | a run: an alarm thread reports an error while tet_mtx_lock() is stopped at its mutex |
| MutexOrder.SecondWaitReportDeadlocks | src/tet3/dtet2lib/alarm.c:275-293 | a run: the same when the second wait has ended in time |
| MutexOrder.SpawnReportDeadlocks | src/tet3/apilib/tet_spawn.c:181-221 | a run: a report with all mutexes locked waits for its own thread |
| MutexOrder.ForkWaitsForItselfIffNested | src/tet3/apilib/tet_fork.c:299-341 | taking all mutexes before a fork waits for itself exactly when the caller is inside another API call |
| MutexOrder.JoinCircleIff | src/tet3/apithr/thr_create.c:539-540 | in every reachable state a chain of mutex waits leads from the target of the cleanup's join back to the cleanup exactly if the target is stopped at a mutex the cleanup owns, at the API lock whose owner is about to lock the table, or behind a report that is stopped in one of these ways |
| MutexOrder.OwnJoinWaitsForNoMutex | src/tet3/apithr/thr_create.c:539-540 | a cleanup that joins its own thread waits for no mutex |
| MutexOrder.CleanupMayJoinItsWaiter | src/tet3/apithr/thr_create.c:539-540 | a run in which the cleanup joins a thread that waits for the table mutex the cleanup holds |
| LockTraces.RoutineTracesIff | src/tet3/dtet2lib/alarm.c:242-298 | each of the six routines can go through exactly the stated sequences of locks and unlocks from beginning to end: the alarm thread, for instance, any number of waits and, after a timeout, any number of further waits nested inside the second mutex |
| LockTraces.LocksNest | src/tet3/apithr/api_lock.c:86-109 | any number of nested calls takes the top mutex once and counts them |
| LockTraces.UnlocksReturn | src/tet3/apithr/api_lock.c:111-127 | after as many unlocks everything is as before |
| LockTraces.ReportComesToEnd | src/tet3/apilib/dresfile.c:908-920 | an error report that is not stopped at the API lock ends with the mutexes and the nesting it found |
| AlarmProtocol.StepCaller | src/tet3/dtet2lib/alarm.c:151-199 | one shared access of setting or clearing an alarm, with each failure, that of the final join included |
| AlarmProtocol.StepHelper | src/tet3/dtet2lib/alarm.c:242-304 | one shared access of the helper thread: the two waits, sending the signal between them, and each fatal error |
| AlarmProtocol.InvHolds | src/tet3/dtet2lib/alarm.c:242-341 | with any number of alarms, flag, condition variable, both mutexes and the signal disposition agree with all program counters |
| AlarmProtocol.NoMisuse | src/tet3/dtet2lib/alarm.c:332-332 | no condition variable is waited on, signalled or destroyed unless live, or freed unless destroyed; none is freed twice |
| AlarmProtocol.ReleasedExactlyOnce | src/tet3/dtet2lib/alarm.c:255-261 | after a successful clear the helper is gone and the condition variable was freed exactly once; after a failed set nothing is left |
| AlarmProtocol.UnjoinedIsLeftToHelper | src/tet3/dtet2lib/alarm.c:336-341 | when the join fails the helper has been signalled, and the condition variable is freed exactly if the helper is gone |
| AlarmProtocol.DispositionRestored | src/tet3/dtet2lib/alarm.c:266-298 | the process-wide SIGALRM disposition is the original one whenever its mutex is free |
| AlarmProtocol.KillsUnderOwnAction | src/tet3/dtet2lib/alarm.c:268-272 | an alarm sends at most one SIGALRM, with its own action installed and before it has been cleared |
| AlarmProtocol.QuietOnceCleared | src/tet3/dtet2lib/alarm.c:323-341 | once a clear has returned, nothing about the alarm ever changes again, so no SIGALRM follows |
| AlarmProtocol.SentIffTimedOut | src/tet3/dtet2lib/alarm.c:242-294 | in every reachable state a helper past sending has sent exactly one SIGALRM if its first wait ended with the time up and the flag set, and none otherwise, spurious wakeups or not |
| AlarmProtocol.SentAfterTimeout | src/tet3/dtet2lib/alarm.c:245-272 | a SIGALRM is sent only after the timed wait has timed out and the flag was then found set under the mutex |
| AlarmProtocol.AlarmGoesOff | src/tet3/dtet2lib/alarm.c:151-341 | a run from setting the alarm over the timeout to its clear, with one SIGALRM sent |
| AlarmProtocol.AlarmStaysSilent | src/tet3/dtet2lib/alarm.c:151-341 | a run in which the alarm is cleared in time and none is sent |
| AlarmProtocol.HelperEnds | src/tet3/dtet2lib/alarm.c:242-304 | once the flag is clear the helper is gone after at most 18 steps of its own; until then it can go on but for a held mutex and a signal that is about to be sent, so no wakeup is lost |
| AlarmProtocol.CallerRuns | src/tet3/dtet2lib/alarm.c:145-341 | setting and clearing take their steps one after the other, at most six, and return in one of the four ways |
| AlarmProtocol.JoinDecides | src/tet3/dtet2lib/alarm.c:336-341 | the clear returns 0 exactly if the join succeeds, and -1 otherwise |
| AlarmProtocol.FatalIff | src/tet3/dtet2lib/alarm.c:262-293 | in every run a step ends the process exactly if a wait has failed, the second wait has timed out, or sigaction() or TET_THR_KILL() fails; never after an interrupted wait |
| AlarmProtocol.InterruptedWaitsAgain | src/tet3/dtet2lib/alarm.c:247-252 | a run: an interrupted wait is waited again |
| AlarmProtocol.FailedWaitIsFatal | src/tet3/dtet2lib/alarm.c:262-264 | a run: a failed one ends the process |
| AlarmProtocol.SpuriousWakeupMisuses | src/tet3/dtet2lib/alarm.c:245-261 | a run in which one unsignalled return of 0 makes the clear signal a freed condition variable |
| AlarmProtocol.SafeIffNoSpuriousWakeups | src/tet3/dtet2lib/alarm.c:247-252 | condition variables are never misused, in all runs, exactly when timed waits return 0 only if signalled |
| LinkedList.List.Insert | src/tet3/dtet2lib/llist.c:49-62 | the element is in front of all others, next and last are mutually inverse, nothing else changes |
| LinkedList.List.Remove | src/tet3/dtet2lib/llist.c:68-85 | exactly this element leaves the list, its links are cleared and the others keep their order |
| ThreadTable.Apply | src/tet3/apithr/thr_create.c:678-697 | what adding, raising, removing and emptying do to the table as a sequence |
| ThreadTable.WaitTimeAfter | src/tet3/apithr/thr_create.c:663-702 | each operation changes what the table says about one thread at most: an added or updated one has its new wait time, a removed one is gone, raising changes nothing |
| ThreadTable.InvHolds | src/tet3/apithr/thr_create.c:348-388 | in every run thread ids are unique and the table is ordered by the time each entry was last put at the head |
| ThreadTable.CleanupOrder | src/tet3/apithr/thr_create.c:494-507 | cleanup reaches one thread before another exactly when the other was put at the head later |
| ThreadTable.OrderKeptIff | src/tet3/apithr/thr_create.c:344-356 | of two threads in the table, the one cleaned up first stays so over any further call that leaves both in it, exactly if the call does not start a join of it |
| ThreadTable.OrderHoldsIff | src/tet3/apithr/thr_create.c:345-355 | over every run that leaves both in the table the order holds throughout exactly if nobody starts to join the one cleaned up first |
| ThreadTable.JoinerCleanedFirst | src/tet3/apithr/thr_create.c:345-355 | after a join has moved its target to the head, the joiner is cleaned up before the target as long as its own entry stays and is not moved |
| ThreadTable.ChainedJoins | src/tet3/apithr/thr_create.c:494-500 | with three threads and two joins a target is cleaned up before its joiner |
| ThreadTable.Threads.Find | src/tet3/apithr/thr_create.c:373-375 | the search loop finds the first entry with the thread id, or the end of the list |
| ThreadTable.Threads.TtAdd | src/tet3/apithr/thr_create.c:663-702 | a known thread id is updated in place, with its list position kept; a new one goes to the head; the answer says which |
| ThreadTable.Threads.Create | src/tet3/apithr/thr_create.c:272-315 | every allocated entry is in the list or has been freed exactly once; the answer is exactly determined by whether there is memory for an entry and whether the system creates the thread |
| ThreadTable.Threads.JoinBegin | src/tet3/apithr/thr_create.c:344-356 | the target's entry moves to the head, and only it moves |
| ThreadTable.Threads.JoinEnd | src/tet3/apithr/thr_create.c:362-389 | an entry that was found is removed and freed exactly when the thread is joined, unknown or not joinable |
| ThreadTable.Threads.Detach | src/tet3/apithr/thr_create.c:404-429 | the same for detaching |
| ThreadTable.Threads.Reset | src/tet3/apithr/thr_create.c:653-660 | the table is empty and every entry has been freed |
| ThreadTable.Threads.ClnThreads | src/tet3/apithr/thr_create.c:501-550 | every thread is waited for exactly once, in reverse table order, for what is left of its wait time and not at all after a signal; the table ends empty |
| BlockNumbers.Do | src/tet3/apilib/dresfile.c:836-872 | what setting the context or the block, writing lines and starting a test do to the numbers |
| BlockNumbers.InvHolds | src/tet3/apilib/dresfile.c:836-872 | in every run, throughout a test purpose that was started when no other thread had a block, each block belongs to one thread, and every line's numbers lie behind those of the thread that owns its block |
| BlockNumbers.StampsUnique | src/tet3/apilib/dresfile.c:593-596 | no two journal lines of a process carry the same context, block and sequence number within such a test purpose, whichever threads wrote them and whatever happened in other test purposes |
| BlockNumbers.StampsIncrease | src/tet3/apilib/dresfile.c:860-872 | each thread's (block, sequence) pairs strictly increase within such a test purpose and one context |
| BlockNumbers.SurvivorRepeatsStampIff | src/tet3/tcm/ictp.c:342-346 | in every run, some continuation repeats a stamp in a new test purpose exactly if a thread other than the caller has a block when it starts |
| BlockNumbers.DetachedThreadRepeatsStamp | src/tet3/apithr/thr_create.c:272-297 | a run: a detached thread of one test purpose and a thread of the next write the same stamp |
| BlockNumbers.PairsUnique | src/tet3/apilib/dresfile.c:836-853 | no two lines of a test purpose carry the same (block, sequence) pair if it was started when no other thread had a block and the context changes in it are harmless, whatever the process inherited |
| BlockNumbers.PairsUniqueInOwnContext | src/tet3/apilib/dresfile.c:836-853 | the same if each write finds no context or the process's own |
| BlockNumbers.ContextChangeRepeatsPairIff | src/tet3/apilib/dresfile.c:836-853 | at a call that changes the context, some continuation repeats a pair within the test purpose exactly if the caller's block already carries a line of it |
| BlockNumbers.InheritedContextRepeatsPair | src/tet3/apilib/dresfile.c:836-853 | a forked child with its parent's context, block numbers and thread data that writes before it sets its context repeats a pair |
| BlockNumbers.ChildLinesDistinct | src/tet3/apilib/tet_fork.c:414-422 | no line of a forked child, whatever it does, carries the stamp of a line that its parent writes in its own context before or after the fork; all lines of the child are in its own context |
| BlockNumbers.ChildStartsInFirstBlock | src/tet3/apilib/tet_fork.c:414-422 | until the thread that was forked sets a block, its i-th line in the child has block 1 and sequence number i, whatever other threads of the child do |
| BlockNumbers.NumberedFromOne | src/tet3/apilib/dresfile.c:825-876 | in every run, from a call of tet_setblock() or tet_tpstart() or a change of the context on, the i-th line of the calling thread has its block and sequence number i, until it makes such a call again |
| BlockNumbers.BlocksInTurn | src/tet3/apilib/dresfile.c:860-876 | blocks are given out one after the other to all threads alike, and tet_tpstart() takes the first |
| BlockNumbers.EndedIsGone | src/tet3/apilib/dresfile.c:218-244 | a thread that has ended is not left over in a test purpose |
| BlockNumbers.UnsetThreadsCollide | src/tet3/apilib/dresfile.c:225-242 | two threads that write before their first block carry the same stamp |
| BlockNumbers.Numbering.SetContext | src/tet3/apilib/dresfile.c:825-858 | the new values of all numbering variables |
| BlockNumbers.Numbering.SetBlock | src/tet3/apilib/dresfile.c:860-875 | the new values of all numbering variables |
| BlockNumbers.Numbering.WriteLines | src/tet3/apilib/dresfile.c:401-419 | the stamp of each line written and the numbers left behind |
| BlockNumbers.Numbering.StartTest | src/tet3/tcm/ictp.c:335-351 | the block counter and the caller's numbers start again; other threads keep theirs |
| BlockNumbers.Numbering.StartChild | src/tet3/apilib/tet_fork.c:414-422 | the child has its own context and its numbers start again |
| BlockNumbers.Numbering.Exec | src/tet3/tcm/child.c:153-158 | context and block counter are inherited, the thread data is not |
| Ldst.TypeKeepsCount | src/tet3/inc/ldst.h:85-97 | a type word gives its kind and count back exactly for counts below 4096 |
| Ldst.DecEnc | src/tet3/inc/ldst.h:117-129 | a value survives the stream exactly when it fits the kind's 8, 16 or 32 bits |
| Ldst.HighByteFirst | src/tet3/inc/ldst.h:117-129 | the bytes of a value, read as one number with the first byte highest, are its low 8, 16 or 32 bits |
| Ldst.PackedCarriesAll | src/tet3/dtet2lib/ldst.c:125-146 | with disjoint stream regions the packed stream holds the encoding of every described element |
| Ldst.PackedOutside | src/tet3/dtet2lib/ldst.c:125-146 | packing writes only described bytes |
| Ldst.RoundTrip | src/tet3/dtet2lib/ldst.c:79-146 | unpacking what was packed restores every described cell and changes no other, for every description with disjoint stream regions and fitting values |
| Ldst.Put | src/tet3/inc/ldst.h:125-129 | the store macros write the encoding over exactly its bytes |
| Ldst.Get | src/tet3/inc/ldst.h:117-123 | the load macros decode it, with the first byte as a signed char except for unsigned shorts |
| Ldst.PutArray | src/tet3/dtet2lib/ldst.c:221-263 | the array converters to the stream, and the bytes they used |
| Ldst.GetArray | src/tet3/dtet2lib/ldst.c:156-212 | the array converters from the stream, and the bytes they used |
| Ldst.St2bs | src/tet3/dtet2lib/ldst.c:117-147 | the whole stream after packing, and its length |
| Ldst.Bs2st | src/tet3/dtet2lib/ldst.c:72-109 | which descriptions are converted, the whole structure afterwards, and success exactly when the length is the total size of some first elements |
| Avmsg.FixedPartDecodes | src/tet3/dtet2lib/avmsg.c:138-140 | the count comes back, and a value comes back exactly when it fits 32 bits |
| Avmsg.StringAtOffset | src/tet3/dtet2lib/avmsg.c:107-116 | every string lies, with its terminator, inside the message where its offset says |
| Avmsg.StringsDisjoint | src/tet3/dtet2lib/avmsg.c:107-116 | strings of different slots occupy disjoint bytes after the offset table |
| Avmsg.DecodesIffOffsetsFit | src/tet3/dtet2lib/avmsg.c:107-113 | the decoded offsets are the true ones exactly when every string starts within the first 64 kilobytes |
| Avmsg.ShortMessagesDecode | src/tet3/dtet2lib/avmsg.c:183-188 | in messages of at most 65535 bytes every slot decodes to its string or to null |
| Avmsg.MessageRoundTrip | src/tet3/dtet2lib/avmsg.c:85-192 | a received structure has the sent values, count, strings and null pointers, whatever follows the message in the stream |
| Avmsg.AvmsgBsLen | src/tet3/dtet2lib/avmsg.c:198-209 | the length of the message |
| Avmsg.Avmsg2Bs | src/tet3/dtet2lib/avmsg.c:85-119 | writes exactly an encoding of the message, of the length predicted, and no byte beyond it |
| Avmsg.Bs2Avmargv | src/tet3/dtet2lib/avmsg.c:172-192 | success exactly when the remaining length is that of the offset table, and then every pointer |
| Avmsg.Bs2Avmsg | src/tet3/dtet2lib/avmsg.c:131-162 | success exactly when the stream holds the fixed part and the offset table it announces, and the structure has or is granted room for one string and then for all; then the structure holds what the stream says |
| Bufchk.Buffer.Check | src/tet3/dtet2lib/bufchk.c:59-109 | failure exactly if more room is needed and refused; success gives the room asked for and keeps all contents; failure keeps the buffer, or loses all of it exactly if the old size is refused too; the old storage is free exactly if the buffer moved |
| Numerals.ParseDecimal | src/tet3/dtet2lib/ltoa.c:61-75 | the text of a number says which number it was |
| Numerals.LongsFit | src/tet3/inc/ltoa.h:48-48 | the row size covers every long of every width, the most negative one included |
| Numerals.WriteDigits | src/tet3/dtet2lib/ltoa.c:61-70 | the digit loop, with division that truncates toward zero, writes the digits of the magnitude |
| Numerals.WriteBackwards | src/tet3/dtet2lib/ltoa.c:61-75 | the text ends at the end of the row and no write goes before its start |
| Numerals.Longs.L2a | src/tet3/dtet2lib/ltoa.c:53-76 | the answer reads as the number, and the last five answers, this one included, still read as they did |
| Journal.PreamblesShort | src/tet3/apilib/dresfile.c:593-596 | with 64-bit longs and 32-bit ints every preamble leaves room on its line |
| Journal.LineLen | src/tet3/apilib/dresfile.c:587-615 | how much of the text goes on a line |
| Journal.BreakIsGreedy | src/tet3/apilib/dresfile.c:598-615 | a line ends only at a newline, at the end of the text, at the last white space that fits, or at the limit if there is none |
| Journal.ProgressIff | src/tet3/apilib/dresfile.c:605-621 | a round of the loop uses up text exactly when the preamble is shorter than 511 characters or the line is empty |
| Journal.NothingLost | src/tet3/apilib/dresfile.c:576-656 | the bodies, with a newline put back exactly where one was consumed, make up the text |
| Journal.StartAdvances | src/tet3/apilib/dresfile.c:580-580 | every line uses up some of the text, so the loop ends |
| Journal.LineFits | src/tet3/apilib/dresfile.c:605-619 | every journal line has at most 511 characters and no newline in its body |
| LineStamp.PreambleStamped | src/tet3/apilib/dresfile.c:593-596 | the text of a line up to its second bar, split at bars and blanks, has six fields, which read as 520, the activity, the test purpose, the system and context, the block and the sequence number, in this order, whatever follows |
| LineStamp.TextStamped | src/tet3/apilib/dresfile.c:576-656 | line k of a text reads so with the k-th sequence number |
| Journal.NextLength | src/tet3/apilib/dresfile.c:587-615 | the forward and the backward search find that length |
| Journal.Assemble | src/tet3/apilib/dresfile.c:576-656 | the assembly loop ends with exactly the lines of the text in the buffers, and succeeds exactly if both requests for memory are granted for every line that the text has |
| LineBuffer.LineAtOffset | src/tet3/apilib/dresfile.c:648-655 | the offset saved for a line finds exactly that line in the finished buffer |
| LineBuffer.LineBuffer.AddLine | src/tet3/apilib/dresfile.c:622-655 | growing both buffers keeps all lines and offsets and adds one, exactly if both growths are granted |
| InfoLines.Send | src/tet3/apilib/dresfile.c:664-690 | without memory for the pointers exactly that is reported; otherwise all that happens is one send of exactly the assembled lines, and the answer is its outcome |
| InfoLines.Vprintf | src/tet3/apilib/dresfile.c:500-699 | success exactly if every request for memory is granted and the send succeeds; then the journal has gained exactly the lines of the text, each with fields that read as its stamp, and the answer is the sum of their lengths plus one each; without memory for a line nothing happens |
| InfoLines.HeaderFits | src/tet3/apilib/dresfile.c:383-419 | every preamble fits the 128-character header buffer |
| InfoLines.FormMessage | src/tet3/apilib/dresfile.c:416-420 | the formatted line, and exactly one warning if it was truncated, in the journal or printed |
| InfoLines.Minfoline | src/tet3/apilib/dresfile.c:378-493 | success exactly if all messages are null, or all requests for memory are granted and the warnings and the lines can be sent; then the journal has gained exactly the warnings about truncated lines and the lines of all messages that are not null, whose fields read as their stamps, numbered without gaps; with the journal closed the warnings are printed instead; nothing is written if all messages are null |
| MessageForm.FormedIs | src/tet3/apilib/dresfile.c:1161-1179 | a formatted line is header and data with newlines as tabs, cut at 511 characters, without the white space at its end |
| MessageForm.FormedFrom | src/tet3/apilib/dresfile.c:1161-1179 | the same in terms of the header and the data alone: the first 511 characters of both, the newlines of the data as tabs, without exactly the white space at the end |
| MessageForm.WarningNames | src/tet3/apilib/dresfile.c:1181-1186 | the warning quotes the header of the truncated line up to its 76th character |
| MessageForm.FormLine | src/tet3/apilib/dresfile.c:1151-1182 | the buffer holds that line, the backward loop stays in the buffer, and data is left over after the copying loops exactly when characters are lost |
| MessageForm.WarningNotTruncated | src/tet3/apilib/dresfile.c:1155-1186 | the warning about a truncated line is never truncated itself, under any header |
| MessageForm.NumberPrintedOnce | src/tet3/apilib/dresfile.c:927-949 | of several messages printed only the first has the text of the error number behind it |
| MessageForm.NullPrintedIff | src/tet3/apilib/dresfile.c:932-937 | a null message is printed only if it is the first and there is an error number |
| MessageForm.NumberSentOnce | src/tet3/apilib/dresfile.c:995-1040 | of several messages sent only the first has the error number in its header; the others, and the warnings about them, are as if reported alone with number 0 |
| Delivery.SentAll | src/tet3/apilib/dresfile.c:1127-1133 | as long as the process goes on every line is in the journal, in order, and nothing is printed |
| Delivery.ExitsIffSendFails | src/tet3/apilib/dresfile.c:1127-1133 | the process exits exactly if one of the sends of its lines fails |
| Delivery.LastWordsIff | src/tet3/servlib/xdxres.c:106-125 | after a failed send the line is the last words, unless the server library's report about the failure fails itself: then the process has exited before |
| Delivery.LastWordsRead | src/tet3/apilib/dresfile.c:1104-1133 | all that an exiting process prints, word for word: complaints if the failure was quiet, what could not be done, in the server version with the error number, and the line |
| Delivery.FirstLinesKept | src/tet3/apilib/dresfile.c:318-345 | a failing send leaves exactly its first lines in the journal, as many as it kept |
| Delivery.NoLinesRefused | src/tet3/servlib/xdxres.c:87-91 | an empty list of messages ends a process of the server version |
| Delivery.MessageLostIff | src/tet3/apilib/dresfile.c:1181-1186 | exactly when nothing that is printed depends on a message: its warning can not be sent, or its own send is swallowed by a report that fails |
| Delivery.MessageShown | src/tet3/apilib/dresfile.c:1127-1133 | a message that is not lost has its line in the journal or on the standard error output |
| Delivery.TruncatedShownIff | src/tet3/apilib/dresfile.c:1181-1186 | a truncated message is in one of the outputs exactly if the send of its warning succeeds |
| Delivery.LostRun | src/tet3/apilib/dresfile.c:1127-1133 | a run: everything the stand-alone version prints for a long message when it can not write its results file |
| ErrorPath.Api.MsgForm | src/tet3/apilib/dresfile.c:1151-1187 | a truncated line is reported by exactly one warning |
| ErrorPath.Api.MerrStderr | src/tet3/apilib/dresfile.c:927-949 | which messages are printed; of messages that are not null each is one line, and only the first ends with the text of the error number |
| ErrorPath.Api.Output | src/tet3/apilib/dresfile.c:272-349 | all that one call does for each outcome, in both versions: on success the journal gains exactly the lines; on failure the complaint, or the reports of the server library with all that these lead to, an exit included |
| ErrorPath.Api.XresdReports | src/tet3/servlib/xdxres.c:106-125 | the reports made with the journal open are sent to it like other messages, during which further ones are printed |
| ErrorPath.Api.Routput | src/tet3/apilib/dresfile.c:1099-1139 | the lines are in the journal, or the process exits with the last words stated |
| ErrorPath.Api.LibError | src/tet3/tcm/tcmfuncs.c:364-404 | of calls inside one another: terminates; nested, or with the channel closed, exactly the stated line is printed, nothing goes to the journal and the channel is as before; otherwise the message is sent |
| ReportRace.Do | src/tet3/tcm/tcmfuncs.c:395-401 | one access of a call to the count of calls and to the state of the channel, with any number of calls in progress |
| ReportRace.OpenAtEndIff | src/tet3/tcm/tcmfuncs.c:395-401 | in every run, once no call is in progress, the channel is open exactly if no call closed it after it had been opened again, put back a closed state over an open one, or left last with the open state it had kept |
| ReportRace.OpensAgainIff | src/tet3/tcm/tcmfuncs.c:395-401 | in every reachable state the channel can be open later exactly if it is open or a call in progress has kept it open |
| ReportRace.NestedStaysOpen | src/tet3/tcm/tcmfuncs.c:388-393 | if calls lie inside one another, to any depth, the channel is open once none is in progress |
| ReportRace.OverlapCloses | src/tet3/tcm/tcmfuncs.c:395-401 | a run: a call that begins during another and ends after it leaves the channel closed for good |
| ErrorPath.Api.TetError | src/tet3/apilib/dresfile.c:901-906 | exactly what reporting one message does to the journal, the standard error output and the process |
| ErrorPath.Api.Merror | src/tet3/apilib/dresfile.c:908-920 | terminates for every list of messages; with the channel closed exactly its lines are printed; otherwise all lines are in the journal in their order unless the process exits, sent together exactly if there is memory for that; in both outputs only the first has the error number |
| ErrorPath.Api.MerrStdchan | src/tet3/apilib/dresfile.c:958-1041 | all that reporting several messages does, given which requests for memory are refused: all lines are in the journal in their order, after all their warnings or, without that memory, each after its own, unless the process exits |
| ErrorPath.Api.MerrSc2 | src/tet3/apilib/dresfile.c:1049-1055 | one message: its warning if truncated and its line, each delivered in turn |
| ErrorPath.Api.MerrSc3 | src/tet3/apilib/dresfile.c:1064-1090 | the formatted line of a message, null ones included |
| Ftoa.LastFlagIs | src/tet3/dtet2lib/ftoa.c:102-107 | of several entries with the same value the last one names the bit |
| Ftoa.NamesAre | src/tet3/dtet2lib/ftoa.c:99-113 | the names are those of exactly the set bits, each once and in ascending order |
| Ftoa.UnnamedBit | src/tet3/dtet2lib/ftoa.c:108-110 | a bit that no entry names is shown as an octal number that reads as the bit, the sign bit as an unsigned long |
| Ftoa.NeedIsLength | src/tet3/dtet2lib/ftoa.c:82-92 | the first pass asks for exactly the bytes of the second, terminator included |
| Ftoa.TextSplits | src/tet3/dtet2lib/ftoa.c:99-118 | names without bars split out of the text again, one for each set bit in ascending order, except that a lone empty name reads as zero does |
| Ftoa.Measure | src/tet3/dtet2lib/ftoa.c:82-92 | the loop adds up that size, shifting only by bits of an int |
| Ftoa.Write | src/tet3/dtet2lib/ftoa.c:99-113 | the loop writes the joined names |
| Ftoa.Show | src/tet3/dtet2lib/ftoa.c:94-120 | the text is complete in the buffer, no write is outside it, and it fails exactly if the buffer is too short for the text and its terminator and may not grow |
| Ftoa.FlagNames.F2a | src/tet3/dtet2lib/ftoa.c:60-121 | the answer shows the text, and the answer of the call before still shows its own; it fails exactly if this call's buffer is too short for the text and may not grow |
| Putenv.LookupAfterPut | src/tet3/dtet2lib/putenv.c:68-100 | the assigned name looks up the new string and every other name what it did before |
| Putenv.PutChangesOne | src/tet3/dtet2lib/putenv.c:68-100 | exactly the first entry for the name is replaced in its place; without one the string goes to the end |
| Putenv.LookupAfterPuts | src/tet3/dtet2lib/putenv.c:68-100 | over any sequence of calls each name looks up what was last put, else what was there first |
| Putenv.SameNameIff | src/tet3/dtet2lib/putenv.c:71-74 | the comparison loop recognises exactly the entries that assign to the same name |
| Putenv.Environment.Search | src/tet3/dtet2lib/putenv.c:70-78 | the first entry for the name, or the end of the list |
| Putenv.Environment.Append | src/tet3/dtet2lib/putenv.c:80-102 | the string is at the end of the list, whether or not environ was ours, still terminated within its allocation; environ points at freed storage exactly if the growth was refused and environ was our array, which was moved |
| Putenv.Environment.Putenv | src/tet3/dtet2lib/putenv.c:58-105 | the whole environment after the call, in place or copied; failure exactly if the array must grow and may not; environ dangles exactly under a condition on the state before the call and the answers of realloc(), else a failure leaves the list as it was |
| Putenv.DanglingRun | src/tet3/dtet2lib/putenv.c:80-102 | a run: the second string is refused room and leaves environ at freed storage |
| TestList.TestNumIs | src/tet3/apilib/tciface.c:195-202 | a test number is 0 exactly for undefined pairs and otherwise leads back to its pair |
| TestList.TestNumInjective | src/tet3/apilib/tciface.c:195-202 | different pairs have different test numbers |
| TestList.TestNumOnto | src/tet3/apilib/tciface.c:195-202 | every number from 1 to the number of tests belongs to a pair |
| TestList.TestNumIncreases | src/tet3/apilib/tciface.c:195-202 | within a component test numbers increase with the test purpose |
| TestList.IsDefIc | src/tet3/apilib/tciface.c:149-159 | whether any test belongs to the component |
| TestList.GetTpCount | src/tet3/apilib/tciface.c:168-180 | how many do |
| TestList.GetTestNum | src/tet3/apilib/tciface.c:189-203 | the counting loop finds the test number |
| TestList.InvokeTp | src/tet3/apilib/tciface.c:211-223 | the function called is the one at the pair's test number, and none for undefined pairs |
| TestList.GetMaxIc | src/tet3/apilib/tciface.c:118-129 | the highest component, or 0 if all are lower |
| TestList.GetMinIc | src/tet3/apilib/tciface.c:131-142 | the lowest component that is not negative; it is a defined one exactly if the first entry is not negative or component 0 is defined |
| Cancel.PeakIsLargest | src/tet3/apilib/dcancel.c:172-181 | the high-water mark over all calls, which Delete keeps as its number of slots, is the largest number of tests deleted after any of them, and is reached |
| Cancel.OneMoreCall | src/tet3/apilib/dcancel.c:87-122 | what one call does to the reasons and the high-water mark over all calls |
| Cancel.ViewHolds | src/tet3/apilib/dcancel.c:149-160 | with distinct live slots the slots are a map |
| Cancel.NewReason | src/tet3/apilib/dcancel.c:102-109 | filling a free or new slot adds one reason, and slots grow in number only at a new high |
| Cancel.ReasonChanged | src/tet3/apilib/dcancel.c:118-121 | replacing or freeing a slot changes or removes one reason |
| Cancel.Deletions.DrFind | src/tet3/apilib/dcancel.c:149-160 | a slot with the test number, or proof that there is none |
| Cancel.Deletions.DrAlloc | src/tet3/apilib/dcancel.c:167-182 | a free slot if any is free, else one more; it fails exactly if all slots are in use and no room is left or granted |
| Cancel.Deletions.Delete | src/tet3/apilib/dcancel.c:87-122 | after every sequence of calls without an exit the slots hold the map that these calls make, and their number is the high-water mark over all of them; the process exits exactly if a new test is to be deleted and there is no room for it |
| Cancel.Deletions.Reason | src/tet3/apilib/dcancel.c:131-140 | agrees with that map for every number |

## Left out

- The static variables of `api_lock.c`, `mutexes.c` and `alarm.c` are fields of a state value instead of a class, because the statements of different threads interleave; memory weaker than sequentially consistent is not modelled.
- Ldst.RoundTrip: a structure is an array of scalar cells, one for each member element; host sizes, alignment and padding are not modelled, and the load macros take the host's `char` to be signed.
- Avmsg.Bs2Avmsg: a stream shorter than the fixed part, or with half an offset at its end, is read a little beyond its length by the code; the model asks that just those bytes can be read.
- ThreadTable.Threads.Create: the block of start routine and argument, which the new thread frees, is not modelled.
- ThreadTable.Threads.ClnThreads: the helper thread that forces a thread to exit, its SIGABRT handler and its waits are in `MutexOrder` only as lock users.
- ErrorPath.Api.Merror: lists of several messages are taken to have no null entries; the code passes on a wrong line count for those (`src/tet3/apilib/dresfile.c:995-1011`).
- ErrorPath.Api.Output: opening the results file is not modelled. The outcome of each send is a parameter: how many lines a failure kept, its error number, which errors the server library reported and whether the channel was closed. Reports under a send that succeeds nevertheless are left out.
- ErrorPath.Api.Routput: `tet_exit()` ends the process; the messages of its logging off, which a server may make, are left out.
- Delivery.TruncatedShownIff: the line has 256 characters or more, so that it can not be mistaken for the warning, and the server library makes no reports; MessageLostIff has neither condition.
- ErrorPath.Api.LibError: the file name and line number in front of a message, and its limit to the length of a path name.
- InfoLines.Vprintf: the text is already formatted; formatting into a buffer whose size was measured on the null device is not modelled. White space is that of the C locale.
- Putenv.Environment.Putenv: strings are values, so a later change by their owner is not seen; storage that was freed is recorded as such but never handed out again.
- Bufchk.Buffer.Check: sizes are counted in elements, and the error messages are left out.
- BlockNumbers.Do: a call that fails before it writes uses up sequence numbers without lines; only calls that write are operations here.
- BlockNumbers.StampsUnique: numbers are unbounded; the program keeps them in longs. Writers have called `tet_setblock()`, as the thread wrapper does for them; `UnsetThreadsCollide` shows two that have not.
- MutexOrder.CircularWaitIff: reports made by trace functions and by signal handlers are left out, and so is what `fatal()` does after its report.
- ReportRace.OpenAtEndIff: `inprogress++` and `--inprogress` are one access each, and the channel is closed for no other reason.
- The `alrmarg` block of `alarm.c`, which is read after the helper may have freed it; each thread is taken to have its own copy of the pointer to the condition variable.
- That a SIGALRM runs the new handler, which depends on the mask of the thread it is sent to.
- What the system does to create, join and kill threads, beyond success and failure.
- `tet_result()`, `tet_infoline()`, remote execution, synchronisation and transport, which need servers.
- Forking, executing, waiting for processes, files, directories and tracing.
- Tables of codes and names (`errmap.c`, `repcode.c` and the like); texts of errors are parameters of `MessageForm`.
- The branches for builds without threads and for Windows.
