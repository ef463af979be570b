# Verified model of the chat server and client

This project models the concurrent core, the server's state and the message format of the
multi-client chat program, and proves properties of whole runs.  `dafny verify dfyconfig.toml`
checks everything.

The monitors (`ThreadPool`, `ConcQueue`, `IOManger`), the MySQL pool and the sender with its queue
are step machines: a state record, a predicate `Enabled`, a function `Apply`, and `Reachable`
states over any number of threads and any schedule.  Every thread has a program counter; the
mutex, the wait sets, spurious wakeups and notifications that are still owed are explicit.  Beside
each machine stands a class with the source's fields, whose methods are the atomic steps and are
proved equal to `Apply`.  `owner` stands for the mutex; an index into `workers`, `calls`, `agents`
or `callers` is the identity of a thread or call.  The histories (`accepted`, `started`, `pushed`,
`popped`, ...) are ghost state.

The handlers are serialised tasks over the user table, the Redis keyspace and the outgoing buffer.
The environment record `Env` decides which statements and Redis calls succeed, so a theorem holds
for every pattern of failures that it does not exclude.  Table look-ups and inserts go through the
rendered SQL texts, cut at 99 bytes and read up to the closing quote; what the database makes of a
text that is not of the intended shape is the environment's choice (`strayRow`, `strayTable`).
Sessions go through the real command texts, cut at 99 bytes and split on blanks, and through
decimal printing and `atoi`.

| file | what it models |
|---|---|
| `Counting.dfy`, `Text.dfy`, `Wrappers.dfy` | sums over threads; splitting, tokenising, `to_string` and `atoi`; the optional value |
| `ThreadPool.dfy` | the worker pool: enqueue, worker loop, destructor |
| `ConcQueue.dfy` | the blocking queue with its two conditions |
| `IOManger.dfy` | the console monitor with a queue nested inside it |
| `ConcList.dfy` | the indexed list with a separate size counter |
| `MysqlPool.dfy` | the bounded connection pool and its callers |
| `Sql.dfy` | the SQL texts of the handlers and what the database reads in them |
| `RedisPool.dfy`, `ComManger.dfy` | the Redis client, its command texts, and the session registry |
| `SeqAbleObj.dfy` | the message object, its buffer, and its bytes on the wire |
| `Util.dfy` | the command language of the client |
| `HandleMsg.dfy`, `Sessions.dfy` | the handlers, and whole runs of the server |
| `Client.dfy` | the sender thread on its queue, up to its shutdown |
| `EndToEnd.dfy` | from typed lines to the server's tables |

The sender's shutdown theorems take every ordinary push to carry something other than the stop
message; `EndToEnd.PushersNeverStop` is what justifies that for the handlers and the parsed lines.

## What the code does differently from what one expects

The model follows the code; each of these is a proved statement.

- Names and passwords are pasted into the SQL texts as they are.  A text is read back as itself
  exactly when it is quotable: no quote, and no backslash except before `%` or `_`
  (`Sql.SelectReading`, `Sql.InsertReadsBack`).  With a lone quote the text is another statement
  (`Sql.LoneQuote`, `Sql.LoneQuotePassword`), and a doubled quote stores another name
  (`Sql.DoubledQuote`).
- A registration keeps names unique, on every table and in every environment, exactly when its
  SELECT and its INSERT name the same user, or one of them is no statement
  (`HandleMsg.NamesStayUniqueExactly`); a password with a lone quote is an input where it need not
  (`HandleMsg.LoneQuotePasswordCanRepeatAName`).
- A session belongs to a row of its name, whatever the name, exactly when that is quotable or its
  query is no statement (`HandleMsg.SessionBelongsExactly`); a name with a lone quote is an input
  where it need not (`HandleMsg.LoneQuoteNameCanLackARow`).
- The name of a session is printed twice as a format on its way to Redis, which changes it exactly
  when it holds a percent sign (`ComManger.SessionRoundTrip`).
- A stopped pool that runs a task which never returns, like the logger, cannot be joined
  (`ThreadPool.JoinsExactlyWithoutPermanentTasks`).
- Name, printed descriptor and password must share 37 characters, or the INSERT is cut and the
  registration refused, although the client admits 23 and 39 (`Sql.StoreFitsExactly`,
  `EndToEnd.RegistrationRuns`).
- A login whose name is not found is answered with an acceptance and adds no session
  (`HandleMsg.LoginAddsSessionOnlyOnMatch`).  Only a matched login is known to answer to the
  caller's descriptor.
- A logout message is never dispatched (`HandleMsg.NotDispatched`).
- A registration or a friend request that gets no result set dereferences null
  (`HandleMsg.NullIsDereferenced`).
- Registration keeps names unique only because tasks are serialised
  (`HandleMsg.InterleavedRegistrations`).
- A session is readable again exactly when the name is one non-empty word
  (`ComManger.SessionRoundTrip`).  A missing hash reads as an empty name and descriptor 0, not as
  a failure (`ComManger.GettersWithoutHash`).
- What Redis answers to a login or a logout is not looked at, errors included: the call succeeds
  exactly when both commands are answered (`ComManger.AnswersAreNotRead`), and half of it stays done
  when only the first is (`ComManger.HalfDone`).
- `waitTillNotEmpty` without a `pop` after it can lose a wakeup, and nothing else can
  (`ConcQueue.OnlyLoneWaitsLoseWakeups`).
- An exception outside the `try` blocks of `ExecQuery` and `ExecInsert` leaks its connection
  (`MysqlPool.QuiescentExactlyWhenNothingEscaped`), and initialising a pool in use forgets what it
  holds (`MysqlPool.InitAccounts`).
- `isTalking` never sees a talk in progress (`IOManger.IsTalkingNeverSeesTheTalk`).
- `ConcList::waitPushTillEmpty` does not count its push (`ConcList.SizeCountsCountedPushes`), and
  `erase` does not signal emptiness (`ConcList.EraseLosesWakeup`).
- A pool without workers joins at once and leaves its tasks undone
  (`ThreadPool.DrainedWhenJoined`).
- The length guards of the handlers never fire on a received message, whose `len` is 0
  (`EndToEnd.GuardsNeverFire`).

## Model

| member | source | states |
|---|---|---|
| ThreadPool.ReachableInv | smer/Util/inc/ThreadPool.h:38-103 | every state of every run has one mutex holder, a coherent shutdown phase, covered wakeups, one FIFO, each started task in one place, and no rejection before stop |
| ThreadPool.ReachStep | smer/Util/inc/ThreadPool.h:38-103 | a step from a reachable state leads to one, so that callers of the step methods stay within the theorems |
| ThreadPool.NoLostWakeup | smer/Util/inc/ThreadPool.h:49-89 | while a worker sleeps unsignalled, queued tasks are at most the signalled workers, the worker inside the lock and the enqueuers that have pushed but not yet notified |
| ThreadPool.ExactlyOnce | smer/Util/inc/ThreadPool.h:52-87 | accepted tasks are the started ones followed by the queued ones, none twice; started is finished plus running; no task is run by two workers or run and also queued or finished |
| ThreadPool.DrainedWhenJoined | smer/Util/inc/ThreadPool.h:52-55 | when the joins are over every accepted task has finished exactly when there was a worker or nothing was accepted |
| ThreadPool.RejectedCallIsInvisible | smer/Util/inc/ThreadPool.h:77-91 | deleting the critical section of a rejected call from any run leaves a run with the same queue, workers and histories |
| ThreadPool.RejectedOnlyWhenStopped | smer/Util/inc/ThreadPool.h:81-83 | in every reachable state a rejected call implies a stopped pool |
| ThreadPool.LockedCallIsAccepted | smer/Util/inc/ThreadPool.h:79-88 | a call that has got the mutex of a pool that is not stopped is accepted by the time it no longer holds it, whatever happens meanwhile |
| ThreadPool.CallRuns | smer/Util/inc/ThreadPool.h:66-88 | whenever the mutex is free a new enqueue can go through: rejected if stopped, whatever is queued, else last in the queue |
| ThreadPool.ThreadsAreCounted | smer/Util/inc/ThreadPool.h:40-43 | over every run the workers are those spawned and the calls those begun |
| ThreadPool.SpuriousIsHarmless | smer/Util/inc/ThreadPool.h:50-51 | a worker woken without cause looks again: with nothing to do the pool is back as it was, else the worker goes on |
| ThreadPool.StepLowersMeasure | smer/Util/inc/ThreadPool.h:45-103 | every step of the pool, spurious wakeups included, lowers a measure, except a worker falling asleep with nothing to do |
| ThreadPool.BusyRunIsBounded | smer/Util/inc/ThreadPool.h:45-60 | while there is work, the number of steps under any schedule is bounded by the measure and the new enqueues |
| ThreadPool.ShutdownIsBounded | smer/Util/inc/ThreadPool.h:94-103 | once stopped, the pool stays stopped, nobody falls asleep again, from notify_all on nobody sleeps at all, and the rest of any run is bounded |
| ThreadPool.ShutdownNeverStuck | smer/Util/inc/ThreadPool.h:94-103 | in a stopped pool some step other than a spurious wakeup is enabled until every worker is joined and every call has settled |
| ThreadPool.ShutdownCompletes | smer/Util/inc/ThreadPool.h:94-103 | from every stopped state the pool can run to the end on its own steps alone |
| ThreadPool.DestructionCompletes | smer/Util/inc/ThreadPool.h:94-103 | a destructor begun in any state can be brought to its end on the pool's own steps, with every worker joined and every call settled |
| ThreadPool.StepLowersRestMeasure | smer/Util/inc/ThreadPool.h:45-103 | every step lowers a second measure, falling asleep included; a new enqueue, a new worker and a spurious wakeup raise it by a constant |
| ThreadPool.RunIsBounded | smer/Util/inc/ThreadPool.h:45-103 | the length of any run, stopped or not, is bounded by its enqueues, new workers and spurious wakeups: an idle pool sleeps |
| ThreadPool.StuckOnlyWhenIdle | smer/Util/inc/ThreadPool.h:45-103 | in a reachable state nothing can move on its own exactly when every call has settled, every worker sleeps or has exited, no task is left to a worker and no destruction is under way |
| ThreadPool.EveryTaskFinishes | smer/Util/inc/ThreadPool.h:45-91 | a pool with a worker comes to rest on its own steps, and wherever it does every accepted task has finished; unless it was stopped, so has the task of every call |
| ThreadPool.ProgressBesidePermanentTasks | tests/serverTest.cpp:35-42 | with fewer never-returning tasks than workers, a queued task always leaves a step enabled that does not wait for one of them, stopped or not |
| ThreadPool.DrainsBesidePermanentTasks | tests/serverTest.cpp:35-42 | with fewer never-returning tasks than workers, the pool's own steps start every queued task without any of those returning |
| ThreadPool.JoinsExactlyWithoutPermanentTasks | tests/serverTest.cpp:35-42 | a stopped pool can be joined without the return of a permanent task exactly when no worker runs one and none is queued for a worker |
| ThreadPool.SpareWorker | tests/serverTest.cpp:35-42 | some worker is not running a permanent task, because no task runs twice |
| ThreadPool.ThreadPool.constructor | smer/Util/inc/ThreadPool.h:25-34 | a new pool is the initial state of the machine |
| ThreadPool.ThreadPool.SpawnWorker | smer/Util/inc/ThreadPool.h:40-43 | one more worker at the top of its loop |
| ThreadPool.ThreadPool.LockAsWorker | smer/Util/inc/ThreadPool.h:49 | a worker takes the free mutex and is about to test |
| ThreadPool.ThreadPool.TestWaitPredicate | smer/Util/inc/ThreadPool.h:50-51 | stopped or non-empty: past the wait; otherwise the mutex is released and the worker sleeps |
| ThreadPool.ThreadPool.TakeTask | smer/Util/inc/ThreadPool.h:52-58 | exits if stopped and drained, else takes the front task; the mutex is free after it |
| ThreadPool.ThreadPool.FinishTask | smer/Util/inc/ThreadPool.h:59 | the worker's task is finished and the worker is back at the top of its loop |
| ThreadPool.ThreadPool.SpuriousWakeup | smer/Util/inc/ThreadPool.h:50-51 | a sleeper may leave the wait set without a signal |
| ThreadPool.ThreadPool.StartEnqueue | smer/Util/inc/ThreadPool.h:66-77 | a new caller wants the mutex |
| ThreadPool.ThreadPool.LockAsCaller | smer/Util/inc/ThreadPool.h:79 | a caller takes the free mutex |
| ThreadPool.ThreadPool.PushTask | smer/Util/inc/ThreadPool.h:81-88 | rejected if stopped, else the task is last in the queue; the notification is still owed |
| ThreadPool.ThreadPool.NotifyOne | smer/Util/inc/ThreadPool.h:89 | one sleeper, if any, is signalled after the mutex was released |
| ThreadPool.ThreadPool.StartDestroy | smer/Util/inc/ThreadPool.h:94-97 | the destructor wants the mutex |
| ThreadPool.ThreadPool.LockAsDestructor | smer/Util/inc/ThreadPool.h:97 | the destructor takes the free mutex |
| ThreadPool.ThreadPool.SetStop | smer/Util/inc/ThreadPool.h:98-99 | stop is set, the mutex is free, notify_all is still owed |
| ThreadPool.ThreadPool.NotifyAll | smer/Util/inc/ThreadPool.h:100 | the whole wait set is signalled and the joins begin |
| ThreadPool.ThreadPool.JoinNext | smer/Util/inc/ThreadPool.h:101-102 | joins the next worker once it has exited, or ends |
| ConcQueue.RefinesFifo | smer/Util/inc/ConcQueue.h:21-57 | for any number of threads, pops in lock order followed by the contents are the pushes in lock order; these are, each exactly once, the values of the calls that have pushed; each popped value is in one caller's hands; a pop that has returned has a value, and only tryAndPop returns null |
| ConcQueue.PushIsKept | smer/Util/inc/ConcQueue.h:21-25 | the value of a push that has pushed is popped or in the queue |
| ConcQueue.PopTakesFront | smer/Util/inc/ConcQueue.h:32-57 | a pop that acts takes the front value into its own hands; it takes none exactly on an empty queue, where only tryAndPop gets |
| ConcQueue.CallRuns | smer/Util/inc/ConcQueue.h:21-57 | whenever the mutex is free a new push or tryAndPop goes through: the value is last, or the first one is taken, null exactly on an empty queue |
| ConcQueue.CallsStay | smer/Util/inc/ConcQueue.h:21-76 | over every run the calls are those begun, in order, each with its own operation |
| ConcQueue.SpuriousIsHarmless | smer/Util/inc/ConcQueue.h:34 | a call woken without cause looks again: with its condition false the queue is back as it was, else it goes on |
| ConcQueue.NoLostDataWakeup | smer/Util/inc/ConcQueue.h:32-76 | an unsignalled data_cond sleeper implies that the contents are covered by threads on their way to take them and notifications owed, if each waitTillNotEmpty is followed by a pop |
| ConcQueue.DataCoverKeptExactly | smer/Util/inc/ConcQueue.h:64-68 | a step loses the cover of the data_cond sleepers exactly when it is the return of a lone waitTillNotEmpty beside a sleeper that only its signal covered |
| ConcQueue.OnlyLoneWaitsLoseWakeups | smer/Util/inc/ConcQueue.h:21-76 | a set of operations with a push among them can leave someone asleep for ever beside data exactly when waitTillNotEmpty without a pop is among them |
| ConcQueue.NoLostEmptyWakeup | smer/Util/inc/ConcQueue.h:40-73 | an unsignalled empty_cond sleeper on an empty queue implies another waiter on its way or a notification owed |
| ConcQueue.WaitedPushFindsAllPopped | smer/Util/inc/ConcQueue.h:70-76 | when waitPushTillEmpty pushes, everything pushed before it has been popped |
| ConcQueue.StuckOnlyWhenBlocked | smer/Util/inc/ConcQueue.h:21-76 | no thread can move exactly when every call has returned or waits for a condition that is really false |
| ConcQueue.StepLowersMeasure | smer/Util/inc/ConcQueue.h:21-76 | every step of the queue's own lowers a measure; a new call and a spurious wakeup raise it by a constant |
| ConcQueue.RunIsBounded | smer/Util/inc/ConcQueue.h:21-76 | the length of any run is bounded by its calls and spurious wakeups, under any schedule |
| ConcQueue.LoneWaitLosesWakeup | smer/Util/inc/ConcQueue.h:64-68 | a reachable dead state: a pop asleep beside a value, after a lone waitTillNotEmpty used up the signal |
| ConcQueue.DisciplineBackwards | smer/Log/inc/Log.h:80-88 | a run that ends without a lone waitTillNotEmpty never had one |
| ConcQueue.ConcQueue.BeginCall | smer/Util/inc/ConcQueue.h:21-76 | a new call wants the mutex |
| ConcQueue.ConcQueue.LockMutex | smer/Util/inc/ConcQueue.h:33 | a call takes the free mutex, before its wait if it has one |
| ConcQueue.ConcQueue.TestWaitPredicate | smer/Util/inc/ConcQueue.h:34 | the awaited condition holds and the call goes on, or it sleeps and the mutex is free |
| ConcQueue.ConcQueue.PushValue | smer/Util/inc/ConcQueue.h:21-25 | the value is last, the notification of data_cond is owed |
| ConcQueue.ConcQueue.ReturnFromWait | smer/Log/inc/Log.h:80-88 | nothing is taken; the logger goes on to pop |
| ConcQueue.ConcQueue.PopValue | smer/Util/inc/ConcQueue.h:35-43 | null if empty, else the front value; emptying owes a notification of empty_cond |
| ConcQueue.ConcQueue.NotifyAndUnlock | smer/Util/inc/ConcQueue.h:40-43 | one sleeper of the right condition, if any, is signalled; then the call returns |
| ConcQueue.ConcQueue.SpuriousWakeup | smer/Util/inc/ConcQueue.h:34 | a sleeper may leave its wait set without a signal |
| IOManger.SleepsOnlyWhenIdle | smer/IOMange/inc/IOManger.h:34-67 | the I/O thread sleeps unsignalled only with no talk and no output pending, unless the caller that changed that is about to notify |
| IOManger.PrintsExactlyOnce | smer/IOMange/src/IOManger.cpp:7-44 | the messages of the calls that have put are, each exactly once, printed or queued, in put order, never printed during a talk, and the nested queue is never found empty |
| IOManger.IsTalkingNeverSeesTheTalk | smer/IOMange/inc/IOManger.h:52-55 | isTalking runs only outside a talk, and answers exactly whether one has been asked for since the last began |
| IOManger.TalksOnlyWhenAsked | smer/IOMange/inc/IOManger.h:34-61 | a talk begins only when one has been asked for since the last began, and the asks are those of the turnToTalk calls |
| IOManger.EveryAskIsServed | smer/IOMange/inc/IOManger.h:34-61 | once nothing can move, each ask has been followed by the beginning of a talk and that by its end |
| IOManger.CallsStay | smer/IOMange/inc/IOManger.h:52-67 | over every run the calls are those begun, in order, each with its own operation |
| IOManger.RestServesTheCalls | smer/IOMange/inc/IOManger.h:34-67 | a run that ends at rest has printed exactly the messages of the putOutputMsg calls it began, and has been asked for exactly its turnToTalk calls |
| IOManger.SpuriousIsHarmless | smer/IOMange/inc/IOManger.h:38 | the I/O thread woken without cause looks again: with nothing to do the console is back as it was, else it goes on |
| IOManger.StuckOnlyWhenIdle | smer/IOMange/inc/IOManger.h:34-67 | the two nested mutexes never deadlock: nothing can move exactly when all calls have returned and the I/O thread sleeps with nothing to do |
| IOManger.RunIsBounded | smer/IOMange/inc/IOManger.h:34-67 | the length of any run of the console is bounded by its calls and spurious wakeups |
| IOManger.EveryMessageIsPrinted | smer/IOMange/inc/IOManger.h:34-67 | the console comes to rest on its own, and whenever it does every message put has been printed, in put order |
| IOManger.ReachStep | smer/IOMange/inc/IOManger.h:34-67 | a step from a reachable state leads to one |
| IOManger.IOManger.LockAsIo | smer/IOMange/inc/IOManger.h:37 | the I/O thread takes the free mutex |
| IOManger.IOManger.TestWaitPredicate | smer/IOMange/inc/IOManger.h:38 | a talk or output pending: past the wait; otherwise asleep with the mutex free |
| IOManger.IOManger.Branch | smer/IOMange/inc/IOManger.h:39-43 | without a talk the nested queue is entered, with one the talk begins |
| IOManger.IOManger.EndTalk | smer/IOMange/src/IOManger.cpp:23-34 | the flag is cleared before the mutex is released |
| IOManger.IOManger.HandleOutputMsg | smer/IOMange/src/IOManger.cpp:36-44 | the front message is taken and printed |
| IOManger.IOManger.TurnToTalkLocked | smer/IOMange/inc/IOManger.h:57-61 | a talk is requested, the notification is owed |
| IOManger.IOManger.IsTalkingLocked | smer/IOMange/inc/IOManger.h:52-55 | answers the flag |
| IOManger.IOManger.EnterQueue | smer/IOMange/inc/IOManger.h:63-65 | the second mutex is taken inside the first |
| IOManger.IOManger.PushOutput | smer/IOMange/inc/IOManger.h:63-65 | the message is last; the second mutex is free |
| IOManger.IOManger.NotifyAndUnlock | smer/IOMange/inc/IOManger.h:60-66 | a sleeping I/O thread is signalled, then the mutex is free |
| ConcList.SizeCountsCountedPushes | smer/Util/inc/ConcList.h:22-127 | over every run the counter is the length minus the pushes by waitPushTillEmpty, so the bounds checks are safe, and exact when there was none |
| ConcList.RefinesSequence | smer/Util/inc/ConcList.h:102-127 | without such a push the list answers every operation of every run as a plain sequence does; an accepted index selects the same element |
| ConcList.HiddenElements | smer/Util/inc/ConcList.h:87-93 | after such pushes exactly the last elements, one for each, are out of reach |
| ConcList.WaitersAreKept | smer/Util/inc/ConcList.h:87-93 | over every run each caller of waitPushTillEmpty has pushed, sleeps or is about to test |
| ConcList.UncountedPushIsAlone | smer/Util/inc/ConcList.h:87-93 | such a push leaves its own value alone in the list, and the counter as it was |
| ConcList.SpuriousIsHarmless | smer/Util/inc/ConcList.h:87-93 | a caller woken beside a non-empty list sleeps again, and nothing else changes |
| ConcList.WakeupKept | smer/Util/inc/ConcList.h:102-112 | a step loses the wakeup of a waiting push exactly when it erases the last element beside a sleeper |
| ConcList.WakeupsKept | smer/Util/inc/ConcList.h:87-112 | over every run without such a step no wakeup for emptiness is lost |
| ConcList.EraseLosesWakeup | smer/Util/inc/ConcList.h:102-112 | a run that leaves a caller asleep beside an empty list |
| ConcList.ConcList.Copy | smer/Util/inc/ConcList.h:17-20 | the copy has the elements, and a size that is right only if the memory happened to hold it |
| ConcList.ConcList.PushToBack | smer/Util/inc/ConcList.h:22-27 | last element and counter |
| ConcList.ConcList.PushToFront | smer/Util/inc/ConcList.h:29-34 | first element and counter |
| ConcList.ConcList.PopFromBack | smer/Util/inc/ConcList.h:46-58 | the last element, and a signal if the list is empty after it |
| ConcList.ConcList.PopFromFront | smer/Util/inc/ConcList.h:60-72 | the first element, and a signal if the list is empty after it |
| ConcList.ConcList.EraseAt | smer/Util/inc/ConcList.h:102-112 | refuses by the counter, else removes that element, without a signal |
| ConcList.ConcList.WaitPushTillEmpty | smer/Util/inc/ConcList.h:87-93 | sleeps beside a non-empty list, else pushes without counting |
| ConcList.ConcList.GetAllData | smer/Util/inc/ConcList.h:95-100 | the target followed by all elements in order |
| ConcList.ConcList.GetRequest | smer/Util/inc/ConcList.h:118-127 | the element at an index below the counter, else a refusal |
| MysqlPool.AlwaysAccounted | smer/Mysql/src/mysql_pool.cpp:46-154 | over every interleaving of callers, curSize is idle plus borrowed and at most maxSize, and every connection ever made is idle, borrowed or freed, in one place and once |
| MysqlPool.ReachStep | smer/Mysql/src/mysql_pool.cpp:95-259 | a step of any caller from a reachable state leads to one |
| MysqlPool.InitAccounts | smer/Mysql/src/mysql_pool.cpp:22-66 | initialising establishes the accounting exactly on a pool that holds nothing, whatever attempts fail |
| MysqlPool.GetAccounts | smer/Mysql/src/mysql_pool.cpp:95-143 | borrowing keeps the accounting through closed connections and failed attempts, and hands out a connection nobody else holds |
| MysqlPool.GetRefusesExactly | smer/Mysql/src/mysql_pool.cpp:95-143 | a caller is refused exactly when the front connection is closed and its replacement fails, or none is idle and there is no room or no connecting; an open front connection is handed out as it is, a closed one is freed, and what is made is new |
| MysqlPool.IdleAreTakenInOrder | smer/Mysql/src/mysql_pool.cpp:101-118 | open idle connections are handed out one after the other in list order |
| MysqlPool.ReleasedComesLast | smer/Mysql/src/mysql_pool.cpp:146-154 | a released connection is handed out again after all that were idle before it |
| MysqlPool.InitMakesSuccesses | smer/Mysql/src/mysql_pool.cpp:46-66 | initialising makes one idle connection for each successful attempt and counts it |
| MysqlPool.BorrowSucceedsExactly | smer/Mysql/src/mysql_pool.cpp:195-259 | in every reachable system a caller goes on to use a connection exactly when it is not refused, the open front one if there is one, and no other caller is touched |
| MysqlPool.CallersAreCounted | smer/Mysql/src/mysql_pool.cpp:195-259 | over every run the callers are those that called |
| MysqlPool.ReleaseAccounts | smer/Mysql/src/mysql_pool.cpp:146-154 | returning a borrowed connection keeps the accounting |
| MysqlPool.DestroyAccounts | smer/Mysql/src/mysql_pool.cpp:156-167 | destroying keeps the accounting exactly when nothing is borrowed, and frees each connection not borrowed exactly once |
| MysqlPool.BorrowedAreHeld | smer/Mysql/src/mysql_pool.cpp:195-259 | borrowed is the callers inside plus the exceptions that escaped, and no two callers hold the same connection |
| MysqlPool.QuiescentExactlyWhenNothingEscaped | smer/Mysql/src/mysql_pool.cpp:203-225 | with nobody inside, nothing is borrowed exactly when no exception left from outside the try block |
| MysqlPool.DestroyedAtQuiescence | smer/Mysql/src/mysql_pool.cpp:156-167 | over every run that ends with nobody inside and then destroys the pool: the accounting holds, and every connection ever made is freed exactly once, if and only if no exception escaped; then the pool can be initialised again |
| MysqlPool.EscapesExhaustThePool | smer/Mysql/src/mysql_pool.cpp:203-209 | after maxSize such exceptions every caller is refused |
| MysqlPool.MysqlPool.CreateConnection | smer/Mysql/src/mysql_pool.cpp:68-93 | a new connection or null |
| MysqlPool.MysqlPool.InitPoolSize | smer/Mysql/src/mysql_pool.cpp:22-43 | sizes reset, then maxSize/2 attempts |
| MysqlPool.MysqlPool.InitConnections | smer/Mysql/src/mysql_pool.cpp:46-66 | the loop adds exactly the successful attempts |
| MysqlPool.MysqlPool.GetConnection | smer/Mysql/src/mysql_pool.cpp:95-143 | front of the list, replaced if closed, else a new one below maxSize, with the counter of each case |
| MysqlPool.MysqlPool.ReleaseConnection | smer/Mysql/src/mysql_pool.cpp:146-154 | last in the list, null ignored |
| MysqlPool.MysqlPool.DestroyConnPool | smer/Mysql/src/mysql_pool.cpp:156-167 | the loop frees the listed connections in order |
| MysqlPool.MysqlPool.ExecStatement | smer/Mysql/src/mysql_pool.cpp:195-259 | with failures only inside the try block, the connection taken is back on every path and the accounting holds |
| Text.JoinSplit | smer/Util/src/Util.cpp:180-183 | joining what was split gives the text back, and no part holds the delimiter |
| Text.SplitJoin | smer/Util/src/Util.cpp:180-183 | splitting what was joined gives the parts back |
| Text.TokensJoin | smer/Redis/src/redis_pool.cpp:287-300 | tokenising words joined by blanks gives the words back |
| Text.TokensOfPrinted | smer/Redis/src/redis_pool.cpp:43 | words joined by blanks and printed as a format are tokenised into the printed words |
| Text.TokensSkip | smer/Redis/src/redis_pool.cpp:43 | leading blanks make no token |
| Text.AtoiReads | smer/Communication/src/ComManger.cpp:56-75 | atoi skips blanks, reads one sign and the digits up to the first other character, and gives 0 without digits |
| Text.AtoiToString | smer/Communication/src/ComManger.cpp:56-75 | atoi undoes to_string on every integer |
| Text.ToStringInjective | smer/Communication/src/ComManger.cpp:10 | different ids print differently |
| Text.ToStringLength | smer/Communication/src/ComManger.cpp:10-11 | a 32-bit integer prints in at most 11 characters |
| RedisPool.HmsetRoundTrip | smer/Redis/src/redis_pool.cpp:287-300 | the rendered HMSET text, printed as a format by vsnprintf and by redisCommand, tokenises to key, fields and values, each printed twice, if all are words and it fits |
| RedisPool.InRedisAsGiven | smer/Redis/src/redis_pool.cpp:35-43 | a value is held as it is exactly when it is a defined format both times and holds no percent sign |
| RedisPool.CommandRoundTrip | smer/Redis/src/redis_pool.cpp:302-338 | the other commands tokenise to their arguments, each printed once |
| RedisPool.HmsetKeySurvives | smer/Redis/src/redis_pool.cpp:35 | cut or not, the text still names its own key, whatever the values are |
| RedisPool.KGRedisClient.CreateContext | smer/Redis/src/redis_pool.cpp:183-215 | an idle context first, else a new one if it connects; the borrowed one is in nobody else's hands |
| RedisPool.KGRedisClient.ReleaseContext | smer/Redis/src/redis_pool.cpp:217-223 | back to the queue or freed, and every context is in one place |
| RedisPool.KGRedisClient.Execute | smer/Redis/src/redis_pool.cpp:29-114 | the effect and the decoded reply of the text cut to the buffer, and no context is lost on any path |
| RedisPool.KGRedisClient.ExecHMset | smer/Redis/src/redis_pool.cpp:287-300 | the loop builds exactly the HMSET text |
| ComManger.AddSessionEffect | smer/Communication/src/ComManger.cpp:7-25 | the id joins the online set, no other key changes, and a storable session is stored, its name printed twice |
| ComManger.RemoveSessionEffect | smer/Communication/src/ComManger.cpp:40-54 | the id leaves the online set, its hash is gone, no other key changes |
| ComManger.IsOnlineReadsMembers | smer/Communication/src/ComManger.cpp:27-38 | true exactly for the members of the online set |
| ComManger.GettersReadHash | smer/Communication/src/ComManger.cpp:56-94 | descriptor and name come back as stored |
| ComManger.GettersWithoutHash | smer/Communication/src/ComManger.cpp:56-94 | an id without a hash reads as the empty name and descriptor 0 |
| ComManger.WithoutAnswers | smer/Communication/src/ComManger.cpp:27-94 | without an answer nobody is online, there is no name and the descriptor is -1 |
| ComManger.HalfDone | smer/Communication/src/ComManger.cpp:7-54 | without the first answer nothing changes; without the second the id has joined or left the online set and every other key is as it was; the call fails either way |
| ComManger.AnswersAreNotRead | smer/Communication/src/ComManger.cpp:7-54 | adding and removing a session succeed exactly when both commands are answered, whatever the answers say |
| ComManger.SessionRoundTrip | smer/Communication/src/ComManger.cpp:7-94 | after addSessionTalker the id is online; both getters return the descriptor and the twice printed name exactly when the name is one word; that is the name itself exactly for a printable one without a percent sign |
| ComManger.SessionHashIsLocal | smer/Redis/src/redis_pool.cpp:287-300 | storing a session touches the hash of its id alone, even with a name that breaks the command |
| ComManger.IdIsNoSessionKey | smer/Communication/src/ComManger.cpp:10-16 | a printed id is one word and never the key of the online set |
| ComManger.ShortNamesAreStorable | smer/Redis/src/redis_pool.cpp:35 | with a name of at most 61 characters the command fits the buffer |
| ComManger.LookupsReadOnly | smer/Redis/src/redis_pool.cpp:302-333 | the lookups change nothing |
| ComManger.ComManger.AddSessionTalker | smer/Communication/src/ComManger.cpp:7-25 | the two commands in order, the second only after an answer to the first |
| ComManger.ComManger.IsTalkerOnline | smer/Communication/src/ComManger.cpp:27-38 | the answer, with no effect |
| ComManger.ComManger.RemoveSessionTalker | smer/Communication/src/ComManger.cpp:40-54 | the two commands in order, the second only after an answer to the first |
| ComManger.ComManger.GetTalkerFd | smer/Communication/src/ComManger.cpp:56-75 | the stored descriptor or -1 without an answer |
| ComManger.ComManger.GetTalkerName | smer/Communication/src/ComManger.cpp:77-94 | the stored name or nothing |
| SeqAbleObj.AlwaysTerminated | smer/Seqeue/inc/SeqAbleObj.h:62-145 | over any sequence of setter calls from a zeroed object both texts end inside the 64 bytes |
| Text.PrintedAsGiven | smer/Seqeue/inc/SeqAbleObj.h:87-107 | a format without arguments is defined and prints as itself exactly when it holds no percent sign |
| SeqAbleObj.CellsAreSeparate | smer/Seqeue/inc/SeqAbleObj.h:81-109 | setting one cell never touches the other, and a refused setter changes nothing that the getters see |
| SeqAbleObj.MessageIsHeld | smer/Seqeue/inc/SeqAbleObj.h:62-79 | a text below 64 bytes is held with only zeros behind it and read back as it is; a longer one changes nothing |
| SeqAbleObj.CellsAreHeld | smer/Seqeue/inc/SeqAbleObj.h:81-121 | an accepted name or password fills its cell with nothing of the old text left, a refused one changes nothing, and a pair is entered whole or not at all |
| SeqAbleObj.SettersKeepFields | smer/Seqeue/inc/SeqAbleObj.h:62-121 | no setter changes anything but the buffer |
| SeqAbleObj.PasswdKeepsTerminatedName | smer/Seqeue/inc/SeqAbleObj.h:101-109 | a name that ends in its cell survives a new password |
| SeqAbleObj.BufferHoldsCredentials | smer/Seqeue/inc/SeqAbleObj.h:81-150 | without setMsg, whatever the order of calls, each getter returns the text of the last accepted call for its cell |
| SeqAbleObj.SetBoth | smer/Seqeue/inc/SeqAbleObj.h:111-121 | after setNamePasswd both getters return what was set |
| SeqAbleObj.BytesRoundTrip | smer/Client/src/Client.cpp:65 | the four bytes of an integer read back as that integer, signed or unsigned |
| SeqAbleObj.WireRoundTrip | smer/Seqeue/inc/SeqAbleObj.h:123-134 | copying an object out and back restores every field but len, whatever follows it |
| SeqAbleObj.RecordLayout | smer/Client/src/Client.cpp:65 | type, len, id, receiver and descriptor are found at bytes 0, 4, 8, 12 and 16, and the text from byte 20 on |
| SeqAbleObj.TransObj.constructor | smer/Seqeue/inc/SeqAbleObj.h:24-26 | all fields and bytes zero |
| SeqAbleObj.TransObj.Unset | smer/Seqeue/inc/SeqAbleObj.h:32-38 | the fields are set, the buffer stays as the memory was |
| SeqAbleObj.TransObj.SetMsg | smer/Seqeue/inc/SeqAbleObj.h:62-69 | accepted below 64 bytes: zeroed, then the text; else unchanged |
| SeqAbleObj.TransObj.SetName | smer/Seqeue/inc/SeqAbleObj.h:81-89 | accepted below 24 bytes: the first cell alone, printed as a format; else unchanged |
| SeqAbleObj.TransObj.SetPasswd | smer/Seqeue/inc/SeqAbleObj.h:101-109 | accepted below 40 bytes: the second cell alone, printed as a format; else unchanged |
| SeqAbleObj.TransObj.SetNamePasswd | smer/Seqeue/inc/SeqAbleObj.h:111-121 | both cells or neither |
| SeqAbleObj.TransObj.FromBuff | smer/Seqeue/inc/SeqAbleObj.h:123-134 | every field but len comes from the buffer, the text byte for byte |
| Util.SplitsInTwo | smer/Util/src/Util.cpp:180-183 | a text splits in two parts exactly when it is those parts around the one delimiter |
| Util.NameAndPwdExact | smer/Util/src/Util.cpp:52-58 | accepted exactly for name, bar and password within 23 and 39 characters |
| Util.CredentialLinesAreExact | smer/Util/src/Util.cpp:60-92 | with any alias table, a line becomes a login (or registration) exactly when it is a listed alias, at-sign, name, bar and password without delimiters and short enough, and then carries these two |
| Util.Aliases | smer/Util/src/Util.cpp:14-50 | for every command, exactly the aliases listed for it lead to it |
| Util.SomeoneLogsIn | smer/Util/src/Util.cpp:16-71 | a concrete line that logs in |
| Util.TypedCredentialsAreRead | smer/Util/src/Util.cpp:60-92 | the getters return the typed name and password printed as formats: as typed exactly without a percent sign |
| Util.TalkLines | smer/Util/src/Util.cpp:193-204 | a line without at-sign is a talk message that reads as the line, if it is below 64 bytes, and nothing when nobody is logged in |
| Util.FriendLines | smer/Util/src/Util.cpp:94-120 | a friend line or a talker line is a friend request that reads as the name, exactly when somebody is logged in and the name is below 24 characters |
| Util.AcceptanceLines | smer/Util/src/Util.cpp:148-178 | an acceptance line with a printed number is an acceptance from the player to the sender of the request with that number, exactly when somebody is logged in and there is such a request |
| Util.OtherLines | smer/Util/src/Util.cpp:73-216 | a logout line is a logout message when somebody is logged in; a second at-sign, an unknown alias and the commands that only show something make no message |
| Util.NoSentinelFromInput | smer/Util/src/Util.cpp:185-216 | no line becomes the stop message, only the six listed types |
| Util.SplitInputStr2NameAndPwd | smer/Util/src/Util.cpp:52-58 | true exactly with two acceptable parts, which are returned |
| Util.HandleInputOfCredential | smer/Util/src/Util.cpp:60-92 | a fresh object with both cells set, or null |
| Util.HandleInputOfLogout | smer/Util/src/Util.cpp:73-80 | a logout object when logged in, else null |
| Util.HandleInputOfFriend | smer/Util/src/Util.cpp:94-120 | a friend request naming the input when logged in and short enough, else null |
| Util.HandleInputOfAccRequest | smer/Util/src/Util.cpp:148-178 | an acceptance to the sender of the request at that index, or null |
| Util.FindCommand | smer/Util/src/Util.cpp:209-213 | the loop finds the first entry with that alias |
| Util.GetMsgFromInput | smer/Util/src/Util.cpp:185-216 | the object built is what the parser says of the line, or null |
| Sql.QuotableIsExact | smer/HandleMsg/src/HandleMsg.cpp:231 | a text pasted between quotes is read as itself exactly when it holds no quote, and no backslash except before a percent sign or an underscore |
| Sql.SelectReading | smer/Mysql/src/mysql_pool.cpp:204-212 | a rendered SELECT asks for the literal of its name if it fits the buffer, for the name itself exactly when that is quotable and fits, and is no statement when a quotable name is cut |
| Sql.InsertReading | smer/Mysql/src/mysql_pool.cpp:237-241 | a rendered INSERT of texts that close inserts what the database reads in them if it fits, and is no statement when cut |
| Sql.InsertReadsBack | smer/HandleMsg/src/HandleMsg.cpp:142 | an INSERT inserts exactly the given name, number and password if and only if both texts are quotable and the statement fits |
| Sql.AskedReading | smer/HandleMsg/src/HandleMsg.cpp:130-344 | the same for the three SELECT formats of the handlers |
| Sql.StoredReading | smer/HandleMsg/src/HandleMsg.cpp:142 | the same for the INSERT format of the registration |
| Sql.SelectsByName | smer/HandleMsg/src/HandleMsg.cpp:130-344 | the words of each SELECT are the columns that its handler reads, the table, and the column username compared with the text |
| Sql.InsertsByColumn | smer/HandleMsg/src/HandleMsg.cpp:142 | the words of the INSERT are the table and its columns in the order of the values |
| Sql.StoreFitsExactly | smer/Mysql/src/mysql_pool.cpp:237-241 | name, printed descriptor and password have 37 characters to share |
| Sql.LoneQuote | smer/HandleMsg/src/HandleMsg.cpp:231 | a name with a lone quote makes the SELECT another statement |
| Sql.LoneQuotePassword | smer/HandleMsg/src/HandleMsg.cpp:142 | a password with a lone quote makes the INSERT another statement |
| Sql.DoubledQuote | smer/HandleMsg/src/HandleMsg.cpp:142 | a name with a doubled quote is asked for and held as the name with one quote |
| HandleMsg.Dispatch | smer/HandleMsg/src/HandleMsg.cpp:27-53 | a type reaches a handler exactly when the table lists the two together |
| HandleMsg.NotDispatched | smer/HandleMsg/src/HandleMsg.cpp:27-39 | neither a logout nor a stop message has a handler |
| HandleMsg.RegistrationIsSound | smer/HandleMsg/src/HandleMsg.cpp:114-167 | for a name and a password that close: one task keeps names unique; past the length guard it answers once, to the requester; the only change is one fresh row of what the database reads; an acceptance carries that row's id; a refusal after a full read-back leaves the table alone |
| HandleMsg.RegistrationThatInserts | smer/HandleMsg/src/HandleMsg.cpp:140-160 | whatever the INSERT does to the table, a served registration then answers once, and accepts with the maximum id |
| HandleMsg.InsertIsFresh | smer/HandleMsg/src/HandleMsg.cpp:140-146 | with texts that close, the INSERT adds exactly one row, with a fresh name and a fresh id that is the new maximum |
| HandleMsg.RegisteredAsTyped | smer/HandleMsg/src/HandleMsg.cpp:128-142 | the row has the typed name exactly when that is quotable, and likewise the password |
| HandleMsg.NamesStayUniqueExactly | smer/HandleMsg/src/HandleMsg.cpp:130-146 | a registration keeps names unique, on every table and in every environment whose INSERT only adds rows, exactly when one of its two texts is no statement or the INSERT names whom the SELECT asked for |
| HandleMsg.LoneQuotePasswordCanRepeatAName | smer/HandleMsg/src/HandleMsg.cpp:130-142 | with a quotable name and a password that holds a lone quote, the SELECT asks for the name, the INSERT is another statement, and some table and environment repeat a name |
| HandleMsg.InsertKeepsNames | smer/HandleMsg/src/HandleMsg.cpp:142 | an insert keeps names unique exactly when its name is not there |
| HandleMsg.NullIsDereferenced | smer/HandleMsg/src/HandleMsg.cpp:41-53 | the server dereferences null exactly on a registration or friend request whose SELECT gave no result set, or a registration whose maximum did not |
| HandleMsg.RegistrationThatRefuses | smer/HandleMsg/src/HandleMsg.cpp:131-166 | a registration that does not insert changes neither table nor sessions and answers with a refusal |
| HandleMsg.RegistrationReplies | smer/HandleMsg/src/HandleMsg.cpp:131-165 | the reply of each outcome of a served registration reads as the notice of that outcome, with zeros behind it, and is otherwise the request with the requester's descriptor and, if accepted, the maximum id |
| HandleMsg.LoginReplies | smer/HandleMsg/src/HandleMsg.cpp:223-273 | the refusal of each outcome of a login reads as the notice of that outcome and is otherwise the request; for a name without a row the answer is the request with the type of an acceptance |
| HandleMsg.UnknownFriendIsAnswered | smer/HandleMsg/src/HandleMsg.cpp:345-353 | a friend request for a name without a row is sent back once, as not found, to the requester's descriptor, and nothing else happens |
| HandleMsg.OtherTypesAreIgnored | smer/HandleMsg/src/HandleMsg.cpp:27-53 | a message of any other type than talk, registration, login, friend request and acceptance changes nothing on the server |
| HandleMsg.WithoutRedis | smer/HandleMsg/src/HandleMsg.cpp:67-425 | without the first answer from Redis talk, friend requests and acceptances are dropped; without the later ones they go out to descriptor -1 and an acceptance keeps its text |
| HandleMsg.InterleavedRegistrations | smer/HandleMsg/src/HandleMsg.cpp:130-152 | two tasks that both looked before either inserted keep names unique exactly when the names differ, and the later maximum is not the first one's id |
| HandleMsg.InsertKeepsUsers | smer/HandleMsg/src/HandleMsg.cpp:142-144 | an insert keeps the table sound exactly when the name is not there, and the maximum is then the new id |
| HandleMsg.LoginAddsSessionOnlyOnMatch | smer/HandleMsg/src/HandleMsg.cpp:221-277 | a login adds a session exactly on a matching password, for the row's id and the caller's descriptor; it is accepted exactly then or when the SELECT finds no row |
| HandleMsg.MatchedAsTyped | smer/HandleMsg/src/HandleMsg.cpp:230-271 | for a name that closes and fits, the matched row is the one the database reads, and has the typed name exactly when that is quotable |
| HandleMsg.SessionBelongsExactly | smer/HandleMsg/src/HandleMsg.cpp:230-271 | whatever the name, on every sound table and in every environment, a matching login has a row of its name exactly when the name is quotable or its query is no statement |
| HandleMsg.LoneQuoteNameCanLackARow | smer/HandleMsg/src/HandleMsg.cpp:230-271 | for a name with a lone quote, a table and an environment in which the login matches without a row of that name |
| HandleMsg.LongNamesMatchNothing | smer/Mysql/src/mysql_pool.cpp:204-221 | a quotable name too long for the query buffer matches no row |
| HandleMsg.NoSentinelFromHandlers | smer/HandleMsg/src/HandleMsg.cpp:41-53 | whatever arrives, at most one message is added, never a stop or logout message |
| HandleMsg.MsgServer.ExecQuery | smer/Mysql/src/mysql_pool.cpp:195-226 | renders the SELECT into the buffer, and gives the row that what is read there finds, or no result set |
| HandleMsg.MsgServer.ExecInsert | smer/Mysql/src/mysql_pool.cpp:228-259 | renders the INSERT into the buffer, and changes the table as what is read there says |
| HandleMsg.MsgServer.HandleUserRegMsg | smer/HandleMsg/src/HandleMsg.cpp:114-167 | rewrites and pushes the object as the registration task says |
| HandleMsg.MsgServer.HandleUserLogMsg | smer/HandleMsg/src/HandleMsg.cpp:214-278 | rewrites and pushes the object and adds the session as the login task says |
| HandleMsg.MsgServer.HandleUserSendMsg | smer/HandleMsg/src/HandleMsg.cpp:67-79 | pushes the object exactly when the receiver is online |
| HandleMsg.MsgServer.HandleAskForFriendMsg | smer/HandleMsg/src/HandleMsg.cpp:334-363 | not found, forwarded to the stored descriptor, or dropped |
| HandleMsg.MsgServer.HandleAskForFriendAcceptMsg | smer/HandleMsg/src/HandleMsg.cpp:399-425 | forwarded with the accepter's name, or dropped |
| HandleMsg.MsgServer.HandleUserLogOutMsg | smer/HandleMsg/src/HandleMsg.cpp:321-327 | removes the session of the object's id |
| HandleMsg.MsgServer.FindHandler | smer/HandleMsg/src/HandleMsg.cpp:46-52 | the loop finds the first entry of that type |
| HandleMsg.MsgServer.HandleObj | smer/HandleMsg/src/HandleMsg.cpp:41-53 | dispatch and the task it leads to |
| Sessions.FreshKeyspaceIsConsistent | smer/Communication/src/ComManger.cpp:7-54 | an empty keyspace is consistent with any sound table |
| Sessions.RunStaysConsistent | smer/HandleMsg/src/HandleMsg.cpp:41-53 | every serialised run keeps the keyspace consistent with the registry and the table, so that a restart may start from it |
| Sessions.SessionsAreSound | smer/HandleMsg/src/HandleMsg.cpp:242-272 | from any consistent keyspace, over every serialised run with quotable login names, an id is online in Redis exactly when it has a matched login and no logout since; its row has the name of the latest one; a one-word name reads back with the descriptor of that login, printed twice, which is the name itself exactly without a percent sign |
| Sessions.LoginsAndLogoutsTakeEffect | smer/HandleMsg/src/HandleMsg.cpp:242-327 | after every such run a matched login puts its id online with the caller's descriptor, a logout takes its id offline and leaves nothing of it, and neither changes who else is online |
| Sessions.UsernamesStayUnique | smer/HandleMsg/src/HandleMsg.cpp:120-167 | over every serialised run whose registrations close, crashes and failures included, names and ids stay unique |
| Sessions.RegistrationsAreAnswered | smer/HandleMsg/src/HandleMsg.cpp:120-167 | over every such run a served registration past the guard gets exactly one reply with the requester's descriptor; an acceptance names the row just inserted, which has the typed name and password exactly when these are quotable |
| Sessions.FriendRequestReachesLatestLogin | smer/HandleMsg/src/HandleMsg.cpp:343-363 | a friend request for a quotable name goes to the descriptor of that user's latest login, or is dropped if offline |
| Sessions.UnknownFriendsAreNotFound | smer/HandleMsg/src/HandleMsg.cpp:343-353 | after any run, a friend request for a quotable name without a row is answered once to its requester as not found |
| Sessions.TalkPassesWhenOnline | smer/HandleMsg/src/HandleMsg.cpp:75-79 | talk is passed on unchanged exactly when the receiver is online |
| Sessions.AcceptReachesLatestLogin | smer/HandleMsg/src/HandleMsg.cpp:408-425 | an acceptance goes to the receiver's latest login with the accepter's name as Redis holds it, empty if the accepter is offline |
| Sessions.AcceptanceReadsName | smer/HandleMsg/src/HandleMsg.cpp:408-425 | what the receiver reads is the name of the accepter's latest login as Redis holds it, the very name without a percent sign |
| Client.SentinelShutdown | smer/Client/src/Client.cpp:55-80 | the sender stops only on a message pushed by waitPushTillEmpty; by then every message pushed before it was sent exactly once, in push order, and reads back at the other end; later ones stay queued |
| Client.CompletedPushesAreSent | smer/Client/src/Client.cpp:55-80 | once the sender has stopped, it has sent first, in push order, all the pushes that were complete at any earlier moment without a stop message, as many of each value as calls that pushed it |
| Client.CompletedPushIsSent | smer/Client/src/Client.cpp:55-80 | each single message whose push was complete before any stop message was pushed is among those the other side reads |
| Client.SentinelIsNeverMissed | smer/Client/src/Client.cpp:55-63 | when nothing more can happen the sender has stopped exactly if a stop message was pushed; otherwise everything pushed was taken and the queue is empty |
| Client.RunIsBounded | smer/Client/src/Client.cpp:55-80 | the length of any run of the sender and its queue is bounded by the pushes that begin in it and the spurious wakeups |
| Client.SenderStops | smer/Client/src/Client.cpp:55-63 | a stop message once pushed, the system's own steps lead to a state at rest in which the sender has stopped |
| Client.SentSoFar | smer/Client/src/Client.cpp:55-80 | before it stops the sender has sent a prefix of the pushes, missing at most the one in its hands |
| Client.EveryMessageIsSent | smer/Client/src/Client.cpp:64-78 | decoding the packets gives the non-null messages, in order, except for len |
| Client.NothingAfterStop | smer/Client/src/Client.cpp:60-63 | nothing after the first stop message is sent |
| Client.PacketIsRead | smer/Client/src/Client.cpp:64-78 | a packet of either build reads back as its message |
| Client.EachReachesItsSocket | smer/Client/src/Client.cpp:67-78 | there is one packet for each non-null message before the stop, in order: from the server 84 bytes to the descriptor that stands inside them, from the client 512 bytes to its one connection |
| Client.Client.Fill | smer/Client/src/Client.cpp:64-65 | the reused buffer holds the object and then zeros |
| Client.Client.Send | smer/Client/src/Client.cpp:67-78 | the object's bytes to its own descriptor, or the whole buffer to the client's socket |
| Client.Client.Run | smer/Client/src/Client.cpp:48-84 | the loop sends exactly the packets of what it popped, skips null, and closes exactly at the stop message |
| EndToEnd.TypedCredentialsArrive | smer/Server/inc/Zepoll.h:152-154 | a typed name and password arrive at the server printed as formats, hence as typed exactly for defined formats without a percent sign; len reads 0 |
| EndToEnd.GuardsNeverFire | smer/HandleMsg/src/HandleMsg.cpp:121-223 | no received message trips a length guard, and every served registration is answered |
| EndToEnd.RegistrationRuns | smer/HandleMsg/src/HandleMsg.cpp:114-167 | a registration of a new name is accepted exactly when its statement fits, and otherwise refused without a change |
| EndToEnd.HeldPasswordIsTyped | smer/HandleMsg/src/HandleMsg.cpp:246 | the password held compares equal to the typed one exactly when that is quotable |
| EndToEnd.RegisterThenLogin | smer/HandleMsg/src/HandleMsg.cpp:114-278 | for typed texts that are defined formats and, as they arrive, close: the registration is accepted exactly when its statement fits; a typed login of that name then adds a session, for the id the registration was answered with, exactly with the password that the database holds, and is refused otherwise; the id has a row of the name exactly when that is quotable |
| EndToEnd.LoginAfterRegistration | smer/HandleMsg/src/HandleMsg.cpp:242-272 | a login against the row just inserted matches exactly the password that the database holds |
| EndToEnd.SomeoneRegistersAndLogsIn | smer/HandleMsg/src/HandleMsg.cpp:114-278 | a concrete registration that inserts and a login that matches it |
| EndToEnd.PushersNeverStop | smer/HandleMsg/src/HandleMsg.cpp:41-53 | neither a parsed line nor a handler pushes the stop message |

## Left out

- Sockets, epoll, terminal settings, keyboard reads and files: only "handed to `send`" is kept, as an event.
- TCP framing: the code has no reassembly; a packet is taken to arrive as it was sent.
- The MySQL server, hiredis and Boost: an abstract table, keyspace and tokeniser.  Strings are compared byte for byte, as under a binary collation; literals are read as in the default SQL mode, with backslash escapes and a one-byte or UTF-8 character set.
- Sessions.SessionsAreSound: for serialised tasks that do not crash, with Redis answering logins and logouts; login names are quotable, and defined formats for the Redis commands; an undefined one has no defined effect.
- Exceptions of the driver while a handler reads a result set, apart from `getInt("userid")` in the login.
- SeqAbleObj.TransObj.SetName: a percent sign that is not doubled, which `snprintf` without arguments gives no defined meaning; and the `string&` overload, which differs only for texts holding a NUL.
- SeqAbleObj.TransObj.SetPasswd: the same.
- SeqAbleObj.TransObj.SetNamePasswd: the same undefined formats.
- Util.HandleInputOfCredential: the same undefined formats, which its setters receive.
- HandleMsg.MsgServer.ExecQuery: the connection it borrows and the exceptions of the driver are one flag; the borrowing is `MysqlPool.MysqlPool.ExecStatement`.
- HandleMsg.MsgServer.ExecInsert: the same.
- MysqlPool.MysqlPool.ExecStatement: the statement and its result, which are `HandleMsg.MsgServer.ExecQuery` and `ExecInsert`.
- The shared `cmdBuf` of the Redis client under concurrent use: commands are serialised.
- RedisPool.KGRedisClient.Execute: the cluster variant (same code over a second queue), the reconnect back-off, and array or undefined replies, which none of the modelled commands has.
- HandleMsg.MsgServer.HandleObj: the enqueued task runs at once; the pool is modelled separately.  A pushed object is recorded by value, so later writes through a shared pointer are not captured.
- The client side of the handlers, which only prints or updates the player.
- Util.GetMsgFromInput: undefined formats as above, the side effects of the choose and show commands on the player and the system queue, and the log lines.
- Util.HandleInputOfAccRequest: the friend added to the player and the two messages to the system queue.
- Messages made by the key reader (type MSG_CMD, from another object type): they are not the stop message and are covered as ordinary pushes.
- IOManger.IOManger.EndTalk: the line that `handleTalk` reads and pushes; what it becomes is `Util.GetMsgFromInput`.
- ConcList.ConcList.PopFromBack: the wait set of data_cond; a pop is a step that is enabled on a non-empty list.
- ConcList.ConcList.PopFromFront: the same.
- Copy constructors of the queue, `front`, `back` and `empty`.
- Overflow of `atoi` beyond 32 bits.
- Symmetric friendship between clients: clients send placeholder ids, so no such property holds.
- `smer/Util/inc/Util.cpp`, a stale copy that the build does not use.
- Player files, logging text, time stamps, Game, Actor, Command and frame pacing: printing and library work.
