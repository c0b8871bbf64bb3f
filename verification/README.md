# JusticeFlow: a verified model

JusticeFlow is a police case-management system: C++ services over PostgreSQL, supervised
by a daemon that runs agents on a tick, and read by Python dashboards over a Unix socket.
This project models the parts of it that keep state, run concurrently or translate between
formats, and proves what they promise, over every run and every input.

Run `dafny verify dfyconfig.toml` to check all of it.

| file | part of the system |
|---|---|
| `PoolProtocol.dfy` | the worker pool as a step system: workers, submitters and the shutdown caller around one mutex and one condition variable, with spurious wake-ups |
| `ThreadPool.dfy` | the pool as an object over its 100-slot ring; its methods are the steps |
| `Scheduler.dfy`, `Signals.dfy` | the tick loop against a declarative schedule; signal flags and the poll that acts on them, interleaved |
| `Reaper.dfy` | the process registry, reaping one child, and TERM, wait, KILL over a kernel model |
| `DutyCache.dfy` | the TTL cache over a changing database, as an object and as any number of threads |
| `Connection.dfy`, `OfficerFrames.dfy`, `ResultEncoding.dfy` | an officer's connection as a state machine over sessions and a clock; its frames; the result and login payloads |
| `JsonReader.dfy`, `JsonWriter.dfy`, `SocketRequest.dfy`, `Decimal.dfy`, `Codes.dfy`, `Common.dfy` | the dashboard gateway's JSON reader and writers, requests and responses |
| `RequestRoundTrip.dfy` | which requests survive the reader, and which are refused |
| `JsonGrammar.dfy`, `RowsJson.dfy` | RFC 8259 as derivation trees; rows and responses are JSON |
| `Framing.dfy`, `Handlers.dfy`, `Gateway.dfy` | length-prefixed frames over short reads and writes; the command handlers and when they throw; the request loop |
| `Audit.dfy` | the suspicious-activity query as a function of the audit log |
| `Token.dfy`, `Cli.dfy` | session tokens (RFC 4122, section 4.4); the command-line parser |

Conventions. A `string` holds one char per byte of a `std::string`; a wire byte is an
integer below 256. Shifts and masks of a `uint32_t` are written as division and remainder.
Exceptions are values (`Malformed`, `Threw`, `None`). What the environment decides (the
clock, other threads, the kernel, the database, short reads) is a parameter, a script or a
nondeterministic step.

Where code and comments disagree the code is modelled:

- The audit query's comments promise "any 5-minute window" and "1 hour"; the SQL counts
  aligned buckets. `RapidExact`, `NineDeletesFlagged`, `EightDeletesMissed` and their hourly
  partners say what that guarantees.
- The query encoder promises truncation when a result is too large, but checks only cells,
  not the headers of rows: `OverrunExact` says when a header is written outside the buffer,
  `ManyRowsOverrun` that every result of 16384 rows does it, `TwoRowsOverrun` that two rows
  can. And a complete result of more than 65528 bytes is refused by the protocol's own
  reader (`ResultDelivered`).
- The drain's comment says it is performed only once; nothing remembers that it was. Every
  later SIGTERM or SIGINT leads to the whole teardown once more (`EveryRequestTearsDown`),
  and nothing else does (`NoRequestNoTeardown`, `CreditRun`).
- safeIntStr's comment promises the default for a text that is no valid integer. For digits
  that denote more than 2147483647 its std::stoi throws, as does the index check's; nothing
  in the gateway catches that, so the request gets no reply and the process ends
  (`SafeIntExact`, `ThrowsExact`, `BigLimitIsFatal`, `ClientHandler`).
- toJson's comment promises that a response is always JSON; as a function of any payload it
  is so exactly under the condition of `ResponseJsonExact`, which `{` and `{a}` fail. No
  handler produces such a payload: every reply the gateway sends is JSON
  (`EveryReplyIsJson`).
- The suspicious-activity query names columns (audit_log_id, record_pk, operation,
  officer_id, backend_pid), a schema (subsystem1) and upper-case table names that the
  shipped schema (db/schema/02_tables.sql, lines 733 to 763) does not have. On that schema
  the query fails and every call is DB_ERROR; what `Audit.dfy` says holds where the query
  is answered.
- The duty cache reads a status column none of whose values counts as on duty
  (`NoStatusIsOnDuty`), so with the shipped schema every officer is off duty.
- The idle timeout of a session is documented but commented out; only the eight-hour
  expiry exists.
- A child collected by the signal poll is already gone when `reapOne` looks at it, so on
  that path no record becomes REAPED and no restart is requested (`ReapPending`).
- `submit` does not look at the shutdown flag, so it can accept a task that nobody will
  run (`StrandedTasks` says exactly which).
- The Python client writes JSON with json.dumps, which escapes everything outside printable
  ASCII, and the reader does not decode `\u` escapes, so such text does not survive
  (`EscapeParseExact`). Its default spacing makes every request with a parameter fail whose
  first key holds no comma, brace, bracket or blank, as no documented key does
  (`DefaultSpacingRejected`, `SpacedRequestRefused`).

## Model

| member | source | states |
|---|---|---|
| PoolProtocol.NoLostWakeUp | src/os_layer/threading/src/thread_pool.cpp:12-33 | In every reachable state, while a worker sleeps there are at least as many workers awake and on their way to the queue as queued tasks (one fewer just between an enqueue and its signal). |
| PoolProtocol.QueuedTaskMoves | src/os_layer/threading/src/thread_pool.cpp:12-33 | A queued task never waits on sleepers alone: some worker can take a step that is no spurious wake-up. |
| PoolProtocol.TasksConserved | src/os_layer/threading/src/thread_pool.cpp:28-31 | Tasks are dequeued in acceptance order, and every accepted task is in exactly one of queued, running on exactly one worker, or done. |
| PoolProtocol.DrainStep | src/os_layer/threading/src/thread_pool.cpp:17-33 | Once shutdown has begun and nobody submits, every step of anybody lowers the measure 3·queued plus the workers' weights plus the caller's remaining steps. |
| PoolProtocol.DrainProgress | src/os_layer/threading/src/thread_pool.cpp:102-115 | While draining, somebody can always move until the database is disconnected. |
| PoolProtocol.DrainRun | src/os_layer/threading/src/thread_pool.cpp:102-115 | Hence no drain is longer than the measure at its start. |
| PoolProtocol.ShutdownTerminates | src/os_layer/threading/src/thread_pool.cpp:102-115 | After the flag is set at most 302 + 4n more steps are possible; when none is left all workers are joined, the database is disconnected and every accepted task was executed. |
| PoolProtocol.NothingRunsAtDisconnect | src/os_layer/scheduler/src/scheduler.cpp:142-147 | No task is running when the drain disconnects the database, whatever submitters do. |
| PoolProtocol.StrandedTasks | src/os_layer/threading/src/thread_pool.cpp:81-100 | Once all workers have left, the accepted tasks never executed are exactly those accepted after the last of them left. |
| PoolProtocol.SubmitAfterShutdownStrands | src/os_layer/threading/src/thread_pool.cpp:81-100 | A concrete run in which submit returns true and what it accepted is never executed. |
| PoolProtocol.SubmitTells | src/os_layer/threading/src/thread_pool.cpp:81-100 | submit returns true, after its signal, exactly when fewer than a hundred tasks were queued, and then its task is the last accepted. |
| PoolProtocol.StepInv | src/os_layer/threading/src/thread_pool.cpp:12-33 | Every step keeps the queue, lock, ticket, wake-up, shutdown and exit invariants. |
| PoolProtocol.RunInv | src/os_layer/threading/src/thread_pool.cpp:12-33 | They hold in every reachable state of any number of workers. |
| ThreadPool.SlotsPush | src/os_layer/threading/src/thread_pool.cpp:92-94 | Writing the slot at (head + count) mod 100 appends to the queue the ring stands for. |
| ThreadPool.SlotsPop | src/os_layer/threading/src/thread_pool.cpp:29-31 | Advancing head mod 100 removes its first element. |
| ThreadPool.ThreadPool.constructor | src/os_layer/threading/src/thread_pool.cpp:42-62 | The pool starts in the protocol's initial state, clamped to the maximum number of workers. |
| ThreadPool.ThreadPool.Enqueue | src/os_layer/threading/src/thread_pool.cpp:83-94 | submit appends in acceptance order and takes the protocol's step; it refuses exactly when 100 tasks are queued and then changes nothing. |
| ThreadPool.ThreadPool.Check | src/os_layer/threading/src/thread_pool.cpp:17-31 | A worker holding the lock sleeps, leaves or takes the oldest task exactly as the protocol's step says. |
| ThreadPool.ThreadPool.SetShutdownFlag | src/os_layer/threading/src/thread_pool.cpp:104-107 | Setting the flag is the protocol's step and leaves the queue alone. |
| ThreadPool.ThreadPool.Perform | src/os_layer/threading/src/thread_pool.cpp:4-118 | Whatever step anybody takes, the ring goes along with the step system. |
| ThreadPool.ThreadPool.Execute | src/os_layer/threading/src/thread_pool.cpp:4-118 | So every run of the step system is a run of the pool, and the invariants above hold of the pool. |
| Scheduler.OnTimeStep | src/os_layer/scheduler/src/scheduler.cpp:101-114 | The test current_tick >= next_fire_tick is true exactly at the ticks where the schedule says the job is due, and the assignment keeps it so. |
| Scheduler.EarlyJob | src/os_layer/scheduler/src/scheduler.cpp:101-114 | A job registered before the first tick is due exactly at the multiples of its interval, floor(t / interval) times by tick t. |
| Scheduler.DueCountExact | src/os_layer/scheduler/src/scheduler.cpp:101-114 | A job registered later first fires at max(now + 1, interval) and then once per interval. |
| Scheduler.DueNext | src/os_layer/scheduler/src/scheduler.cpp:114-114 | Between two firings the next due tick is one interval on. |
| Scheduler.FiredAsOftenAsDue | src/os_layer/scheduler/src/scheduler.cpp:95-122 | In the whole trace a job is executed as often as it was due. |
| Scheduler.DueEveryTick | src/os_layer/scheduler/src/scheduler.cpp:101-114 | A job whose interval is one or less is due at every tick after its registration. |
| Scheduler.FiredWhenDue | src/os_layer/scheduler/src/scheduler.cpp:95-114 | A job is fired at a tick, and under that tick's number, exactly when it is due then. |
| Scheduler.FiredInOrder | src/os_layer/scheduler/src/scheduler.cpp:95-122 | Firings come in the order of ticks, and within one tick in that of registration. |
| Scheduler.FiringsAnnounced | src/os_layer/scheduler/src/scheduler.cpp:101-120 | Over the whole schedule every firing is followed, before the next one, by exactly one notice for each observer registered before that tick, in the order of registration, with OK unless the job threw; there are no other notices. |
| Scheduler.ToldTheTruth | src/os_layer/scheduler/src/scheduler.cpp:103-120 | So what an observer is told of a job is OK exactly when the job did not throw. |
| Scheduler.LateJob | src/os_layer/scheduler/src/scheduler.cpp:77-81 | Registering a job does not change the schedule up to the current tick. |
| Scheduler.LateObserver | src/os_layer/scheduler/src/scheduler.cpp:83-86 | Nor does registering an observer. |
| Scheduler.Scheduler.RegisterJob | src/os_layer/scheduler/src/scheduler.cpp:77-81 | The job is appended while there is room and dropped otherwise; the trace so far stays the schedule. |
| Scheduler.Scheduler.RegisterObserver | src/os_layer/scheduler/src/scheduler.cpp:83-86 | The observer is appended; the trace so far stays the schedule. |
| Scheduler.Scheduler.Notify | src/os_layer/scheduler/src/scheduler.cpp:116-120 | A fired job is followed by one notice for every observer, in order, with its outcome. |
| Scheduler.Scheduler.Visit | src/os_layer/scheduler/src/scheduler.cpp:97-121 | One job slot adds exactly the events the schedule has for it at this tick, also when the job throws. |
| Scheduler.Scheduler.Tick | src/os_layer/scheduler/src/scheduler.cpp:88-123 | A tick while RUNNING extends the trace to the declarative schedule of one more tick; otherwise nothing changes. |
| Scheduler.Scheduler.RunTicks | src/os_layer/scheduler/src/scheduler.cpp:88-123 | After any number of RUNNING ticks the trace is the declarative schedule, and every firing in it is announced as above. |
| Scheduler.Scheduler.HandleDrainRequest | src/os_layer/scheduler/src/scheduler.cpp:130-149 | A requested drain makes the four teardown calls in their order, ends in STOPPED and takes the request away; without a request nothing changes. |
| Signals.TicksAreAlarms | src/os_layer/scheduler/src/signal_handler.cpp:54-90 | Under any interleaving of delivery and polling, ticks never exceed SIGALRMs. |
| Signals.AlarmLeadsToTick | src/os_layer/scheduler/src/signal_handler.cpp:54-90 | In every run: an alarm, then a whole poll; when that poll returns there are more ticks than when the alarm came, if the scheduler still runs and nobody set its state in between. |
| Signals.TerminationLeadsToStop | src/os_layer/scheduler/src/signal_handler.cpp:66-84 | In every run: a SIGTERM or SIGINT, then a whole poll; when that poll returns the scheduler is stopped, if nobody set its state in between. |
| Signals.ChildLeadsToReap | src/os_layer/scheduler/src/signal_handler.cpp:86-106 | In every run: a SIGCHLD, then a whole poll; when that poll returns no more dead children are left than died since the signal (none, if none did), and the request is down unless there was another. |
| Signals.TeardownWhileDraining | src/os_layer/scheduler/src/scheduler.cpp:137-149 | In every run the state is DRAINING from before the first teardown call until after the last. |
| Signals.TeardownsAreRequests | src/os_layer/scheduler/src/scheduler.cpp:130-149 | In every run there are at most as many teardowns as requests for one. |
| Signals.EveryRequestTearsDown | src/os_layer/scheduler/src/scheduler.cpp:135-147 | In every run: a SIGTERM or SIGINT, then a whole poll; when that poll returns four more teardown calls were made since the signal, besides what a drain then going on still had to do, and all calls so far are whole teardowns in their order. Nothing remembers an earlier drain, and nothing is asked of the scheduler's state. |
| Signals.NoRequestNoTeardown | src/os_layer/scheduler/src/scheduler.cpp:130-149 | In every run: where no drain is asked for or going on and no request comes, no teardown call is made, however many polls there are. |
| Signals.CreditRun | src/os_layer/scheduler/src/scheduler.cpp:130-149 | In every run calls made and owed grow by exactly four for each request that finds none pending, and calls made are never unmade. |
| Signals.TeardownsExact | src/os_layer/scheduler/src/scheduler.cpp:130-149 | Hence between two drains the teardown calls are exactly four for each such request. |
| Signals.NoTickAfterDrain | src/os_layer/scheduler/src/scheduler.cpp:90-91 | Once stopped, no tick runs again in any continuation in which nobody sets RUNNING. |
| Signals.PollReturns | src/os_layer/scheduler/src/signal_handler.cpp:81-106 | No storm of signals and no order of dying children keeps a poll from returning: with the loop over dead children it has at most fifteen steps of its own and two for every child, old or new. |
| Signals.CountStep | src/os_layer/scheduler/src/signal_handler.cpp:54-106 | Every delivery and every step of the poll keeps: each tick is paid for by an alarm, each teardown call by a request. |
| Signals.CountRun | src/os_layer/scheduler/src/signal_handler.cpp:54-106 | That holds along every run. |
| Signals.SignalHandler.constructor | src/os_layer/scheduler/src/signal_handler.cpp:14-15 | The handler starts in the step system's first state. |
| Signals.SignalHandler.Perform | src/os_layer/scheduler/src/signal_handler.cpp:54-106 | Every delivery and every statement of the poll does to the flags and to the scheduler what the step system says. |
| Signals.SignalHandler.PerformPoll | src/os_layer/scheduler/src/signal_handler.cpp:81-106 | So does each statement of processPendingSignals and handleDrainRequest. |
| Signals.SignalHandler.Execute | src/os_layer/scheduler/src/signal_handler.cpp:54-106 | Hence along every run the scheduler's trace is the declarative schedule of the ticks the steps count, and it stays as it is once the scheduler is stopped and nobody sets RUNNING. |
| Reaper.ProcessRegistry.RegisterProcess | src/os_layer/process/src/process_registry.cpp:9-20 | A pid is recorded once; a second registration is ALREADY_EXISTS and changes nothing. |
| Reaper.ProcessRegistry.UpdateState | src/os_layer/process/src/process_registry.cpp:22-34 | Only the named record's state changes; an unknown pid is NOT_FOUND. |
| Reaper.ProcessRegistry.IncrementRestartCount | src/os_layer/process/src/process_registry.cpp:36-54 | The new count is the one stored. |
| Reaper.ProcessRegistry.GetAllPids | src/os_layer/process/src/process_registry.cpp:84-96 | The snapshot holds every registered pid exactly once. |
| Reaper.ReapOne | src/os_layer/process/src/process_manager.cpp:16-81 | For each answer of waitpid: the result code, the registry afterwards (REAPED, and the restart count of an unclean exit) and the action, RESTART up to three times and then ESCALATE_ERROR. |
| Reaper.ReapExact | src/os_layer/process/src/process_manager.cpp:43-80 | A collected child's record becomes REAPED and keeps its name; an unclean exit is counted, and asks for a restart the first three times and for escalation afterwards. |
| Reaper.ElapsedSteps | src/os_layer/scheduler/src/signal_handler.cpp:98-104 | Whatever children do while one call runs is a run of the signal steps with the same counts. |
| Reaper.ReapPending | src/os_layer/scheduler/src/signal_handler.cpp:92-105 | The poll's loop ends, and then no child waits to be collected; on this path the registry never changes and every action is NONE. The loop is a run of the signal steps from the first waitpid to the poll's return, in which the steps' counts of children are the kernel's. |
| Reaper.SendSignal | src/os_layer/process/src/process_manager.cpp:83-101 | INVALID_INPUT for a pid that is not positive, NOT_FOUND for a process that is gone, DB_ERROR for one that may not be signalled, OK exactly when the signal was sent. |
| Reaper.TermAll | src/os_layer/process/src/process_manager.cpp:115-125 | Every process still there afterwards that may be signalled was sent SIGTERM. |
| Reaper.WaitRound | src/os_layer/process/src/process_manager.cpp:143-171 | A round splits the remaining pids into those gone, now REAPED, and those to keep, about which no wait reported a death. |
| Reaper.WaitPhase | src/os_layer/process/src/process_manager.cpp:127-178 | The rounds end, and leave pids over only after ten seconds. |
| Reaper.KillAll | src/os_layer/process/src/process_manager.cpp:183-194 | SIGKILL goes to exactly the stragglers that are still there. |
| Reaper.FinalReap | src/os_layer/process/src/process_manager.cpp:196-204 | Every straggler is gone; those this thread collected become REAPED. |
| Reaper.ReapAll | src/os_layer/process/src/process_manager.cpp:103-209 | It terminates; reaped and straggling pids partition the snapshot; every snapshot pid is gone on return; every SIGKILL comes at least ten seconds after a SIGTERM to the same pid and before any report of its death; nothing is reaped without having been asked to terminate; the registry is changed only by marking collected pids. |
| DutyCache.DutyCache.Check | src/system/shr_infra/auth/src/duty_cache.cpp:11-62 | A fresh entry is served without asking; otherwise the database's answer is returned, and stored only when it is a status. |
| DutyCache.VerdictExact | src/system/shr_infra/auth/src/duty_cache.cpp:82-115 | OK exactly for a row, on duty exactly for "true", "t" and "1"; NOT_FOUND exactly without a row; DB_ERROR exactly when the query fails. |
| DutyCache.DutyCache.Invalidate | src/system/shr_infra/auth/src/duty_cache.cpp:64-73 | Exactly this officer's entry goes. |
| DutyCache.StepsOfCheck | src/system/shr_infra/auth/src/duty_cache.cpp:11-62 | Undisturbed, the steps of a thread do what the call of Check does. |
| DutyCache.BoundedStaleness | src/system/shr_infra/auth/src/duty_cache.cpp:11-67 | In every run of any threads: a status returned by a check was the database's answer in some earlier state with a clock later than the check's start minus 300 s, after every erasure of that officer complete when the check began; a failure is no older than the check. |
| DutyCache.ServedAfter299Seconds | src/system/shr_infra/auth/src/duty_cache.cpp:22-35 | The bound is tight: a run that serves the status of an officer 299 s after it was read, when the officer is no longer in the database. |
| DutyCache.NoStatusIsOnDuty | src/system/shr_infra/auth/src/duty_cache.cpp:83-112 | No value of the status column's type is read as on duty. |
| DutyCache.SomeThreadMoves | src/system/shr_infra/auth/src/duty_cache.cpp:15-41 | No deadlock: while a call is unfinished some thread can take its next step. |
| DutyCache.StepInv | src/system/shr_infra/auth/src/duty_cache.cpp:11-67 | Every step keeps mutual exclusion, the provenance of every entry and the bound of every result. |
| DutyCache.PastIsHistory | src/system/shr_infra/auth/src/duty_cache.cpp:13-13 | The recorded moments are the clock and database of the states the run went through. |
| Connection.SessionStore.Insert | src/system/shr_infra/auth/src/session_store.cpp:10-43 | The session is stored under its token, whatever the audit write does. |
| Connection.SessionStore.Validate | src/system/shr_infra/auth/src/session_store.cpp:45-62 | OK with the stored session exactly when it is there and its expiry is in the future. |
| Connection.SessionStore.Refresh | src/system/shr_infra/auth/src/session_store.cpp:64-99 | A refresh changes no session and extends no expiry. |
| Connection.SessionStore.Remove | src/system/shr_infra/auth/src/session_store.cpp:101-135 | The token is gone; NOT_FOUND when it was not there. |
| Connection.SessionManager.RegisterSession | src/os_layer/threading/src/session_manager.cpp:12-25 | The thread's entry is overwritten. |
| Connection.SessionManager.UnregisterSession | src/os_layer/threading/src/session_manager.cpp:27-31 | The thread's entry is gone. |
| Connection.AuthManager.Login | src/system/shr_infra/auth/src/auth_manager.cpp:45-161 | OK exactly when both texts are clean, a token could be made, and the query names an officer with two numbers and one of the four ranks or, without an answer, the fallback list has the pair; then the session is that officer's, for 28800 seconds from now, and is the only thing stored. Otherwise AUTH_FAILED, INVALID_STATE or a throw, each exactly when stated. |
| Connection.DecideExact | src/system/shr_infra/auth/src/auth_manager.cpp:49-130 | Who is admitted and as whom, who is refused with which code, and when the numbers make it throw, from the texts and the answer alone. |
| Connection.CleanExact | src/system/shr_infra/auth/src/auth_manager.cpp:282-299 | The texts passed on hold none of the listed characters and pairs, and the password no control character. |
| Connection.FrameMeans | src/os_layer/threading/src/worker.cpp:341-503 | Over any frames: each handled frame leads to exactly the events of its type, 1, 2, 6 or another, given whether a session is open when it comes; a query is the payload without one trailing NUL, under the officer of that session. |
| Connection.LoginMeans | src/os_layer/threading/src/worker.cpp:263-387 | Every login that succeeds comes from a frame of type 1 that carries the two texts, for an answer that admits them, and is the session of the officer that the answer names. |
| Connection.AuthManager.ValidateToken | src/system/shr_infra/auth/src/auth_manager.cpp:163-172 | An empty token is INVALID_INPUT; otherwise the store's answer. |
| Connection.Worker.HandleLogin | src/os_layer/threading/src/worker.cpp:263-387 | A login frame leads to one event, the one its payload and the credential answer call for; the registry entry appears exactly when the thread becomes authenticated. |
| Connection.Worker.CheckSession | src/os_layer/threading/src/worker.cpp:400-425 | A query is let through only while the store has the session and its expiry is ahead; the copy taken back is the same session. |
| Connection.Worker.HandleQuery | src/os_layer/threading/src/worker.cpp:398-479 | Validation first; a failure ends the connection; otherwise exactly the frame's query, without its trailing NUL, is executed and the session refreshed. |
| Connection.Worker.HandleLogout | src/os_layer/threading/src/worker.cpp:482-498 | The token leaves the store and the connection ends. |
| Connection.Worker.HandleFrame | src/os_layer/threading/src/worker.cpp:360-503 | Each kind of frame in each state leads to the events it should, and keeps: the registry holds the thread's entry exactly while authenticated, and the store's copy of the session, if there, is unchanged. |
| Connection.Worker.ProcessClientRequests | src/os_layer/threading/src/worker.cpp:341-516 | Over any frames the events are legal, one group per handled frame in order; the loop stops early only after a logout, a failed validation, a throw or an oversized frame; without a throw the registry entry is gone. |
| Connection.Worker.ProcessTask | src/os_layer/threading/src/worker.cpp:524-572 | On every path, exceptions included, the thread's entry is gone at the end. |
| Connection.QueryGuarded | src/os_layer/threading/src/worker.cpp:389-462 | In legal events every executed query is preceded immediately by a successful validation, and that by a login of the same officer less than 28800 s earlier with no login or logout since, however many refreshes happened. |
| Connection.NothingAfterTheEnd | src/os_layer/threading/src/worker.cpp:405-498 | Nothing is processed after a logout, a failed validation or a crash. |
| Connection.OpenSession | src/os_layer/threading/src/worker.cpp:374-386 | While a session is open its login is the last one in the events. |
| OfficerFrames.ReadFrame | src/os_layer/threading/src/worker.cpp:61-109 | What is read is what the stream says; without short reads a whole legal frame is always read. |
| OfficerFrames.SendFrame | src/os_layer/threading/src/worker.cpp:121-148 | A message is sent whole or the call fails. |
| OfficerFrames.MessageBack | src/os_layer/threading/src/worker.cpp:61-148 | A message of at most 65528 bytes sent by sendFrame is read back by readFrame, whatever follows. |
| ResultEncoding.EncodeResult | src/os_layer/threading/src/worker.cpp:197-228 | The nested loop writes the specified bytes into the buffer, or reports that a row header would leave it. |
| ResultEncoding.OverrunExact | src/os_layer/threading/src/worker.cpp:208-212 | A write leaves the buffer exactly when the header of some row starts less than four bytes before its end. |
| ResultEncoding.ManyRowsOverrun | src/os_layer/threading/src/worker.cpp:208-212 | Every result of 16384 rows or more does, whatever its cells. |
| ResultEncoding.TwoRowsOverrun | src/os_layer/threading/src/worker.cpp:208-228 | So does a result of two rows whose first fills the buffer. |
| ResultEncoding.RoundTripExact | src/os_layer/threading/src/worker.cpp:197-228 | Every NUL-free table is written inside the buffer and decodes to itself exactly when its whole encoding fits into 65536 bytes; a truncated result never decodes to the table. |
| ResultEncoding.TruncationExact | src/os_layer/threading/src/worker.cpp:197-228 | Of a result that does not fit, every row's header is written, and of each row the longest start of its cells that fits where the row stands; the rows behind a cut row are not dropped. |
| ResultEncoding.FitsWithoutOverrun | src/os_layer/threading/src/worker.cpp:197-228 | A table whose encoding fits is written completely and inside the buffer. |
| ResultEncoding.ResultDelivered | src/os_layer/threading/src/worker.cpp:61-109 | A complete result passes the protocol's own reader exactly when it has at most 65528 bytes; a longer one that was sent is refused. |
| ResultEncoding.ReadSound | src/os_layer/threading/src/worker.cpp:197-198 | What a reader of the format accepts is the encoding of what it returns. |
| ResultEncoding.ReadBack | src/os_layer/threading/src/worker.cpp:197-228 | The format decodes every NUL-free table of any size. |
| ResultEncoding.SplitExact | src/os_layer/threading/src/worker.cpp:268-291 | The login split returns a pair exactly when the payload starts with that NUL-free pair's encoding. |
| ResultEncoding.SplitFails | src/os_layer/threading/src/worker.cpp:272-289 | It fails only on payloads with fewer than two NULs. |
| JsonReader.SkipWs | src/os_layer/ipc/src/socket_request.cpp:37-41 | The cursor stays within the text and stops at the first character that is no space. |
| JsonReader.ParseString | src/os_layer/ipc/src/socket_request.cpp:55-96 | On all inputs it terminates, and on success the cursor moved forward within the text. |
| JsonReader.ParsePrimitive | src/os_layer/ipc/src/socket_request.cpp:99-107 | It never fails and keeps the cursor within the text. |
| JsonReader.ParseObject | src/os_layer/ipc/src/socket_request.cpp:112-151 | On all inputs it terminates, and on success the cursor moved forward within the text. |
| JsonReader.ObjectEnds | src/os_layer/ipc/src/socket_request.cpp:112-151 | What is read as an object starts, but for blanks, with a brace and ends with one. |
| JsonReader.RunStringBody | src/os_layer/ipc/src/socket_request.cpp:61-93 | The loop with its cursor and appended result computes the recursive definition. |
| JsonReader.RunParseObject | src/os_layer/ipc/src/socket_request.cpp:112-151 | The loop over pairs computes the recursive definition. |
| JsonWriter.JsonEscape | src/os_layer/ipc/src/socket_request.cpp:178-217 | The loop computes the escape of the whole string. |
| JsonWriter.EscapeParseExact | src/os_layer/ipc/src/socket_request.cpp:55-217 | Quoting and reading back returns a text exactly when its characters are kept: written by jsonEscape, no control character but \n, \r and \t; written by json.dumps, nothing else outside ' '..'~'. |
| JsonWriter.ReadBackExact | src/os_layer/ipc/src/socket_request.cpp:61-93 | What comes back is never shorter, and equal exactly for kept text. |
| JsonWriter.ObjectRead | src/os_layer/ipc/src/socket_request.cpp:112-151 | An object of quoted or bare values, in either spacing and anywhere in a text, is read field by field with later keys winning. |
| Decimal.StoulPrint | src/os_layer/ipc/src/socket_request.cpp:246-250 | Every number below 2^64 survives printing and std::stoul. |
| Decimal.StoulExact | src/os_layer/ipc/src/socket_request.cpp:246-250 | Blanks, a sign, digits and anything: the digits count, a minus is taken modulo 2^64, and 2^64 or more throws. |
| Decimal.StoulFails | src/os_layer/ipc/src/socket_request.cpp:246-250 | Without a digit there it throws. |
| Codes.NumberRoundTrip | src/common/constants.h:11-44 | The seventeen codes and their numbers are one to one, both ways. |
| SocketRequest.RunFromJson | src/os_layer/ipc/src/socket_request.cpp:237-288 | The request and result code for every text, including the fields already assigned when it throws. |
| SocketRequest.CommandExact | src/os_layer/ipc/src/socket_request.cpp:154-178 | Exactly the nine names of the catalogue are commands. |
| RequestRoundTrip.ObjectRequest | src/os_layer/ipc/src/socket_request.cpp:237-263 | Any object of readable fields without the text "params": a missing id is the caller's, a missing command is UNKNOWN, the parameters stay, and an id that is no number changes nothing. |
| RequestRoundTrip.ParamsNotObject | src/os_layer/ipc/src/socket_request.cpp:264-279 | Parameters that are no object are not looked at. |
| RequestRoundTrip.RejectedParams | src/os_layer/ipc/src/socket_request.cpp:264-286 | Parameters that do not start with a quote make the request INVALID_INPUT after id and command were taken over. |
| SocketRequest.RunFind | src/os_layer/ipc/src/socket_request.cpp:265-269 | The search returns the first place at or after the start where the text stands. |
| SocketRequest.RunToJson | src/os_layer/ipc/src/socket_request.cpp:316-342 | The stream of insertions writes the response's text. |
| SocketRequest.ToJsonLiteral | src/os_layer/ipc/src/socket_request.cpp:316-342 | The whole text: id, status number, quoted message, and null, the payload or its quotation. |
| SocketRequest.ToJsonIsObject | src/os_layer/ipc/src/socket_request.cpp:316-342 | That text is one object of four fields. |
| SocketRequest.RunLooksLikeJson | src/os_layer/ipc/src/socket_request.cpp:220-229 | True exactly when the first character that is no space opens an object or array. |
| SocketRequest.LooksExact | src/os_layer/ipc/src/socket_request.cpp:220-229 | After any blanks it is the first other character that decides. |
| RequestRoundTrip.RoundTripCompact | src/os_layer/ipc/src/socket_request.cpp:237-288 | A compact request, by jsonEscape or by json.dumps, whose first parameter as written has no comma, brace, bracket or blank is read back as it was exactly when no later parameter is mistaken for another id or command. |
| RequestRoundTrip.RoundTripPlain | src/os_layer/ipc/src/socket_request.cpp:237-288 | So a client's dictionary arrives unchanged when its texts are kept (with json.dumps: printable ASCII, \n, \r, \t) and no later key is request_id or command. |
| RequestRoundTrip.RoundTripNoParams | src/os_layer/ipc/src/socket_request.cpp:237-288 | Without parameters every request survives in either spacing. |
| RequestRoundTrip.RoundTripBraceInside | src/os_layer/ipc/src/socket_request.cpp:99-151 | A closing brace as the first stop character of the first parameter, but for blanks, makes the request safe in either spacing. |
| RequestRoundTrip.RejectedToken | src/os_layer/ipc/src/socket_request.cpp:99-151 | Whatever stands between the braces: a bracket, or a blank not followed by a comma or brace, as the first stop character makes it INVALID_INPUT and leaves the caller's object alone. |
| RequestRoundTrip.RejectedComma | src/os_layer/ipc/src/socket_request.cpp:99-151 | So does a comma whose next character but blanks is no quote. |
| RequestRoundTrip.RejectedShift | src/os_layer/ipc/src/socket_request.cpp:125-148 | So does a comma and a quote, when what the next quote closes is not followed by a colon. |
| RequestRoundTrip.RejectedUnclosed | src/os_layer/ipc/src/socket_request.cpp:55-96 | Or when no further quote follows, as behind a single parameter. |
| RequestRoundTrip.DefaultSpacingRejected | dashboard/client/socket_client.py:16-16 | json.dumps with default spacing: every request with a parameter, whatever its value and whatever follows, is INVALID_INPUT when its first key as written has no comma, brace, bracket or blank. |
| RequestRoundTrip.ErrorResponseRead | src/os_layer/ipc/src/socket_request.cpp:316-365 | A reader like the gateway's recovers id and status of an error response, and its message exactly when it is plain. |
| Framing.LengthRoundTrip | src/os_layer/ipc/src/domain_socket.cpp:424-466 | Length encode and decode are inverse on all 32-bit values. |
| Framing.Fill | src/os_layer/ipc/src/domain_socket.cpp:409-423 | Under any short reads and interruptions the buffer gets exactly the next bytes, or the stream ended first. |
| Framing.RecvFrame | src/os_layer/ipc/src/domain_socket.cpp:405-456 | Unless a call fails, the result and the unread rest depend on the stream alone. |
| Framing.Push | src/os_layer/ipc/src/domain_socket.cpp:468-494 | Under any short writes and interruptions the whole buffer goes out, or a call failed and a prefix did. |
| Framing.SendFrame | src/os_layer/ipc/src/domain_socket.cpp:458-497 | The whole frame goes out, or the failure is reported and a prefix of it did. |
| Framing.FramesDelivered | src/os_layer/ipc/src/domain_socket.cpp:405-497 | Frames of 1 to 65536 bytes arrive as they were sent, whatever follows. |
| Framing.StreamReceived | src/os_layer/ipc/src/domain_socket.cpp:405-497 | The receiver gets exactly the sequence and then end of stream, or stops at the first size out of range. |
| Framing.BrokenStream | src/os_layer/ipc/src/domain_socket.cpp:405-456 | A connection broken inside a frame delivers exactly the complete frames before it. |
| Framing.ReceiveReply | dashboard/client/socket_client.py:20-35 | The client's accumulation loops read what the stream says, under any short reads. |
| Framing.ReplyReceived | dashboard/client/socket_client.py:20-35 | The client gets every reply the gateway sends. |
| Framing.CutReply | dashboard/client/socket_client.py:20-35 | Of a reply that was cut it gets nothing, and can tell whether its length or its body was cut. |
| Framing.ReceiveAll | src/os_layer/ipc/src/domain_socket.cpp:359-456 | Unless a call fails, repeated recvFrame delivers the frames of the stream one after the other, whatever the short reads, and ends as the stream says. |
| Handlers.RunIsAllDigits | src/os_layer/ipc/src/domain_socket.cpp:94-103 | The loop accepts exactly the non-empty texts of digits. |
| Handlers.SafeIntExact | src/os_layer/ipc/src/domain_socket.cpp:151-164 | safeIntStr throws exactly on digits beyond 2147483647; otherwise it gives the number sent, moved into the range, or the default when none was sent. |
| Handlers.Dispatch | src/os_layer/ipc/src/domain_socket.cpp:503-885 | The handlers' code, with its loops over agents, priorities, rows and columns, gives the outcome specified for the request and for what it finds. |
| Handlers.ThrowsExact | src/os_layer/ipc/src/domain_socket.cpp:583-885 | Whatever it finds, a handler throws exactly when a limit, offset or index that it reads is digits beyond 2147483647 (for priority cases only after a valid min_priority). |
| Handlers.HandlerAnswers | src/os_layer/ipc/src/domain_socket.cpp:537-885 | Every response carries its request's id, and says OK exactly when it has a payload. |
| Handlers.HandlerPayloads | src/os_layer/ipc/src/domain_socket.cpp:537-885 | Every payload is JSON, whatever the table and the database hold. |
| Handlers.OnlySafeQueries | src/os_layer/ipc/src/domain_socket.cpp:650-885 | An outcome depends on the database only through queries that hold nothing of the client but canonical numbers in their ranges, a UUID or one of the four priorities. |
| Handlers.PingAnswer | src/os_layer/ipc/src/domain_socket.cpp:537-545 | The exact text with the uptime. |
| Handlers.AgentStatusAnswer | src/os_layer/ipc/src/domain_socket.cpp:549-580 | All three agents in their places, each field under its key; INVALID_STATE without the table. |
| Handlers.AgentByIndexAnswer | src/os_layer/ipc/src/domain_socket.cpp:585-625 | Index i is answered with agent i; what is no number, is out of range, or finds no table is refused as stated. |
| Handlers.ActiveSessionsAnswer | src/os_layer/ipc/src/domain_socket.cpp:629-646 | The exact text with the number of sessions. |
| Handlers.CaseListAnswer | src/os_layer/ipc/src/domain_socket.cpp:650-683 | The case query with the limit and the offset that were sent, in their places; all of its rows under "cases" with its columns, or its code. |
| Handlers.CaseByIdAnswer | src/os_layer/ipc/src/domain_socket.cpp:687-739 | The case with that id: its first row, NOT_FOUND, the query's code, or a refused id. |
| Handlers.HotspotAnswer | src/os_layer/ipc/src/domain_socket.cpp:743-770 | The hotspot query, under "hotspots" with its columns. |
| Handlers.PriorityAnswer | src/os_layer/ipc/src/domain_socket.cpp:774-842 | The priority query with the priority that was sent, HIGH without one; anything but the four is refused. |
| Handlers.WorkloadAnswer | src/os_layer/ipc/src/domain_socket.cpp:846-883 | The workload query, under "officers" with its columns. |
| Handlers.UnknownAnswer | src/os_layer/ipc/src/domain_socket.cpp:525-529 | Whatever is no command is refused. |
| Handlers.PrintIntExact | src/os_layer/ipc/src/domain_socket.cpp:570-616 | Signed numbers are printed so that they can be read back. |
| Gateway.ClientHandler | src/os_layer/ipc/src/domain_socket.cpp:347-399 | Every complete frame gets exactly one response, in order, malformed requests included, up to the first whose handler throws; then the exception ends the process and nothing more goes out. When a socket call fails, what went out is a prefix of that. |
| Gateway.FatalExact | src/os_layer/ipc/src/domain_socket.cpp:370-386 | Whether a frame ends the process depends on the frame alone: it parses, and a number in it overflows. |
| Gateway.ServedExact | src/os_layer/ipc/src/domain_socket.cpp:347-399 | The frames that are served are those before the first fatal one. |
| Gateway.CompactRequestAnswered | src/os_layer/ipc/src/domain_socket.cpp:370-389 | A compact request written by json.dumps, of kept texts, reaches the handlers as it was meant; it is fatal exactly when a number in it overflows, and otherwise the client reads back the text of their response. |
| Gateway.BigLimitIsFatal | src/os_layer/ipc/src/domain_socket.cpp:650-653 | The case list with any limit beyond 2147483647 is read as it was meant and is fatal. |
| Gateway.LeastBigLimit | src/os_layer/ipc/src/domain_socket.cpp:158-160 | The least such text is 2147483648. |
| Gateway.FatalFirst | src/os_layer/ipc/src/domain_socket.cpp:347-399 | A connection that starts with a fatal request gets no reply, whatever follows it. |
| Gateway.SpacedRequestRefused | dashboard/client/socket_client.py:16-18 | With json.dumps' default spacing, and a first key without those characters, the reply is an error with request id 0, never the handlers' response. |
| Gateway.MalformedReply | src/os_layer/ipc/src/domain_socket.cpp:373-380 | A frame that is no request gets exactly one text: the error with status 12 under the id that was read before the error. |
| Gateway.BadParamsNamed | src/os_layer/ipc/src/domain_socket.cpp:373-380 | So a request whose parameters do not start with a quote is refused under its own id. |
| Gateway.EveryReplyIsJson | src/os_layer/ipc/src/domain_socket.cpp:370-389 | Whatever a client sends and whatever the handlers find, a reply is JSON. |
| RowsJson.RowsToJsonArray | src/os_layer/ipc/src/domain_socket.cpp:129-151 | The nested loops write the array text with commas exactly between rows and between columns. |
| RowsJson.RowsAreJson | src/os_layer/ipc/src/domain_socket.cpp:53-151 | For every query result that text is JSON by the grammar of RFC 8259, sections 2 to 7. |
| RowsJson.ResponseIsJson | src/os_layer/ipc/src/socket_request.cpp:316-342 | Every response is JSON when its payload is empty, is JSON, or does not look like JSON. |
| RowsJson.ResponseJsonExact | src/os_layer/ipc/src/socket_request.cpp:316-342 | A response is JSON exactly when its payload is empty, does not look like JSON, or is a JSON value that may have further members of the response behind it. |
| JsonGrammar.PeelMember | src/os_layer/ipc/src/socket_request.cpp:316-342 | In the members of a JSON object, a balanced text without commas of its own before a comma is the whole first member. |
| JsonGrammar.PeelKey | src/os_layer/ipc/src/socket_request.cpp:316-342 | And what stands before a colon is the first member's key, so its value starts behind it. |
| RowsJson.UnbalancedNotJson | src/os_layer/ipc/src/socket_request.cpp:329-339 | So a payload that looks like JSON but whose brackets outside strings do not balance makes a response that is not JSON. |
| RowsJson.BraceNotJson | src/os_layer/ipc/src/socket_request.cpp:329-339 | For instance a single brace; the failure is of the function alone, since no handler produces such a payload. |
| RowsJson.BareKeyNotJson | src/os_layer/ipc/src/socket_request.cpp:329-339 | And a balanced payload that is no value, as an object whose first key is not quoted. |
| JsonGrammar.JsonBalances | src/os_layer/ipc/src/socket_request.cpp:316-342 | In every text of the grammar the brackets outside strings balance. |
| RowsJson.RowReadBack | src/os_layer/ipc/src/domain_socket.cpp:135-148 | Under distinct plain column names a row's object is read back with exactly those names, and a cell is recovered exactly when it is plain. |
| RowsJson.ArrayReadBack | src/os_layer/ipc/src/domain_socket.cpp:135-150 | So is every row of an array, from the place where it stands. |
| RowsJson.OffsetStep | src/os_layer/ipc/src/domain_socket.cpp:135-148 | The next row stands behind this one and a comma. |
| RowsJson.ElemsOfGood | src/os_layer/ipc/src/domain_socket.cpp:53-86 | Every escaped string is a sequence of the grammar's characters and escapes. |
| RowsJson.QuotedValue | src/os_layer/ipc/src/domain_socket.cpp:53-86 | And a reader that follows RFC 8259, section 7, recovers the string. |
| Audit.NineDeletesFlagged | src/system/subsystem3/audit/src/audit_query.cpp:208-232 | Nine deletes by one station officer within 300 seconds are always flagged. |
| Audit.EightDeletesMissed | src/system/subsystem3/audit/src/audit_query.cpp:208-232 | Eight, as distinct rows within two seconds across any bucket boundary, are not. |
| Audit.RapidExact | src/system/subsystem3/audit/src/audit_query.cpp:208-232 | An officer is flagged exactly for five deletes in some window of 300 seconds that starts at a multiple of 300. |
| Audit.FortyOneWritesFlagged | src/system/subsystem3/audit/src/audit_query.cpp:183-204 | Forty-one rows of one backend pid within 3600 seconds are always flagged. |
| Audit.FortyWritesMissed | src/system/subsystem3/audit/src/audit_query.cpp:183-204 | Forty, as distinct rows within two seconds across any hour boundary, are not. |
| Audit.BusyExact | src/system/subsystem3/audit/src/audit_query.cpp:183-204 | A pid is flagged exactly for twenty-one rows in some aligned hour. |
| Audit.ReturnedPerPattern | src/system/subsystem3/audit/src/audit_query.cpp:182-285 | Every row of the log is returned once for each of the four patterns it matches, and nothing else is. |
| Audit.AnswerExact | src/system/subsystem3/audit/src/audit_query.cpp:182-285 | Every answer holds each row of the log as often as there are reasons in its own fields: an aligned hour of twenty-one rows of its backend, an aligned 300 seconds of five deletes by its officer, before 06:00 or from 22:00 on, or an officer of another station on this station's case or evidence. |
| Audit.NightAndForeign | src/system/subsystem3/audit/src/audit_query.cpp:234-283 | So every recent row of a station officer at night is in every answer, as is every row of a foreign hand; a row that none of the four describes is in none. |
| Audit.NineDeletesReported | src/system/subsystem3/audit/src/audit_query.cpp:208-474 | End to end: each recent delete of such an officer is in the mapped report, newest first. |
| Audit.ExecuteAndMap | src/system/subsystem3/audit/src/audit_query.cpp:322-373 | All rows are mapped and appended in order; an empty answer is NOT_FOUND and a failure DB_ERROR, and then nothing is appended. |
| Audit.MapRowFits | src/system/subsystem3/audit/src/audit_query.cpp:291-316 | A mapped row fits the fixed fields, keeps every number, and keeps a text exactly when it fits with its NUL. |
| Audit.DetectSuspiciousActivity | src/system/subsystem3/audit/src/audit_query.cpp:454-474 | An empty answer is OK. |
| Token.Generate | src/system/shr_infra/auth/src/token_generator.cpp:15-55 | The token is the text of the masked bytes, or empty when fewer than sixteen were read. |
| Token.IsValidUuid | src/os_layer/ipc/src/domain_socket.cpp:106-125 | The loop accepts exactly 36 characters with dashes in four places and hexadecimal digits elsewhere. |
| Token.TokenShape | src/system/shr_infra/auth/src/token_generator.cpp:40-54 | Every token passes that check, carries version 4 and variant 10, and decodes to the masked bytes. |
| Token.SameToken | src/system/shr_infra/auth/src/token_generator.cpp:40-54 | Two inputs give the same token exactly when they agree on the 122 unmasked bits. |
| Token.EveryShapeIsAToken | src/system/shr_infra/auth/src/token_generator.cpp:40-54 | Every text of that shape is the token of some sixteen bytes. |
| Token.DecodeText | src/system/shr_infra/auth/src/token_generator.cpp:43-54 | The printed text decodes to the bytes, for all sixteen. |
| Cli.ParseCommand | src/interface/cli.cpp:140-152 | Repeated extraction splits the line into its words. |
| Cli.TokensExact | src/interface/cli.cpp:140-152 | Every token is a word and together they hold every character that is no space, once and in order. |
| Cli.JoinSplit | src/interface/cli.cpp:140-152 | Splitting words joined with single spaces gives them back. |
| Cli.ParseArgs | src/interface/cli.cpp:901-942 | The index loop collects the items of the token list from `start` on. |
| Cli.DashedPair | src/interface/cli.cpp:908-937 | "--k" takes any next token but one that starts with two dashes as its value, "-k" any but one that starts with a dash. |
| Cli.ItemsExact | src/interface/cli.cpp:901-942 | On any input each token is consumed exactly once, in order. |
| Cli.ReadPrintExact | src/interface/cli.cpp:901-942 | Reading undoes printing exactly for the item lists in which no item can be taken for another. |
| Cli.CommandLineRoundTrip | src/interface/cli.cpp:140-942 | Positionals, then flags with values, then bare flags, joined with spaces and parsed, are recovered. |
| Cli.FlagMapAt | src/interface/cli.cpp:917-917 | A flag given under distinct keys has its value in the map; a repeated key keeps its last. |

## Left out

- RoundTripCompact: one case of the first stop character is not characterised, a comma and a quote after which the text up to the next quote is followed by a colon or holds a backslash (say a first value ending in a comma and a second key starting with a colon); some such requests survive. RoundTripBraceInside, RejectedToken, RejectedComma, RejectedShift and RejectedUnclosed cover all others.
- Gateway.CompactRequestAnswered: parameters are strings; json.dumps can also write numbers and nested values, which only the refusals cover, and lone surrogates, which are not characters here.
- PoolProtocol.DrainProgress: every running task is assumed to end. A worker that serves a silent client waits in read() without a timeout, so the drain's joins can wait for ever; readFrame's comment "with timeout" is not kept.
- PoolProtocol.ShutdownTerminates: for the same reason the bound is on the steps; that they are taken rests on every running task ending.
- Audit.NineDeletesReported: an answer of the query is taken as given; on the shipped schema there is none.
- Handlers.Handle: a query is known by its kind and by the texts put into it, and the database answers it with any code and any rows; the SQL around those texts is not modelled. The agent names are C strings that end within their fields.
- Gateway.ClientHandler: one connection; that an uncaught exception also ends the other connections and the daemon is not modelled.
- OfficerFrames.ReadFrame: with a short read the connection is closed; which reads are short is up to the kernel and not predicted.
- ReapAll: pids are positive, belong to processes that may be signalled, and are never reused; the blocking wait is not interrupted (handlers are installed with SA_RESTART) and a process sent SIGKILL dies; the 10 ms sleep is only known to let time pass.
- Worker.ProcessClientRequests: starts from frames already read; it is not composed with OfficerFrames.ReadFrame over a byte stream.
- Reaper.ReapPending: the signal steps count children; the loop is tied to them through a list of the kernel's children, each once.
- SessionManager.RegisterSession: no two connections share a thread id; that is assumed, since nothing in the repository submits a task.
- SessionStore.Others: other threads may remove this connection's token but never guess it; that rests on 122 random bits.
- Scheduler.Tick: the overflow of the int next-fire field (the tick counter is a long), and one Job object registered twice, are not modelled.
- Scheduler.HandleDrainRequest: the teardown calls are recorded, not run; what joining threads twice does is not modelled.
- ThreadPool.constructor: thread creation succeeds; the accounting after a failed pthread_create and a second init are not modelled.
- AuthManager.Login: std::stoi's own parsing is not modelled, only whether it throws; the fallback credential list is one yes-or-no answer.
- The audit log: fractions of a second and time zones that are not a whole number of hours from UTC; NULL officers count as unknown ones; columns arrive as values, not as text for atoi.
- The JSON grammar: UTF-8 validity; bytes from 0x80 on are taken as unescaped characters.
- PostgreSQL, libpq and SQL text other than the suspicious-activity query: a query is an opaque call.
- pthread, semaphore and robust-mutex error codes: lock, wait and signal are atomic steps and the lock succeeds.
- Shared memory, mmap, mlock, FIFOs, fork and exec, daemonising, logging, socket bind, listen and accept.
- The CLI's commands, and the facades and routing of the three subsystems: thin delegation.
- SIGHUP: its callback runs inside the handler and touches none of the modelled state.
- Warrant, bail, arrest and forensic managers, dashboards, data generator and the Python agents.
