# Duraflow, verified

A Dafny model of Duraflow's durable execution protocol: the store's transactions
(`internal/store/postgres.go`), the worker, reaper, retry and backoff logic around them
(`internal/engine/engine.go`), the schema's constraints, and the domain types. It proves what the
protocol promises over every run of the system: arbitrary interleavings of any number of workers and
engines, crashes at any instant, reclaimed leases, retries, dead letters, replays, cancellations, and
transactions that fail.

`dafny verify dfyconfig.toml` checks everything.

## How it is built

Two layers that meet.

*The code, in its own form.* `Workflow.Registry`, `Postgres.Postgres` (with `Postgres.Tx` for an open
transaction), `Environment.LockedRand` and `Engine.Engine` are classes whose methods follow the Go
methods statement by statement. A store method works on a transaction's copy of the tables, on a
connection that may be lost before any statement, and is proved to leave behind either the tables the
function in `Store.dfy` gives (`StartRunTx`, `LeaseTx`, `AdvanceTx`, ...) or, on an error, the tables it
found. An engine method is proved to take labels of the transition system below, whatever everyone else
does between its calls; the worker's loop is proved to make the moves of `Drain.dfy`.

*The protocol.* `Protocol.Sys` is the three tables, the clock, each worker's hand (the row `LeaseTask`
returned, held while the handler runs) and the `StartWorkflow` calls in flight. A `Protocol.Label` is
one committed transaction, a call being begun, a tick of the clock, or a worker losing what it holds.
`Reachable(fleet, s)` says that some sequence of labels leads from empty tables to `s`; `Inv` is the
inductive invariant, which holds in every reachable state.

Between the two stands the projection: a run seen on its own (`RunView.View`: its row, its task rows by
step, its history) changes only by nine acts, and `Invariant.Simulates` shows that every label, on every
run, is one of them. Most theorems are then proved about one run and its acts.

| file | contents |
|---|---|
| `Workflow.dfy`, `Store.dfy`, `Scheduling.dfy`, `Names.dfy` | domain types, registry, the transaction functions, task construction, owner names |
| `Backoff.dfy` | the int64 shift behind retry backoff |
| `History.dfy` | the event log, folded and accepted |
| `RunView.dfy`, `Protocol.dfy`, `Simulation.dfy`, `Invariant.dfy` | one run, the whole system, the projection, the invariant |
| `Guarantees.dfy` | what holds whatever the workers are called |
| `Accounting.dfy`, `Failures.dfy`, `Termination.dfy` | what the attempt and error columns say, how often a task is leased, why a run goes quiet |
| `Fencing.dfy`, `Limits.dfy` | what private owner names add, and exactly when each claim of the documentation holds |
| `Conservation.dfy`, `Queue.dfy`, `NoLostRun.dfy`, `Drain.dfy` | counts across tables, recovery time, fairness, completion, shutdown |
| `Postgres.dfy`, `Environment.dfy`, `Interleaving.dfy`, `Loop.dfy`, `Engine.dfy` | the store and the engine as classes, what surrounds them, what a worker's loop owes to it |

## Where code and documentation part

The model follows the code.

- The repository's `README.md:92` says a task is dead-lettered after `max_attempts`. Reaping does not look at
  `max_attempts` (`internal/store/postgres.go:377-381`), so a task whose workers keep crashing is leased
  without limit (`Limits.AttemptsHaveNoBound`). With private owner names the statement holds exactly as long as
  the reaper does not take back the lease of a task's last attempt (`Limits.WithinMaxAttempts`); past
  `max_attempts` it goes by at most as many attempts as it was reclaimed since its last replay
  (`Accounting.AttemptsLimited`).
- The comment on `Run` says workers stop leasing the moment the context is cancelled. A worker may still be
  granted a lease exactly if it was past its check when that happened (`Limits.LateLeaseExactly`), and never
  two (`Drain.OneLateLease`).
- The comment on `CancelRun` announces `ErrNotFound` for a run that is not running; the code returns
  success and changes nothing, and so does `Store.CancelTx`.
- Replaying a dead letter does not set its run back to running: the run stays `failed` with a live task
  until its last step completes it (`Guarantees.FailedStep`), and cannot be cancelled meanwhile.
- The comments call the fence an ownership check that keeps stale workers out. It compares names: it
  tells leases apart exactly when no two workers share a name (`Limits.FenceNeedsPrivateNames`). No step is
  advanced twice even when they do (`Guarantees.NoDoubleAdvance`). With shared names a late failure may also
  move a task's due time back, unless no step can be tried twice (`Limits.NeverEarlierExactly`).
- Backoff is documented as exponential with a cap. The shift wraps at 64 bits, and for some
  configurations the ceiling drops below the cap again (`Backoff.CeilingCanDip`); `Backoff.CeilingExact` says
  for which it does not.

## Conventions

- One clock, which never goes backwards, stands for the engine's `time.Now()` and the database's
  `now()`; a tick may come between any two steps. A stamp an engine takes lies between the lease it
  holds and the commit that carries it.
- Identifiers are numbers, payloads are strings that are only handed on, a NULL payload is the empty
  object. A handler is the relation of outputs it may return for an input; it may always fail.
- `SKIP LOCKED` passes over any set of rows; `RETURNING` lists rows in any order; a UUID may be any
  number, used or not; a backoff delay may be anything from 0 to its ceiling.
- A `Fleet` is the registry and the settings all processes share, and the owner name of each worker; a worker
  is an engine and a number. `PrivateNames` asks that no two workers share a name. Names made as `Run` makes
  them are private exactly when no two engines have the same WorkerID (`Scheduling.PrivateWhenIDsDiffer`); an
  engine's WorkerID, number of workers and polling interval are its own.
- `Sys.begun`, `Sys.leases` and `Hand.lease` record when a run was begun and which lease of a task a hand
  came from. No step of the protocol looks at them.
- What the engine meets and does not decide is given to its methods as parameters (`Environment.Circumstances`,
  `Environment.Context`, the numbers `LockedRand` will deliver): which rows are locked, how many statements a
  connection lasts, how each handler comes back, the next UUIDs, when the context is cancelled. Only the steps
  others take in between stay open: the body of `Environment.Others` takes none, and callers know its contract alone.

## Model

| member | source | states |
|---|---|---|
| `Workflow.Registry.RegisterWorkflow` | internal/workflow/types.go:144 | a definition replaces the one of its name; everything else is kept |
| `Workflow.Registry.RegisterActivity` | internal/workflow/types.go:147 | a handler replaces the one of its name; everything else is kept |
| `Workflow.Registry.Workflow` | internal/workflow/types.go:150-153 | found exactly when registered, and then the registered definition |
| `Workflow.Registry.Activity` | internal/workflow/types.go:156-159 | found exactly when registered, and then the registered handler |
| `Names.NamesAreDistinct` | internal/engine/engine.go:162-165 | two workers lease under one name exactly when they have the same number under the same WorkerID |
| `Scheduling.PrivateWhenIDsDiffer` | internal/engine/engine.go:162-165 | owner names are private exactly when no two engines are configured with the same WorkerID |
| `Postgres.Rows` | internal/store/postgres.go:389-399 | scanning a result set lists every row once |
| `Postgres.DueRowsHaveFirst` | internal/store/postgres.go:205-211 | when some due row is not locked, the dequeue query has a row to return |
| `Postgres.Tx.InsertTask` | internal/store/postgres.go:168-175 | inserts the pending row, or fails on a repeated id, an unknown run or a repeated (run, step) and changes nothing |
| `Postgres.Tx.InsertEvent` | internal/store/postgres.go:178-187 | appends one event, an absent payload stored as the empty object, or fails on an unknown run |
| `Postgres.Postgres.StartRun` | internal/store/postgres.go:111-165 | row by row, either the new run, its first task and two events, or the run already holding the key with nothing written; who loses the race between key check and insert gets an error; any error leaves the tables alone; with a working connection it fails only on a violated constraint |
| `Postgres.Postgres.LeaseTask` | internal/store/postgres.go:194-223 | leases a due unlocked task with the earliest available_at, counts the attempt and sets the deadline; returns no task only if every due row is locked, and an error exactly when the connection is lost |
| `Postgres.Postgres.Advance` | internal/store/postgres.go:233-287 | behind the fence, completes the task and schedules the next step or completes the run, all or nothing, row by row; a stale lease is a successful no-op; with a working connection it succeeds whenever the run exists and the next task's id and step are new |
| `Postgres.Postgres.Retry` | internal/store/postgres.go:293-321 | behind the fence, back to pending at the given time with its error and one event, its owner cleared; it fails only on a lost connection or a missing run |
| `Postgres.Postgres.DeadLetter` | internal/store/postgres.go:327-364 | behind the fence, the task is dead, the run failed, both with the message, two events carrying it; it fails only on a lost connection or a missing run |
| `Postgres.Postgres.ReapExpiredLeases` | internal/store/postgres.go:370-415 | every expired lease and no other goes back to pending, with one event each, and the result is the number of events; a connection that lasts for the update, those events and the commit never fails it |
| `Postgres.Postgres.GetRun` | internal/store/postgres.go:420-430 | the run's row, or ErrNotFound exactly when there is none |
| `Postgres.Postgres.GetHistory` | internal/store/postgres.go:459-481 | the loop returns the run's events in insertion order, as the fold HistoryOf defines them |
| `Postgres.Postgres.ReplayDeadLetter` | internal/store/postgres.go:535-563 | only a dead task is replayed: it is pending, due now, with attempt 0 and no error, one event is logged and no other row changes; on anything else the tables stay as they are and the answer is ErrNotFound; with a working connection a dead task of an existing run is always replayed |
| `Postgres.Postgres.CancelRun` | internal/store/postgres.go:568-613 | a running run and its pending and leased tasks are cancelled with one event, every other row stays; a run that is not running is left alone; with a working connection the answer is ErrNotFound exactly when there is no run |
| `Postgres.Postgres.GetStats` | internal/store/postgres.go:616-635 | each count is the number of rows of its table with its status |
| `Environment.LockedRand.Duration` | internal/engine/engine.go:405-412 | the next random number brought into 0..max; nothing is drawn for a maximum of zero or less |
| `Engine.WithDefaults` | internal/engine/engine.go:35-60 | positive settings are kept, the others get 8 workers, 30 s, 100 ms, 5 s, 500 ms, 5 min, 5 retries and "worker"; every resulting configuration is sound |
| `Engine.Engine.constructor` | internal/engine/engine.go:77-91 | a new engine runs the caller's configuration with the defaults filled in, agrees with its fleet and registry, and names its workers after its WorkerID |
| `Engine.Engine.BuildTask` | internal/engine/engine.go:132-154 | an activity may be tried as often as its step says, or as the configuration says if the step says nothing, and is due now; a timer is tried once, named __timer__ and due after its duration |
| `Engine.Engine.StartWorkflow` | internal/engine/engine.go:95-129 | unknown and empty workflows are refused untouched; otherwise the call is BeginStart, steps of others, and CommitStart or, on an error, DropStart, of the command with this name, input (or the empty object), key and step count; with a working connection a taken key gives back the run holding it with nothing written, and a call with no key or an untaken one and new ids creates the run and its first pending task |
| `Engine.Engine.NextStep` | internal/engine/engine.go:279-294 | finished exactly past the last step; otherwise the next step's task with the result as input; unresolved, with the matching message, exactly when the run or its workflow is unknown or the store is out of reach |
| `Engine.Engine.BackoffDelay` | internal/engine/engine.go:354-364 | the next random number brought into 0..the attempt's ceiling, which is never above the cap |
| `Engine.Engine.Fail` | internal/engine/engine.go:297-326 | whatever others do meanwhile, it is the protocol's Fail of the task in hand with this message, stamped when it was called and delayed by the drawn backoff, unless the store cannot be reached |
| `Engine.Engine.Advance` | internal/engine/engine.go:246-274 | whatever others do meanwhile, it is the protocol's Advance with this result, UUID and stamp when the run can be read and the next step resolves, else its Fail saying why |
| `Engine.Engine.Execute` | internal/engine/engine.go:215-243 | with a working connection a timer advances with {"fired":true}, an activity with what its handler returned, and a Fail comes only from an unregistered activity, a handler that erred or panicked, a run that cannot be read, or a next step that does not resolve, each with its own message |
| `Engine.Engine.SafeInvoke` | internal/engine/engine.go:386-393 | what the handler returned is the result, what it erred with is the failure, and a panic is a failure that says so |
| `Engine.Engine.Sleep` | internal/engine/engine.go:373-382 | waits for timer or cancellation and says which: true exactly if the context is cancelled and that case is taken; as the moves of a round that found no task |
| `Engine.Engine.Round` | internal/engine/engine.go:187-208 | one round past the check asks for a task once; the connection lasting, it leases and concludes one whenever some due row is not locked by others in the state in which it asks, and sleeps only if there was none or the connection was lost |
| `Engine.Engine.WorkerLoop` | internal/engine/engine.go:176-210 | the loop makes moves of the drain protocol until it has seen cancellation and returned, each fitting the circumstances of its round, with at most three waits a round: every round leases and rightly concludes a task if one was to be had; at most one lease after cancellation, no task lost on a steady network, and nothing left leased under its name unless a UUID was refused |
| `Engine.Engine.Reaper` | internal/engine/engine.go:329-351 | on every tick until cancellation it reaps, unless its connection is too short for the leases then expired; each successful call is the protocol's Reap, and what it counts as reclaimed is exactly what its own calls reclaimed |
| `Loop.HandResolves` | internal/engine/engine.go:279-289 | a task in hand always resolves: its run exists and names a registered workflow, so advancing it never fails for want of one |
| `Interleaving.ForeignTrace` | internal/engine/engine.go:187-208 | whatever the others do, a goroutine still holds what it held and runs keep their workflow |
| `Backoff.CeilingExactCall` | internal/engine/engine.go:358-361 | the wrapped, guarded shift equals min(base * 2^(attempt-1), max) exactly when it does not overflow into (0, max) |
| `Backoff.CeilingExact` | internal/engine/engine.go:354-364 | it equals it at every attempt exactly when none of 63 shifts of the two settings does |
| `Backoff.SmallOddPartIsExact` | internal/engine/engine.go:358-361 | it does whenever the odd part of the base times the cap is below 2^63 |
| `Backoff.DefaultsAreExact` | internal/engine/engine.go:48-53 | it does for the default base and cap |
| `Backoff.CeilingCanDip` | internal/engine/engine.go:358-361 | and not for every setting: one whose 39th attempt waits less than the cap the 38th had reached |
| `RunView.PerformGood` | internal/store/postgres.go:111-415 | every act keeps a run's shape, timing, recoverability, tallies and order |
| `Invariant.StepIsAnAct` | internal/store/postgres.go:111-613 | from every reachable state, every transaction is, on every run, one of nine acts, and that act was possible |
| `Invariant.InvStep` | internal/store/postgres.go:111-613 | every label keeps the invariant of the whole system |
| `Invariant.ReachableInv` | internal/store/postgres.go:11-14 | it holds in every state reachable from empty tables |
| `Guarantees.HistoryRecoversRun` | internal/store/postgres.go:178-187 | every run's history is accepted by the automaton, and folding it gives back the run's status, step and result and, for every task row the run has, its id, input, result, status (pending and leased being one) and, for the current one, its attempts |
| `Guarantees.FinalEventIsLast` | internal/store/postgres.go:271-281 | in every reachable state, WorkflowCompleted and WorkflowCancelled are the last event of any run's history they occur in |
| `Guarantees.NoDoubleAdvance` | internal/store/postgres.go:225-252 | a task has one ActivityCompleted event if completed and none otherwise, and no other task has its run and step, for any owner names |
| `Guarantees.CompletedInOrder` | internal/store/postgres.go:254-281 | a completed run completed its total_steps steps once each, in order, and its last event is WorkflowCompleted |
| `Guarantees.RunShape` | internal/store/postgres.go:258-281 | a run's tasks are the steps 0..current_step, all but the last completed, each fed by the result of the one before |
| `Guarantees.TaskIsItsStep` | internal/engine/engine.go:132-154 | every task row of a reachable state is its step's: kind, activity name, and exactly the attempts the step or else the configuration gives, one for a timer |
| `Guarantees.ReplayTakesTheDead` | internal/store/postgres.go:535-563 | in every reachable state a replay takes place exactly if the task is dead, never hits a constraint, is the protocol's, and changes no other row |
| `Failures.FailuresAreTold` | internal/store/postgres.go:293-364 | in every reachable state a task's error is the message in its last retry or dead-letter event, none if it was replayed since; a run's error is that of its last WorkflowFailed event; a dead task and its run carry the same one |
| `Guarantees.AdvanceFits` | internal/store/schema.sql:45 | past the fence an Advance commits exactly when its UUID is new: UNIQUE (run_id, step_index) never stops it |
| `Guarantees.CompletedMeansStraightLine` | internal/engine/engine.go:215-294 | a completed run's result is one that running its steps one after the other on its input could give |
| `Guarantees.CurrentInputIsStraightLine` | internal/engine/engine.go:292-293 | every task's input is one the steps before it could give on the run's input |
| `Guarantees.CompletedIsFold` | internal/engine/engine.go:215-294 | with deterministic handlers a completed run's result is the fold of its steps over its input |
| `Guarantees.FinalForGood` | internal/store/postgres.go:575-603 | a completed or cancelled run never changes again: row, tasks, leases, history |
| `Guarantees.FailedStaysOrCompletes` | internal/store/postgres.go:535-563 | a failed run stays failed or completes; it is never running or cancelled again |
| `Guarantees.FailedStep` | internal/store/postgres.go:271-277 | failed is left only by the Advance of the last step |
| `Guarantees.TimersAreWaitedFor` | internal/engine/engine.go:143-152 | no task is leased before it is available, none is available before the run's start plus all timers up to its step, and no run completes before its start plus all its timers |
| `Guarantees.OneRunPerKey` | internal/store/schema.sql:14 | an idempotency key names at most one run, however starts race |
| `Fencing.FenceSound` | internal/store/postgres.go:240-252 | with private names, a commit that would pass the fence was computed from the row as it stands, of its latest lease |
| `Fencing.VisibilityExclusion` | internal/store/postgres.go:202-214 | of two holders of a task, the older one's deadline had strictly passed before the newer lease was granted |
| `Fencing.StaleHandIsLate` | internal/store/postgres.go:377-381 | a snapshot that is no longer its row is past its deadline, or its task was cancelled |
| `Limits.FenceNeedsPrivateNames` | internal/store/postgres.go:240-244 | the fence tells leases apart exactly when no two workers share a name |
| `Limits.WithinMaxAttempts` | internal/engine/engine.go:302-304 | along any trace with private names, a task stays within max_attempts exactly as long as no reap takes back the lease of its last attempt |
| `Limits.AttemptsHaveNoBound` | internal/store/postgres.go:377-381 | a task can be brought to any attempt by crashes alone |
| `Limits.LateLeaseExactly` | internal/engine/engine.go:178-187 | after cancellation a worker can be granted a lease exactly if it was past its check when the context was cancelled |
| `Limits.LateLeaseHappens` | internal/engine/engine.go:178-187 | and any worker with an empty hand can get there |
| `Limits.NeverEarlierExactly` | internal/engine/engine.go:316-320 | due times only move on exactly if names are private or no step a run can get to may be tried twice |
| `Accounting.AttemptsAccounted` | internal/store/postgres.go:202-204 | for any owner names, attempt is retries plus reclaims since the last replay, plus one once leased |
| `Accounting.AttemptsLimited` | internal/engine/engine.go:302-304 | with private names attempt exceeds max_attempts by at most those reclaims, and a dead task has used max_attempts |
| `Accounting.NeverDueEarlier` | internal/engine/engine.go:316-320 | with private names no transaction, retry, reap or replay included, makes a task available earlier than it was |
| `Termination.LeasesBounded` | internal/store/postgres.go:202-204 | for any owner names, a task is leased at most max_attempts * (1 + replays) + reclaims times |
| `Accounting.LeasesAreLogged` | internal/store/postgres.go:202-214 | leases granted are the endings logged (retry, reclaim, dead letter, completion) plus the one still open |
| `Termination.PotentialDrops` | internal/engine/engine.go:297-326 | for any owner names, a measure drops with every lease, advance, retry, dead letter and cancellation of a run, and rises only with reclaims and replays |
| `Termination.CommitsBounded` | internal/engine/engine.go:297-326 | so in any trace a run's commits are bounded by its measure, its reclaims and its replays: it goes quiet |
| `Conservation.StatsBalance` | internal/store/postgres.go:616-635 | pending + leased + dead tasks = running + failed runs, dead tasks <= failed runs, and the four run counts add up to all runs |
| `Conservation.RecoveryTime` | internal/engine/engine.go:329-351 | with reaps at most ReapInterval apart, no row is leased later than its lease time + LeaseDuration + ReapInterval |
| `Queue.OvertakingBounded` | internal/store/postgres.go:205-211 | while a strictly overdue task waits, at most the tasks ahead, the commands in flight stamped before it was due, and the tasks reclaimed meanwhile are leased |
| `Queue.NewTaskDue` | internal/engine/engine.go:138-152 | a label adds a task only as an Advance or a CommitStart, pending and untried, due exactly at the stamp its engine took plus its step's timer |
| `NoLostRun.NoRunIsLost` | internal/store/postgres.go:194-415 | from every reachable state a run with a pending or leased task can be brought to completion with a given result exactly when its steps from the current one on may turn the task's input into it, and then in (steps left) * (live tasks + 4) labels |
| `Drain.DrainIsClean` | internal/engine/engine.go:156-210 | without store errors a row leased under a worker's name is the task in its hand, so when all have returned none is leased to this engine |
| `Drain.OneLateLease` | internal/engine/engine.go:176-187 | each worker is granted at most one lease after cancellation, for any owner names |
| `Drain.DrainEnds` | internal/engine/engine.go:169-171 | after cancellation each worker makes at most three more moves of its own |
| `Drain.NeverStuck` | internal/engine/engine.go:212-243 | and until it has returned, some move of its own is open to it |

## Left out

- PostgreSQL, pgx, SQL text, pools, row scanning and migrations: a transaction is atomic or has no effect; what may go wrong inside one is a lost connection or a violated constraint.
- A commit that takes effect although the store reports an error is, in the protocol, the commit followed by the loss of the hand; the class `Postgres` does not produce it, so neither does `Engine`.
- JSON encoding, JSONB normalisation, the quoting of names by `%q` and the wrapping of store errors: error payloads carry the text as it is.
- Nil payloads returned by handlers, which the database would reject as the next step's input.
- Clock skew between engines and the database, and the two clock readings of `buildTask`, which count as one.
- Engines with different leases, reap intervals, backoff, retry defaults or registries on one database, and redefining a workflow while it runs.
- Running goroutines side by side: `Engine.Run` itself is not a method here; `Drain.Pool` composes the loops of its workers, each proved against it with everything else arbitrary.
- A reaper's tick that is ready together with cancellation: the model's reaper returns, the code may reap again first.
- `int64(max) + 1` in `lockedRand.duration` when the cap is the largest int64.
- Jitter of idle polling, `GetTasks`, `ListRuns`, `ListDeadLetters`, `Workflows`: reads that would only add easy members.
- HTTP API, metrics, logging, demo activities, benchmark, dashboard, process start-up.
- Guarantees.NoDoubleAdvance: handlers themselves may run more than once for one step; that is the protocol's at-least-once execution, and nothing stronger is stated.
- NoLostRun.NoRunIsLost: says which completing continuations exist, not that every fair schedule takes one.
- Drain.DrainIsClean: says nothing about rows leased under the same names by an earlier process; the pool begins under names nothing is leased to.
