/**
 The store's commands and, for each of them, the tables one committed transaction leaves behind.
 These functions are the specification that the class in Postgres.dfy is proved against.
 */
module Store {
  import opened Options
  import opened Workflow

  datatype NewTask = NewTask(
    id: TaskId,
    stepIndex: int,
    activityName: string,
    kind: TaskKind,
    input: Payload,
    maxAttempts: int,
    availableAt: Time)

  datatype StartRunCmd = StartRunCmd(
    runID: RunId,
    workflowName: string,
    input: Payload,
    totalSteps: int,
    idempotencyKey: Option<string>,
    first: NewTask)

  datatype AdvanceCmd = AdvanceCmd(
    taskID: TaskId,
    runID: RunId,
    owner: string,
    result: Payload,
    nextStep: Option<NewTask>,
    runResult: Option<Payload>)

  datatype RetryCmd = RetryCmd(taskID: TaskId, runID: RunId, owner: string, errMsg: string, availableAt: Time)

  datatype DeadLetterCmd = DeadLetterCmd(taskID: TaskId, runID: RunId, owner: string, errMsg: string)

  datatype Stats = Stats(
    runsRunning: nat,
    runsCompleted: nat,
    runsFailed: nat,
    runsCancelled: nat,
    tasksPending: nat,
    tasksLeased: nat,
    tasksDead: nat)

  // The database, with the clock its now() reads.
  datatype Tables = Tables(runs: map<RunId, Run>, tasks: map<TaskId, Task>, events: seq<Event>, now: Time) {
    // A NULL payload is stored as the empty object.
    function WithEvent(runID: RunId, taskID: Option<TaskId>, typ: EventType, payload: Option<Payload>): Tables {
      this.(events := events + [MakeEvent(runID, taskID, typ, payload, now)])
    }

    function WithTask(id: TaskId, t: Task): Tables {
      this.(tasks := tasks[id := t])
    }

    function WithRun(id: RunId, r: Run): Tables {
      this.(runs := runs[id := r])
    }
  }

  // A transaction either commits or, on a violated constraint, leaves the tables as they were.
  datatype TxResult = Commit(tables: Tables) | Rollback

  function MakeEvent(runID: RunId, taskID: Option<TaskId>, typ: EventType, payload: Option<Payload>, now: Time): Event {
    Event(runID, taskID, typ, if payload.Some? then payload.value else EMPTY_OBJECT, now)
  }

  function ErrorPayload(msg: string): Payload {
    "{\"error\":\"" + msg + "\"}"
  }

  // ----- what each statement does to one row -----

  function NewRow(runID: RunId, t: NewTask, now: Time): Task {
    Task(runID, t.stepIndex, t.activityName, t.kind, t.input, TaskPending, 0, t.maxAttempts, t.availableAt,
         None, None, None, None, now, now)
  }

  function LeaseRow(t: Task, owner: string, until: Time, now: Time): Task {
    t.(status := TaskLeased, leasedBy := Some(owner), leaseExpires := Some(until), attempt := t.attempt + 1, updatedAt := now)
  }

  function CompleteRow(t: Task, result: Payload, now: Time): Task {
    t.(status := TaskCompleted, result := Some(result), updatedAt := now)
  }

  function RetryRow(t: Task, at: Time, msg: string, now: Time): Task {
    t.(status := TaskPending, availableAt := at, error := Some(msg), leasedBy := None, leaseExpires := None, updatedAt := now)
  }

  function DeadRow(t: Task, msg: string, now: Time): Task {
    t.(status := TaskDead, error := Some(msg), updatedAt := now)
  }

  function ReclaimRow(t: Task, now: Time): Task {
    t.(status := TaskPending, leasedBy := None, leaseExpires := None, updatedAt := now)
  }

  function ReplayRow(t: Task, now: Time): Task {
    t.(status := TaskPending, availableAt := now, error := None, attempt := 0, updatedAt := now)
  }

  function CancelRow(t: Task, now: Time): Task {
    t.(status := TaskCancelled, updatedAt := now)
  }

  function OpenRun(cmd: StartRunCmd, now: Time): Run {
    Run(cmd.workflowName, cmd.input, RunRunning, 0, cmd.totalSteps, cmd.idempotencyKey, None, None, now, now)
  }

  function StepRun(r: Run, step: int, now: Time): Run {
    r.(currentStep := step, updatedAt := now)
  }

  function CompleteRun(r: Run, result: Option<Payload>, now: Time): Run {
    r.(status := RunCompleted, result := result, updatedAt := now)
  }

  function FailRun(r: Run, msg: string, now: Time): Run {
    r.(status := RunFailed, error := Some(msg), updatedAt := now)
  }

  function CancelledRun(r: Run, now: Time): Run {
    r.(status := RunCancelled, updatedAt := now)
  }

  // ----- conditions in WHERE clauses and constraints -----

  predicate KeyTaken(db: Tables, key: Option<string>) {
    key.Some? && exists r | r in db.runs :: db.runs[r].idempotencyKey == key
  }

  // PRIMARY KEY, the foreign key to workflow_runs, and UNIQUE (run_id, step_index).
  predicate CanInsertTask(db: Tables, runID: RunId, t: NewTask) {
    && t.id !in db.tasks
    && runID in db.runs
    && forall u | u in db.tasks :: !(db.tasks[u].runID == runID && db.tasks[u].stepIndex == t.stepIndex)
  }

  predicate Eligible(db: Tables, t: TaskId) {
    t in db.tasks && db.tasks[t].status == TaskPending && db.tasks[t].availableAt <= db.now
  }

  // ORDER BY available_at LIMIT 1, passing over the rows other transactions hold locked.
  predicate Pick(db: Tables, locked: set<TaskId>, t: TaskId) {
    && Eligible(db, t)
    && t !in locked
    && forall u | u in db.tasks :: Eligible(db, u) && u !in locked ==> db.tasks[t].availableAt <= db.tasks[u].availableAt
  }

  lemma {:induction false} EarliestOf(db: Tables, a: set<TaskId>) returns (t: TaskId)
    requires a != {} && forall u | u in a :: u in db.tasks
    ensures t in a && forall u | u in a :: db.tasks[t].availableAt <= db.tasks[u].availableAt
    decreases |a|
  {
    t := AnyOf(a);
    if a - {t} != {} {
      var u := EarliestOf(db, a - {t});
      assert forall x | x in a :: x in a - {t} || x == t;
      t := if db.tasks[t].availableAt <= db.tasks[u].availableAt then t else u;
    } else {
      assert forall x | x in a :: x in a - {t} || x == t;
    }
  }

  // The fence: the row is still leased, under this owner's name.
  predicate Fenced(db: Tables, t: TaskId, owner: string) {
    t in db.tasks && db.tasks[t].status == TaskLeased && db.tasks[t].leasedBy == Some(owner)
  }

  predicate Expired(db: Tables, t: TaskId) {
    && t in db.tasks
    && db.tasks[t].status == TaskLeased
    && db.tasks[t].leaseExpires.Some?
    && db.tasks[t].leaseExpires.value < db.now
  }

  predicate Terminal(status: TaskStatus) {
    status in {TaskCompleted, TaskFailed, TaskDead, TaskCancelled}
  }

  // ----- the transactions -----

  function StartRunTx(db: Tables, cmd: StartRunCmd): TxResult {
    if KeyTaken(db, cmd.idempotencyKey) then Commit(db)
    else if cmd.runID in db.runs then Rollback
    else
      var db1 := db.WithRun(cmd.runID, OpenRun(cmd, db.now));
      if !CanInsertTask(db1, cmd.runID, cmd.first) then Rollback
      else Commit(db1.WithTask(cmd.first.id, NewRow(cmd.runID, cmd.first, db.now))
                     .WithEvent(cmd.runID, None, EventWorkflowStarted, Some(cmd.input))
                     .WithEvent(cmd.runID, Some(cmd.first.id), EventActivityScheduled, Some(cmd.first.input)))
  }

  function LeaseTx(db: Tables, owner: string, lease: Time, t: TaskId): Tables
    requires t in db.tasks
  {
    db.WithTask(t, LeaseRow(db.tasks[t], owner, db.now + lease, db.now))
  }

  function AdvanceTx(db: Tables, cmd: AdvanceCmd): TxResult {
    if !Fenced(db, cmd.taskID, cmd.owner) then Commit(db)
    else if cmd.runID !in db.runs then Rollback
    else
      var run := db.runs[cmd.runID];
      var db1 := db.WithTask(cmd.taskID, CompleteRow(db.tasks[cmd.taskID], cmd.result, db.now))
                   .WithEvent(cmd.runID, Some(cmd.taskID), EventActivityCompleted, Some(cmd.result));
      match cmd.nextStep
      case Some(next) =>
        if !CanInsertTask(db1, cmd.runID, next) then Rollback
        else Commit(db1.WithTask(next.id, NewRow(cmd.runID, next, db.now))
                       .WithEvent(cmd.runID, Some(next.id), EventActivityScheduled, Some(next.input))
                       .WithRun(cmd.runID, StepRun(run, next.stepIndex, db.now)))
      case None =>
        Commit(db1.WithRun(cmd.runID, CompleteRun(run, cmd.runResult, db.now))
                  .WithEvent(cmd.runID, None, EventWorkflowCompleted, cmd.runResult))
  }

  function RetryTx(db: Tables, cmd: RetryCmd): TxResult {
    if !Fenced(db, cmd.taskID, cmd.owner) then Commit(db)
    else if cmd.runID !in db.runs then Rollback
    else Commit(db.WithTask(cmd.taskID, RetryRow(db.tasks[cmd.taskID], cmd.availableAt, cmd.errMsg, db.now))
                  .WithEvent(cmd.runID, Some(cmd.taskID), EventActivityRetried, Some(ErrorPayload(cmd.errMsg))))
  }

  function DeadLetterTx(db: Tables, cmd: DeadLetterCmd): TxResult {
    if !Fenced(db, cmd.taskID, cmd.owner) then Commit(db)
    else if cmd.runID !in db.runs then Rollback
    else Commit(db.WithTask(cmd.taskID, DeadRow(db.tasks[cmd.taskID], cmd.errMsg, db.now))
                  .WithEvent(cmd.runID, Some(cmd.taskID), EventDeadLettered, Some(ErrorPayload(cmd.errMsg)))
                  .WithRun(cmd.runID, FailRun(db.runs[cmd.runID], cmd.errMsg, db.now))
                  .WithEvent(cmd.runID, None, EventWorkflowFailed, Some(ErrorPayload(cmd.errMsg))))
  }

  // The UPDATE of a reap, before its events are written.
  function ReapedTasks(db: Tables): map<TaskId, Task> {
    map t | t in db.tasks :: if Expired(db, t) then ReclaimRow(db.tasks[t], db.now) else db.tasks[t]
  }

  // One TaskReclaimed event for each id the UPDATE returned, in the order it returned them.
  function ReclaimEvents(db: Tables, order: seq<TaskId>): seq<Event>
    requires forall i | 0 <= i < |order| :: order[i] in db.tasks
  {
    seq(|order|, i requires 0 <= i < |order| =>
      MakeEvent(db.tasks[order[i]].runID, Some(order[i]), EventReclaimed, Some(EMPTY_OBJECT), db.now))
  }

  // RETURNING lists every reclaimed row once, in no particular order.
  ghost predicate ReapOrder(db: Tables, order: seq<TaskId>) {
    && (forall i | 0 <= i < |order| :: Expired(db, order[i]))
    && (forall t | Expired(db, t) :: t in order)
    && (forall i, j | 0 <= i < j < |order| :: order[i] != order[j])
  }

  function ReapTx(db: Tables, order: seq<TaskId>): Tables
    requires forall i | 0 <= i < |order| :: order[i] in db.tasks
  {
    db.(tasks := ReapedTasks(db), events := db.events + ReclaimEvents(db, order))
  }

  // None is ErrNotFound: the task is not dead.
  function ReplayTx(db: Tables, t: TaskId): Option<TxResult> {
    if !(t in db.tasks && db.tasks[t].status == TaskDead) then None
    else if db.tasks[t].runID !in db.runs then Some(Rollback)
    else Some(Commit(db.WithTask(t, ReplayRow(db.tasks[t], db.now))
                       .WithEvent(db.tasks[t].runID, Some(t), EventReplayed, Some(EMPTY_OBJECT))))
  }

  function CancelledTasks(db: Tables, r: RunId): map<TaskId, Task> {
    map t | t in db.tasks ::
      if db.tasks[t].runID == r && !Terminal(db.tasks[t].status) then CancelRow(db.tasks[t], db.now) else db.tasks[t]
  }

  // None is ErrNotFound: there is no such run. A run that is not running is left alone.
  function CancelTx(db: Tables, r: RunId): Option<Tables> {
    if r !in db.runs then None
    else if db.runs[r].status != RunRunning then Some(db)
    else Some(db.(runs := db.runs[r := CancelledRun(db.runs[r], db.now)], tasks := CancelledTasks(db, r))
                .WithEvent(r, None, EventWorkflowCancelled, Some(EMPTY_OBJECT)))
  }

  function GetStats(db: Tables): Stats {
    Stats(|RunsIn(db, RunRunning)|, |RunsIn(db, RunCompleted)|, |RunsIn(db, RunFailed)|, |RunsIn(db, RunCancelled)|,
          |TasksIn(db, TaskPending)|, |TasksIn(db, TaskLeased)|, |TasksIn(db, TaskDead)|)
  }

  function RunsIn(db: Tables, status: RunStatus): set<RunId> {
    set r | r in db.runs && db.runs[r].status == status
  }

  function TasksIn(db: Tables, status: TaskStatus): set<TaskId> {
    set t | t in db.tasks && db.tasks[t].status == status
  }
}
