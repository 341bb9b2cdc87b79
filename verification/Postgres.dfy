/**
 The store. A transaction works on a copy of the tables and writes it back when it commits; each
 method is proved to leave behind exactly the tables its transaction function in Store.dfy gives,
 or, when it returns an error, the tables it found.
 */
module Postgres {
  import opened Options
  import opened Workflow
  import opened Store
  import opened History

  // NotFound is ErrNotFound; Violation a constraint that refused a row; Unavailable anything between
  // the process and its database.
  datatype Error = NotFound | Violation | Unavailable

  /** The rows of a result set, each once, in whatever order the database returns them. */
  method Rows<K(==)>(keys: set<K>) returns (rows: seq<K>)
    ensures forall k :: k in rows <==> k in keys
    ensures forall i, j | 0 <= i < j < |rows| :: rows[i] != rows[j]
    ensures |rows| == |keys|
  {
    rows := [];
    var rest := keys;
    while rest != {}
      invariant rest <= keys
      invariant forall k :: k in rows <==> k in keys - rest
      invariant forall i, j | 0 <= i < j < |rows| :: rows[i] != rows[j]
      invariant |rows| + |rest| == |keys|
      decreases rest
    {
      var k :| k in rest;
      rows, rest := rows + [k], rest - {k};
    }
  }

  // What LeaseTask's subquery ranges over.
  function DueRows(db: Tables, locked: set<TaskId>): set<TaskId> {
    set t | t in db.tasks && Eligible(db, t) && t !in locked
  }

  lemma DueRowsHaveFirst(db: Tables, locked: set<TaskId>)
    requires DueRows(db, locked) != {}
    ensures exists t :: t in db.tasks && Pick(db, locked, t)
  {
    var t := EarliestOf(db, DueRows(db, locked));
    assert forall u | u in db.tasks && Eligible(db, u) && u !in locked :: u in DueRows(db, locked);
  }

  // What ReapExpiredLeases' update selects.
  function ExpiredRows(db: Tables): set<TaskId> {
    set t | t in db.tasks && Expired(db, t)
  }

  // The fence, in terms of the row.
  ghost predicate LeasedTo(tasks: map<TaskId, Task>, t: TaskId, owner: string) {
    t in tasks && tasks[t].status == TaskLeased && tasks[t].leasedBy == Some(owner)
  }

  // A reap, row by row and event by event.
  ghost predicate Reaped(db: Tables, order: seq<TaskId>, db': Tables) {
    && db'.runs == db.runs && db'.tasks.Keys == db.tasks.Keys && db'.now == db.now
    && (forall t | t in db.tasks :: db'.tasks[t] ==
         if db.tasks[t].status == TaskLeased && db.tasks[t].leaseExpires.Some? && db.tasks[t].leaseExpires.value < db.now
         then db.tasks[t].(status := TaskPending, leasedBy := None, leaseExpires := None, updatedAt := db.now)
         else db.tasks[t])
    && |db'.events| == |db.events| + |order| && db.events <= db'.events
    && (forall i | 0 <= i < |order| ::
         && order[i] in db.tasks
         && db'.events[|db.events| + i] == Event(db.tasks[order[i]].runID, Some(order[i]), EventReclaimed, "{}", db.now))
  }

  // No task has this id, or is this step of the run.
  ghost predicate FreshStep(tasks: map<TaskId, Task>, runID: RunId, next: NewTask) {
    next.id !in tasks && forall u | u in tasks && tasks[u].runID == runID :: tasks[u].stepIndex != next.stepIndex
  }

  /** An open transaction, on a connection that lasts for some number of statements. */
  class Tx {
    var runs: map<RunId, Run>
    var tasks: map<TaskId, Task>
    var events: seq<Event>
    const now: Time
    var lasts: nat

    function Tables(): Store.Tables
      reads this
    {
      Store.Tables(runs, tasks, events, now)
    }

    constructor (db: Store.Tables, lasts: nat)
      ensures Tables() == db && this.lasts == lasts
    {
      runs, tasks, events, now := db.runs, db.tasks, db.events, db.now;
      this.lasts := lasts;
    }

    /** Every statement, COMMIT included, first has to reach the database. */
    method Exec() returns (err: Option<Error>)
      modifies this`lasts
      ensures err == if old(lasts) == 0 then Some(Unavailable) else None
      ensures old(lasts) > 0 ==> lasts == old(lasts) - 1
    {
      if lasts == 0 {
        return Some(Unavailable);
      }
      lasts := lasts - 1;
      return None;
    }

    method InsertTask(runID: RunId, t: NewTask) returns (err: Option<Error>)
      modifies this
      ensures err == if old(lasts) == 0 then Some(Unavailable)
                     else if !CanInsertTask(old(Tables()), runID, t) then Some(Violation) else None
      ensures old(lasts) > 0 ==> lasts == old(lasts) - 1
      ensures Tables() == if err == None then old(Tables()).WithTask(t.id, NewRow(runID, t, now)) else old(Tables())
    {
      err := Exec();
      if err == None {
        if CanInsertTask(Tables(), runID, t) {
          tasks := tasks[t.id := Task(runID, t.stepIndex, t.activityName, t.kind, t.input, TaskPending, 0,
                                      t.maxAttempts, t.availableAt, None, None, None, None, now, now)];
        } else {
          err := Some(Violation);
        }
      }
    }

    method InsertEvent(runID: RunId, taskID: Option<TaskId>, typ: EventType, payload: Option<Payload>) returns (err: Option<Error>)
      modifies this
      ensures err == if old(lasts) == 0 then Some(Unavailable) else if runID !in old(runs) then Some(Violation) else None
      ensures old(lasts) > 0 ==> lasts == old(lasts) - 1
      ensures Tables() == if err == None then old(Tables()).WithEvent(runID, taskID, typ, payload) else old(Tables())
    {
      var p := payload;
      if p == None {
        p := Some(EMPTY_OBJECT);
      }
      err := Exec();
      if err == None {
        if runID in runs {
          events := events + [Event(runID, taskID, typ, p.value, now)];
        } else {
          err := Some(Violation);
        }
      }
    }
  }

  class Postgres {
    var runs: map<RunId, Run>
    var tasks: map<TaskId, Task>
    var events: seq<Event>
    var now: Time

    function Tables(): Store.Tables
      reads this
    {
      Store.Tables(runs, tasks, events, now)
    }

    constructor (now: Time)
      ensures Tables() == Store.Tables(map[], map[], [], now)
    {
      runs, tasks, events, this.now := map[], map[], [], now;
    }

    method Begin(lasts: nat) returns (tx: Tx)
      ensures fresh(tx) && tx.Tables() == Tables() && tx.lasts == lasts
    {
      tx := new Tx(Tables(), lasts);
    }

    method Commit(tx: Tx) returns (err: Option<Error>)
      modifies this, tx`lasts
      ensures err == if old(tx.lasts) == 0 then Some(Unavailable) else None
      ensures Tables() == if err == None then old(Tables()).(runs := tx.runs, tasks := tx.tasks, events := tx.events) else old(Tables())
    {
      err := tx.Exec();
      if err == None {
        runs, tasks, events := tx.runs, tx.tasks, tx.events;
      }
    }

    /**
     The key check and the insert are two statements. raced says that in between another transaction
     committed a run with this key: then UNIQUE (idempotency_key) refuses the insert.
     */
    method StartRun(cmd: StartRunCmd, lasts: nat, raced: bool) returns (run: Option<Run>, created: bool, err: Option<Error>)
      modifies this
      ensures err != None ==> Tables() == old(Tables()) && run == None && !created
      ensures err == None ==> StartRunTx(old(Tables()), cmd) == TxResult.Commit(Tables()) && created == !KeyTaken(old(Tables()), cmd.idempotencyKey)
      ensures created ==> cmd.runID in runs && run == Some(runs[cmd.runID])
      ensures err == None && !created ==>
                exists r :: r in runs && runs[r].idempotencyKey == cmd.idempotencyKey && run == Some(runs[r])
      ensures created ==>
                && (cmd.idempotencyKey.Some? ==> forall r | r in old(runs) :: old(runs)[r].idempotencyKey != cmd.idempotencyKey)
                && runs == old(runs)[cmd.runID := Run.Run(cmd.workflowName, cmd.input, RunRunning, 0, cmd.totalSteps,
                                                          cmd.idempotencyKey, None, None, now, now)]
                && tasks == old(tasks)[cmd.first.id := Task.Task(cmd.runID, cmd.first.stepIndex, cmd.first.activityName,
                                                                 cmd.first.kind, cmd.first.input, TaskPending, 0,
                                                                 cmd.first.maxAttempts, cmd.first.availableAt,
                                                                 None, None, None, None, now, now)]
                && events == old(events) + [Event(cmd.runID, None, EventWorkflowStarted, cmd.input, now),
                                            Event(cmd.runID, Some(cmd.first.id), EventActivityScheduled, cmd.first.input, now)]
      ensures err == None && !created ==> Tables() == old(Tables()) && cmd.idempotencyKey.Some?
      ensures err == Some(Violation) ==> StartRunTx(old(Tables()), cmd).Rollback? || (raced && cmd.idempotencyKey.Some?)
      ensures raced && cmd.idempotencyKey.Some? && !KeyTaken(old(Tables()), cmd.idempotencyKey) ==> err != None
      ensures lasts >= 6 ==> err == None || err == Some(Violation)
      ensures lasts >= 6 && cmd.idempotencyKey.Some? && (exists r :: r in old(runs) && old(runs)[r].idempotencyKey == cmd.idempotencyKey) ==>
                err == None && !created
      ensures lasts >= 6 && (!raced || cmd.idempotencyKey == None) ==>
                err == if StartRunTx(old(Tables()), cmd).Commit? then None else Some(Violation)
    {
      run, created := None, false;
      var tx := Begin(lasts);
      if cmd.idempotencyKey != None {
        err := tx.Exec();
        if err != None {
          return;
        }
        if KeyTaken(tx.Tables(), cmd.idempotencyKey) {
          var r :| r in tx.runs && tx.runs[r].idempotencyKey == cmd.idempotencyKey;
          err := Commit(tx);
          if err == None {
            run := Some(tx.runs[r]);
          }
          return;
        }
      }
      err := tx.Exec();
      if err != None {
        return;
      }
      if cmd.runID in tx.runs || (raced && cmd.idempotencyKey != None) {
        err := Some(Violation);
        return;
      }
      var row := Run.Run(cmd.workflowName, cmd.input, RunRunning, 0, cmd.totalSteps, cmd.idempotencyKey, None, None, now, now);
      tx.runs := tx.runs[cmd.runID := row];
      err := tx.InsertTask(cmd.runID, cmd.first);
      if err != None {
        return;
      }
      err := tx.InsertEvent(cmd.runID, None, EventWorkflowStarted, Some(cmd.input));
      if err != None {
        return;
      }
      err := tx.InsertEvent(cmd.runID, Some(cmd.first.id), EventActivityScheduled, Some(cmd.first.input));
      if err != None {
        return;
      }
      err := Commit(tx);
      if err == None {
        run, created := Some(row), true;
      }
    }

    /** locked are the rows other transactions hold, which SKIP LOCKED passes over. */
    method LeaseTask(owner: string, lease: Time, locked: set<TaskId>, lasts: nat)
      returns (id: TaskId, task: Option<Task>, err: Option<Error>)
      modifies this
      ensures err != None ==> task == None
      ensures task == None ==> Tables() == old(Tables())
      ensures err == None && task == None ==> forall t | Eligible(old(Tables()), t) :: t in locked
      ensures task.Some? ==>
                && Pick(old(Tables()), locked, id)
                && Tables() == LeaseTx(old(Tables()), owner, lease, id)
                && task == Some(tasks[id])
      ensures task.Some? ==>
                && id in old(tasks) && id !in locked
                && var row := old(tasks)[id];
                   && row.status == TaskPending && row.availableAt <= now
                   && (forall u | u in old(tasks) && u !in locked && old(tasks)[u].status == TaskPending
                                  && old(tasks)[u].availableAt <= now :: row.availableAt <= old(tasks)[u].availableAt)
                   && tasks == old(tasks)[id := row.(status := TaskLeased, leasedBy := Some(owner), leaseExpires := Some(now + lease),
                                                     attempt := row.attempt + 1, updatedAt := now)]
                   && runs == old(runs) && events == old(events)
      ensures err == if lasts == 0 then Some(Unavailable) else None
    {
      id, task := 0, None;
      if lasts == 0 {
        err := Some(Unavailable);
        return;
      }
      err := None;
      var due := DueRows(Tables(), locked);
      if due == {} {
        assert forall t | Eligible(Tables(), t) && t !in locked :: t in due;
        return;
      }
      DueRowsHaveFirst(Tables(), locked);
      var t :| t in tasks && Pick(Tables(), locked, t);
      var row := tasks[t];
      row := row.(status := TaskLeased, leasedBy := Some(owner), leaseExpires := Some(now + lease),
                  attempt := row.attempt + 1, updatedAt := now);
      tasks := tasks[t := row];
      id, task := t, Some(row);
    }

    method Advance(cmd: AdvanceCmd, lasts: nat) returns (err: Option<Error>)
      modifies this
      ensures err != None ==> Tables() == old(Tables())
      ensures err == None ==> AdvanceTx(old(Tables()), cmd) == TxResult.Commit(Tables())
      ensures err == None && !LeasedTo(old(tasks), cmd.taskID, cmd.owner) ==> Tables() == old(Tables())
      ensures err == None && LeasedTo(old(tasks), cmd.taskID, cmd.owner) ==>
                && cmd.runID in old(runs)
                && var done := old(tasks)[cmd.taskID := old(tasks)[cmd.taskID].(status := TaskCompleted, result := Some(cmd.result), updatedAt := now)];
                   var completed := Event(cmd.runID, Some(cmd.taskID), EventActivityCompleted, cmd.result, now);
                   if cmd.nextStep.Some? then
                     var next := cmd.nextStep.value;
                     && tasks == done[next.id := Task.Task(cmd.runID, next.stepIndex, next.activityName, next.kind, next.input,
                                                           TaskPending, 0, next.maxAttempts, next.availableAt,
                                                           None, None, None, None, now, now)]
                     && runs == old(runs)[cmd.runID := old(runs)[cmd.runID].(currentStep := next.stepIndex, updatedAt := now)]
                     && events == old(events) + [completed, Event(cmd.runID, Some(next.id), EventActivityScheduled, next.input, now)]
                   else
                     && tasks == done
                     && runs == old(runs)[cmd.runID := old(runs)[cmd.runID].(status := RunCompleted, result := cmd.runResult, updatedAt := now)]
                     && events == old(events) + [completed, Event(cmd.runID, None, EventWorkflowCompleted,
                                                                  if cmd.runResult.Some? then cmd.runResult.value else "{}", now)]
      ensures err == Some(Violation) ==> AdvanceTx(old(Tables()), cmd).Rollback?
      ensures lasts >= 6 ==> err == if AdvanceTx(old(Tables()), cmd).Commit? then None else Some(Violation)
      ensures lasts >= 6 && !LeasedTo(old(tasks), cmd.taskID, cmd.owner) ==> err == None
      ensures lasts >= 6 && cmd.runID in old(runs) && (cmd.nextStep.Some? ==> FreshStep(old(tasks), cmd.runID, cmd.nextStep.value)) ==>
                err == None
    {
      var tx := Begin(lasts);
      err := tx.Exec();
      if err != None {
        return;
      }
      if !Fenced(tx.Tables(), cmd.taskID, cmd.owner) {
        err := Commit(tx);
        return;
      }
      tx.tasks := tx.tasks[cmd.taskID := tx.tasks[cmd.taskID].(status := TaskCompleted, result := Some(cmd.result), updatedAt := now)];
      err := tx.InsertEvent(cmd.runID, Some(cmd.taskID), EventActivityCompleted, Some(cmd.result));
      if err != None {
        return;
      }
      if cmd.nextStep.Some? {
        var next := cmd.nextStep.value;
        err := tx.InsertTask(cmd.runID, next);
        if err != None {
          return;
        }
        err := tx.InsertEvent(cmd.runID, Some(next.id), EventActivityScheduled, Some(next.input));
        if err != None {
          return;
        }
        err := tx.Exec();
        if err != None {
          return;
        }
        tx.runs := tx.runs[cmd.runID := tx.runs[cmd.runID].(currentStep := next.stepIndex, updatedAt := now)];
      } else {
        err := tx.Exec();
        if err != None {
          return;
        }
        tx.runs := tx.runs[cmd.runID := tx.runs[cmd.runID].(status := RunCompleted, result := cmd.runResult, updatedAt := now)];
        err := tx.InsertEvent(cmd.runID, None, EventWorkflowCompleted, cmd.runResult);
        if err != None {
          return;
        }
      }
      err := Commit(tx);
    }

    method Retry(cmd: RetryCmd, lasts: nat) returns (err: Option<Error>)
      modifies this
      ensures err != None ==> Tables() == old(Tables())
      ensures err == None ==> RetryTx(old(Tables()), cmd) == TxResult.Commit(Tables())
      ensures err == None && !LeasedTo(old(tasks), cmd.taskID, cmd.owner) ==> Tables() == old(Tables())
      ensures err == None && LeasedTo(old(tasks), cmd.taskID, cmd.owner) ==>
                && runs == old(runs)
                && tasks == old(tasks)[cmd.taskID := old(tasks)[cmd.taskID].(status := TaskPending, availableAt := cmd.availableAt,
                                         error := Some(cmd.errMsg), leasedBy := None, leaseExpires := None, updatedAt := now)]
                && events == old(events) + [Event(cmd.runID, Some(cmd.taskID), EventActivityRetried, "{\"error\":\"" + cmd.errMsg + "\"}", now)]
      ensures err == Some(Violation) ==> RetryTx(old(Tables()), cmd).Rollback?
      ensures lasts >= 3 ==> err == if RetryTx(old(Tables()), cmd).Commit? then None else Some(Violation)
      ensures lasts >= 3 && (!LeasedTo(old(tasks), cmd.taskID, cmd.owner) || cmd.runID in old(runs)) ==> err == None
    {
      var tx := Begin(lasts);
      err := tx.Exec();
      if err != None {
        return;
      }
      if !Fenced(tx.Tables(), cmd.taskID, cmd.owner) {
        err := Commit(tx);
        return;
      }
      var row := tx.tasks[cmd.taskID];
      tx.tasks := tx.tasks[cmd.taskID := row.(status := TaskPending, availableAt := cmd.availableAt, error := Some(cmd.errMsg),
                                              leasedBy := None, leaseExpires := None, updatedAt := now)];
      err := tx.InsertEvent(cmd.runID, Some(cmd.taskID), EventActivityRetried, Some(ErrorPayload(cmd.errMsg)));
      if err != None {
        return;
      }
      err := Commit(tx);
    }

    method DeadLetter(cmd: DeadLetterCmd, lasts: nat) returns (err: Option<Error>)
      modifies this
      ensures err != None ==> Tables() == old(Tables())
      ensures err == None ==> DeadLetterTx(old(Tables()), cmd) == TxResult.Commit(Tables())
      ensures err == None && !LeasedTo(old(tasks), cmd.taskID, cmd.owner) ==> Tables() == old(Tables())
      ensures err == None && LeasedTo(old(tasks), cmd.taskID, cmd.owner) ==>
                && cmd.runID in old(runs)
                && tasks == old(tasks)[cmd.taskID := old(tasks)[cmd.taskID].(status := TaskDead, error := Some(cmd.errMsg), updatedAt := now)]
                && runs == old(runs)[cmd.runID := old(runs)[cmd.runID].(status := RunFailed, error := Some(cmd.errMsg), updatedAt := now)]
                && events == old(events)
                     + [Event(cmd.runID, Some(cmd.taskID), EventDeadLettered, "{\"error\":\"" + cmd.errMsg + "\"}", now),
                        Event(cmd.runID, None, EventWorkflowFailed, "{\"error\":\"" + cmd.errMsg + "\"}", now)]
      ensures err == Some(Violation) ==> DeadLetterTx(old(Tables()), cmd).Rollback?
      ensures lasts >= 5 ==> err == if DeadLetterTx(old(Tables()), cmd).Commit? then None else Some(Violation)
      ensures lasts >= 5 && (!LeasedTo(old(tasks), cmd.taskID, cmd.owner) || cmd.runID in old(runs)) ==> err == None
    {
      var tx := Begin(lasts);
      err := tx.Exec();
      if err != None {
        return;
      }
      if !Fenced(tx.Tables(), cmd.taskID, cmd.owner) {
        err := Commit(tx);
        return;
      }
      tx.tasks := tx.tasks[cmd.taskID := tx.tasks[cmd.taskID].(status := TaskDead, error := Some(cmd.errMsg), updatedAt := now)];
      err := tx.InsertEvent(cmd.runID, Some(cmd.taskID), EventDeadLettered, Some(ErrorPayload(cmd.errMsg)));
      if err != None {
        return;
      }
      err := tx.Exec();
      if err != None {
        return;
      }
      tx.runs := tx.runs[cmd.runID := tx.runs[cmd.runID].(status := RunFailed, error := Some(cmd.errMsg), updatedAt := now)];
      err := tx.InsertEvent(cmd.runID, None, EventWorkflowFailed, Some(ErrorPayload(cmd.errMsg)));
      if err != None {
        return;
      }
      err := Commit(tx);
    }

    /** n is the number of TaskReclaimed events the call appended; order is how RETURNING listed the rows. */
    method ReapExpiredLeases(lasts: nat) returns (n: nat, err: Option<Error>, ghost order: seq<TaskId>)
      modifies this
      ensures err != None ==> n == 0 && Tables() == old(Tables())
      ensures err == None ==> ReapOrder(old(Tables()), order) && n == |order| && Tables() == ReapTx(old(Tables()), order)
      ensures err == None ==> Reaped(old(Tables()), order, Tables())
      ensures err != Some(NotFound)
      ensures err == Some(Violation) ==> exists t :: Expired(old(Tables()), t) && old(tasks)[t].runID !in old(runs)
      ensures lasts >= |ExpiredRows(old(Tables()))| + 2 ==> err != Some(Unavailable)
    {
      n, order := 0, [];
      var tx := Begin(lasts);
      err := tx.Exec();
      if err != None {
        return;
      }
      var db := tx.Tables();
      var expired := ExpiredRows(db);
      var ids := Rows(expired);
      order := ids;
      ExpiredOnce(db, ids);
      tx.tasks := ReapedTasks(db);
      NoneReclaimed(db);
      var i := 0;
      while i < |ids|
        invariant 0 <= i <= |ids|
        invariant unchanged(this)
        invariant |ids| == |ExpiredRows(db)| && tx.lasts + 1 + i == lasts
        invariant tx.Tables() == ReapTx(db, ids[..i])
      {
        var t := ids[i];
        err := tx.InsertEvent(tx.tasks[t].runID, Some(t), EventReclaimed, Some(EMPTY_OBJECT));
        if err != None {
          return;
        }
        OneMoreReclaimed(db, ids, i);
        i := i + 1;
      }
      assert ids[..i] == ids;
      ReapedRows(db, ids);
      err := Commit(tx);
      if err == None {
        n := |ids|;
      }
    }

    method GetRun(id: RunId, lasts: nat) returns (run: Option<Run>, err: Option<Error>)
      ensures run.Some? <==> err == None
      ensures run.Some? ==> id in runs && run == Some(runs[id])
      ensures err == Some(NotFound) ==> id !in runs
      ensures err == if lasts == 0 then Some(Unavailable) else if id in runs then None else Some(NotFound)
    {
      if lasts == 0 {
        return None, Some(Unavailable);
      }
      if id in runs {
        return Some(runs[id]), None;
      }
      return None, Some(NotFound);
    }

    method GetHistory(runID: RunId) returns (history: seq<Event>)
      ensures history == HistoryOf(events, runID)
    {
      history := [];
      var i := 0;
      assert events[..0] == [];
      while i < |events|
        invariant 0 <= i <= |events|
        invariant history == HistoryOf(events[..i], runID)
      {
        assert events[..i + 1] == events[..i] + [events[i]];
        HistoryAppend(events[..i], events[i], runID);
        if events[i].runID == runID {
          history := history + [events[i]];
        }
        i := i + 1;
      }
      assert events[..i] == events;
    }

    /** Each count is the number of rows in that status. */
    method GetStats(lasts: nat) returns (stats: Option<Stats>, err: Option<Error>)
      ensures stats.Some? <==> err == None
      ensures err == if lasts == 0 then Some(Unavailable) else None
      ensures stats.Some? ==>
                && stats == Some(Store.GetStats(Tables()))
                && stats.value.runsRunning == |set r | r in runs && runs[r].status == RunRunning|
                && stats.value.runsCompleted == |set r | r in runs && runs[r].status == RunCompleted|
                && stats.value.runsFailed == |set r | r in runs && runs[r].status == RunFailed|
                && stats.value.runsCancelled == |set r | r in runs && runs[r].status == RunCancelled|
                && stats.value.tasksPending == |set t | t in tasks && tasks[t].status == TaskPending|
                && stats.value.tasksLeased == |set t | t in tasks && tasks[t].status == TaskLeased|
                && stats.value.tasksDead == |set t | t in tasks && tasks[t].status == TaskDead|
    {
      if lasts == 0 {
        return None, Some(Unavailable);
      }
      return Some(Store.GetStats(Tables())), None;
    }

    method ReplayDeadLetter(taskID: TaskId, lasts: nat) returns (err: Option<Error>)
      modifies this
      ensures err != None ==> Tables() == old(Tables())
      ensures err == None ==> ReplayTx(old(Tables()), taskID) == Some(TxResult.Commit(Tables()))
      ensures err == None ==>
                && taskID in old(tasks) && old(tasks)[taskID].status == TaskDead
                && runs == old(runs)
                && tasks == old(tasks)[taskID := old(tasks)[taskID].(status := TaskPending, availableAt := now, error := None,
                                                                     attempt := 0, updatedAt := now)]
                && events == old(events) + [Event(old(tasks)[taskID].runID, Some(taskID), EventReplayed, "{}", now)]
      ensures err == Some(NotFound) ==> taskID !in old(tasks) || old(tasks)[taskID].status != TaskDead
      ensures lasts >= 1 && (taskID !in old(tasks) || old(tasks)[taskID].status != TaskDead) ==> err == Some(NotFound)
      ensures err == Some(NotFound) ==> ReplayTx(old(Tables()), taskID) == None
      ensures lasts >= 3 && taskID in old(tasks) && old(tasks)[taskID].status == TaskDead && old(tasks)[taskID].runID in old(runs) ==>
                err == None
      ensures lasts >= 3 ==> (err == Some(NotFound) <==> ReplayTx(old(Tables()), taskID) == None)
      ensures lasts >= 3 ==> (err == Some(Violation) <==> ReplayTx(old(Tables()), taskID) == Some(Rollback))
    {
      var tx := Begin(lasts);
      err := tx.Exec();
      if err != None {
        return;
      }
      if !(taskID in tx.tasks && tx.tasks[taskID].status == TaskDead) {
        err := Some(NotFound);
        return;
      }
      var row := tx.tasks[taskID];
      tx.tasks := tx.tasks[taskID := row.(status := TaskPending, availableAt := now, error := None, attempt := 0, updatedAt := now)];
      err := tx.InsertEvent(row.runID, Some(taskID), EventReplayed, Some(EMPTY_OBJECT));
      if err != None {
        return;
      }
      err := Commit(tx);
    }

    method CancelRun(runID: RunId, lasts: nat) returns (err: Option<Error>)
      modifies this
      ensures err != None ==> Tables() == old(Tables())
      ensures err == None ==> CancelTx(old(Tables()), runID) == Some(Tables())
      ensures err == None ==> runID in old(runs)
      ensures err == None && old(runs)[runID].status != RunRunning ==> Tables() == old(Tables())
      ensures err == None && old(runs)[runID].status == RunRunning ==>
                && runs == old(runs)[runID := old(runs)[runID].(status := RunCancelled, updatedAt := now)]
                && tasks.Keys == old(tasks).Keys
                && (forall t | t in tasks :: tasks[t] ==
                      if old(tasks)[t].runID == runID && (old(tasks)[t].status == TaskPending || old(tasks)[t].status == TaskLeased)
                      then old(tasks)[t].(status := TaskCancelled, updatedAt := now)
                      else old(tasks)[t])
                && events == old(events) + [Event(runID, None, EventWorkflowCancelled, "{}", now)]
      ensures err == Some(NotFound) ==> runID !in old(runs) && CancelTx(old(Tables()), runID) == None
      ensures lasts >= 4 ==> err == if runID in old(runs) then None else Some(NotFound)
      ensures err != Some(Violation)
    {
      var tx := Begin(lasts);
      err := tx.Exec();
      if err != None {
        return;
      }
      if !(runID in tx.runs && tx.runs[runID].status == RunRunning) {
        err := tx.Exec();
        if err != None {
          return;
        }
        if runID !in tx.runs {
          err := Some(NotFound);
          return;
        }
        err := Commit(tx);
        return;
      }
      tx.runs := tx.runs[runID := tx.runs[runID].(status := RunCancelled, updatedAt := now)];
      err := tx.Exec();
      if err != None {
        return;
      }
      tx.tasks := CancelledTasks(tx.Tables(), runID);
      err := tx.InsertEvent(runID, None, EventWorkflowCancelled, Some(EMPTY_OBJECT));
      if err != None {
        return;
      }
      err := Commit(tx);
    }
  }

  lemma ReapedRows(db: Tables, order: seq<TaskId>)
    requires forall i | 0 <= i < |order| :: order[i] in db.tasks
    ensures Reaped(db, order, ReapTx(db, order))
  {
  }

  lemma ExpiredOnce(db: Tables, ids: seq<TaskId>)
    requires forall t :: t in ids <==> t in ExpiredRows(db)
    requires forall i, j | 0 <= i < j < |ids| :: ids[i] != ids[j]
    ensures ReapOrder(db, ids)
  {
    forall i | 0 <= i < |ids|
      ensures Expired(db, ids[i])
    {
      assert ids[i] in ids;
    }
  }

  lemma NoneReclaimed(db: Tables)
    ensures ReapTx(db, []) == db.(tasks := ReapedTasks(db))
  {
  }

  lemma OneMoreReclaimed(db: Tables, ids: seq<TaskId>, i: int)
    requires 0 <= i < |ids| && forall j | 0 <= j < |ids| :: ids[j] in db.tasks
    ensures ReapTx(db, ids[..i + 1])
         == ReapTx(db, ids[..i]).WithEvent(db.tasks[ids[i]].runID, Some(ids[i]), EventReclaimed, Some(EMPTY_OBJECT))
  {
    assert ReclaimEvents(db, ids[..i + 1])
        == ReclaimEvents(db, ids[..i]) + [MakeEvent(db.tasks[ids[i]].runID, Some(ids[i]), EventReclaimed, Some(EMPTY_OBJECT), db.now)];
  }
}
