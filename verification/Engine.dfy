/**
 The engine. Every method that talks to the store is proved to take steps of Protocol.dfy, whatever
 the rest of the system does between its calls; the worker's loop is proved to make moves of Drain.dfy.
 */
module Engine {
  import opened Options
  import opened Workflow
  import opened Store
  import opened Scheduling
  import opened RunView
  import opened Protocol
  import opened Invariant
  import opened Guarantees
  import opened Drain
  import opened Interleaving
  import opened Loop
  import opened Environment
  import Backoff
  import Names
  import DB = Postgres

  const MILLISECOND: Time := 1_000_000
  const SECOND: Time := 1_000 * MILLISECOND

  // What a configuration is filled up to: positive values are kept, the others get their defaults.
  ghost predicate Defaulted(c: Config, d: Config) {
    && d.workers == (if c.workers > 0 then c.workers else 8)
    && d.leaseDuration == (if c.leaseDuration > 0 then c.leaseDuration else 30 * SECOND)
    && d.pollInterval == (if c.pollInterval > 0 then c.pollInterval else 100 * MILLISECOND)
    && d.reapInterval == (if c.reapInterval > 0 then c.reapInterval else 5 * SECOND)
    && d.backoffBase == (if c.backoffBase > 0 then c.backoffBase else Backoff.DEFAULT_BASE)
    && d.backoffMax == (if c.backoffMax > 0 then c.backoffMax else Backoff.DEFAULT_MAX)
    && d.defaultRetries == (if c.defaultRetries > 0 then c.defaultRetries else 5)
    && d.workerID == (if c.workerID != "" then c.workerID else "worker")
  }

  /** The defaults make every configuration sound. */
  method WithDefaults(c: Config) returns (d: Config)
    requires c.backoffBase < Backoff.TWO_63 && c.backoffMax < Backoff.TWO_63
    ensures Defaulted(c, d)
    ensures forall fleet: Fleet | Agrees(fleet, d) :: Sound(fleet)
    ensures d.workers > 0 && d.pollInterval > 0 && d.workerID != ""
  {
    d := c;
    if d.workers <= 0 {
      d := d.(workers := 8);
    }
    if d.leaseDuration <= 0 {
      d := d.(leaseDuration := 30 * SECOND);
    }
    if d.pollInterval <= 0 {
      d := d.(pollInterval := 100 * MILLISECOND);
    }
    if d.reapInterval <= 0 {
      d := d.(reapInterval := 5 * SECOND);
    }
    if d.backoffBase <= 0 {
      d := d.(backoffBase := 500 * MILLISECOND);
    }
    if d.backoffMax <= 0 {
      d := d.(backoffMax := 300 * SECOND);
    }
    if d.defaultRetries <= 0 {
      d := d.(defaultRetries := 5);
    }
    if d.workerID == "" {
      d := d.(workerID := "worker");
    }
  }

  datatype Refusal = UnknownWorkflow(name: string) | NoSteps(name: string) | StoreFailed(cause: DB.Error)

  datatype NextResult = Schedule(next: NewTask) | Finished(result: Payload) | Unresolved(msg: string)

  // The call is under way.
  ghost function Begun(s: Sys, call: int, cmd: StartRunCmd): Sys {
    s.(calls := s.calls[call := Call(cmd, s.db.now)])
  }

  // BeginStart, steps of others, and CommitStart or DropStart.
  ghost predicate Starts(fleet: Fleet, s: Sys, call: int, cmd: StartRunCmd, others: seq<Label>, committed: bool, s': Sys) {
    && Feasible(fleet, Begun(s, call, cmd), others) && Foreign(others, Starting(call))
    && var ls := [BeginStart(call, cmd)] + others + [if committed then CommitStart(call) else DropStart(call)];
       Feasible(fleet, s, ls) && s' == End(fleet, s, ls)
  }

  // What StartRun answers, from the tables it finds.
  ghost predicate Answers(db: Tables, cmd: StartRunCmd, lasts: nat, raced: bool,
                          run: Option<Run>, created: bool, err: Option<DB.Error>) {
    && (run.Some? <==> err == None) && (created ==> run.Some?)
    && (created ==> run == Some(OpenRun(cmd, db.now)))
    && (run.Some? && !created ==>
          cmd.idempotencyKey.Some? && exists r :: r in db.runs && db.runs[r].idempotencyKey == cmd.idempotencyKey && run == Some(db.runs[r]))
    && (run.Some? ==> (created <==> !KeyTaken(db, cmd.idempotencyKey)))
    && (lasts >= 6 ==> err == None || err == Some(DB.Violation))
    && (lasts >= 6 && KeyTaken(db, cmd.idempotencyKey) ==> err == None)
    && (lasts >= 6 && (!raced || cmd.idempotencyKey == None) && StartRunTx(db, cmd).Commit? ==> err == None)
  }

  lemma CallTrace(fleet: Fleet, s: Sys, call: int, cmd: StartRunCmd, others: seq<Label>, end: Label)
    requires call !in s.calls && WellFormedStart(fleet, cmd, s.db.now)
    requires Feasible(fleet, Begun(s, call, cmd), others) && Foreign(others, Starting(call))
    requires end == CommitStart(call) || end == DropStart(call)
    ensures var s2, ls := End(fleet, Begun(s, call, cmd), others), [BeginStart(call, cmd)] + others + [end];
            && Feasible(fleet, s, ls)
            && End(fleet, s, ls).db == if end.DropStart? then s2.db else Settle(s2, StartRunTx(s2.db, cmd)).db
  {
    var begin, s1 := BeginStart(call, cmd), Begun(s, call, cmd);
    assert Enabled(fleet, s, begin) && Apply(fleet, s, begin) == s1;
    var s2 := End(fleet, s1, others);
    Single(fleet, s, begin);
    ForeignTrace(fleet, s1, others, Starting(call));
    Append(fleet, s, [begin], others);
    Single(fleet, s2, end);
    Append(fleet, s, [begin] + others, [end]);
  }

  // A run with new ids is never refused.
  lemma FreshRunFits(fleet: Fleet, s: Sys, call: int, cmd: StartRunCmd, others: seq<Label>)
    requires Reachable(fleet, s) && call !in s.calls && WellFormedStart(fleet, cmd, s.db.now)
    requires Feasible(fleet, Begun(s, call, cmd), others)
    ensures var db := End(fleet, Begun(s, call, cmd), others).db;
            cmd.runID !in db.runs && cmd.first.id !in db.tasks ==> StartRunTx(db, cmd).Commit?
  {
    var begin, s1 := BeginStart(call, cmd), Begun(s, call, cmd);
    assert Enabled(fleet, s, begin) && Apply(fleet, s, begin) == s1;
    ReachableStep(fleet, s, begin);
    ReachableOn(fleet, s1, others);
    ExpiredHaveRuns(fleet, End(fleet, s1, others));
  }

  // The store's answer to a Fail: done or refused for good, or else the task is lost.
  lemma FailConcludes(fleet: Fleet, s: Sys, w: Worker, ls: seq<Label>, fail: Label, err: Option<DB.Error>, db: Tables)
    returns (l: Label, s': Sys)
    requires Feasible(fleet, s, ls) && Foreign(ls, Looping(w))
    requires fail.Fail? && fail.worker == w && Enabled(fleet, End(fleet, s, ls), fail)
    requires var s1 := End(fleet, s, ls);
             var tx := FailTx(fleet, s1.db, s1.hands[w], fleet.owner(w), fail.msg, fail.delay, fail.stamp);
             if err == None then tx == Commit(db) else db == s1.db && (err == Some(DB.Violation) ==> tx.Rollback?)
    ensures l == if err == None || err == Some(DB.Violation) then fail else Drop(w)
    ensures Concludes(fleet, s, w, ls, l, s') && s'.db == db
  {
    l := if err == None || err == Some(DB.Violation) then fail else Drop(w);
    s' := Apply(fleet, End(fleet, s, ls), l);
  }

  class Engine {
    const cfg: Config
    const store: DB.Postgres
    const reg: Registry
    const rng: LockedRand
    // The processes sharing the database, of which this is one, and its place among them.
    ghost const fleet: Fleet
    ghost const place: int

    ghost predicate Valid()
      reads reg
    {
      && Agrees(fleet, cfg)
      && fleet.catalog == reg.Contents()
      && Sound(fleet)
      && NamesWorkers(fleet, place, cfg.workerID)
    }

    constructor (store: DB.Postgres, reg: Registry, cfg: Config, draws: nat -> nat, ghost fleet: Fleet, ghost place: int)
      requires cfg.backoffBase < Backoff.TWO_63 && cfg.backoffMax < Backoff.TWO_63
      requires fleet.catalog == reg.Contents()
      requires forall d | Defaulted(cfg, d) :: Agrees(fleet, d) && NamesWorkers(fleet, place, d.workerID)
      ensures Valid() && fresh(rng) && rng.draws == draws && rng.used == 0 && Defaulted(cfg, this.cfg)
      ensures this.store == store && this.reg == reg && this.fleet == fleet && this.place == place
    {
      var d := WithDefaults(cfg);
      var r := new LockedRand(draws);
      this.cfg, this.store, this.reg, rng := d, store, reg, r;
      this.fleet, this.place := fleet, place;
    }

    /** A step's task; id is the next UUID. */
    method BuildTask(def: Definition, step: int, input: Payload, id: TaskId) returns (t: NewTask)
      requires Valid() && 0 <= step < |def.steps|
      ensures t == Scheduling.BuildTask(cfg, def, step, input, id, store.now)
      ensures t.id == id && t.stepIndex == step && t.input == input
      ensures def.steps[step].timer > 0 ==>
                && t.kind == KindTimer && t.activityName == "__timer__" && t.maxAttempts == 1
                && t.availableAt == store.now + def.steps[step].timer
      ensures def.steps[step].timer <= 0 ==>
                && t.kind == KindActivity && t.activityName == def.steps[step].activity && t.availableAt == store.now
                && (def.steps[step].maxAttempts > 0 ==> t.maxAttempts == def.steps[step].maxAttempts)
                && (def.steps[step].maxAttempts <= 0 ==> t.maxAttempts == cfg.defaultRetries)
    {
      var s := def.steps[step];
      var maxAttempts := s.maxAttempts;
      if maxAttempts <= 0 {
        maxAttempts := cfg.defaultRetries;
      }
      t := NewTask(id, step, s.activity, KindActivity, input, maxAttempts, store.now);
      if s.timer > 0 {
        t := t.(kind := KindTimer, activityName := "__timer__", availableAt := store.now + s.timer, maxAttempts := 1);
      }
    }

    // The command is handed to the store; meanwhile others may take any steps.
    method Submit(cmd: StartRunCmd, lasts: nat, raced: bool, ghost call: int, ghost s: Sys)
      returns (run: Option<Run>, created: bool, err: Option<DB.Error>, ghost others: seq<Label>, ghost s': Sys)
      requires Valid() && s.db == store.Tables() && call !in s.calls && WellFormedStart(fleet, cmd, s.db.now)
      modifies store
      ensures Starts(fleet, s, call, cmd, others, err == None, s') && s'.db == store.Tables()
      ensures Answers(End(fleet, Begun(s, call, cmd), others).db, cmd, lasts, raced, run, created, err)
      ensures created ==> run.Some? && cmd.runID in store.runs && store.runs[cmd.runID] == run.value
                          && cmd.first.id in store.tasks
      ensures created ==>
                && store.tasks[cmd.first.id].status == TaskPending && store.tasks[cmd.first.id].attempt == 0
                && store.tasks[cmd.first.id].runID == cmd.runID && store.tasks[cmd.first.id].stepIndex == cmd.first.stepIndex
                && store.tasks[cmd.first.id].input == cmd.first.input
      ensures err == None && !created ==> store.Tables() == End(fleet, Begun(s, call, cmd), others).db
      ensures var db := End(fleet, Begun(s, call, cmd), others).db;
              lasts >= 6 && (!raced || cmd.idempotencyKey == None) && Reachable(fleet, s) ==>
                cmd.runID !in db.runs && cmd.first.id !in db.tasks ==> err == None
      ensures Valid()
    {
      ghost var s2;
      others, s2 := Others(store, fleet, Starting(call), Begun(s, call, cmd));
      if Reachable(fleet, s) {
        FreshRunFits(fleet, s, call, cmd, others);
      }
      run, created, err := store.StartRun(cmd, lasts, raced);
      ghost var end := if err == None then CommitStart(call) else DropStart(call);
      CallTrace(fleet, s, call, cmd, others, end);
      s' := End(fleet, s, [BeginStart(call, cmd)] + others + [end]);
    }

    /**
     Starting a workflow is one BeginStart and then one CommitStart, or a DropStart if the store fails; an
     unknown or empty workflow is refused before anything is written. With a working connection a call
     without a key, or with one nobody else has, creates its run and first task, and a call with a taken
     key returns the run that has it. runID and taskID are the next UUIDs.
     */
    method StartWorkflow(name: string, input: Payload, key: string, runID: RunId, taskID: TaskId, lasts: nat, raced: bool,
                         ghost call: int, ghost s: Sys)
      returns (run: Option<Run>, created: bool, err: Option<Refusal>, ghost cmd: StartRunCmd, ghost others: seq<Label>, ghost s': Sys)
      requires Valid() && s.db == store.Tables() && call !in s.calls
      modifies store
      ensures s'.db == store.Tables()
      ensures run.Some? <==> err == None
      ensures name !in fleet.catalog.defs ==> err == Some(UnknownWorkflow(name)) && s' == s
      ensures name in fleet.catalog.defs && fleet.catalog.defs[name].steps == [] ==> err == Some(NoSteps(name)) && s' == s
      ensures name in fleet.catalog.defs && fleet.catalog.defs[name].steps != [] ==>
                && cmd.runID == runID && cmd.workflowName == name && cmd.totalSteps == |fleet.catalog.defs[name].steps|
                && cmd.input == (if input == "" then "{}" else input)
                && cmd.idempotencyKey == (if key == "" then None else Some(key))
                && cmd.first == Scheduling.BuildTask(cfg, fleet.catalog.defs[name], 0, cmd.input, taskID, s.db.now)
                && Starts(fleet, s, call, cmd, others, err == None, s')
                && (err == None || (err.value.StoreFailed? && (lasts >= 6 ==> err.value.cause == DB.Violation)))
      ensures name in fleet.catalog.defs && fleet.catalog.defs[name].steps != [] && lasts >= 6 ==>
                var db := End(fleet, Begun(s, call, cmd), others).db;
                && (key != "" && (exists r :: r in db.runs && db.runs[r].idempotencyKey == Some(key)) ==>
                      && err == None && !created && store.Tables() == db
                      && exists r :: r in db.runs && db.runs[r].idempotencyKey == Some(key) && run == Some(db.runs[r]))
                && ((key == "" || (!raced && forall r | r in db.runs :: db.runs[r].idempotencyKey != Some(key)))
                    && runID !in db.runs && taskID !in db.tasks && Reachable(fleet, s) ==>
                      err == None && created)
      ensures created ==>
                && run.Some? && runID in store.runs && store.runs[runID] == run.value
                && run.value.workflowName == name && run.value.status == RunRunning && run.value.currentStep == 0
                && run.value.input == (if input == "" then "{}" else input)
                && run.value.idempotencyKey == (if key == "" then None else Some(key))
                && name in fleet.catalog.defs && run.value.totalSteps == |fleet.catalog.defs[name].steps|
                && taskID in store.tasks && store.tasks[taskID].runID == runID && store.tasks[taskID].stepIndex == 0
                && store.tasks[taskID].status == TaskPending && store.tasks[taskID].attempt == 0
                && store.tasks[taskID].input == run.value.input
      ensures Valid()
    {
      run, created, err, others, s' := None, false, None, [], s;
      cmd := StartRunCmd(runID, name, input, 0, None, NewTask(taskID, 0, "", KindActivity, input, 0, 0));
      var def := reg.Workflow(name);
      if def == None {
        err := Some(UnknownWorkflow(name));
        return;
      }
      if |def.value.steps| == 0 {
        err := Some(NoSteps(name));
        return;
      }
      var body := input;
      if |body| == 0 {
        body := EMPTY_OBJECT;
      }
      var keyPtr := None;
      if key != "" {
        keyPtr := Some(key);
      }
      var first := BuildTask(def.value, 0, body, taskID);
      var command := StartRunCmd(runID, name, body, |def.value.steps|, keyPtr, first);
      var cause;
      run, created, cause, others, s' := Submit(command, lasts, raced, call, s);
      cmd := command;
      if cause != None {
        err := Some(StoreFailed(cause.value));
      }
    }

    method NextStep(task: Task, result: Payload, id: TaskId, lasts: nat) returns (r: NextResult)
      requires Valid() && task.stepIndex >= 0
      ensures lasts == 0 ==> r == Unresolved("store: get run")
      ensures lasts >= 1 && task.runID !in store.runs ==> r == Unresolved("not found")
      ensures lasts >= 1 && task.runID in store.runs && store.runs[task.runID].workflowName !in fleet.catalog.defs ==>
                r == Unresolved("unknown workflow " + store.runs[task.runID].workflowName)
      ensures lasts >= 1 && Resolvable(fleet, store.Tables(), task) ==> !r.Unresolved?
      ensures !r.Unresolved? ==>
                && Resolvable(fleet, store.Tables(), task)
                && var def := fleet.catalog.defs[store.runs[task.runID].workflowName];
                   if task.stepIndex + 1 >= |def.steps| then r == Finished(result)
                   else r == Schedule(Scheduling.BuildTask(cfg, def, task.stepIndex + 1, result, id, store.now))
    {
      var run, err := store.GetRun(task.runID, lasts);
      if err != None {
        return Unresolved(if err == Some(DB.NotFound) then "not found" else "store: get run");
      }
      var def := reg.Workflow(run.value.workflowName);
      if def == None {
        return Unresolved("unknown workflow " + run.value.workflowName);
      }
      var nextIdx := task.stepIndex + 1;
      if nextIdx >= |def.value.steps| {
        return Finished(result);
      }
      // Next step's input is the previous step's result.
      var next := BuildTask(def.value, nextIdx, result, id);
      return Schedule(next);
    }

    /** Full jitter below the capped exponential: the next random number, brought into 0..ceiling. */
    method BackoffDelay(attempt: int) returns (d: Time)
      requires Valid()
      modifies rng
      ensures d == rng.draws(old(rng.used)) % (Backoff.Ceiling(cfg.backoffBase, cfg.backoffMax, attempt) + 1)
      ensures 0 <= d <= Backoff.Ceiling(cfg.backoffBase, cfg.backoffMax, attempt) <= cfg.backoffMax
      ensures rng.used == old(rng.used) + 1
    {
      var a := attempt;
      if a < 1 {
        a := 1;
      }
      var exp := Backoff.ShiftLeft(cfg.backoffBase, a - 1);
      if exp <= 0 || exp > cfg.backoffMax {
        exp := cfg.backoffMax;
      }
      Backoff.CeilingInRange(cfg.backoffBase, cfg.backoffMax, attempt);
      d := rng.Duration(exp);
    }

    /** Whatever others do meanwhile, this is the protocol's Fail, with this message, now, after the drawn delay. */
    method Fail(ghost w: Worker, owner: string, id: TaskId, task: Task, msg: string, lasts: nat, ghost s: Sys)
      returns (ghost ls: seq<Label>, ghost l: Label, ghost s': Sys)
      requires Valid() && s.db == store.Tables() && owner == fleet.owner(w)
      requires InHand(s, w, id, task) && task.updatedAt <= s.db.now
      modifies store, rng
      ensures Concludes(fleet, s, w, ls, l, s') && s'.db == store.Tables()
      ensures l.Fail? || l.Drop?
      ensures l.Fail? ==> l.msg == msg
      ensures l.Fail? && task.attempt < task.maxAttempts ==>
                && l.stamp == s.db.now
                && l.delay == rng.draws(old(rng.used)) % (Backoff.Ceiling(cfg.backoffBase, cfg.backoffMax, task.attempt) + 1)
      ensures lasts >= 5 ==> l.Fail?
      ensures Valid()
    {
      var err;
      ghost var s1;
      if task.attempt >= task.maxAttempts {
        ls, s1 := Others(store, fleet, Looping(w), s);
        ForeignTrace(fleet, s, ls, Looping(w));
        l := Label.Fail(w, msg, 0, s1.db.now);
        Backoff.CeilingInRange(cfg.backoffBase, cfg.backoffMax, task.attempt);
        err := store.DeadLetter(DeadLetterCmd(id, task.runID, owner, msg), lasts);
      } else {
        var backoff := BackoffDelay(task.attempt);
        var at := store.now + backoff;
        ls, s1 := Others(store, fleet, Looping(w), s);
        ForeignTrace(fleet, s, ls, Looping(w));
        l := Label.Fail(w, msg, backoff, s.db.now);
        err := store.Retry(RetryCmd(id, task.runID, owner, msg, at), lasts);
      }
      l, s' := FailConcludes(fleet, s, w, ls, l, err, store.Tables());
    }

    /** Commits a result computed from the task in hand: the protocol's Advance, or its Fail if the next step cannot be built. */
    method Advance(ghost w: Worker, owner: string, id: TaskId, task: Task, result: Payload, uuid: TaskId,
                   readLasts: nat, lasts: nat, ghost s: Sys)
      returns (ghost ls: seq<Label>, ghost l: Label, ghost s': Sys)
      requires Valid() && s.db == store.Tables() && owner == fleet.owner(w)
      requires InHand(s, w, id, task) && task.updatedAt <= s.db.now && task.stepIndex >= 0
      requires MayReturn(fleet.catalog, task, result)
      modifies store, rng
      ensures Concludes(fleet, s, w, ls, l, s') && s'.db == store.Tables()
      ensures l.Advance? ==> l.result == result && l.id == uuid && l.stamp == s.db.now
      ensures lasts >= 6 ==> !l.Drop?
      ensures lasts >= 6 && readLasts == 0 ==> l.Fail? && l.msg == "store: get run"
      ensures lasts >= 6 && readLasts > 0 && Resolvable(fleet, s.db, task) ==> l.Advance?
      ensures lasts >= 6 && readLasts > 0 && task.runID !in s.db.runs ==> l.Fail? && l.msg == "not found"
      ensures lasts >= 6 && readLasts > 0 && task.runID in s.db.runs && s.db.runs[task.runID].workflowName !in fleet.catalog.defs ==>
                l.Fail? && l.msg == "unknown workflow " + s.db.runs[task.runID].workflowName
      ensures Valid()
    {
      var r := NextStep(task, result, uuid, readLasts);
      if r.Unresolved? {
        ls, l, s' := Fail(w, owner, id, task, r.msg, lasts, s);
        return;
      }
      var cmd := AdvanceCmd(id, task.runID, owner, result, None, None);
      if r.Finished? {
        cmd := cmd.(runResult := Some(r.result));
      } else {
        cmd := cmd.(nextStep := Some(r.next));
      }
      l := Label.Advance(w, result, uuid, s.db.now);
      ghost var s1;
      ls, s1 := Others(store, fleet, Looping(w), s);
      ForeignTrace(fleet, s, ls, Looping(w));
      assert AdvanceCmdOf(fleet, s1, l) == cmd;
      var err := store.Advance(cmd, lasts);
      if err != None && err != Some(DB.Violation) {
        l := Drop(w);
      }
      s' := Apply(fleet, s1, l);
    }

    /**
     A task in hand is always concluded, and rightly: a timer advances with its fixed result, an activity
     with what its handler returned; it fails only if there is no handler, the handler erred or panicked,
     the run cannot be read or the next step cannot be built, and then with that message.
     */
    method Execute(ghost w: Worker, owner: string, id: TaskId, task: Task, c: Circumstances, ghost s: Sys)
      returns (ghost ls: seq<Label>, ghost l: Label, ghost s': Sys)
      requires Valid() && s.db == store.Tables() && owner == fleet.owner(w) && Lawful(fleet.catalog, c)
      requires InHand(s, w, id, task) && task.updatedAt <= s.db.now && task.stepIndex >= 0
      modifies store, rng
      ensures Concludes(fleet, s, w, ls, l, s') && s'.db == store.Tables()
      ensures c.commitLasts >= 6 ==> !l.Drop?
      ensures c.commitLasts >= 6 && c.readLasts > 0 && Resolvable(fleet, s.db, task) && task.kind == KindTimer ==>
                l.Advance? && l.result == "{\"fired\":true}"
      ensures c.commitLasts >= 6 && c.readLasts == 0 && task.kind == KindTimer ==> l.Fail? && l.msg == "store: get run"
      ensures c.commitLasts >= 6 && task.kind != KindTimer && task.activityName !in fleet.catalog.activities ==>
                l.Fail? && l.msg == "no activity registered for " + task.activityName
      ensures c.commitLasts >= 6 && task.kind != KindTimer && task.activityName in fleet.catalog.activities ==>
                match c.handler(task.activityName, task.input)
                case Returned(output) =>
                  if c.readLasts == 0 then l.Fail? && l.msg == "store: get run"
                  else Resolvable(fleet, s.db, task) ==> l.Advance? && l.result == output
                case Errored(msg) => l.Fail? && l.msg == msg
                case Panicked(value) => l.Fail? && l.msg == "activity panicked: " + value
      ensures Resolvable(fleet, s.db, task) ==> Rightly(fleet.catalog, task, c, l)
      ensures Valid()
    {
      if task.kind == KindTimer {
        ls, l, s' := Advance(w, owner, id, task, "{\"fired\":true}", c.uuid, c.readLasts, c.commitLasts, s);
        return;
      }
      var fn := reg.Activity(task.activityName);
      if fn == None {
        ls, l, s' := Fail(w, owner, id, task, "no activity registered for " + task.activityName, c.commitLasts, s);
        return;
      }
      var result, failure := SafeInvoke(fn.value, task.input, c.handler(task.activityName, task.input));
      if failure != None {
        ls, l, s' := Fail(w, owner, id, task, failure.value, c.commitLasts, s);
        return;
      }
      ls, l, s' := Advance(w, owner, id, task, result, c.uuid, c.readLasts, c.commitLasts, s);
    }

    /** A panicking handler counts as one that returned an error. o is how this call of fn comes back. */
    method SafeInvoke(fn: ActivityFunc, input: Payload, o: Outcome) returns (result: Payload, failure: Option<string>)
      requires o.Returned? ==> fn(input, o.output)
      ensures failure == None <==> o.Returned?
      ensures o.Returned? ==> result == o.output && fn(input, result)
      ensures o.Errored? ==> failure == Some(o.msg)
      ensures o.Panicked? ==> failure == Some("activity panicked: " + o.value)
    {
      result, failure := "", None;
      match o
      case Returned(output) => result := output;
      case Errored(msg) => failure := Some(msg);
      case Panicked(value) => failure := Some("activity panicked: " + value);
    }

    /**
     The rest of a round that found no task: waits until the timer fires or ctx is cancelled, and says which;
     when both are ready, doneFirst says which is taken.
     */
    method Sleep(ctx: Context, doneFirst: bool, ghost w: Worker, ghost p: Pool, ghost ms: seq<Move>, ghost q: Pool,
                 ghost schedule: nat -> Circumstances, ghost n: nat)
      returns (woken: bool, ghost ms': seq<Move>, ghost q': Pool)
      requires At(fleet, p, ms, q, w, AtLease, schedule, n) && q.sys.db == store.Tables() && q.cancelled == ctx.cancelled
      requires schedule(n).leaseLasts == 0 || forall t | Eligible(q.sys.db, t) :: t in schedule(n).locked
      requires doneFirst == schedule(n).doneFirst
      modifies store, ctx
      ensures woken <==> ctx.cancelled && doneFirst
      ensures At(fleet, p, ms', q', w, if woken then Done else AtCheck, schedule, n + 1) && q'.sys.db == store.Tables()
      ensures ms <= ms' && |ms| < |ms'| && ms'[|ms|].Idle? && ms'[|ms'| - 1] == Wake(w, woken)
      ensures q'.cancelled == ctx.cancelled && q'.lost == q.lost && q'.refused == q.refused
      ensures ctx.cancelled <==> old(ctx.cancelled) || old(ctx.left) == 0
      ensures ctx.left == if ctx.cancelled then old(ctx.left) else old(ctx.left) - 1
    {
      ms', q' := Idles(fleet, p, ms, q, w, schedule, n);
      ghost var ls, s1 := Await(store, ctx, fleet, Looping(w), q'.sys);
      ms', q' := Waits(fleet, p, ms', q', ls, w, Sleeping, ctx.cancelled, schedule, n);
      woken := ctx.cancelled && doneFirst;
      ms', q' := Wakes(fleet, p, ms', q', w, schedule, n);
    }

    /**
     The loop of worker i, its rounds in the circumstances scheduled for them. Whatever the rest of the
     system does in between, it makes the moves of a pool of its own in Drain.dfy until it has seen ctx
     cancelled and returned: round after round it asks for a task, concludes it rightly, and sleeps only
     if there was none to have. It does not dawdle: at most three waits go by in a round. It is granted at
     most one lease after cancellation; if its connections last no task in hand is lost; and unless a
     UUID was refused besides, nothing stays leased under its name.
     */
    method WorkerLoop(ctx: Context, i: nat, schedule: nat -> Circumstances, ghost s: Sys) returns (ghost ms: seq<Move>, ghost q: Pool)
      requires Valid() && s.db == store.Tables() && Reachable(fleet, s) && Worker(place, i) !in s.hands
      requires !ctx.cancelled && forall n :: Lawful(fleet.catalog, schedule(n))
      modifies store, rng, ctx
      ensures Leads(fleet, Alone(s, Worker(place, i)), ms, q) && q.pc == map[Worker(place, i) := Done]
      ensures Follows(fleet, Alone(s, Worker(place, i)), ms, schedule)
      ensures 3 * RoundsIn(ms) >= old(ctx.left)
      ensures Reachable(fleet, q.sys) && q.sys.db == store.Tables()
      ensures q.cancelled && ctx.cancelled
      ensures Worker(place, i) in q.late && q.late[Worker(place, i)] <= 1
      ensures (forall n :: schedule(n).commitLasts >= 6) ==> !q.lost
      ensures !q.lost && !q.refused && OwnNames(fleet, {Worker(place, i)}) && CleanNames(fleet, s, {Worker(place, i)}) ==>
                CleanNames(fleet, q.sys, {Worker(place, i)})
      ensures Valid()
    {
      var owner := Names.WorkerName(cfg.workerID, i);
      ghost var w := Worker(place, i);
      ghost var p := Alone(s, w);
      ms, q := [], p;
      var n := 0;
      while true
        invariant Valid() && owner == fleet.owner(w)
        invariant At(fleet, p, ms, q, w, AtCheck, schedule, n) && q.sys.db == store.Tables()
        invariant q.cancelled == ctx.cancelled && ((forall k :: schedule(k).commitLasts >= 6) ==> !q.lost)
        invariant old(ctx.left) <= 3 * n + if ctx.cancelled then 0 else ctx.left
        decreases if ctx.cancelled then 0 else ctx.left + 1
      {
        ghost var ls, s1 := Await(store, ctx, fleet, Looping(w), q.sys);
        ms, q := Waits(fleet, p, ms, q, ls, w, AtCheck, ctx.cancelled, schedule, n);
        ms, q := Checks(fleet, p, ms, q, w, schedule, n);
        if ctx.cancelled {
          LoneWorker(fleet, s, w, ms, q);
          return;
        }
        var returned;
        ghost var asked;
        returned, ms, q, asked := Round(ctx, owner, schedule(n), w, p, ms, q, schedule, n);
        n := n + 1;
        if returned {
          LoneWorker(fleet, s, w, ms, q);
          return;
        }
      }
    }

    // A task just leased is executed and concluded.
    method Handle(owner: string, id: TaskId, task: Task, c: Circumstances, ghost w: Worker, ghost p: Pool, ghost ms: seq<Move>,
                  ghost q: Pool, ghost schedule: nat -> Circumstances, ghost n: nat)
      returns (ghost ms': seq<Move>, ghost q': Pool)
      requires Valid() && owner == fleet.owner(w) && c == schedule(n) && Lawful(fleet.catalog, c) && c.leaseLasts > 0
      requires At(fleet, p, ms, q, w, AtLease, schedule, n) && Pick(q.sys.db, c.locked, id)
      requires store.Tables() == LeaseTx(q.sys.db, owner, cfg.leaseDuration, id) && task == store.tasks[id]
      modifies store, rng
      ensures At(fleet, p, ms', q', w, AtCheck, schedule, n + 1) && q'.sys.db == store.Tables()
      ensures q'.cancelled == q.cancelled && (c.commitLasts >= 6 && q'.lost ==> q.lost)
      ensures ms <= ms' && |ms| < |ms'| && ms'[|ms|].Take? && ms'[|ms'| - 1].Conclude?
      ensures Valid()
    {
      ms', q' := Takes(fleet, p, ms, q, w, id, schedule, n);
      ghost var more, l, s2 := Execute(w, owner, id, task, c, q'.sys);
      ms', q' := ConcludesOn(fleet, p, ms', q', w, more, l, s2, schedule, n);
    }

    /** One round past the check: lease, and execute what was leased, or sleep if there was nothing. */
    method Round(ctx: Context, owner: string, c: Circumstances, ghost w: Worker, ghost p: Pool, ghost ms: seq<Move>, ghost q: Pool,
                 ghost schedule: nat -> Circumstances, ghost n: nat)
      returns (returned: bool, ghost ms': seq<Move>, ghost q': Pool, ghost asked: nat)
      requires Valid() && owner == fleet.owner(w) && c == schedule(n) && Lawful(fleet.catalog, c)
      requires At(fleet, p, ms, q, w, AtLease, schedule, n) && q.sys.db == store.Tables()
      requires q.cancelled == ctx.cancelled == false
      modifies store, rng, ctx
      ensures At(fleet, p, ms', q', w, if returned then Done else AtCheck, schedule, n + 1) && q'.sys.db == store.Tables()
      ensures q'.cancelled == ctx.cancelled && (c.commitLasts >= 6 && q'.lost ==> q.lost)
      ensures ms <= ms' && |ms| <= asked && Asks(fleet, p, ms', asked, c)
      ensures returned ==> ctx.cancelled
      ensures if ctx.cancelled then old(ctx.left) <= 1 else old(ctx.left) - 2 <= ctx.left < old(ctx.left)
      ensures Valid()
    {
      returned := false;
      ghost var ls, s1 := Await(store, ctx, fleet, Looping(w), q.sys);
      ms', q' := Waits(fleet, p, ms, q, ls, w, AtLease, ctx.cancelled, schedule, n);
      asked := |ms'|;
      ghost var before, q0 := ms', q';
      var id, task, err := store.LeaseTask(owner, cfg.leaseDuration, c.locked, c.leaseLasts);
      if task == None {
        returned, ms', q' := Sleep(ctx, c.doneFirst, w, p, ms', q', schedule, n);
        AskedInVain(fleet, p, before, q0, ms', c);
        return;
      }
      ms', q' := Handle(owner, id, task.value, c, w, p, ms', q', schedule, n);
      AskedAndTook(fleet, p, before, q0, id, ms', c);
    }

    // One call of the reaper: the protocol's Reap, unless the connection gives out first.
    method Reap(lasts: nat, ghost others: seq<Label>, ghost s: Sys) returns (n: nat, ghost turn: Turn, ghost s': Sys)
      requires Reachable(fleet, s) && s.db == store.Tables()
      modifies store
      ensures turn.others == others && Reachable(fleet, s') && s'.db == store.Tables()
      ensures turn.reaped == None ==> n == 0 && s' == s && lasts < |DB.ExpiredRows(s.db)| + 2
      ensures turn.reaped.Some? ==>
                && n == |turn.reaped.value| && Enabled(fleet, s, Label.Reap(turn.reaped.value))
                && s' == Apply(fleet, s, Label.Reap(turn.reaped.value))
    {
      var err;
      ghost var order;
      ExpiredHaveRuns(fleet, s);
      assert s.db.tasks == store.tasks && s.db.runs == store.runs;
      n, err, order := store.ReapExpiredLeases(lasts);
      assert err.Some? ==> err.value.NotFound? || err.value.Violation? || err.value.Unavailable?;
      turn, s' := Turn(others, None), s;
      if err == None {
        turn, s' := Turn(others, Some(order)), Apply(fleet, s, Label.Reap(order));
        ReachableStep(fleet, s, Label.Reap(order));
      }
    }

    /**
     The reaper reaps once for every tick until ctx is cancelled; a call reaps unless its connection,
     given by lasts, gives out first; and what the reaper counts is exactly what its calls reclaimed.
     */
    method Reaper(ctx: Context, lasts: nat -> nat, ghost s: Sys)
      returns (reclaimed: nat, ghost turns: seq<Turn>, ghost rest: seq<Label>, ghost s': Sys)
      requires Valid() && s.db == store.Tables() && Reachable(fleet, s) && !ctx.cancelled
      modifies store, ctx
      ensures Diligent(fleet, s, turns, lasts) && |turns| == old(ctx.left)
      ensures Feasible(fleet, s, LabelsOf(turns) + rest) && s' == End(fleet, s, LabelsOf(turns) + rest) && s'.db == store.Tables()
      ensures reclaimed == ReapedIn(turns)
      ensures ctx.cancelled && Valid()
    {
      reclaimed, turns, rest, s' := 0, [], [], s;
      var tick := 0;
      while true
        invariant Valid() && !ctx.cancelled && Reachable(fleet, s')
        invariant Feasible(fleet, s, LabelsOf(turns)) && s' == End(fleet, s, LabelsOf(turns)) && s'.db == store.Tables()
        invariant Diligent(fleet, s, turns, lasts) && |turns| == tick && tick + ctx.left == old(ctx.left)
        invariant reclaimed == ReapedIn(turns)
        decreases ctx.left
      {
        ghost var others, s1 := Await(store, ctx, fleet, Reaping, s');
        if ctx.cancelled {
          Append(fleet, s, LabelsOf(turns), others);
          rest, s' := others, s1;
          return;
        }
        ReachableOn(fleet, s', others);
        var n;
        ghost var turn, s2;
        n, turn, s2 := Reap(lasts(tick), others, s1);
        TakeTurn(fleet, s, turns, turn, lasts);
        turns, s' := turns + [turn], s2;
        reclaimed, tick := reclaimed + n, tick + 1;
      }
    }
  }

  // One turn of the reaper: what others did meanwhile, and what its call reclaimed, if it succeeded.
  datatype Turn = Turn(others: seq<Label>, reaped: Option<seq<TaskId>>)

  ghost function LabelsOf(turns: seq<Turn>): seq<Label> {
    if |turns| == 0 then []
    else
      var last := turns[|turns| - 1];
      LabelsOf(turns[..|turns| - 1]) + last.others + (if last.reaped.Some? then [Reap(last.reaped.value)] else [])
  }

  ghost function ReapedIn(turns: seq<Turn>): nat {
    if |turns| == 0 then 0
    else
      var last := turns[|turns| - 1];
      ReapedIn(turns[..|turns| - 1]) + if last.reaped.Some? then |last.reaped.value| else 0
  }

  // Each turn reaps, unless its connection lasts for fewer statements than that takes: the update, an
  // event for each expired lease, and the commit.
  ghost predicate Diligent(fleet: Fleet, s: Sys, turns: seq<Turn>, lasts: nat -> nat) {
    |turns| == 0 ||
    var n, last := |turns| - 1, turns[|turns| - 1];
    && Diligent(fleet, s, turns[..n], lasts)
    && Feasible(fleet, s, LabelsOf(turns[..n]) + last.others)
    && (last.reaped == None ==> lasts(n) < |DB.ExpiredRows(End(fleet, s, LabelsOf(turns[..n]) + last.others).db)| + 2)
  }

  lemma TakeTurn(fleet: Fleet, s: Sys, turns: seq<Turn>, turn: Turn, lasts: nat -> nat)
    requires Feasible(fleet, s, LabelsOf(turns)) && Feasible(fleet, End(fleet, s, LabelsOf(turns)), turn.others)
    requires Diligent(fleet, s, turns, lasts)
    requires var s1 := End(fleet, End(fleet, s, LabelsOf(turns)), turn.others);
             if turn.reaped.Some? then Enabled(fleet, s1, Reap(turn.reaped.value)) else lasts(|turns|) < |DB.ExpiredRows(s1.db)| + 2
    ensures var s1, ls := End(fleet, End(fleet, s, LabelsOf(turns)), turn.others), LabelsOf(turns + [turn]);
            && Feasible(fleet, s, ls)
            && End(fleet, s, ls) == if turn.reaped.Some? then Apply(fleet, s1, Reap(turn.reaped.value)) else s1
    ensures ReapedIn(turns + [turn]) == ReapedIn(turns) + if turn.reaped.Some? then |turn.reaped.value| else 0
    ensures Diligent(fleet, s, turns + [turn], lasts)
  {
    assert (turns + [turn])[..|turns|] == turns;
    Append(fleet, s, LabelsOf(turns), turn.others);
    var before := LabelsOf(turns) + turn.others;
    if turn.reaped.Some? {
      Single(fleet, End(fleet, s, before), Reap(turn.reaped.value));
      Append(fleet, s, before, [Reap(turn.reaped.value)]);
    } else {
      assert before + [] == before;
    }
  }

  lemma ExpiredHaveRuns(fleet: Fleet, s: Sys)
    requires Reachable(fleet, s)
    ensures forall t | t in s.db.tasks :: s.db.tasks[t].runID in s.db.runs
  {
    ReachableIndexed(fleet, s);
    assert forall t | t in s.db.tasks :: Listed(s, t);
  }
}
