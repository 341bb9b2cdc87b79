/**
 One run on its own: its row, its task rows by step, and its history. The acts below are all that
 ever happens to a run; Protocol.dfy shows that every transaction, on every run, is one of them.
 */
module RunView {
  import opened Options
  import opened Workflow
  import opened Store
  import opened History
  import opened Scheduling

  // begun is the stamp StartWorkflow took; grants[i] counts the leases step i's task was given.
  datatype View = View(
    id: RunId,
    run: Run,
    begun: Time,
    ids: seq<TaskId>,
    rows: seq<Task>,
    grants: seq<int>,
    history: seq<Event>)

  datatype Act =
    | Stay
    | Lease(owner: string, until: Time)
    | Next(result: Payload, id: TaskId, stamp: Time)
    | Finish(result: Payload)
    | Retry(at: Time, msg: string)
    | Bury(msg: string)
    | Reclaim
    | Revive
    | Cancel

  ghost function Top(v: View): int {
    |v.rows| - 1
  }

  ghost predicate Known(fleet: Fleet, v: View) {
    && v.run.workflowName in fleet.catalog.defs
    && 0 < |v.rows| <= |StepsOf(fleet, v)|
    && |v.ids| == |v.grants| == |v.rows|
  }

  ghost function StepsOf(fleet: Fleet, v: View): seq<Step>
    requires v.run.workflowName in fleet.catalog.defs
  {
    fleet.catalog.defs[v.run.workflowName].steps
  }

  // No task of step i is due earlier than this.
  ghost function Due(fleet: Fleet, v: View, i: int): Time
    requires Known(fleet, v) && 0 <= i < |StepsOf(fleet, v)|
  {
    v.begun + TimerSum(StepsOf(fleet, v), i + 1)
  }

  ghost function NextTask(fleet: Fleet, v: View, a: Act): NewTask
    requires Known(fleet, v) && |v.rows| < |StepsOf(fleet, v)| && a.Next?
  {
    BuildTask(fleet.cfg, fleet.catalog.defs[v.run.workflowName], |v.rows|, a.result, a.id, a.stamp)
  }

  ghost predicate Possible(fleet: Fleet, v: View, a: Act, now: Time) {
    && Known(fleet, v)
    && var row := v.rows[Top(v)];
       match a
       case Stay => true
       case Lease(_, until) =>
         row.status == TaskPending && row.availableAt <= now && until == now + fleet.cfg.leaseDuration
       case Next(result, id, stamp) =>
         && row.status == TaskLeased
         && |v.rows| < |StepsOf(fleet, v)|
         && Returns(fleet.catalog, StepsOf(fleet, v)[Top(v)], row.input, result)
         && id !in v.ids
         && Due(fleet, v, Top(v)) <= stamp
       case Finish(result) =>
         && row.status == TaskLeased
         && |v.rows| == |StepsOf(fleet, v)|
         && Returns(fleet.catalog, StepsOf(fleet, v)[Top(v)], row.input, result)
       case Retry(at, _) => row.status == TaskLeased && Due(fleet, v, Top(v)) <= at
       case Bury(_) => row.status == TaskLeased
       case Reclaim => row.status == TaskLeased && row.leaseExpires.Some? && row.leaseExpires.value < now
       case Revive => row.status == TaskDead
       case Cancel => v.run.status == RunRunning
  }

  ghost function Perform(fleet: Fleet, v: View, a: Act, now: Time): View
    requires Possible(fleet, v, a, now)
  {
    var k := Top(v);
    var row := v.rows[k];
    match a
    case Stay => v
    case Lease(owner, until) =>
      v.(rows := v.rows[k := LeaseRow(row, owner, until, now)], grants := v.grants[k := v.grants[k] + 1])
    case Next(result, id, stamp) =>
      var next := NextTask(fleet, v, a);
      v.(run := StepRun(v.run, next.stepIndex, now),
         ids := v.ids + [id],
         rows := v.rows[k := CompleteRow(row, result, now)] + [NewRow(v.id, next, now)],
         grants := v.grants + [0],
         history := v.history + [MakeEvent(v.id, Some(v.ids[k]), EventActivityCompleted, Some(result), now)]
                              + [MakeEvent(v.id, Some(id), EventActivityScheduled, Some(result), now)])
    case Finish(result) =>
      v.(run := CompleteRun(v.run, Some(result), now),
         rows := v.rows[k := CompleteRow(row, result, now)],
         history := v.history + [MakeEvent(v.id, Some(v.ids[k]), EventActivityCompleted, Some(result), now)]
                              + [MakeEvent(v.id, None, EventWorkflowCompleted, Some(result), now)])
    case Retry(at, msg) =>
      v.(rows := v.rows[k := RetryRow(row, at, msg, now)],
         history := v.history + [MakeEvent(v.id, Some(v.ids[k]), EventActivityRetried, Some(ErrorPayload(msg)), now)])
    case Bury(msg) =>
      v.(run := FailRun(v.run, msg, now),
         rows := v.rows[k := DeadRow(row, msg, now)],
         history := v.history + [MakeEvent(v.id, Some(v.ids[k]), EventDeadLettered, Some(ErrorPayload(msg)), now)]
                              + [MakeEvent(v.id, None, EventWorkflowFailed, Some(ErrorPayload(msg)), now)])
    case Reclaim =>
      v.(rows := v.rows[k := ReclaimRow(row, now)],
         history := v.history + [MakeEvent(v.id, Some(v.ids[k]), EventReclaimed, Some(EMPTY_OBJECT), now)])
    case Revive =>
      v.(rows := v.rows[k := ReplayRow(row, now)],
         history := v.history + [MakeEvent(v.id, Some(v.ids[k]), EventReplayed, Some(EMPTY_OBJECT), now)])
    case Cancel =>
      v.(run := CancelledRun(v.run, now),
         rows := v.rows[k := CancelRow(row, now)],
         history := v.history + [MakeEvent(v.id, None, EventWorkflowCancelled, Some(EMPTY_OBJECT), now)])
  }

  ghost function Opening(id: RunId, cmd: StartRunCmd, begun: Time, now: Time): View {
    View(id, OpenRun(cmd, now), begun, [cmd.first.id], [NewRow(id, cmd.first, now)], [0],
         [MakeEvent(id, None, EventWorkflowStarted, Some(cmd.input), now)]
         + [MakeEvent(id, Some(cmd.first.id), EventActivityScheduled, Some(cmd.first.input), now)])
  }

  // What StartWorkflow puts in its command.
  ghost predicate WellFormedStart(fleet: Fleet, cmd: StartRunCmd, begun: Time) {
    && cmd.workflowName in fleet.catalog.defs
    && var def := fleet.catalog.defs[cmd.workflowName];
       && |def.steps| > 0
       && cmd.totalSteps == |def.steps|
       && cmd.first == BuildTask(fleet.cfg, def, 0, cmd.input, cmd.first.id, begun)
  }

  // ----- the invariant of one run -----

  ghost predicate LiveStatus(s: TaskStatus) {
    s == TaskPending || s == TaskLeased
  }

  // Which status the last task has, given its run's.
  ghost predicate Consistent(run: RunStatus, task: TaskStatus) {
    match run
    case RunRunning => LiveStatus(task)
    case RunFailed => LiveStatus(task) || task == TaskDead
    case RunCompleted => task == TaskCompleted
    case RunCancelled => task == TaskCancelled
  }

  ghost predicate Fits(fleet: Fleet, v: View, i: int)
    requires Known(fleet, v) && 0 <= i < |v.rows|
  {
    var row, s := v.rows[i], StepsOf(fleet, v)[i];
    && row.runID == v.id
    && row.stepIndex == i
    && row.kind == Kind(s)
    && row.activityName == ActivityName(s)
    && row.maxAttempts == MaxAttempts(fleet.cfg, s)
  }

  // Rows are the steps 0..currentStep, all but the last completed, each fed by the one before.
  ghost predicate Shaped(fleet: Fleet, v: View) {
    && Known(fleet, v)
    && v.run.totalSteps == |StepsOf(fleet, v)|
    && v.run.currentStep == Top(v)
    && AllFit(fleet, v)
    && (forall i, j | 0 <= i < j < |v.ids| :: v.ids[i] != v.ids[j])
    && (forall i | 0 <= i < Top(v) :: v.rows[i].status == TaskCompleted)
    && Consistent(v.run.status, v.rows[Top(v)].status)
    && v.rows[0].input == v.run.input
    && (forall i | 0 <= i < Top(v) :: v.rows[i].result == Some(v.rows[i + 1].input))
    && (forall i | 0 <= i < |v.rows| && v.rows[i].status == TaskCompleted ::
         v.rows[i].result.Some? && Returns(fleet.catalog, StepsOf(fleet, v)[i], v.rows[i].input, v.rows[i].result.value))
    && (v.rows[Top(v)].status != TaskCompleted ==> v.rows[Top(v)].result == None)
    && v.run.result == (if v.run.status == RunCompleted then v.rows[Top(v)].result else None)
    && (v.run.status == RunCompleted ==> |v.rows| == |StepsOf(fleet, v)|)
  }

  ghost predicate Timed(fleet: Fleet, v: View, now: Time)
    requires Known(fleet, v)
  {
    && (forall i | 0 <= i < |v.rows| :: Due(fleet, v, i) <= v.rows[i].availableAt)
    && (forall i | 0 <= i < |v.rows| :: v.rows[i].updatedAt <= now)
    && (forall i | 0 <= i < |v.rows| && v.rows[i].status in {TaskLeased, TaskCompleted, TaskDead} ::
         v.rows[i].availableAt <= v.rows[i].updatedAt)
    && (v.rows[Top(v)].status == TaskLeased ==>
         v.rows[Top(v)].leasedBy.Some?
         && v.rows[Top(v)].leaseExpires == Some(v.rows[Top(v)].updatedAt + fleet.cfg.leaseDuration))
    && (v.run.status == RunCompleted ==> v.run.updatedAt == v.rows[Top(v)].updatedAt)
  }

  ghost predicate AttemptMatches(status: TaskStatus, attempt: int, counted: int) {
    match status
    case TaskPending => attempt == counted
    case TaskCancelled => counted <= attempt <= counted + 1
    case _ => attempt == counted + 1
  }

  ghost predicate PhaseMatches(phase: Phase, status: TaskStatus) {
    match phase
    case Live => LiveStatus(status)
    case Dead => status == TaskDead
    case Finished => status == TaskCompleted
    case Stopped => status == TaskCancelled
    case _ => false
  }

  // Folding the history gives back the run: status, step, inputs, results, the tasks' ids and
  // statuses (pending and leased are one phase), and the attempt up to the open lease.
  ghost predicate Recovers(l: Ledger, v: View) {
    && |v.rows| == |v.ids| == |l.steps| > 0
    && v.run.input == l.input
    && v.run.status == StatusOf(l)
    && v.run.result == l.result
    && v.run.currentStep == |l.steps| - 1
    && (forall i | 0 <= i < |l.steps| :: l.steps[i] == Recorded(v.ids[i], v.rows[i].input, v.rows[i].result))
    && (forall i | 0 <= i < |l.steps| - 1 :: v.rows[i].status == TaskCompleted)
    && PhaseMatches(l.phase, v.rows[Top(v)].status)
    && (l.phase == Dead ==> l.failed)
    && AttemptMatches(v.rows[Top(v)].status, v.rows[Top(v)].attempt, l.retries + l.reclaims)
  }

  // A lease ends in one recorded way, or is still open.
  ghost function Ended(history: seq<Event>, t: TaskId): nat {
    Count(history, EventActivityRetried, t) + Count(history, EventReclaimed, t)
    + Count(history, EventDeadLettered, t) + Count(history, EventActivityCompleted, t)
  }

  ghost predicate GrantMatches(status: TaskStatus, grants: int, ended: int) {
    match status
    case TaskLeased => grants == ended + 1
    case TaskCancelled => ended <= grants <= ended + 1
    case _ => grants == ended
  }

  ghost predicate TallyAt(history: seq<Event>, t: TaskId, status: TaskStatus, grants: int) {
    && GrantMatches(status, grants, Ended(history, t))
    && Count(history, EventActivityCompleted, t) == (if status == TaskCompleted then 1 else 0)
    && Count(history, EventDeadLettered, t) == Count(history, EventReplayed, t) + (if status == TaskDead then 1 else 0)
  }

  ghost predicate Unseen(history: seq<Event>, ids: seq<TaskId>) {
    forall t, typ | t !in ids :: Count(history, typ, t) == 0
  }

  ghost predicate Tallied(v: View)
    requires |v.ids| == |v.grants| == |v.rows|
  {
    && (forall i | 0 <= i < |v.ids| :: TallyAt(v.history, v.ids[i], v.rows[i].status, v.grants[i]))
    && Unseen(v.history, v.ids)
  }

  ghost predicate Ordered(v: View)
    requires |v.ids| == |v.rows| > 0
  {
    OrderedIds(v.history, v.ids, v.rows[Top(v)].status == TaskCompleted)
  }

  ghost predicate Good(fleet: Fleet, v: View, now: Time) {
    && Shaped(fleet, v)
    && Timed(fleet, v, now)
    && Recovers(Replay(v.history), v)
    && Tallied(v)
    && Ordered(v)
  }

  // ----- every act keeps it -----

  lemma PerformShaped(fleet: Fleet, v: View, a: Act, now: Time)
    requires Shaped(fleet, v) && Possible(fleet, v, a, now)
    ensures Shaped(fleet, Perform(fleet, v, a, now))
  {
    FitsAfter(fleet, v, a, now);
    if a.Next? {
      ShapedNext(fleet, v, a, now);
    } else if a.Finish? {
      ShapedFinish(fleet, v, a, now);
    } else {
      ShapedSame(fleet, v, a, now);
    }
  }

  ghost predicate AllFit(fleet: Fleet, v: View)
    requires Known(fleet, v)
  {
    forall i | 0 <= i < |v.rows| :: Fits(fleet, v, i)
  }

  lemma FitsAfter(fleet: Fleet, v: View, a: Act, now: Time)
    requires Known(fleet, v) && AllFit(fleet, v) && Possible(fleet, v, a, now)
    ensures Known(fleet, Perform(fleet, v, a, now)) && AllFit(fleet, Perform(fleet, v, a, now))
  {
    var w := Perform(fleet, v, a, now);
    forall i | 0 <= i < |w.rows|
      ensures Fits(fleet, w, i)
    {
      if i < |v.rows| {
        assert Fits(fleet, v, i);
      }
    }
  }

  lemma ShapedNext(fleet: Fleet, v: View, a: Act, now: Time)
    requires Shaped(fleet, v) && Possible(fleet, v, a, now) && a.Next?
    requires Known(fleet, Perform(fleet, v, a, now)) && AllFit(fleet, Perform(fleet, v, a, now))
    ensures Shaped(fleet, Perform(fleet, v, a, now))
  {
  }

  lemma ShapedFinish(fleet: Fleet, v: View, a: Act, now: Time)
    requires Shaped(fleet, v) && Possible(fleet, v, a, now) && a.Finish?
    requires Known(fleet, Perform(fleet, v, a, now)) && AllFit(fleet, Perform(fleet, v, a, now))
    ensures Shaped(fleet, Perform(fleet, v, a, now))
  {
  }

  lemma ShapedSame(fleet: Fleet, v: View, a: Act, now: Time)
    requires Shaped(fleet, v) && Possible(fleet, v, a, now) && !a.Next? && !a.Finish?
    requires Known(fleet, Perform(fleet, v, a, now)) && AllFit(fleet, Perform(fleet, v, a, now))
    ensures Shaped(fleet, Perform(fleet, v, a, now))
  {
  }

  lemma DueNext(fleet: Fleet, v: View, i: int)
    requires Known(fleet, v) && 0 < i < |StepsOf(fleet, v)|
    ensures Due(fleet, v, i) == Due(fleet, v, i - 1) + if StepsOf(fleet, v)[i].timer > 0 then StepsOf(fleet, v)[i].timer else 0
  {
  }

  lemma PerformTimed(fleet: Fleet, v: View, a: Act, now: Time)
    requires Shaped(fleet, v) && Timed(fleet, v, now) && Possible(fleet, v, a, now)
    ensures Shaped(fleet, Perform(fleet, v, a, now)) && Timed(fleet, Perform(fleet, v, a, now), now)
  {
    PerformShaped(fleet, v, a, now);
    if a.Next? {
      TimedNext(fleet, v, a, now);
    } else {
      TimedSame(fleet, v, a, now);
    }
  }

  lemma TimedSame(fleet: Fleet, v: View, a: Act, now: Time)
    requires Known(fleet, v) && Timed(fleet, v, now) && Possible(fleet, v, a, now) && !a.Next?
    requires Consistent(v.run.status, v.rows[Top(v)].status)
    ensures Known(fleet, Perform(fleet, v, a, now)) && Timed(fleet, Perform(fleet, v, a, now), now)
  {
    var w := Perform(fleet, v, a, now);
    forall i | 0 <= i < |w.rows|
      ensures Due(fleet, w, i) <= w.rows[i].availableAt
    {
      assert Due(fleet, v, i) <= v.rows[i].availableAt;
    }
  }

  lemma TimedNext(fleet: Fleet, v: View, a: Act, now: Time)
    requires Known(fleet, v) && Timed(fleet, v, now) && Possible(fleet, v, a, now) && a.Next?
    requires v.run.status != RunCompleted
    ensures Known(fleet, Perform(fleet, v, a, now)) && Timed(fleet, Perform(fleet, v, a, now), now)
  {
    var w := Perform(fleet, v, a, now);
    forall i | 0 <= i < |w.rows|
      ensures Due(fleet, w, i) <= w.rows[i].availableAt
    {
      if i < |v.rows| {
        assert Due(fleet, v, i) <= v.rows[i].availableAt;
      } else {
        DueNext(fleet, v, i);
        assert w.rows[i] == NewRow(v.id, NextTask(fleet, v, a), now);
      }
    }
  }

  // One event, one ledger entry: what Record does when the row changes with it.
  lemma RecoversOne(fleet: Fleet, l: Ledger, v: View, a: Act, now: Time)
    requires Shaped(fleet, v) && Recovers(l, v) && Possible(fleet, v, a, now)
    requires a.Retry? || a.Reclaim? || a.Revive? || a.Cancel?
    ensures Recovers(Record(l, Perform(fleet, v, a, now).history[|v.history|]), Perform(fleet, v, a, now))
  {
    if a.Retry? || a.Reclaim? {
      RecoversRequeued(fleet, l, v, a, now);
    } else {
      RecoversTold(fleet, l, v, a, now);
    }
  }

  lemma RecoversRequeued(fleet: Fleet, l: Ledger, v: View, a: Act, now: Time)
    requires Known(fleet, v) && Recovers(l, v) && Possible(fleet, v, a, now) && (a.Retry? || a.Reclaim?)
    ensures Recovers(Record(l, Perform(fleet, v, a, now).history[|v.history|]), Perform(fleet, v, a, now))
  {
  }

  lemma RecoversTold(fleet: Fleet, l: Ledger, v: View, a: Act, now: Time)
    requires Known(fleet, v) && Recovers(l, v) && Possible(fleet, v, a, now) && (a.Revive? || a.Cancel?)
    requires Consistent(v.run.status, v.rows[Top(v)].status)
    ensures Recovers(Record(l, Perform(fleet, v, a, now).history[|v.history|]), Perform(fleet, v, a, now))
  {
  }

  lemma RecoversBury(fleet: Fleet, l: Ledger, v: View, a: Act, now: Time)
    requires Shaped(fleet, v) && Recovers(l, v) && Possible(fleet, v, a, now) && a.Bury?
    ensures var h := Perform(fleet, v, a, now).history;
            Recovers(Record(Record(l, h[|v.history|]), h[|v.history| + 1]), Perform(fleet, v, a, now))
  {
  }

  lemma RecoversFinish(fleet: Fleet, l: Ledger, v: View, a: Act, now: Time)
    requires Shaped(fleet, v) && Recovers(l, v) && Possible(fleet, v, a, now) && a.Finish?
    ensures var h := Perform(fleet, v, a, now).history;
            Recovers(Record(Record(l, h[|v.history|]), h[|v.history| + 1]), Perform(fleet, v, a, now))
  {
  }

  lemma RecoversNext(fleet: Fleet, l: Ledger, v: View, a: Act, now: Time)
    requires Shaped(fleet, v) && Recovers(l, v) && Possible(fleet, v, a, now) && a.Next?
    ensures var h := Perform(fleet, v, a, now).history;
            Recovers(Record(Record(l, h[|v.history|]), h[|v.history| + 1]), Perform(fleet, v, a, now))
  {
  }

  lemma PerformRecovers(fleet: Fleet, v: View, a: Act, now: Time)
    requires Shaped(fleet, v) && Recovers(Replay(v.history), v) && Possible(fleet, v, a, now)
    ensures Recovers(Replay(Perform(fleet, v, a, now).history), Perform(fleet, v, a, now))
  {
    var w, l, n := Perform(fleet, v, a, now), Replay(v.history), |v.history|;
    if a.Next? || a.Finish? || a.Bury? {
      if a.Next? {
        RecoversNext(fleet, l, v, a, now);
      } else if a.Finish? {
        RecoversFinish(fleet, l, v, a, now);
      } else {
        RecoversBury(fleet, l, v, a, now);
      }
      assert w.history == v.history + [w.history[n]] + [w.history[n + 1]];
      ReplayAppend(v.history, w.history[n]);
      ReplayAppend(v.history + [w.history[n]], w.history[n + 1]);
    } else if !a.Stay? && !a.Lease? {
      RecoversOne(fleet, l, v, a, now);
      ReplayAppend(v.history, w.history[n]);
    }
  }

  lemma TallyOther(h: seq<Event>, e: Event, t: TaskId, status: TaskStatus, grants: int)
    requires TallyAt(h, t, status, grants) && e.taskID != Some(t)
    ensures TallyAt(h + [e], t, status, grants)
  {
    CountAppend(h, e, EventActivityRetried, t);
    CountAppend(h, e, EventReclaimed, t);
    CountAppend(h, e, EventDeadLettered, t);
    CountAppend(h, e, EventActivityCompleted, t);
    CountAppend(h, e, EventReplayed, t);
  }

  ghost predicate EventMoves(typ: EventType, before: TaskStatus, after: TaskStatus) {
    match typ
    case EventActivityRetried => before == TaskLeased && after == TaskPending
    case EventReclaimed => before == TaskLeased && after == TaskPending
    case EventDeadLettered => before == TaskLeased && after == TaskDead
    case EventActivityCompleted => before == TaskLeased && after == TaskCompleted
    case EventReplayed => before == TaskDead && after == TaskPending
    case _ => false
  }

  lemma TallyMoved(h: seq<Event>, e: Event, t: TaskId, before: TaskStatus, after: TaskStatus, grants: int)
    requires TallyAt(h, t, before, grants) && e.taskID == Some(t) && EventMoves(e.typ, before, after)
    ensures TallyAt(h + [e], t, after, grants)
  {
    CountAppend(h, e, EventActivityRetried, t);
    CountAppend(h, e, EventReclaimed, t);
    CountAppend(h, e, EventDeadLettered, t);
    CountAppend(h, e, EventActivityCompleted, t);
    CountAppend(h, e, EventReplayed, t);
  }

  lemma TallyNew(h: seq<Event>, e: Event, ids: seq<TaskId>, t: TaskId)
    requires Unseen(h, ids) && t !in ids && e.typ == EventActivityScheduled
    ensures TallyAt(h + [e], t, TaskPending, 0)
  {
    CountAppend(h, e, EventActivityRetried, t);
    CountAppend(h, e, EventReclaimed, t);
    CountAppend(h, e, EventDeadLettered, t);
    CountAppend(h, e, EventActivityCompleted, t);
    CountAppend(h, e, EventReplayed, t);
  }

  lemma UnseenAppend(h: seq<Event>, e: Event, ids: seq<TaskId>, more: seq<TaskId>)
    requires Unseen(h, ids)
    requires e.taskID == None || e.taskID.value in ids + more
    ensures Unseen(h + [e], ids + more)
  {
    forall t, typ | t !in ids + more
      ensures Count(h + [e], typ, t) == 0
    {
      CountAppend(h, e, typ, t);
    }
  }

  lemma TalliedOne(fleet: Fleet, v: View, a: Act, now: Time)
    requires Shaped(fleet, v) && Tallied(v) && Possible(fleet, v, a, now)
    requires a.Retry? || a.Reclaim? || a.Revive?
    ensures Tallied(Perform(fleet, v, a, now))
  {
    var w := Perform(fleet, v, a, now);
    var e, k := w.history[|v.history|], Top(v);
    forall i | 0 <= i < |v.ids|
      ensures TallyAt(v.history + [e], v.ids[i], w.rows[i].status, v.grants[i])
    {
      if i == k {
        TallyMoved(v.history, e, v.ids[i], v.rows[i].status, w.rows[i].status, v.grants[i]);
      } else {
        TallyOther(v.history, e, v.ids[i], v.rows[i].status, v.grants[i]);
      }
    }
    UnseenAppend(v.history, e, v.ids, []);
    assert v.ids + [] == v.ids;
  }

  lemma TalliedCancel(fleet: Fleet, v: View, a: Act, now: Time)
    requires Known(fleet, v) && Tallied(v) && Possible(fleet, v, a, now) && a.Cancel? && LiveStatus(v.rows[Top(v)].status)
    ensures Tallied(Perform(fleet, v, a, now))
  {
    var w := Perform(fleet, v, a, now);
    var e := w.history[|v.history|];
    forall i | 0 <= i < |v.ids|
      ensures TallyAt(v.history + [e], v.ids[i], w.rows[i].status, v.grants[i])
    {
      TallyOther(v.history, e, v.ids[i], v.rows[i].status, v.grants[i]);
    }
    UnseenAppend(v.history, e, v.ids, []);
    assert v.ids + [] == v.ids;
  }

  lemma TalliedTwo(fleet: Fleet, v: View, a: Act, now: Time)
    requires Shaped(fleet, v) && Tallied(v) && Possible(fleet, v, a, now)
    requires a.Next? || a.Finish? || a.Bury?
    ensures Shaped(fleet, Perform(fleet, v, a, now)) && Tallied(Perform(fleet, v, a, now))
  {
    PerformShaped(fleet, v, a, now);
    var w := Perform(fleet, v, a, now);
    var e1, e2, k := w.history[|v.history|], w.history[|v.history| + 1], Top(v);
    var h := v.history + [e1];
    assert w.history == h + [e2];
    UnseenAppend(v.history, e1, v.ids, []);
    assert v.ids + [] == v.ids;
    UnseenAppend(h, e2, v.ids, w.ids[|v.ids|..]);
    assert v.ids + w.ids[|v.ids|..] == w.ids;
    forall i | 0 <= i < |w.ids|
      ensures TallyAt(w.history, w.ids[i], w.rows[i].status, w.grants[i])
    {
      if i == |v.ids| {
        TallyNew(h, e2, v.ids, w.ids[i]);
      } else {
        assert TallyAt(v.history, v.ids[i], v.rows[i].status, v.grants[i]);
        if i == k {
          TallyMoved(v.history, e1, v.ids[i], v.rows[i].status, w.rows[i].status, v.grants[i]);
        } else {
          TallyOther(v.history, e1, v.ids[i], v.rows[i].status, v.grants[i]);
        }
        TallyOther(h, e2, v.ids[i], w.rows[i].status, v.grants[i]);
      }
    }
  }

  lemma TalliedLease(fleet: Fleet, v: View, a: Act, now: Time)
    requires Shaped(fleet, v) && Tallied(v) && Possible(fleet, v, a, now) && a.Lease?
    ensures Tallied(Perform(fleet, v, a, now))
  {
    var w := Perform(fleet, v, a, now);
    forall i | 0 <= i < |w.ids|
      ensures TallyAt(w.history, w.ids[i], w.rows[i].status, w.grants[i])
    {
      assert TallyAt(v.history, v.ids[i], v.rows[i].status, v.grants[i]);
    }
  }

  lemma PerformTallied(fleet: Fleet, v: View, a: Act, now: Time)
    requires Shaped(fleet, v) && Tallied(v) && Possible(fleet, v, a, now)
    ensures Shaped(fleet, Perform(fleet, v, a, now)) && Tallied(Perform(fleet, v, a, now))
  {
    PerformShaped(fleet, v, a, now);
    if a.Next? || a.Finish? || a.Bury? {
      TalliedTwo(fleet, v, a, now);
    } else if a.Lease? {
      TalliedLease(fleet, v, a, now);
    } else if a.Cancel? {
      TalliedCancel(fleet, v, a, now);
    } else if !a.Stay? {
      TalliedOne(fleet, v, a, now);
    }
  }

  // What Ordered says of a history and the ids it schedules.
  ghost predicate OrderedIds(h: seq<Event>, ids: seq<TaskId>, done: bool)
    requires |ids| > 0
  {
    && ScheduledIds(h) == ids
    && Ids(h, EventActivityCompleted) == if done then ids else ids[..|ids| - 1]
  }

  lemma CompletesLast(h: seq<Event>, e: Event, ids: seq<TaskId>)
    requires |ids| > 0 && OrderedIds(h, ids, false)
    requires e.typ == EventActivityCompleted && e.taskID == Some(ids[|ids| - 1])
    ensures OrderedIds(h + [e], ids, true)
  {
    IdsAppend(h, e, EventActivityScheduled);
    IdsAppend(h, e, EventActivityCompleted);
    assert ids == ids[..|ids| - 1] + [ids[|ids| - 1]];
  }

  lemma SchedulesNext(h: seq<Event>, e: Event, ids: seq<TaskId>, id: TaskId)
    requires |ids| > 0 && OrderedIds(h, ids, true)
    requires e.typ == EventActivityScheduled && e.taskID == Some(id)
    ensures OrderedIds(h + [e], ids + [id], false)
  {
    IdsAppend(h, e, EventActivityScheduled);
    IdsAppend(h, e, EventActivityCompleted);
  }

  lemma OrdersNothing(h: seq<Event>, e: Event, ids: seq<TaskId>, done: bool)
    requires |ids| > 0 && OrderedIds(h, ids, done)
    requires e.typ != EventActivityScheduled && e.typ != EventActivityCompleted
    ensures OrderedIds(h + [e], ids, done)
  {
    IdsAppend(h, e, EventActivityScheduled);
    IdsAppend(h, e, EventActivityCompleted);
  }

  lemma PerformOrdered(fleet: Fleet, v: View, a: Act, now: Time)
    requires Shaped(fleet, v) && Ordered(v) && Possible(fleet, v, a, now)
    ensures Shaped(fleet, Perform(fleet, v, a, now)) && Ordered(Perform(fleet, v, a, now))
  {
    PerformShaped(fleet, v, a, now);
    var w, n := Perform(fleet, v, a, now), |v.history|;
    if a.Next? || a.Finish? || a.Bury? {
      OrderedTwo(fleet, v, a, now);
    } else if !(a.Stay? || a.Lease?) {
      LastNotCompleted(fleet, v, a, now);
      OrdersNothing(v.history, w.history[n], v.ids, false);
    }
  }

  lemma LastNotCompleted(fleet: Fleet, v: View, a: Act, now: Time)
    requires Shaped(fleet, v) && Possible(fleet, v, a, now) && !a.Stay?
    ensures v.rows[Top(v)].status != TaskCompleted
  {
  }

  lemma OrderedTwo(fleet: Fleet, v: View, a: Act, now: Time)
    requires |v.ids| == |v.rows| > 0 && Ordered(v) && Possible(fleet, v, a, now)
    requires a.Next? || a.Finish? || a.Bury?
    ensures var w := Perform(fleet, v, a, now); |w.ids| == |w.rows| > 0 && Ordered(w)
  {
    var w, h, n := Perform(fleet, v, a, now), v.history, |v.history|;
    var e1, e2 := w.history[n], w.history[n + 1];
    assert w.history == h + [e1] + [e2];
    if a.Bury? {
      OrdersNothing(h, e1, v.ids, false);
      OrdersNothing(h + [e1], e2, v.ids, false);
    } else {
      CompletesLast(h, e1, v.ids);
      if a.Next? {
        SchedulesNext(h + [e1], e2, v.ids, a.id);
      } else {
        OrdersNothing(h + [e1], e2, v.ids, true);
      }
    }
  }

  /** Every act keeps the invariant of the run. */
  lemma PerformGood(fleet: Fleet, v: View, a: Act, now: Time)
    requires Good(fleet, v, now) && Possible(fleet, v, a, now)
    ensures Good(fleet, Perform(fleet, v, a, now), now)
  {
    PerformTimed(fleet, v, a, now);
    PerformRecovers(fleet, v, a, now);
    PerformTallied(fleet, v, a, now);
    PerformOrdered(fleet, v, a, now);
  }

  lemma OpeningGood(fleet: Fleet, id: RunId, cmd: StartRunCmd, begun: Time, now: Time)
    requires WellFormedStart(fleet, cmd, begun)
    ensures Good(fleet, Opening(id, cmd, begun, now), now)
  {
    OpeningTimed(fleet, id, cmd, begun, now);
    OpeningTold(fleet, id, cmd, begun, now);
  }

  lemma OpeningTimed(fleet: Fleet, id: RunId, cmd: StartRunCmd, begun: Time, now: Time)
    requires WellFormedStart(fleet, cmd, begun)
    ensures var v := Opening(id, cmd, begun, now); Shaped(fleet, v) && Timed(fleet, v, now)
  {
    var steps := fleet.catalog.defs[cmd.workflowName].steps;
    assert TimerSum(steps, 1) == TimerSum(steps, 0) + if steps[0].timer > 0 then steps[0].timer else 0;
  }

  lemma OpeningTold(fleet: Fleet, id: RunId, cmd: StartRunCmd, begun: Time, now: Time)
    requires cmd.first.input == cmd.input
    ensures var v := Opening(id, cmd, begun, now); Recovers(Replay(v.history), v) && Tallied(v) && Ordered(v)
  {
    var v := Opening(id, cmd, begun, now);
    var e1, e2 := v.history[0], v.history[1];
    assert v.history == [] + [e1] + [e2];
    ReplayAppend([], e1);
    ReplayAppend([] + [e1], e2);
    forall t, typ ensures Count(v.history, typ, t) == if e2.typ == typ && e2.taskID == Some(t) then 1 else 0 {
      CountAppend([], e1, typ, t);
      CountAppend([] + [e1], e2, typ, t);
    }
    IdsAppend([], e1, EventActivityScheduled);
    IdsAppend([], e1, EventActivityCompleted);
    IdsAppend([] + [e1], e2, EventActivityScheduled);
    IdsAppend([] + [e1], e2, EventActivityCompleted);
  }

  lemma GoodLater(fleet: Fleet, v: View, now: Time, later: Time)
    requires Good(fleet, v, now) && now <= later
    ensures Good(fleet, v, later)
  {
  }

  // The columns no transaction updates.
  ghost predicate SameTask(t: Task, u: Task) {
    && t.runID == u.runID
    && t.stepIndex == u.stepIndex
    && t.activityName == u.activityName
    && t.kind == u.kind
    && t.input == u.input
    && t.maxAttempts == u.maxAttempts
    && t.createdAt == u.createdAt
  }

  /** What no act changes: the run's identity, its earlier tasks, and the history already written. */
  lemma PerformFrame(fleet: Fleet, v: View, a: Act, now: Time)
    requires Possible(fleet, v, a, now)
    ensures var w := Perform(fleet, v, a, now);
            && w.id == v.id && w.begun == v.begun
            && w.run.workflowName == v.run.workflowName && w.run.input == v.run.input
            && w.run.idempotencyKey == v.run.idempotencyKey
            && |v.rows| <= |w.rows| && Known(fleet, w)
            && v.ids <= w.ids
            && (forall i | 0 <= i < |v.rows| :: SameTask(v.rows[i], w.rows[i]) && v.grants[i] <= w.grants[i])
            && v.history <= w.history
  {
  }
}
