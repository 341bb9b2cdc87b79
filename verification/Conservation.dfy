/** Counting across tables, and how long a lost lease can stay unnoticed. */
module Conservation {
  import opened Options
  import opened Workflow
  import opened Store
  import opened Scheduling
  import opened RunView
  import opened Protocol
  import opened Simulation
  import opened Invariant
  import opened Guarantees
  import opened Fencing

  // ----- sets of equal size -----

  ghost predicate MapsInto(f: map<int, int>, a: set<int>, b: set<int>) {
    && f.Keys == a
    && (forall x | x in a :: f[x] in b)
    && (forall x, y | x in a && y in a && f[x] == f[y] :: x == y)
  }

  lemma {:induction false} NoLarger(f: map<int, int>, a: set<int>, b: set<int>)
    requires MapsInto(f, a, b)
    ensures |a| <= |b|
    decreases |a|
  {
    if a != {} {
      var x := AnyOf(a);
      NoLarger(f - {x}, a - {x}, b - {f[x]});
    }
  }

  lemma EqualSize(f: map<int, int>, g: map<int, int>, a: set<int>, b: set<int>)
    requires MapsInto(f, a, b) && MapsInto(g, b, a)
    ensures |a| == |b|
  {
    NoLarger(f, a, b);
    NoLarger(g, b, a);
  }

  // ----- tasks and runs -----

  ghost function OpenTasks(db: Tables): set<TaskId> {
    TasksIn(db, TaskPending) + TasksIn(db, TaskLeased) + TasksIn(db, TaskDead)
  }

  ghost function OpenRuns(db: Tables): set<RunId> {
    RunsIn(db, RunRunning) + RunsIn(db, RunFailed)
  }

  ghost function LastOf(s: Sys, r: RunId): TaskId
    requires |IdsOf(s, r)| > 0
  {
    IdsOf(s, r)[|IdsOf(s, r)| - 1]
  }

  lemma OpenTaskHasOpenRun(fleet: Fleet, s: Sys, t: TaskId)
    requires Indexed(s) && RunsShaped(fleet, s) && t in OpenTasks(s.db)
    ensures s.db.tasks[t].runID in OpenRuns(s.db)
    ensures s.db.tasks[t].status == TaskDead ==> s.db.runs[s.db.tasks[t].runID].status == RunFailed
    ensures |IdsOf(s, s.db.tasks[t].runID)| > 0 && LastOf(s, s.db.tasks[t].runID) == t
  {
    OpenIsLast(fleet, s, t);
    TopConsistent(fleet, ViewOf(s, s.db.tasks[t].runID));
    OpenAtTop(fleet, s, t);
  }

  lemma OpenAtTop(fleet: Fleet, s: Sys, t: TaskId)
    requires Indexed(s) && AtTop(fleet, s, t) && t in OpenTasks(s.db)
    requires Consistent(s.db.runs[s.db.tasks[t].runID].status, s.db.tasks[t].status)
    ensures s.db.tasks[t].runID in OpenRuns(s.db)
    ensures s.db.tasks[t].status == TaskDead ==> s.db.runs[s.db.tasks[t].runID].status == RunFailed
    ensures |IdsOf(s, s.db.tasks[t].runID)| > 0 && LastOf(s, s.db.tasks[t].runID) == t
  {
  }

  lemma TopConsistent(fleet: Fleet, v: View)
    requires Shaped(fleet, v)
    ensures Consistent(v.run.status, v.rows[Top(v)].status)
  {
  }

  lemma OpenRunHasOpenTask(fleet: Fleet, s: Sys, r: RunId)
    requires Indexed(s) && RunsShaped(fleet, s) && r in OpenRuns(s.db)
    ensures |IdsOf(s, r)| > 0 && LastOf(s, r) in OpenTasks(s.db) && s.db.tasks[LastOf(s, r)].runID == r
  {
    var v := ViewOf(s, r);
    assert Shaped(fleet, v);
    assert Fits(fleet, v, Top(v));
  }

  /**
   Conservation: in every reachable state there are exactly as many pending, leased and dead tasks
   as running and failed runs, no more dead tasks than failed runs, and every run is counted once.
   */
  lemma StatsBalance(fleet: Fleet, s: Sys)
    requires Reachable(fleet, s)
    ensures var stats := GetStats(s.db);
            && stats.tasksPending + stats.tasksLeased + stats.tasksDead == stats.runsRunning + stats.runsFailed
            && stats.tasksDead <= stats.runsFailed
            && stats.runsRunning + stats.runsCompleted + stats.runsFailed + stats.runsCancelled == |s.db.runs|
  {
    ReachableInv(fleet, s);
    InvShaped(fleet, s);
    Balance(fleet, s);
    DeadAmongFailed(fleet, s);
    Disjoint(s.db);
    EveryRunOnce(s.db);
  }

  lemma EveryRunOnce(db: Tables)
    ensures |RunsIn(db, RunRunning)| + |RunsIn(db, RunCompleted)| + |RunsIn(db, RunFailed)| + |RunsIn(db, RunCancelled)| == |db.runs|
  {
    var open, final := RunsIn(db, RunRunning) + RunsIn(db, RunFailed), RunsIn(db, RunCompleted) + RunsIn(db, RunCancelled);
    assert RunsIn(db, RunRunning) !! RunsIn(db, RunFailed) && RunsIn(db, RunCompleted) !! RunsIn(db, RunCancelled);
    forall r | r in db.runs
      ensures r in open + final
    {
      var status := db.runs[r].status;
      assert status.RunRunning? || status.RunCompleted? || status.RunFailed? || status.RunCancelled?;
    }
    assert open !! final && db.runs.Keys == open + final;
  }

  lemma Disjoint(db: Tables)
    ensures |OpenTasks(db)| == |TasksIn(db, TaskPending)| + |TasksIn(db, TaskLeased)| + |TasksIn(db, TaskDead)|
    ensures |OpenRuns(db)| == |RunsIn(db, RunRunning)| + |RunsIn(db, RunFailed)|
  {
    assert TasksIn(db, TaskPending) !! TasksIn(db, TaskLeased);
    assert (TasksIn(db, TaskPending) + TasksIn(db, TaskLeased)) !! TasksIn(db, TaskDead);
    assert RunsIn(db, RunRunning) !! RunsIn(db, RunFailed);
  }

  lemma Balance(fleet: Fleet, s: Sys)
    requires Indexed(s) && RunsShaped(fleet, s)
    ensures |OpenTasks(s.db)| == |OpenRuns(s.db)|
  {
    TasksHaveRuns(fleet, s);
    RunsHaveTasks(fleet, s);
    Pairing(s, OpenTasks(s.db), OpenRuns(s.db));
  }

  lemma TasksHaveRuns(fleet: Fleet, s: Sys)
    requires Indexed(s) && RunsShaped(fleet, s)
    ensures forall t | t in OpenTasks(s.db) ::
              && s.db.tasks[t].runID in OpenRuns(s.db)
              && |IdsOf(s, s.db.tasks[t].runID)| > 0 && LastOf(s, s.db.tasks[t].runID) == t
  {
    forall t | t in OpenTasks(s.db)
      ensures s.db.tasks[t].runID in OpenRuns(s.db)
      ensures |IdsOf(s, s.db.tasks[t].runID)| > 0 && LastOf(s, s.db.tasks[t].runID) == t
    {
      OpenTaskHasOpenRun(fleet, s, t);
    }
  }

  lemma RunsHaveTasks(fleet: Fleet, s: Sys)
    requires Indexed(s) && RunsShaped(fleet, s)
    ensures forall r | r in OpenRuns(s.db) ::
              |IdsOf(s, r)| > 0 && LastOf(s, r) in OpenTasks(s.db) && s.db.tasks[LastOf(s, r)].runID == r
  {
    forall r | r in OpenRuns(s.db)
      ensures |IdsOf(s, r)| > 0 && LastOf(s, r) in OpenTasks(s.db) && s.db.tasks[LastOf(s, r)].runID == r
    {
      OpenRunHasOpenTask(fleet, s, r);
    }
  }

  lemma Pairing(s: Sys, tasks: set<TaskId>, runs: set<RunId>)
    requires forall t | t in tasks :: t in s.db.tasks && s.db.tasks[t].runID in runs
    requires forall t | t in tasks :: |IdsOf(s, s.db.tasks[t].runID)| > 0 && LastOf(s, s.db.tasks[t].runID) == t
    requires forall r | r in runs :: |IdsOf(s, r)| > 0 && LastOf(s, r) in tasks && s.db.tasks[LastOf(s, r)].runID == r
    ensures |tasks| == |runs|
  {
    EqualSize(map t | t in tasks :: s.db.tasks[t].runID, map r | r in runs :: LastOf(s, r), tasks, runs);
  }

  lemma DeadAmongFailed(fleet: Fleet, s: Sys)
    requires Indexed(s) && RunsShaped(fleet, s)
    ensures |TasksIn(s.db, TaskDead)| <= |RunsIn(s.db, RunFailed)|
  {
    var f := map t | t in TasksIn(s.db, TaskDead) :: s.db.tasks[t].runID;
    forall t | t in TasksIn(s.db, TaskDead)
      ensures f[t] in RunsIn(s.db, RunFailed) && |IdsOf(s, f[t])| > 0 && LastOf(s, f[t]) == t
    {
      OpenTaskHasOpenRun(fleet, s, t);
    }
    NoLarger(f, TasksIn(s.db, TaskDead), RunsIn(s.db, RunFailed));
  }

  // ----- timed recovery -----

  // Along the trace the clock never gets more than ReapInterval past the last reap.
  ghost predicate ReapsPromptly(fleet: Fleet, s: Sys, last: Time, ls: seq<Label>)
    requires Feasible(fleet, s, ls)
    decreases |ls|
  {
    |ls| == 0 ||
    ((ls[0].Tick? ==> ls[0].to <= last + fleet.cfg.reapInterval)
     && ReapsPromptly(fleet, Apply(fleet, s, ls[0]), if ls[0].Reap? then s.db.now else last, ls[1..]))
  }

  // No lease had run out at the last reap.
  ghost predicate Fresh(s: Sys, last: Time) {
    && last <= s.db.now
    && forall t | t in s.db.tasks && s.db.tasks[t].status == TaskLeased ::
         s.db.tasks[t].leaseExpires.Some? && last <= s.db.tasks[t].leaseExpires.value
  }

  lemma LeasedRows(fleet: Fleet, s: Sys, t: TaskId)
    requires Inv(fleet, s) && t in s.db.tasks && s.db.tasks[t].status == TaskLeased
    ensures s.db.tasks[t].leaseExpires == Some(s.db.tasks[t].updatedAt + fleet.cfg.leaseDuration)
    ensures s.db.tasks[t].updatedAt <= s.db.now
  {
    InvShaped(fleet, s);
    OpenIsLast(fleet, s, t);
    LeasedTop(fleet, s, t);
  }

  lemma LeasedTop(fleet: Fleet, s: Sys, t: TaskId)
    requires Indexed(s) && AtTop(fleet, s, t) && s.db.tasks[t].status == TaskLeased
    requires Timed(fleet, ViewOf(s, s.db.tasks[t].runID), s.db.now)
    ensures s.db.tasks[t].leaseExpires == Some(s.db.tasks[t].updatedAt + fleet.cfg.leaseDuration)
    ensures s.db.tasks[t].updatedAt <= s.db.now
  {
  }

  // A row leased after a label was leased before it, or by it.
  lemma LeasedBefore(fleet: Fleet, s: Sys, l: Label, t: TaskId)
    requires Enabled(fleet, s, l) && t in Apply(fleet, s, l).db.tasks && Apply(fleet, s, l).db.tasks[t].status == TaskLeased
    ensures (t in s.db.tasks && s.db.tasks[t] == Apply(fleet, s, l).db.tasks[t] && (l.Reap? ==> !Expired(s.db, t)))
            || (l.LeaseNext? && l.task == t
                && Apply(fleet, s, l).db.tasks[t].leaseExpires == Some(s.db.now + fleet.cfg.leaseDuration))
  {
    if t in s.db.tasks {
      RowMoves(fleet, s, l, t);
    } else {
      NewTasksPending(fleet, s, l, t);
    }
  }

  lemma NewTasksPending(fleet: Fleet, s: Sys, l: Label, t: TaskId)
    requires Enabled(fleet, s, l) && t !in s.db.tasks && t in Apply(fleet, s, l).db.tasks
    ensures l.Advance? || l.CommitStart?
    ensures Apply(fleet, s, l).db.tasks[t].status == TaskPending
  {
    if l.Advance? {
      AdvanceRows(s.db, AdvanceCmdOf(fleet, s, l));
    }
  }

  lemma AdvanceRows(db: Tables, cmd: AdvanceCmd)
    ensures AdvanceTx(db, cmd).Commit? ==>
              forall t | t in AdvanceTx(db, cmd).tables.tasks && t !in db.tasks ::
                AdvanceTx(db, cmd).tables.tasks[t].status == TaskPending
  {
  }

  lemma FreshStep(fleet: Fleet, s: Sys, l: Label, last: Time)
    requires Sound(fleet) && Enabled(fleet, s, l) && Fresh(s, last)
    ensures Fresh(Apply(fleet, s, l), if l.Reap? then s.db.now else last)
  {
    ClockRuns(fleet, s, l);
    forall t | t in Apply(fleet, s, l).db.tasks && Apply(fleet, s, l).db.tasks[t].status == TaskLeased
      ensures Apply(fleet, s, l).db.tasks[t].leaseExpires.Some?
      ensures (if l.Reap? then s.db.now else last) <= Apply(fleet, s, l).db.tasks[t].leaseExpires.value
    {
      LeasedBefore(fleet, s, l, t);
    }
  }

  lemma {:induction false} FreshTrace(fleet: Fleet, s: Sys, ls: seq<Label>, last: Time) returns (newLast: Time)
    requires Sound(fleet) && Feasible(fleet, s, ls) && Fresh(s, last) && s.db.now <= last + fleet.cfg.reapInterval
    requires ReapsPromptly(fleet, s, last, ls)
    ensures Fresh(End(fleet, s, ls), newLast) && End(fleet, s, ls).db.now <= newLast + fleet.cfg.reapInterval
    decreases |ls|
  {
    newLast := last;
    if |ls| > 0 {
      FreshStep(fleet, s, ls[0], last);
      ClockRuns(fleet, s, ls[0]);
      newLast := FreshTrace(fleet, Apply(fleet, s, ls[0]), ls[1..], if ls[0].Reap? then s.db.now else last);
    }
  }

  /**
   Recovery time: while reaps are at most ReapInterval apart, a row is never still leased later than
   its lease time plus LeaseDuration plus ReapInterval.
   */
  lemma RecoveryTime(fleet: Fleet, now: Time, ls: seq<Label>, s: Sys, t: TaskId)
    requires Sound(fleet) && Reaches(fleet, now, ls, s) && ReapsPromptly(fleet, Initial(now), now, ls)
    requires t in s.db.tasks && s.db.tasks[t].status == TaskLeased
    ensures s.db.now <= s.db.tasks[t].updatedAt + fleet.cfg.leaseDuration + fleet.cfg.reapInterval
  {
    var last := FreshTrace(fleet, Initial(now), ls, now);
    InvInitial(fleet, now);
    InvTrace(fleet, Initial(now), ls);
    LeasedRows(fleet, s, t);
  }
}
