/** Fairness of the queue: how many leases can overtake a task that is already overdue. */
module Queue {
  import opened Options
  import opened Workflow
  import opened Store
  import opened Scheduling
  import opened RunView
  import opened Protocol
  import opened Simulation
  import opened Invariant
  import opened Guarantees
  import opened Fencing
  import opened Conservation

  // Tasks due no later than time a, other than t, that are waiting.
  ghost function Before(s: Sys, t: TaskId, a: Time): set<TaskId> {
    set u | u in s.db.tasks && u != t && s.db.tasks[u].status == TaskPending && s.db.tasks[u].availableAt <= a
  }

  // Hands leased no later than a: a stamp they take may still be that old.
  ghost function EarlyHands(s: Sys, a: Time): set<Worker> {
    set w | w in s.hands && s.hands[w].task.updatedAt <= a
  }

  // Starts in flight whose first task was stamped no later than a.
  ghost function EarlyCalls(s: Sys, a: Time): set<int> {
    set c | c in s.calls && s.calls[c].cmd.first.availableAt <= a
  }

  // How many leases can still come before t's.
  ghost function Overtakers(s: Sys, t: TaskId, a: Time): int {
    |Before(s, t, a)| + |EarlyHands(s, a)| + |EarlyCalls(s, a)|
  }

  ghost predicate Waiting(s: Sys, t: TaskId) {
    t in s.db.tasks && s.db.tasks[t].status == TaskPending
  }

  ghost predicate Overdue(s: Sys, t: TaskId, a: Time) {
    Waiting(s, t) && s.db.tasks[t].availableAt == a && a < s.db.now
  }

  // What a label adds to the queue ahead of t at most, and what it takes from it.
  ghost function Arrivals(l: Label): nat {
    if l.Reap? then |l.order| else 0
  }

  ghost function Departures(l: Label): nat {
    if l.LeaseNext? then 1 else 0
  }

  // Only a reclaim, or a command stamped no later than a, puts a task ahead of t.
  lemma NewBefore(fleet: Fleet, s: Sys, l: Label, t: TaskId, a: Time, u: TaskId)
    requires Sound(fleet) && Enabled(fleet, s, l) && Overdue(s, t, a)
    requires u in Before(Apply(fleet, s, l), t, a) && u !in Before(s, t, a)
    ensures (l.Reap? && u in l.order)
         || (l.Advance? && u == l.id && l.stamp <= a)
         || (l.Fail? && u == s.hands[l.worker].id && l.stamp <= a)
         || (l.CommitStart? && u == s.calls[l.call].cmd.first.id && s.calls[l.call].cmd.first.availableAt <= a)
  {
    if u in s.db.tasks {
      RowMoves(fleet, s, l, u);
      if l.Reap? {
        assert Expired(s.db, u) ==> u in l.order;
      } else if l.Fail? {
        FailedRow(fleet, s, l, u);
      } else if l.Advance? {
        if AdvanceTx(s.db, AdvanceCmdOf(fleet, s, l)).Commit? {
          AdvanceRow(s.db, AdvanceCmdOf(fleet, s, l), u);
        }
      }
    } else {
      NewTasksPending(fleet, s, l, u);
      NewTaskStamp(fleet, s, l, u);
    }
  }

  lemma FailedRow(fleet: Fleet, s: Sys, l: Label, u: TaskId)
    requires Enabled(fleet, s, l) && l.Fail? && u in s.db.tasks
    ensures var row' := Apply(fleet, s, l).db.tasks[u];
            row' == s.db.tasks[u] || (u == s.hands[l.worker].id && (row'.status == TaskDead || row'.availableAt == l.stamp + l.delay))
  {
  }

  lemma NewTaskStamp(fleet: Fleet, s: Sys, l: Label, u: TaskId)
    requires Enabled(fleet, s, l) && (l.Advance? || l.CommitStart?) && u !in s.db.tasks && u in Apply(fleet, s, l).db.tasks
    ensures l.Advance? ==> u == l.id && l.stamp <= Apply(fleet, s, l).db.tasks[u].availableAt
    ensures l.CommitStart? ==> u == s.calls[l.call].cmd.first.id
                               && Apply(fleet, s, l).db.tasks[u].availableAt == s.calls[l.call].cmd.first.availableAt
  {
    if l.Advance? {
      AdvanceNew(s.db, AdvanceCmdOf(fleet, s, l), u);
    }
  }

  lemma AdvanceNew(db: Tables, cmd: AdvanceCmd, u: TaskId)
    ensures AdvanceTx(db, cmd).Commit? && u !in db.tasks && u in AdvanceTx(db, cmd).tables.tasks
            ==> cmd.nextStep.Some? && u == cmd.nextStep.value.id
                && AdvanceTx(db, cmd).tables.tasks[u].availableAt == cmd.nextStep.value.availableAt
  {
  }

  // A label that adds a task, and the time its engine read when it built the task.
  ghost function StampOf(s: Sys, l: Label): Time
    requires l.CommitStart? ==> l.call in s.calls
  {
    match l
    case CommitStart(c) => s.calls[c].stamp
    case Advance(_, _, _, stamp) => stamp
    case _ => s.db.now
  }

  /** A new task is pending, untried, and due at once, or after its timer: at exactly that time. */
  lemma NewTaskDue(fleet: Fleet, s: Sys, l: Label, t: TaskId)
    requires Reachable(fleet, s) && Enabled(fleet, s, l) && t !in s.db.tasks && t in Apply(fleet, s, l).db.tasks
    ensures (l.Advance? || l.CommitStart?) && HasDefinition(fleet, Apply(fleet, s, l).db, t)
    ensures var row, step := Apply(fleet, s, l).db.tasks[t], StepOf(fleet, Apply(fleet, s, l).db, t);
            && row.status == TaskPending && row.attempt == 0
            && row.availableAt == StampOf(s, l) + if step.timer > 0 then step.timer else 0
  {
    NewTasksPending(fleet, s, l, t);
    ReachableStep(fleet, s, l);
    TaskIsItsStep(fleet, Apply(fleet, s, l), t);
    if l.Advance? {
      AdvanceDue(fleet, s, l, t);
    } else {
      ReachableInv(fleet, s);
      StartDue(fleet, s, l, t);
    }
  }

  // The row of a new task, built from a step that starts waiting at stamp.
  ghost predicate BuiltAt(fleet: Fleet, db: Tables, t: TaskId, stamp: Time)
    requires t in db.tasks
  {
    HasDefinition(fleet, db, t) ==>
      && db.tasks[t].status == TaskPending && db.tasks[t].attempt == 0
      && db.tasks[t].availableAt == stamp + if StepOf(fleet, db, t).timer > 0 then StepOf(fleet, db, t).timer else 0
  }

  lemma AdvanceDue(fleet: Fleet, s: Sys, l: Label, t: TaskId)
    requires Enabled(fleet, s, l) && l.Advance? && t !in s.db.tasks && t in Apply(fleet, s, l).db.tasks
    ensures BuiltAt(fleet, Apply(fleet, s, l).db, t, l.stamp)
  {
    var cmd := AdvanceCmdOf(fleet, s, l);
    assert AdvanceTx(s.db, cmd).Commit? && Apply(fleet, s, l).db == AdvanceTx(s.db, cmd).tables;
    AdvanceSchedules(s.db, cmd, t);
  }

  lemma StartDue(fleet: Fleet, s: Sys, l: Label, t: TaskId)
    requires Enabled(fleet, s, l) && l.CommitStart? && t !in s.db.tasks && t in Apply(fleet, s, l).db.tasks
    requires CallGood(fleet, s, l.call)
    ensures BuiltAt(fleet, Apply(fleet, s, l).db, t, s.calls[l.call].stamp)
  {
    StartSchedules(s.db, s.calls[l.call].cmd, t);
  }

  lemma AdvanceSchedules(db: Tables, cmd: AdvanceCmd, t: TaskId)
    requires AdvanceTx(db, cmd).Commit? && t !in db.tasks && t in AdvanceTx(db, cmd).tables.tasks
    ensures cmd.runID in db.runs && cmd.nextStep.Some? && t == cmd.nextStep.value.id
    ensures var db' := AdvanceTx(db, cmd).tables;
            && db'.tasks[t] == NewRow(cmd.runID, cmd.nextStep.value, db.now)
            && cmd.runID in db'.runs && db'.runs[cmd.runID].workflowName == db.runs[cmd.runID].workflowName
  {
  }

  lemma StartSchedules(db: Tables, cmd: StartRunCmd, t: TaskId)
    requires StartRunTx(db, cmd).Commit? && t !in db.tasks && t in StartRunTx(db, cmd).tables.tasks
    ensures var db' := StartRunTx(db, cmd).tables;
            && db'.tasks[t] == NewRow(cmd.runID, cmd.first, db.now)
            && cmd.runID in db'.runs && db'.runs[cmd.runID].workflowName == cmd.workflowName
  {
  }

  lemma HandsAfter(fleet: Fleet, s: Sys, l: Label, t: TaskId, a: Time)
    requires Enabled(fleet, s, l) && Overdue(s, t, a)
    ensures EarlyHands(Apply(fleet, s, l), a) <= EarlyHands(s, a)
    ensures (l.Advance? || l.Fail?) ==> l.worker !in EarlyHands(Apply(fleet, s, l), a)
  {
  }

  lemma CallsAfter(fleet: Fleet, s: Sys, l: Label, t: TaskId, a: Time)
    requires Sound(fleet) && Enabled(fleet, s, l) && Overdue(s, t, a)
    ensures EarlyCalls(Apply(fleet, s, l), a) <= EarlyCalls(s, a)
    ensures l.CommitStart? ==> l.call !in EarlyCalls(Apply(fleet, s, l), a)
  {
  }

  lemma Smaller<T>(a: set<T>, b: set<T>)
    requires a <= b
    ensures |a| <= |b|
  {
    if a != b {
      assert |b| == |a| + |b - a|;
    }
  }

  lemma SmallerWithout<T>(a: set<T>, b: set<T>, x: T)
    requires a <= b && x in b && x !in a
    ensures |a| + 1 <= |b|
  {
    Smaller(a, b - {x});
  }

  lemma SmallerBut<T>(a: set<T>, b: set<T>, x: T)
    requires a <= b + {x}
    ensures |a| <= |b| + 1
  {
    Smaller(a, b + {x});
  }

  ghost function Elements(xs: seq<TaskId>): set<TaskId> {
    set x | x in xs
  }

  lemma {:induction false} SmallerButThese(a: set<TaskId>, b: set<TaskId>, more: seq<TaskId>)
    requires a <= b + Elements(more)
    ensures |a| <= |b| + |more|
  {
    if |more| == 0 {
      Smaller(a, b);
    } else {
      var last := more[|more| - 1];
      assert more == more[..|more| - 1] + [last];
      assert Elements(more) == Elements(more[..|more| - 1]) + {last};
      SmallerButThese(a - {last}, b, more[..|more| - 1]);
      SmallerBut(a, a - {last}, last);
    }
  }

  // The task leased instead of t was ahead of it.
  lemma LeaseLeaves(fleet: Fleet, s: Sys, l: Label, t: TaskId, a: Time)
    requires Sound(fleet) && Enabled(fleet, s, l) && Overdue(s, t, a) && l.LeaseNext? && l.locked == {} && l.task != t
    ensures |Before(Apply(fleet, s, l), t, a)| + 1 <= |Before(s, t, a)|
  {
    assert Eligible(s.db, t);
    SmallerWithout(Before(Apply(fleet, s, l), t, a), Before(s, t, a), l.task);
  }

  lemma QueueStep(fleet: Fleet, s: Sys, l: Label, t: TaskId, a: Time)
    requires Sound(fleet) && Enabled(fleet, s, l) && Overdue(s, t, a) && Waiting(Apply(fleet, s, l), t)
    requires l.LeaseNext? ==> l.locked == {}
    ensures Overtakers(Apply(fleet, s, l), t, a) + Departures(l) <= Overtakers(s, t, a) + Arrivals(l)
    ensures Overdue(Apply(fleet, s, l), t, a)
  {
    var s' := Apply(fleet, s, l);
    RowMoves(fleet, s, l, t);
    ClockRuns(fleet, s, l);
    HandsAfter(fleet, s, l, t, a);
    CallsAfter(fleet, s, l, t, a);
    Smaller(EarlyHands(s', a), EarlyHands(s, a));
    Smaller(EarlyCalls(s', a), EarlyCalls(s, a));
    if l.LeaseNext? {
      LeaseLeaves(fleet, s, l, t, a);
    } else {
      QueueGrows(fleet, s, l, t, a);
    }
  }

  lemma QueueGrows(fleet: Fleet, s: Sys, l: Label, t: TaskId, a: Time)
    requires Sound(fleet) && Enabled(fleet, s, l) && Overdue(s, t, a) && !l.LeaseNext?
    requires EarlyHands(Apply(fleet, s, l), a) <= EarlyHands(s, a) && EarlyCalls(Apply(fleet, s, l), a) <= EarlyCalls(s, a)
    requires (l.Advance? || l.Fail?) ==> l.worker !in EarlyHands(Apply(fleet, s, l), a)
    requires l.CommitStart? ==> l.call !in EarlyCalls(Apply(fleet, s, l), a)
    ensures Overtakers(Apply(fleet, s, l), t, a) <= Overtakers(s, t, a) + Arrivals(l)
  {
    var s' := Apply(fleet, s, l);
    var b, b' := Before(s, t, a), Before(s', t, a);
    Smaller(EarlyHands(s', a), EarlyHands(s, a));
    Smaller(EarlyCalls(s', a), EarlyCalls(s, a));
    forall u | u in b' && u !in b
      ensures (l.Reap? && u in l.order)
           || (l.Advance? && u == l.id && l.stamp <= a)
           || (l.Fail? && u == s.hands[l.worker].id && l.stamp <= a)
           || (l.CommitStart? && u == s.calls[l.call].cmd.first.id && s.calls[l.call].cmd.first.availableAt <= a)
    {
      NewBefore(fleet, s, l, t, a, u);
    }
    if l.Reap? {
      SmallerButThese(b', b, l.order);
    } else if b' <= b {
      Smaller(b', b);
    } else if l.CommitStart? {
      SmallerBut(b', b, s.calls[l.call].cmd.first.id);
      SmallerWithout(EarlyCalls(s', a), EarlyCalls(s, a), l.call);
    } else {
      SmallerBut(b', b, if l.Advance? then l.id else s.hands[l.worker].id);
      SmallerWithout(EarlyHands(s', a), EarlyHands(s, a), l.worker);
    }
  }

  // t waits through the whole trace, and no lease passes over locked rows.
  ghost predicate WaitsThrough(fleet: Fleet, s: Sys, ls: seq<Label>, t: TaskId)
    requires Feasible(fleet, s, ls)
    decreases |ls|
  {
    && Waiting(s, t)
    && (|ls| > 0 ==>
         && (ls[0].LeaseNext? ==> ls[0].locked == {})
         && WaitsThrough(fleet, Apply(fleet, s, ls[0]), ls[1..], t))
  }

  ghost function LeasesIn(ls: seq<Label>): nat {
    if |ls| == 0 then 0 else Departures(ls[0]) + LeasesIn(ls[1..])
  }

  ghost function ReclaimedIn(ls: seq<Label>): nat {
    if |ls| == 0 then 0 else Arrivals(ls[0]) + ReclaimedIn(ls[1..])
  }

  /**
   Bounded overtaking: while a strictly overdue task keeps waiting, the leases granted are at most
   the tasks ahead of it, the commands in flight stamped before it was due, and the tasks reclaimed
   meanwhile. New work never overtakes it.
   */
  lemma {:induction false} OvertakingBounded(fleet: Fleet, s: Sys, ls: seq<Label>, t: TaskId)
    requires Sound(fleet) && Feasible(fleet, s, ls) && WaitsThrough(fleet, s, ls, t)
    requires s.db.tasks[t].availableAt < s.db.now
    ensures LeasesIn(ls) <= Overtakers(s, t, s.db.tasks[t].availableAt) + ReclaimedIn(ls)
    decreases |ls|
  {
    if |ls| > 0 {
      var a, s' := s.db.tasks[t].availableAt, Apply(fleet, s, ls[0]);
      QueueStep(fleet, s, ls[0], t, a);
      OvertakingBounded(fleet, s', ls[1..], t);
    }
  }
}
