/** Simulates: every label mirrors an act on every run. InvStep: every label keeps the invariant. */
module Invariant {
  import opened Options
  import opened Workflow
  import opened Store
  import opened History
  import opened Scheduling
  import opened RunView
  import opened Protocol
  import opened Simulation
  import Backoff

  lemma InvShaped(fleet: Fleet, s: Sys)
    requires Inv(fleet, s)
    ensures RunsShaped(fleet, s)
  {
    forall r | r in s.db.runs
      ensures Shaped(fleet, ViewOf(s, r)) && Timed(fleet, ViewOf(s, r), s.db.now)
    {
      assert Good(fleet, ViewOf(s, r), s.db.now);
    }
  }

  ghost predicate RunsKnown(fleet: Fleet, s: Sys)
    requires Indexed(s)
  {
    forall r | r in s.db.runs :: Known(fleet, ViewOf(s, r))
  }

  lemma ShapedKnown(fleet: Fleet, s: Sys)
    requires Indexed(s) && RunsShaped(fleet, s)
    ensures RunsKnown(fleet, s)
  {
    forall r | r in s.db.runs
      ensures Known(fleet, ViewOf(s, r))
    {
      assert Shaped(fleet, ViewOf(s, r));
    }
  }

  // A label that leaves run r, its tasks and its history alone.
  lemma StayMirrors(fleet: Fleet, s: Sys, l: Label, r: RunId)
    requires Indexed(s) && Enabled(fleet, s, l) && r in s.db.runs && Known(fleet, ViewOf(s, r))
    requires ActOf(fleet, s, l, r).Stay?
    requires Covered(Apply(fleet, s, l), r) && ViewOf(Apply(fleet, s, l), r) == ViewOf(s, r)
    ensures Mirrors(fleet, s, l, r)
  {
  }

  lemma QuietMirrors(fleet: Fleet, s: Sys, l: Label, r: RunId)
    requires Indexed(s) && RunsKnown(fleet, s) && Enabled(fleet, s, l) && r in s.db.runs
    requires l.BeginStart? || l.DropStart? || l.Drop? || l.Tick?
    ensures Mirrors(fleet, s, l, r)
  {
    SameView(s, Apply(fleet, s, l), r);
    StayMirrors(fleet, s, l, r);
  }

  lemma LeaseMirrors(fleet: Fleet, s: Sys, l: Label, r: RunId)
    requires Indexed(s) && Enabled(fleet, s, l) && r in s.db.runs && Known(fleet, ViewOf(s, r))
    requires l.LeaseNext? && AtTop(fleet, s, l.task)
    ensures Mirrors(fleet, s, l, r)
  {
    if s.db.tasks[l.task].runID == r {
      LeaseOwn(fleet, s, l.worker, l.task);
    } else {
      LeaseOther(fleet, s, l.worker, l.task, r);
      StayMirrors(fleet, s, l, r);
    }
  }

  lemma ReapMirrors(fleet: Fleet, s: Sys, l: Label, r: RunId)
    requires Indexed(s) && RunsShaped(fleet, s) && Enabled(fleet, s, l) && r in s.db.runs
    requires l.Reap?
    ensures Mirrors(fleet, s, l, r)
  {
    ReapsLast(fleet, s, r);
    ReapView(fleet, s, Apply(fleet, s, l), l.order, r);
  }

  lemma ReplayMirrors(fleet: Fleet, s: Sys, l: Label, r: RunId)
    requires Indexed(s) && RunsKnown(fleet, s) && Enabled(fleet, s, l) && r in s.db.runs
    requires l.ReplayDead? && AtTop(fleet, s, l.task)
    ensures Mirrors(fleet, s, l, r)
  {
    ReviveView(fleet, s, Apply(fleet, s, l), l.task);
    if s.db.tasks[l.task].runID != r {
      StayMirrors(fleet, s, l, r);
    }
  }

  lemma CancelMirrors(fleet: Fleet, s: Sys, l: Label, r: RunId)
    requires Indexed(s) && RunsShaped(fleet, s) && Enabled(fleet, s, l) && r in s.db.runs
    requires l.CancelRun?
    ensures Mirrors(fleet, s, l, r)
  {
    ShapedKnown(fleet, s);
    if s.db.runs[l.run].status == RunRunning {
      CancelView(fleet, s, Apply(fleet, s, l), l.run);
      if l.run != r {
        StayMirrors(fleet, s, l, r);
      }
    } else {
      SameView(s, Apply(fleet, s, l), r);
      StayMirrors(fleet, s, l, r);
    }
  }

  // A commit the fence or a constraint turns away changes no run.
  lemma MissMirrors(fleet: Fleet, s: Sys, l: Label, r: RunId)
    requires Indexed(s) && Enabled(fleet, s, l) && r in s.db.runs && Known(fleet, ViewOf(s, r))
    requires (l.Advance? || l.Fail?) && !Lands(fleet, s, l)
    ensures Apply(fleet, s, l).db == s.db
    ensures Mirrors(fleet, s, l, r)
  {
    SameView(s, Apply(fleet, s, l), r);
    StayMirrors(fleet, s, l, r);
  }

  lemma BuryMirrors(fleet: Fleet, s: Sys, l: Label, r: RunId)
    requires Indexed(s) && RunsKnown(fleet, s) && Enabled(fleet, s, l) && r in s.db.runs
    requires l.Fail? && Lands(fleet, s, l) && OnTop(fleet, s, l.worker)
    requires s.hands[l.worker].task.attempt >= s.hands[l.worker].task.maxAttempts
    ensures Mirrors(fleet, s, l, r)
  {
    var h := s.hands[l.worker];
    BuryView(fleet, s, Apply(fleet, s, l), DeadLetterCmdFor(h.task, h.id, fleet.owner(l.worker), l.msg));
    if h.task.runID != r {
      StayMirrors(fleet, s, l, r);
    }
  }

  lemma RetryPossible(fleet: Fleet, s: Sys, w: Worker, at: Time, msg: string)
    requires Indexed(s) && w in s.hands && OnTop(fleet, s, w) && Fenced(s.db, s.hands[w].id, fleet.owner(w))
    requires s.hands[w].task.updatedAt <= at
    ensures Possible(fleet, ViewOf(s, s.hands[w].task.runID), Act.Retry(at, msg), s.db.now)
  {
  }

  lemma RetryMirrors(fleet: Fleet, s: Sys, l: Label, r: RunId)
    requires Indexed(s) && Enabled(fleet, s, l) && r in s.db.runs && Known(fleet, ViewOf(s, r))
    requires l.Fail? && Lands(fleet, s, l) && OnTop(fleet, s, l.worker)
    requires s.hands[l.worker].task.attempt < s.hands[l.worker].task.maxAttempts
    ensures Mirrors(fleet, s, l, r)
  {
    RetryPossible(fleet, s, l.worker, l.stamp + l.delay, l.msg);
    if s.hands[l.worker].task.runID == r {
      RetryOwn(fleet, s, l);
    } else {
      RetryOther(fleet, s, l, r);
      StayMirrors(fleet, s, l, r);
    }
  }

  lemma RetryOwn(fleet: Fleet, s: Sys, l: Label)
    requires Indexed(s) && Enabled(fleet, s, l) && l.Fail? && Lands(fleet, s, l) && OnTop(fleet, s, l.worker)
    requires s.hands[l.worker].task.attempt < s.hands[l.worker].task.maxAttempts
    requires Possible(fleet, ViewOf(s, s.hands[l.worker].task.runID), Act.Retry(l.stamp + l.delay, l.msg), s.db.now)
    ensures Mirrors(fleet, s, l, s.hands[l.worker].task.runID)
  {
    var h := s.hands[l.worker];
    RetryView(fleet, s, Apply(fleet, s, l), RetryCmdFor(h.task, h.id, fleet.owner(l.worker), l.msg, l.stamp + l.delay));
  }

  lemma RetryOther(fleet: Fleet, s: Sys, l: Label, r: RunId)
    requires Indexed(s) && Enabled(fleet, s, l) && l.Fail? && Lands(fleet, s, l) && OnTop(fleet, s, l.worker)
    requires s.hands[l.worker].task.attempt < s.hands[l.worker].task.maxAttempts
    requires Possible(fleet, ViewOf(s, s.hands[l.worker].task.runID), Act.Retry(l.stamp + l.delay, l.msg), s.db.now)
    requires r in s.db.runs && r != s.hands[l.worker].task.runID
    ensures Covered(Apply(fleet, s, l), r) && ViewOf(Apply(fleet, s, l), r) == ViewOf(s, r)
  {
    var h := s.hands[l.worker];
    RetryView(fleet, s, Apply(fleet, s, l), RetryCmdFor(h.task, h.id, fleet.owner(l.worker), l.msg, l.stamp + l.delay));
  }

  lemma FinishMirrors(fleet: Fleet, s: Sys, l: Label, r: RunId)
    requires Indexed(s) && RunsKnown(fleet, s) && Enabled(fleet, s, l) && r in s.db.runs
    requires l.Advance? && Lands(fleet, s, l) && OnTop(fleet, s, l.worker)
    requires AdvanceCmdOf(fleet, s, l).nextStep == None
    ensures Mirrors(fleet, s, l, r)
  {
    FinishView(fleet, s, Apply(fleet, s, l), AdvanceCmdOf(fleet, s, l));
    if s.hands[l.worker].task.runID != r {
      StayMirrors(fleet, s, l, r);
    }
  }

  // What an Advance that schedules the next step carries, and the act it is.
  lemma NextLands(fleet: Fleet, s: Sys, l: Label)
    requires Indexed(s) && RunsKnown(fleet, s) && Enabled(fleet, s, l)
    requires l.Advance? && Lands(fleet, s, l) && OnTop(fleet, s, l.worker)
    requires AdvanceCmdOf(fleet, s, l).nextStep.Some?
    ensures var cmd, q, a := AdvanceCmdOf(fleet, s, l), s.hands[l.worker].task.runID, Next(l.result, l.id, l.stamp);
            && Possible(fleet, ViewOf(s, q), a, s.db.now)
            && Scheduled(s, Apply(fleet, s, l), cmd, NextTask(fleet, ViewOf(s, q), a))
            && cmd.nextStep == Some(NextTask(fleet, ViewOf(s, q), a))
  {
    var q := s.hands[l.worker].task.runID;
    assert Covered(s, q);
    assert forall i | 0 <= i < |IdsOf(s, q)| :: IdsOf(s, q)[i] in s.db.tasks;
  }

  lemma NextMirrors(fleet: Fleet, s: Sys, l: Label, r: RunId)
    requires Indexed(s) && RunsKnown(fleet, s) && Enabled(fleet, s, l) && r in s.db.runs
    requires l.Advance? && Lands(fleet, s, l) && OnTop(fleet, s, l.worker)
    requires AdvanceCmdOf(fleet, s, l).nextStep.Some?
    ensures Mirrors(fleet, s, l, r)
    ensures IdsOf(Apply(fleet, s, l), r) == if r == s.hands[l.worker].task.runID then IdsOf(s, r) + [l.id] else IdsOf(s, r)
  {
    NextLands(fleet, s, l);
    var cmd, q := AdvanceCmdOf(fleet, s, l), s.hands[l.worker].task.runID;
    if q == r {
      NextView(fleet, s, Apply(fleet, s, l), cmd, Next(l.result, l.id, l.stamp));
    } else {
      NextOthers(s, Apply(fleet, s, l), cmd, cmd.nextStep.value, r);
      StayMirrors(fleet, s, l, r);
    }
  }

  lemma StartMirrors(fleet: Fleet, s: Sys, l: Label, r: RunId)
    requires Indexed(s) && RunsKnown(fleet, s) && Enabled(fleet, s, l) && r in s.db.runs
    requires l.CommitStart?
    ensures Mirrors(fleet, s, l, r)
  {
    StartOthers(s, l.call, r);
    StayMirrors(fleet, s, l, r);
  }

  /** Whatever the label, on every existing run it is the act ActOf names, and that act was possible. */
  lemma Simulates(fleet: Fleet, s: Sys, l: Label, r: RunId)
    requires Inv(fleet, s) && Enabled(fleet, s, l) && r in s.db.runs
    ensures Mirrors(fleet, s, l, r)
  {
    InvShaped(fleet, s);
    ShapedKnown(fleet, s);
    if l.Advance? || l.Fail? {
      LandedOnTop(fleet, s, l);
      CommitSimulates(fleet, s, l, r);
    } else {
      OpensOnTop(fleet, s, l);
      RestSimulates(fleet, s, l, r);
    }
  }

  lemma LandedOnTop(fleet: Fleet, s: Sys, l: Label)
    requires Indexed(s) && RunsShaped(fleet, s) && Enabled(fleet, s, l) && (l.Advance? || l.Fail?)
    requires HandGood(fleet, s, l.worker)
    ensures Lands(fleet, s, l) ==> OnTop(fleet, s, l.worker)
  {
    if Lands(fleet, s, l) {
      LandsOn(fleet, s, l.worker);
    }
  }

  lemma OpensOnTop(fleet: Fleet, s: Sys, l: Label)
    requires Indexed(s) && RunsShaped(fleet, s) && Enabled(fleet, s, l)
    ensures l.LeaseNext? || l.ReplayDead? ==> AtTop(fleet, s, l.task)
  {
    if l.LeaseNext? || l.ReplayDead? {
      OpenIsLast(fleet, s, l.task);
    }
  }

  lemma CommitSimulates(fleet: Fleet, s: Sys, l: Label, r: RunId)
    requires Indexed(s) && RunsKnown(fleet, s) && Enabled(fleet, s, l) && r in s.db.runs
    requires (l.Advance? || l.Fail?) && (Lands(fleet, s, l) ==> OnTop(fleet, s, l.worker))
    ensures Mirrors(fleet, s, l, r)
  {
    if !Lands(fleet, s, l) {
      MissMirrors(fleet, s, l, r);
    } else if l.Fail? {
      if s.hands[l.worker].task.attempt >= s.hands[l.worker].task.maxAttempts {
        BuryMirrors(fleet, s, l, r);
      } else {
        RetryMirrors(fleet, s, l, r);
      }
    } else if AdvanceCmdOf(fleet, s, l).nextStep == None {
      FinishMirrors(fleet, s, l, r);
    } else {
      NextMirrors(fleet, s, l, r);
    }
  }

  lemma RestSimulates(fleet: Fleet, s: Sys, l: Label, r: RunId)
    requires Indexed(s) && RunsShaped(fleet, s) && RunsKnown(fleet, s) && Enabled(fleet, s, l) && r in s.db.runs
    requires !l.Advance? && !l.Fail? && (l.LeaseNext? || l.ReplayDead? ==> AtTop(fleet, s, l.task))
    ensures Mirrors(fleet, s, l, r)
  {
    match l
    case CommitStart(_) => StartMirrors(fleet, s, l, r);
    case LeaseNext(_, _, _) => LeaseMirrors(fleet, s, l, r);
    case Reap(_) => ReapMirrors(fleet, s, l, r);
    case ReplayDead(_) => ReplayMirrors(fleet, s, l, r);
    case CancelRun(_) => CancelMirrors(fleet, s, l, r);
    case _ => QuietMirrors(fleet, s, l, r);
  }

  // ----- the histories keep listing the tasks -----

  // Labels that schedule nothing keep every task in its run, at its step.
  ghost predicate KeepsTasks(db: Tables, db': Tables) {
    && db'.runs.Keys == db.runs.Keys && db'.tasks.Keys == db.tasks.Keys
    && (forall t | t in db.tasks :: db'.tasks[t].runID == db.tasks[t].runID && db'.tasks[t].stepIndex == db.tasks[t].stepIndex)
  }

  lemma FailKeeps(fleet: Fleet, db: Tables, h: Hand, owner: string, msg: string, delay: Time, stamp: Time)
    ensures var r := FailTx(fleet, db, h, owner, msg, delay, stamp);
            r.Commit? ==> KeepsTasks(db, r.tables)
  {
  }

  lemma ReapKeeps(db: Tables, order: seq<TaskId>)
    requires ReapOrder(db, order)
    ensures KeepsTasks(db, ReapTx(db, order))
  {
  }

  lemma CancelKeeps(db: Tables, r: RunId)
    requires r in db.runs
    ensures KeepsTasks(db, CancelTx(db, r).value)
  {
  }

  lemma TasksKept(fleet: Fleet, s: Sys, l: Label)
    requires Enabled(fleet, s, l)
    requires !l.CommitStart? && !l.Advance?
    ensures var s' := Apply(fleet, s, l);
            KeepsTasks(s.db, s'.db) && s.begun.Keys <= s'.begun.Keys && s.leases.Keys <= s'.leases.Keys
  {
    match l
    case Fail(w, msg, delay, stamp) => FailKeeps(fleet, s.db, s.hands[w], fleet.owner(w), msg, delay, stamp);
    case Reap(order) => ReapKeeps(s.db, order);
    case CancelRun(r) => CancelKeeps(s.db, r);
    case _ =>
  }

  lemma EventsKept(fleet: Fleet, s: Sys, l: Label)
    requires Indexed(s) && Enabled(fleet, s, l)
    requires !l.CommitStart? && !l.Advance?
    ensures forall i | 0 <= i < |Apply(fleet, s, l).db.events| :: Apply(fleet, s, l).db.events[i].runID in s.db.runs
  {
    if l.Reap? {
      forall i | 0 <= i < |l.order|
        ensures s.db.tasks[l.order[i]].runID in s.db.runs
      {
        assert Expired(s.db, l.order[i]) && Listed(s, l.order[i]);
      }
    } else if l.ReplayDead? {
      assert Listed(s, l.task);
    }
  }

  lemma PerformKeepsIds(fleet: Fleet, v: View, a: Act, now: Time)
    requires Possible(fleet, v, a, now) && !a.Next?
    ensures Perform(fleet, v, a, now).ids == v.ids
  {
  }

  lemma SameIds(fleet: Fleet, s: Sys, l: Label, r: RunId)
    requires Indexed(s) && Enabled(fleet, s, l) && r in s.db.runs && Mirrors(fleet, s, l, r)
    requires !ActOf(fleet, s, l, r).Next?
    ensures IdsOf(Apply(fleet, s, l), r) == IdsOf(s, r)
  {
    PerformKeepsIds(fleet, ViewOf(s, r), ActOf(fleet, s, l, r), s.db.now);
  }

  lemma PlainIndexed(fleet: Fleet, s: Sys, l: Label)
    requires Indexed(s) && Enabled(fleet, s, l) && !l.CommitStart? && !l.Advance?
    requires forall r | r in s.db.runs :: IdsOf(Apply(fleet, s, l), r) == IdsOf(s, r)
    ensures Indexed(Apply(fleet, s, l))
  {
    TasksKept(fleet, s, l);
    EventsKept(fleet, s, l);
    IndexedKept(s, Apply(fleet, s, l));
  }

  lemma NextStepIndexed(fleet: Fleet, s: Sys, l: Label)
    requires Indexed(s) && RunsKnown(fleet, s) && Enabled(fleet, s, l)
    requires l.Advance? && Lands(fleet, s, l) && OnTop(fleet, s, l.worker)
    requires AdvanceCmdOf(fleet, s, l).nextStep.Some?
    ensures Indexed(Apply(fleet, s, l))
  {
    NextLands(fleet, s, l);
    forall r | r in s.db.runs
      ensures IdsOf(Apply(fleet, s, l), r) == if r == s.hands[l.worker].task.runID then IdsOf(s, r) + [l.id] else IdsOf(s, r)
    {
      NextMirrors(fleet, s, l, r);
    }
    NextIndexed(fleet, s, Apply(fleet, s, l), AdvanceCmdOf(fleet, s, l), AdvanceCmdOf(fleet, s, l).nextStep.value);
  }

  lemma AdvanceKeeps(db: Tables, cmd: AdvanceCmd)
    requires forall i | 0 <= i < |db.events| :: db.events[i].runID in db.runs
    ensures AdvanceTx(db, cmd).Commit? && (Fenced(db, cmd.taskID, cmd.owner) ==> cmd.nextStep == None)
            ==> && KeepsTasks(db, AdvanceTx(db, cmd).tables)
                && forall i | 0 <= i < |AdvanceTx(db, cmd).tables.events| :: AdvanceTx(db, cmd).tables.events[i].runID in db.runs
  {
  }

  lemma LastStepIndexed(fleet: Fleet, s: Sys, l: Label)
    requires Indexed(s) && Enabled(fleet, s, l) && l.Advance?
    requires Lands(fleet, s, l) ==> AdvanceCmdOf(fleet, s, l).nextStep == None
    requires forall r | r in s.db.runs :: IdsOf(Apply(fleet, s, l), r) == IdsOf(s, r)
    ensures Indexed(Apply(fleet, s, l))
  {
    AdvanceKeeps(s.db, AdvanceCmdOf(fleet, s, l));
    IndexedKept(s, Apply(fleet, s, l));
  }

  lemma StartStepIndexed(fleet: Fleet, s: Sys, l: Label)
    requires Indexed(s) && Enabled(fleet, s, l) && l.CommitStart? && CallGood(fleet, s, l.call)
    ensures Indexed(Apply(fleet, s, l))
  {
    if Creates(s, l.call) {
      StartView(fleet, s, l.call);
    }
    forall r | r in s.db.runs
      ensures IdsOf(Started(s, l.call), r) == IdsOf(s, r)
    {
      StartOthers(s, l.call, r);
    }
    StartIndexed(s, l.call);
  }

  lemma IdsStay(fleet: Fleet, s: Sys, l: Label)
    requires Indexed(s) && Enabled(fleet, s, l)
    requires forall r | r in s.db.runs :: Mirrors(fleet, s, l, r)
    requires forall r | r in s.db.runs :: !ActOf(fleet, s, l, r).Next?
    ensures forall r | r in s.db.runs :: IdsOf(Apply(fleet, s, l), r) == IdsOf(s, r)
  {
    forall r | r in s.db.runs
      ensures IdsOf(Apply(fleet, s, l), r) == IdsOf(s, r)
    {
      SameIds(fleet, s, l, r);
    }
  }

  lemma AdvanceStepIndexed(fleet: Fleet, s: Sys, l: Label)
    requires Indexed(s) && RunsKnown(fleet, s) && Enabled(fleet, s, l) && l.Advance?
    requires Lands(fleet, s, l) ==> OnTop(fleet, s, l.worker)
    requires forall r | r in s.db.runs :: Mirrors(fleet, s, l, r)
    ensures Indexed(Apply(fleet, s, l))
  {
    if Lands(fleet, s, l) && AdvanceCmdOf(fleet, s, l).nextStep.Some? {
      NextStepIndexed(fleet, s, l);
    } else {
      IdsStay(fleet, s, l);
      LastStepIndexed(fleet, s, l);
    }
  }

  lemma OtherStepIndexed(fleet: Fleet, s: Sys, l: Label)
    requires Indexed(s) && Enabled(fleet, s, l) && !l.CommitStart? && !l.Advance?
    requires forall r | r in s.db.runs :: Mirrors(fleet, s, l, r)
    ensures Indexed(Apply(fleet, s, l))
  {
    IdsStay(fleet, s, l);
    PlainIndexed(fleet, s, l);
  }

  lemma AllMirror(fleet: Fleet, s: Sys, l: Label)
    requires Inv(fleet, s) && Enabled(fleet, s, l)
    ensures forall r | r in s.db.runs :: Mirrors(fleet, s, l, r)
    ensures (l.Advance? || l.Fail?) && Lands(fleet, s, l) ==> OnTop(fleet, s, l.worker)
  {
    forall r | r in s.db.runs
      ensures Mirrors(fleet, s, l, r)
    {
      Simulates(fleet, s, l, r);
    }
    if (l.Advance? || l.Fail?) && Lands(fleet, s, l) {
      InvShaped(fleet, s);
      LandsOn(fleet, s, l.worker);
    }
  }

  lemma StepIndexed(fleet: Fleet, s: Sys, l: Label)
    requires Inv(fleet, s) && Enabled(fleet, s, l)
    ensures Indexed(Apply(fleet, s, l))
  {
    AllMirror(fleet, s, l);
    if l.CommitStart? {
      assert CallGood(fleet, s, l.call);
      StartStepIndexed(fleet, s, l);
    } else if l.Advance? {
      InvShaped(fleet, s);
      ShapedKnown(fleet, s);
      AdvanceStepIndexed(fleet, s, l);
    } else {
      OtherStepIndexed(fleet, s, l);
    }
  }

  // ----- the invariant is inductive -----

  // Where a listed task is found in its run's view.
  lemma InView(s: Sys, t: TaskId)
    requires Indexed(s) && t in s.db.tasks
    ensures var row := s.db.tasks[t];
            && row.runID in s.db.runs
            && var v := ViewOf(s, row.runID);
               && 0 <= row.stepIndex < |v.rows| == |v.ids| == |v.grants|
               && v.ids[row.stepIndex] == t
               && v.rows[row.stepIndex] == row
               && t in s.leases
               && v.grants[row.stepIndex] == s.leases[t]
  {
    assert Listed(s, t);
    assert Covered(s, s.db.tasks[t].runID);
  }

  // s' has run r in a view that grew from s's.
  ghost predicate Grew(fleet: Fleet, s: Sys, s': Sys, r: RunId)
    requires Covered(s, r)
  {
    && Covered(s', r)
    && var v, w := ViewOf(s, r), ViewOf(s', r);
       && w.begun == v.begun
       && w.run.workflowName == v.run.workflowName
       && |v.rows| <= |w.rows| && Known(fleet, w)
       && v.ids <= w.ids
       && (forall i | 0 <= i < |v.rows| :: SameTask(v.rows[i], w.rows[i]) && v.grants[i] <= w.grants[i])
  }

  lemma StepGrew(fleet: Fleet, s: Sys, l: Label, r: RunId)
    requires Indexed(s) && Enabled(fleet, s, l) && r in s.db.runs && Mirrors(fleet, s, l, r)
    ensures Grew(fleet, s, Apply(fleet, s, l), r)
  {
    PerformFrame(fleet, ViewOf(s, r), ActOf(fleet, s, l, r), s.db.now);
  }

  lemma GrewTask(fleet: Fleet, s: Sys, s': Sys, t: TaskId)
    requires Indexed(s) && Indexed(s') && t in s.db.tasks && s.db.tasks[t].runID in s.db.runs
    requires Grew(fleet, s, s', s.db.tasks[t].runID)
    ensures t in s'.db.tasks && SameTask(s.db.tasks[t], s'.db.tasks[t])
    ensures t in s.leases && t in s'.leases && s.leases[t] <= s'.leases[t]
  {
    InView(s, t);
    var r, i := s.db.tasks[t].runID, s.db.tasks[t].stepIndex;
    var v, w := ViewOf(s, r), ViewOf(s', r);
    assert w.ids[i] == v.ids[i] == t;
    assert SameTask(v.rows[i], w.rows[i]) && v.grants[i] <= w.grants[i];
  }

  lemma HandKept(fleet: Fleet, s: Sys, s': Sys, w: Worker)
    requires Indexed(s) && Indexed(s')
    requires w in s.hands && w in s'.hands && s'.hands[w] == s.hands[w] && HandGood(fleet, s, w)
    requires s.hands[w].task.runID in s.db.runs && Grew(fleet, s, s', s.hands[w].task.runID)
    requires s.db.now <= s'.db.now
    ensures HandGood(fleet, s', w)
  {
    GrewTask(fleet, s, s', s.hands[w].id);
    var h := s.hands[w];
    assert Due(fleet, ViewOf(s', h.task.runID), h.task.stepIndex) == Due(fleet, ViewOf(s, h.task.runID), h.task.stepIndex);
  }

  lemma NewHand(fleet: Fleet, s: Sys, w: Worker, t: TaskId)
    requires Indexed(s) && AtTop(fleet, s, t) && Eligible(s.db, t)
    requires t in s.leases && 0 <= s.leases[t]
    requires var v := ViewOf(s, s.db.tasks[t].runID); Due(fleet, v, Top(v)) <= s.db.tasks[t].availableAt
    requires Indexed(Leased(fleet, s, w, t)) && Grew(fleet, s, Leased(fleet, s, w, t), s.db.tasks[t].runID)
    ensures HandGood(fleet, Leased(fleet, s, w, t), w)
  {
  }

  // A pending task can be leased: what its first snapshot needs.
  lemma Leasable(fleet: Fleet, s: Sys, t: TaskId)
    requires Inv(fleet, s) && Eligible(s.db, t)
    ensures AtTop(fleet, s, t) && t in s.leases && 0 <= s.leases[t]
    ensures var v := ViewOf(s, s.db.tasks[t].runID); Due(fleet, v, Top(v)) <= s.db.tasks[t].availableAt
  {
    InvShaped(fleet, s);
    OpenIsLast(fleet, s, t);
    InView(s, t);
    var v := ViewOf(s, s.db.tasks[t].runID);
    assert Good(fleet, v, s.db.now);
    assert TallyAt(v.history, v.ids[Top(v)], v.rows[Top(v)].status, v.grants[Top(v)]);
  }

  lemma HandsStep(fleet: Fleet, s: Sys, l: Label, w: Worker)
    requires Indexed(s) && Enabled(fleet, s, l) && Indexed(Apply(fleet, s, l))
    requires forall r | r in s.db.runs :: Grew(fleet, s, Apply(fleet, s, l), r)
    requires w in s.hands && HandGood(fleet, s, w) && w in Apply(fleet, s, l).hands
    requires !(l.LeaseNext? && l.worker == w)
    ensures HandGood(fleet, Apply(fleet, s, l), w)
  {
    ClockRuns(fleet, s, l);
    HandKept(fleet, s, Apply(fleet, s, l), w);
  }

  lemma ClockRuns(fleet: Fleet, s: Sys, l: Label)
    requires Enabled(fleet, s, l)
    ensures s.db.now <= Apply(fleet, s, l).db.now
    ensures !l.Tick? ==> Apply(fleet, s, l).db.now == s.db.now
  {
  }

  lemma StepRunsGood(fleet: Fleet, s: Sys, l: Label, r: RunId)
    requires Inv(fleet, s) && Enabled(fleet, s, l) && Indexed(Apply(fleet, s, l)) && r in Apply(fleet, s, l).db.runs
    ensures Good(fleet, ViewOf(Apply(fleet, s, l), r), Apply(fleet, s, l).db.now)
  {
    var s' := Apply(fleet, s, l);
    ClockRuns(fleet, s, l);
    if r in s.db.runs {
      Simulates(fleet, s, l, r);
      PerformGood(fleet, ViewOf(s, r), ActOf(fleet, s, l, r), s.db.now);
      GoodLater(fleet, ViewOf(s', r), s.db.now, s'.db.now);
    } else {
      NewRuns(fleet, s, l, r);
      StartView(fleet, s, l.call);
      assert CallGood(fleet, s, l.call);
      OpeningGood(fleet, r, s.calls[l.call].cmd, s.calls[l.call].stamp, s.db.now);
    }
  }

  lemma NewRuns(fleet: Fleet, s: Sys, l: Label, r: RunId)
    requires Enabled(fleet, s, l) && r in Apply(fleet, s, l).db.runs && r !in s.db.runs
    ensures l.CommitStart? && Creates(s, l.call) && s.calls[l.call].cmd.runID == r
  {
  }

  lemma CallsStep(fleet: Fleet, s: Sys, l: Label, c: int)
    requires Enabled(fleet, s, l) && c in Apply(fleet, s, l).calls
    requires c in s.calls ==> CallGood(fleet, s, c)
    ensures CallGood(fleet, Apply(fleet, s, l), c)
  {
    ClockRuns(fleet, s, l);
  }

  lemma LeasedHand(fleet: Fleet, s: Sys, l: Label)
    requires Inv(fleet, s) && Enabled(fleet, s, l) && l.LeaseNext? && Indexed(Apply(fleet, s, l))
    requires forall r | r in s.db.runs :: Grew(fleet, s, Apply(fleet, s, l), r)
    ensures HandGood(fleet, Apply(fleet, s, l), l.worker)
  {
    Leasable(fleet, s, l.task);
    NewHand(fleet, s, l.worker, l.task);
  }

  lemma HandsOf(fleet: Fleet, s: Sys, l: Label, w: Worker)
    requires Enabled(fleet, s, l) && w in Apply(fleet, s, l).hands
    ensures w in s.hands || (l.LeaseNext? && l.worker == w)
    ensures (l.LeaseNext? && l.worker == w) || Apply(fleet, s, l).hands[w] == s.hands[w]
  {
  }

  lemma AllGrew(fleet: Fleet, s: Sys, l: Label)
    requires Inv(fleet, s) && Enabled(fleet, s, l)
    ensures forall r | r in s.db.runs :: Grew(fleet, s, Apply(fleet, s, l), r)
  {
    forall r | r in s.db.runs
      ensures Grew(fleet, s, Apply(fleet, s, l), r)
    {
      Simulates(fleet, s, l, r);
      StepGrew(fleet, s, l, r);
    }
  }

  lemma AllGood(fleet: Fleet, s: Sys, l: Label)
    requires Inv(fleet, s) && Enabled(fleet, s, l) && Indexed(Apply(fleet, s, l))
    ensures RunsGood(fleet, Apply(fleet, s, l))
  {
    forall r | r in Apply(fleet, s, l).db.runs
      ensures Good(fleet, ViewOf(Apply(fleet, s, l), r), Apply(fleet, s, l).db.now)
    {
      StepRunsGood(fleet, s, l, r);
    }
  }

  lemma HandStep(fleet: Fleet, s: Sys, l: Label, w: Worker)
    requires Inv(fleet, s) && Enabled(fleet, s, l) && Indexed(Apply(fleet, s, l))
    requires forall r | r in s.db.runs :: Grew(fleet, s, Apply(fleet, s, l), r)
    requires w in Apply(fleet, s, l).hands
    ensures HandGood(fleet, Apply(fleet, s, l), w)
  {
    HandsOf(fleet, s, l, w);
    if l.LeaseNext? && l.worker == w {
      LeasedHand(fleet, s, l);
    } else {
      HandsStep(fleet, s, l, w);
    }
  }

  /** Every label keeps the invariant: it holds in every state the system can reach. */
  lemma InvStep(fleet: Fleet, s: Sys, l: Label)
    requires Inv(fleet, s) && Enabled(fleet, s, l)
    ensures Inv(fleet, Apply(fleet, s, l))
  {
    StepIndexed(fleet, s, l);
    AllGrew(fleet, s, l);
    AllGood(fleet, s, l);
    forall w | w in Apply(fleet, s, l).hands
      ensures HandGood(fleet, Apply(fleet, s, l), w)
    {
      HandStep(fleet, s, l, w);
    }
    forall c | c in Apply(fleet, s, l).calls
      ensures CallGood(fleet, Apply(fleet, s, l), c)
    {
      CallsStep(fleet, s, l, c);
    }
  }

  lemma InvInitial(fleet: Fleet, now: Time)
    ensures Inv(fleet, Initial(now))
  {
  }

  // ----- traces -----

  // The labels of a trace can be taken one after the other.
  ghost predicate Feasible(fleet: Fleet, s: Sys, ls: seq<Label>)
    decreases |ls|
  {
    |ls| == 0 || (Enabled(fleet, s, ls[0]) && Feasible(fleet, Apply(fleet, s, ls[0]), ls[1..]))
  }

  ghost function End(fleet: Fleet, s: Sys, ls: seq<Label>): Sys
    requires Feasible(fleet, s, ls)
    decreases |ls|
  {
    if |ls| == 0 then s else End(fleet, Apply(fleet, s, ls[0]), ls[1..])
  }

  lemma {:induction false} InvTrace(fleet: Fleet, s: Sys, ls: seq<Label>)
    requires Inv(fleet, s) && Feasible(fleet, s, ls)
    ensures Inv(fleet, End(fleet, s, ls))
    decreases |ls|
  {
    if |ls| > 0 {
      InvStep(fleet, s, ls[0]);
      InvTrace(fleet, Apply(fleet, s, ls[0]), ls[1..]);
    }
  }

  ghost predicate Reaches(fleet: Fleet, now: Time, ls: seq<Label>, s: Sys) {
    Feasible(fleet, Initial(now), ls) && s == End(fleet, Initial(now), ls)
  }

  // Some trace from empty tables leads to s.
  ghost predicate Reachable(fleet: Fleet, s: Sys) {
    exists now, ls :: Reaches(fleet, now, ls, s)
  }

  lemma ReachableInv(fleet: Fleet, s: Sys)
    requires Reachable(fleet, s)
    ensures Inv(fleet, s)
  {
    var now, ls :| Reaches(fleet, now, ls, s);
    InvInitial(fleet, now);
    InvTrace(fleet, Initial(now), ls);
  }

  lemma {:induction false} Append(fleet: Fleet, s: Sys, xs: seq<Label>, ys: seq<Label>)
    requires Feasible(fleet, s, xs) && Feasible(fleet, End(fleet, s, xs), ys)
    ensures Feasible(fleet, s, xs + ys) && End(fleet, s, xs + ys) == End(fleet, End(fleet, s, xs), ys)
    decreases |xs|
  {
    if |xs| == 0 {
      assert xs + ys == ys;
    } else {
      assert (xs + ys)[0] == xs[0] && (xs + ys)[1..] == xs[1..] + ys;
      Append(fleet, Apply(fleet, s, xs[0]), xs[1..], ys);
    }
  }

  lemma ReachableOn(fleet: Fleet, s: Sys, ys: seq<Label>)
    requires Reachable(fleet, s) && Feasible(fleet, s, ys)
    ensures Reachable(fleet, End(fleet, s, ys))
  {
    var now, xs :| Reaches(fleet, now, xs, s);
    Append(fleet, Initial(now), xs, ys);
    assert Reaches(fleet, now, xs + ys, End(fleet, s, ys));
  }

  lemma Single(fleet: Fleet, s: Sys, l: Label)
    requires Enabled(fleet, s, l)
    ensures Feasible(fleet, s, [l]) && End(fleet, s, [l]) == Apply(fleet, s, l)
  {
    assert [l][1..] == [];
  }

  lemma ReachableStep(fleet: Fleet, s: Sys, l: Label)
    requires Reachable(fleet, s) && Enabled(fleet, s, l)
    ensures Reachable(fleet, Apply(fleet, s, l))
  {
    Single(fleet, s, l);
    ReachableOn(fleet, s, [l]);
  }

  /** From every reachable state, whatever the label, each existing run makes one possible act. */
  lemma StepIsAnAct(fleet: Fleet, s: Sys, l: Label, r: RunId)
    requires Reachable(fleet, s) && Enabled(fleet, s, l) && r in s.db.runs
    ensures Indexed(s) && Mirrors(fleet, s, l, r)
  {
    ReachableInv(fleet, s);
    Simulates(fleet, s, l, r);
  }

  /** In every reachable state, every run is in good order. */
  lemma ReachableGood(fleet: Fleet, s: Sys, r: RunId)
    requires Reachable(fleet, s) && r in s.db.runs
    ensures Indexed(s) && Good(fleet, ViewOf(s, r), s.db.now)
  {
    ReachableInv(fleet, s);
  }
}
