/** Every label, on every run, is one act: the proofs, and the invariant that follows from them. */
module Simulation {
  import opened Options
  import opened Workflow
  import opened Store
  import opened History
  import opened Scheduling
  import opened RunView
  import opened Protocol

  // ----- reading views -----

  lemma LogAppend(events: seq<Event>, e: Event, r: RunId)
    ensures HistoryOf(events + [e], r) == if e.runID == r then HistoryOf(events, r) + [e] else HistoryOf(events, r)
    ensures ScheduledIds(HistoryOf(events + [e], r))
         == if e.runID == r && e.typ == EventActivityScheduled && e.taskID.Some?
            then ScheduledIds(HistoryOf(events, r)) + [e.taskID.value] else ScheduledIds(HistoryOf(events, r))
  {
    HistoryAppend(events, e, r);
    IdsAppend(HistoryOf(events, r), e, EventActivityScheduled);
  }

  ghost predicate SameFor(s: Sys, s': Sys, r: RunId) {
    && Covered(s, r)
    && r in s'.db.runs && s'.db.runs[r] == s.db.runs[r]
    && r in s'.begun && s'.begun[r] == s.begun[r]
    && HistoryOf(s'.db.events, r) == HistoryOf(s.db.events, r)
    && forall i | 0 <= i < |IdsOf(s, r)| :: SameEntry(s, s', IdsOf(s, r)[i])
  }

  ghost predicate SameEntry(s: Sys, s': Sys, t: TaskId) {
    && t in s.db.tasks && t in s'.db.tasks && s'.db.tasks[t] == s.db.tasks[t]
    && t in s.leases && t in s'.leases && s'.leases[t] == s.leases[t]
  }

  lemma SameView(s: Sys, s': Sys, r: RunId)
    requires SameFor(s, s', r)
    ensures Covered(s', r) && ViewOf(s', r) == ViewOf(s, r)
  {
    assert IdsOf(s', r) == IdsOf(s, r);
    forall i | 0 <= i < |IdsOf(s, r)|
      ensures SameEntry(s, s', IdsOf(s', r)[i])
    {
    }
    assert AllAt(s'.db.tasks, IdsOf(s', r)) == AllAt(s.db.tasks, IdsOf(s, r));
    assert AllAt(s'.leases, IdsOf(s', r)) == AllAt(s.leases, IdsOf(s, r));
  }

  // t is the last task of its run.
  ghost predicate AtTop(fleet: Fleet, s: Sys, t: TaskId)
    requires Indexed(s)
  {
    && t in s.db.tasks
    && s.db.tasks[t].runID in s.db.runs
    && var v := ViewOf(s, s.db.tasks[t].runID);
       && Known(fleet, v)
       && v.ids[Top(v)] == t
       && v.rows[Top(v)] == s.db.tasks[t]
       && s.db.tasks[t].stepIndex == Top(v)
  }

  lemma OpenIsLast(fleet: Fleet, s: Sys, t: TaskId)
    requires Indexed(s) && RunsShaped(fleet, s)
    requires t in s.db.tasks && (LiveStatus(s.db.tasks[t].status) || s.db.tasks[t].status == TaskDead)
    ensures AtTop(fleet, s, t)
  {
    var r := s.db.tasks[t].runID;
    assert Listed(s, t);
    var v := ViewOf(s, r);
    assert Shaped(fleet, v);
    assert v.rows[s.db.tasks[t].stepIndex] == s.db.tasks[t];
  }

  // ----- labels that change one row of one run -----

  // The tasks, and the runs they belong to, stay where the histories list them.
  lemma IndexedKept(s: Sys, s': Sys)
    requires Indexed(s)
    requires s'.db.runs.Keys == s.db.runs.Keys && s'.db.tasks.Keys == s.db.tasks.Keys
    requires s.begun.Keys <= s'.begun.Keys && s.leases.Keys <= s'.leases.Keys
    requires forall t | t in s.db.tasks ::
               s'.db.tasks[t].runID == s.db.tasks[t].runID && s'.db.tasks[t].stepIndex == s.db.tasks[t].stepIndex
    requires forall r | r in s.db.runs :: IdsOf(s', r) == IdsOf(s, r)
    requires forall i | 0 <= i < |s'.db.events| :: s'.db.events[i].runID in s.db.runs
    ensures Indexed(s')
  {
    forall r | r in s'.db.runs
      ensures Covered(s', r)
    {
      assert Covered(s, r);
    }
    forall r, i | r in s'.db.runs && 0 <= i < |IdsOf(s', r)|
      ensures s'.db.tasks[IdsOf(s', r)[i]].runID == r && s'.db.tasks[IdsOf(s', r)[i]].stepIndex == i
    {
      var t := IdsOf(s, r)[i];
      assert Covered(s, r) && t in s.db.tasks;
      assert s.db.tasks[t].runID == r && s.db.tasks[t].stepIndex == i;
    }
    forall t | t in s'.db.tasks
      ensures Listed(s', t)
    {
      assert Listed(s, t);
    }
  }

  lemma LogTwo(events: seq<Event>, e1: Event, e2: Event, r: RunId)
    requires e1.runID == e2.runID
    ensures HistoryOf(events + [e1] + [e2], r)
         == if e1.runID == r then HistoryOf(events, r) + [e1] + [e2] else HistoryOf(events, r)
  {
    HistoryAppend(events, e1, r);
    HistoryAppend(events + [e1], e2, r);
  }

  // What a label may do to run q without scheduling a task: change the run row, task t, and t's lease count.
  ghost predicate OneRow(s: Sys, s': Sys, q: RunId, t: TaskId) {
    && q in s.db.runs && q in s'.db.runs
    && t in s.db.tasks && t in s'.db.tasks && t in s'.leases
    && s'.begun == s.begun
    && (forall r | r in s.db.runs && r != q :: r in s'.db.runs && s'.db.runs[r] == s.db.runs[r])
    && (forall u | u in s.db.tasks && u in s.leases && u != t :: SameEntry(s, s', u))
    && s.db.tasks[t].runID == q
  }

  lemma OneRowView(s: Sys, s': Sys, q: RunId, t: TaskId)
    requires Indexed(s) && OneRow(s, s', q, t)
    requires IdsOf(s', q) == IdsOf(s, q) && |IdsOf(s, q)| > 0 && IdsOf(s, q)[|IdsOf(s, q)| - 1] == t
    ensures Covered(s', q)
    ensures var v, k := ViewOf(s, q), |IdsOf(s, q)| - 1;
            ViewOf(s', q) == v.(run := s'.db.runs[q], rows := v.rows[k := s'.db.tasks[t]],
                                grants := v.grants[k := s'.leases[t]], history := HistoryOf(s'.db.events, q))
  {
    var ids, k := IdsOf(s, q), |IdsOf(s, q)| - 1;
    forall i | 0 <= i < k
      ensures SameEntry(s, s', ids[i])
    {
      assert s.db.tasks[ids[i]].stepIndex == i && s.db.tasks[ids[k]].stepIndex == k;
    }
    assert ViewOf(s', q).rows == ViewOf(s, q).rows[k := s'.db.tasks[t]];
    assert ViewOf(s', q).grants == ViewOf(s, q).grants[k := s'.leases[t]];
  }

  lemma OneRowOthers(s: Sys, s': Sys, q: RunId, t: TaskId, r: RunId)
    requires Indexed(s) && OneRow(s, s', q, t)
    requires r in s.db.runs && r != q && HistoryOf(s'.db.events, r) == HistoryOf(s.db.events, r)
    ensures Covered(s', r) && ViewOf(s', r) == ViewOf(s, r)
  {
    forall i | 0 <= i < |IdsOf(s, r)|
      ensures SameEntry(s, s', IdsOf(s, r)[i])
    {
      assert s.db.tasks[IdsOf(s, r)[i]].runID == r;
    }
    SameView(s, s', r);
  }

  // ----- leasing -----

  lemma LeaseOwn(fleet: Fleet, s: Sys, w: Worker, t: TaskId)
    requires Indexed(s) && AtTop(fleet, s, t) && Eligible(s.db, t)
    ensures var s', q, a := Leased(fleet, s, w, t), s.db.tasks[t].runID, Act.Lease(fleet.owner(w), s.db.now + fleet.cfg.leaseDuration);
            && q in s.db.runs
            && Covered(s', q)
            && Possible(fleet, ViewOf(s, q), a, s.db.now)
            && ViewOf(s', q) == Perform(fleet, ViewOf(s, q), a, s.db.now)
  {
    var s', q := Leased(fleet, s, w, t), s.db.tasks[t].runID;
    OneRowView(s, s', q, t);
  }

  lemma LeaseOther(fleet: Fleet, s: Sys, w: Worker, t: TaskId, r: RunId)
    requires Indexed(s) && t in s.db.tasks && r in s.db.runs && r != s.db.tasks[t].runID
    ensures Covered(Leased(fleet, s, w, t), r) && ViewOf(Leased(fleet, s, w, t), r) == ViewOf(s, r)
  {
    assert Listed(s, t);
    OneRowOthers(s, Leased(fleet, s, w, t), s.db.tasks[t].runID, t, r);
  }

  // ----- committing what a worker holds -----

  // The fence let worker w's snapshot through: its task is the last of its run, and what the
  // worker computed from the snapshot is what the run's next act needs.
  ghost predicate OnTop(fleet: Fleet, s: Sys, w: Worker)
    requires Indexed(s) && w in s.hands
  {
    var h := s.hands[w];
    && AtTop(fleet, s, h.id)
    && h.task.runID == s.db.tasks[h.id].runID
    && h.task.stepIndex == s.db.tasks[h.id].stepIndex
    && var v := ViewOf(s, h.task.runID);
       && Due(fleet, v, Top(v)) <= h.task.updatedAt
       && (forall output :: MayReturn(fleet.catalog, h.task, output)
                            <==> Returns(fleet.catalog, StepsOf(fleet, v)[Top(v)], v.rows[Top(v)].input, output))
  }

  lemma LandsOn(fleet: Fleet, s: Sys, w: Worker)
    requires Indexed(s) && RunsShaped(fleet, s) && w in s.hands && HandGood(fleet, s, w)
    requires Fenced(s.db, s.hands[w].id, fleet.owner(w))
    ensures OnTop(fleet, s, w)
  {
    var h := s.hands[w];
    OpenIsLast(fleet, s, h.id);
    var v := ViewOf(s, h.task.runID);
    assert Shaped(fleet, v);
    assert Fits(fleet, v, Top(v));
  }

  // An Advance or a dead-letter changes one task row and one run row and logs two events.
  lemma TwoEvents(s: Sys, s': Sys, q: RunId, t: TaskId, e1: Event, e2: Event)
    requires Indexed(s) && OneRow(s, s', q, t)
    requires |IdsOf(s, q)| > 0 && IdsOf(s, q)[|IdsOf(s, q)| - 1] == t
    requires s'.db.events == s.db.events + [e1] + [e2] && e1.runID == e2.runID == q
    requires e1.typ != EventActivityScheduled && e2.typ != EventActivityScheduled
    ensures Covered(s', q)
    ensures var v, k := ViewOf(s, q), |IdsOf(s, q)| - 1;
            ViewOf(s', q) == v.(run := s'.db.runs[q], rows := v.rows[k := s'.db.tasks[t]],
                                grants := v.grants[k := s'.leases[t]], history := v.history + [e1] + [e2])
    ensures forall r | r in s.db.runs && r != q :: Covered(s', r) && ViewOf(s', r) == ViewOf(s, r)
  {
    LogAppend(s.db.events, e1, q);
    LogAppend(s.db.events + [e1], e2, q);
    OneRowView(s, s', q, t);
    forall r | r in s.db.runs && r != q
      ensures Covered(s', r) && ViewOf(s', r) == ViewOf(s, r)
    {
      LogTwo(s.db.events, e1, e2, r);
      OneRowOthers(s, s', q, t, r);
    }
  }

  lemma OneEvent(s: Sys, s': Sys, q: RunId, t: TaskId, e: Event)
    requires Indexed(s) && OneRow(s, s', q, t)
    requires |IdsOf(s, q)| > 0 && IdsOf(s, q)[|IdsOf(s, q)| - 1] == t
    requires s'.db.events == s.db.events + [e] && e.runID == q && e.typ != EventActivityScheduled
    ensures Covered(s', q)
    ensures var v, k := ViewOf(s, q), |IdsOf(s, q)| - 1;
            ViewOf(s', q) == v.(run := s'.db.runs[q], rows := v.rows[k := s'.db.tasks[t]],
                                grants := v.grants[k := s'.leases[t]], history := v.history + [e])
    ensures forall r | r in s.db.runs && r != q :: Covered(s', r) && ViewOf(s', r) == ViewOf(s, r)
  {
    LogAppend(s.db.events, e, q);
    OneRowView(s, s', q, t);
    forall r | r in s.db.runs && r != q
      ensures Covered(s', r) && ViewOf(s', r) == ViewOf(s, r)
    {
      HistoryAppend(s.db.events, e, r);
      OneRowOthers(s, s', q, t, r);
    }
  }

  lemma FinishView(fleet: Fleet, s: Sys, s': Sys, cmd: AdvanceCmd)
    requires Indexed(s) && AtTop(fleet, s, cmd.taskID)
    requires Fenced(s.db, cmd.taskID, cmd.owner) && cmd.runID == s.db.tasks[cmd.taskID].runID
    requires cmd.nextStep == None && cmd.runResult == Some(cmd.result)
    requires s'.db == AdvanceTx(s.db, cmd).tables && s'.begun == s.begun && s'.leases == s.leases
    requires Possible(fleet, ViewOf(s, cmd.runID), Finish(cmd.result), s.db.now)
    ensures Covered(s', cmd.runID)
    ensures ViewOf(s', cmd.runID) == Perform(fleet, ViewOf(s, cmd.runID), Finish(cmd.result), s.db.now)
    ensures forall r | r in s.db.runs && r != cmd.runID :: Covered(s', r) && ViewOf(s', r) == ViewOf(s, r)
  {
    var e1 := MakeEvent(cmd.runID, Some(cmd.taskID), EventActivityCompleted, Some(cmd.result), s.db.now);
    var e2 := MakeEvent(cmd.runID, None, EventWorkflowCompleted, Some(cmd.result), s.db.now);
    TwoEvents(s, s', cmd.runID, cmd.taskID, e1, e2);
  }

  // The tables after an Advance that schedules the next step.
  ghost predicate Scheduled(s: Sys, s': Sys, cmd: AdvanceCmd, next: NewTask) {
    && cmd.runID in s.db.runs
    && cmd.taskID in s.db.tasks
    && next.id !in s.db.tasks
    && s'.db.now == s.db.now
    && s'.begun == s.begun
    && s'.leases == s.leases[next.id := 0]
    && s'.db.runs == s.db.runs[cmd.runID := StepRun(s.db.runs[cmd.runID], next.stepIndex, s.db.now)]
    && s'.db.tasks == s.db.tasks[cmd.taskID := CompleteRow(s.db.tasks[cmd.taskID], cmd.result, s.db.now)]
                                [next.id := NewRow(cmd.runID, next, s.db.now)]
    && s'.db.events == s.db.events
         + [MakeEvent(cmd.runID, Some(cmd.taskID), EventActivityCompleted, Some(cmd.result), s.db.now)]
         + [MakeEvent(cmd.runID, Some(next.id), EventActivityScheduled, Some(next.input), s.db.now)]
  }

  lemma NextView(fleet: Fleet, s: Sys, s': Sys, cmd: AdvanceCmd, a: Act)
    requires Indexed(s) && AtTop(fleet, s, cmd.taskID) && cmd.runID == s.db.tasks[cmd.taskID].runID
    requires a.Next? && a.result == cmd.result
    requires Possible(fleet, ViewOf(s, cmd.runID), a, s.db.now)
    requires Scheduled(s, s', cmd, NextTask(fleet, ViewOf(s, cmd.runID), a))
    ensures IdsOf(s', cmd.runID) == IdsOf(s, cmd.runID) + [a.id]
    ensures Covered(s', cmd.runID)
    ensures ViewOf(s', cmd.runID) == Perform(fleet, ViewOf(s, cmd.runID), a, s.db.now)
  {
    NextLog(s, s', cmd, NextTask(fleet, ViewOf(s, cmd.runID), a));
    NewRowView(s, s', cmd.runID, cmd.taskID, a.id);
  }

  lemma NextLog(s: Sys, s': Sys, cmd: AdvanceCmd, next: NewTask)
    requires Scheduled(s, s', cmd, next)
    ensures IdsOf(s', cmd.runID) == IdsOf(s, cmd.runID) + [next.id]
    ensures HistoryOf(s'.db.events, cmd.runID) == HistoryOf(s.db.events, cmd.runID)
              + [MakeEvent(cmd.runID, Some(cmd.taskID), EventActivityCompleted, Some(cmd.result), s.db.now)]
              + [MakeEvent(cmd.runID, Some(next.id), EventActivityScheduled, Some(next.input), s.db.now)]
  {
    var e1 := MakeEvent(cmd.runID, Some(cmd.taskID), EventActivityCompleted, Some(cmd.result), s.db.now);
    var e2 := MakeEvent(cmd.runID, Some(next.id), EventActivityScheduled, Some(next.input), s.db.now);
    LogAppend(s.db.events, e1, cmd.runID);
    LogAppend(s.db.events + [e1], e2, cmd.runID);
  }

  lemma NextOthers(s: Sys, s': Sys, cmd: AdvanceCmd, next: NewTask, r: RunId)
    requires Indexed(s) && Scheduled(s, s', cmd, next) && cmd.runID == s.db.tasks[cmd.taskID].runID
    requires r in s.db.runs && r != cmd.runID
    ensures IdsOf(s', r) == IdsOf(s, r)
    ensures Covered(s', r) && ViewOf(s', r) == ViewOf(s, r)
  {
    LogTwo(s.db.events, s'.db.events[|s.db.events|], s'.db.events[|s.db.events| + 1], r);
    forall i | 0 <= i < |IdsOf(s, r)|
      ensures SameEntry(s, s', IdsOf(s, r)[i])
    {
      assert s.db.tasks[IdsOf(s, r)[i]].runID == r;
    }
    SameView(s, s', r);
  }

  lemma NextIndexed(fleet: Fleet, s: Sys, s': Sys, cmd: AdvanceCmd, next: NewTask)
    requires Indexed(s) && AtTop(fleet, s, cmd.taskID) && cmd.runID == s.db.tasks[cmd.taskID].runID
    requires Scheduled(s, s', cmd, next) && next.stepIndex == s.db.tasks[cmd.taskID].stepIndex + 1
    requires IdsOf(s', cmd.runID) == IdsOf(s, cmd.runID) + [next.id]
    requires forall r | r in s.db.runs && r != cmd.runID :: IdsOf(s', r) == IdsOf(s, r)
    ensures Indexed(s')
  {
    forall r | r in s'.db.runs
      ensures Covered(s', r)
    {
      assert Covered(s, r);
    }
    forall r, i | r in s'.db.runs && 0 <= i < |IdsOf(s', r)|
      ensures s'.db.tasks[IdsOf(s', r)[i]].runID == r && s'.db.tasks[IdsOf(s', r)[i]].stepIndex == i
    {
      assert Covered(s, r);
      if i < |IdsOf(s, r)| {
        var t := IdsOf(s, r)[i];
        assert s.db.tasks[t].runID == r && s.db.tasks[t].stepIndex == i;
      }
    }
    forall t | t in s'.db.tasks
      ensures Listed(s', t)
    {
      if t != next.id {
        assert Listed(s, t);
      }
    }
  }

  // A run whose last row changed and whose id list grew by one.
  lemma NewRowView(s: Sys, s': Sys, q: RunId, t: TaskId, n: TaskId)
    requires Indexed(s) && q in s.db.runs && t in s.db.tasks && n !in s.db.tasks
    requires IdsOf(s', q) == IdsOf(s, q) + [n] && |IdsOf(s, q)| > 0 && IdsOf(s, q)[|IdsOf(s, q)| - 1] == t
    requires q in s'.db.runs && s'.begun == s.begun && s'.leases == s.leases[n := 0]
    requires t in s'.db.tasks && n in s'.db.tasks
    requires forall u | u in s.db.tasks && u != t :: u in s'.db.tasks && s'.db.tasks[u] == s.db.tasks[u]
    ensures Covered(s', q)
    ensures var v, k := ViewOf(s, q), |IdsOf(s, q)| - 1;
            ViewOf(s', q) == v.(run := s'.db.runs[q], ids := v.ids + [n],
                                rows := v.rows[k := s'.db.tasks[t]] + [s'.db.tasks[n]],
                                grants := v.grants + [0], history := HistoryOf(s'.db.events, q))
  {
    var ids, k, v := IdsOf(s, q), |IdsOf(s, q)| - 1, ViewOf(s, q);
    forall i | 0 <= i < k
      ensures ids[i] != t && ids[i] in s.db.tasks
    {
      assert s.db.tasks[ids[i]].stepIndex == i && s.db.tasks[ids[k]].stepIndex == k;
    }
    assert AllAt(s'.db.tasks, IdsOf(s', q)) == v.rows[k := s'.db.tasks[t]] + [s'.db.tasks[n]];
    assert AllAt(s'.leases, IdsOf(s', q)) == v.grants + [0];
  }

  lemma RetryView(fleet: Fleet, s: Sys, s': Sys, cmd: RetryCmd)
    requires Indexed(s) && AtTop(fleet, s, cmd.taskID)
    requires Fenced(s.db, cmd.taskID, cmd.owner) && cmd.runID == s.db.tasks[cmd.taskID].runID
    requires s'.db == RetryTx(s.db, cmd).tables && s'.begun == s.begun && s'.leases == s.leases
    requires Possible(fleet, ViewOf(s, cmd.runID), Act.Retry(cmd.availableAt, cmd.errMsg), s.db.now)
    ensures Covered(s', cmd.runID)
    ensures ViewOf(s', cmd.runID) == Perform(fleet, ViewOf(s, cmd.runID), Act.Retry(cmd.availableAt, cmd.errMsg), s.db.now)
    ensures forall r | r in s.db.runs && r != cmd.runID :: Covered(s', r) && ViewOf(s', r) == ViewOf(s, r)
  {
    OneEvent(s, s', cmd.runID, cmd.taskID,
             MakeEvent(cmd.runID, Some(cmd.taskID), EventActivityRetried, Some(ErrorPayload(cmd.errMsg)), s.db.now));
  }

  lemma BuryView(fleet: Fleet, s: Sys, s': Sys, cmd: DeadLetterCmd)
    requires Indexed(s) && AtTop(fleet, s, cmd.taskID)
    requires Fenced(s.db, cmd.taskID, cmd.owner) && cmd.runID == s.db.tasks[cmd.taskID].runID
    requires s'.db == DeadLetterTx(s.db, cmd).tables && s'.begun == s.begun && s'.leases == s.leases
    ensures Possible(fleet, ViewOf(s, cmd.runID), Bury(cmd.errMsg), s.db.now)
    ensures Covered(s', cmd.runID)
    ensures ViewOf(s', cmd.runID) == Perform(fleet, ViewOf(s, cmd.runID), Bury(cmd.errMsg), s.db.now)
    ensures forall r | r in s.db.runs && r != cmd.runID :: Covered(s', r) && ViewOf(s', r) == ViewOf(s, r)
  {
    var payload := Some(ErrorPayload(cmd.errMsg));
    TwoEvents(s, s', cmd.runID, cmd.taskID,
              MakeEvent(cmd.runID, Some(cmd.taskID), EventDeadLettered, payload, s.db.now),
              MakeEvent(cmd.runID, None, EventWorkflowFailed, payload, s.db.now));
  }

  // ----- replay and cancellation -----

  lemma ReviveView(fleet: Fleet, s: Sys, s': Sys, t: TaskId)
    requires Indexed(s) && AtTop(fleet, s, t) && s.db.tasks[t].status == TaskDead
    requires s' == Settle(s, ReplayTx(s.db, t).value)
    ensures var q := s.db.tasks[t].runID;
            && Possible(fleet, ViewOf(s, q), Revive, s.db.now)
            && Covered(s', q)
            && ViewOf(s', q) == Perform(fleet, ViewOf(s, q), Revive, s.db.now)
    ensures forall r | r in s.db.runs && r != s.db.tasks[t].runID :: Covered(s', r) && ViewOf(s', r) == ViewOf(s, r)
  {
    var q := s.db.tasks[t].runID;
    OneEvent(s, s', q, t, MakeEvent(q, Some(t), EventReplayed, Some(EMPTY_OBJECT), s.db.now));
  }

  // Of a running run only the last task is not terminal.
  lemma OnlyLastOpen(fleet: Fleet, s: Sys, q: RunId)
    requires Indexed(s) && RunsShaped(fleet, s) && q in s.db.runs && s.db.runs[q].status == RunRunning
    ensures |IdsOf(s, q)| > 0
    ensures var t := IdsOf(s, q)[|IdsOf(s, q)| - 1];
            && AtTop(fleet, s, t)
            && s.db.tasks[t].runID == q
            && LiveStatus(s.db.tasks[t].status)
            && forall u | u in s.db.tasks && s.db.tasks[u].runID == q && u != t :: s.db.tasks[u].status == TaskCompleted
  {
    var v := ViewOf(s, q);
    assert Shaped(fleet, v);
    var t := v.ids[Top(v)];
    OpenIsLast(fleet, s, t);
    forall u | u in s.db.tasks && s.db.tasks[u].runID == q && u != t
      ensures s.db.tasks[u].status == TaskCompleted
    {
      assert Listed(s, u);
      assert v.rows[s.db.tasks[u].stepIndex] == s.db.tasks[u];
    }
  }

  lemma CancelView(fleet: Fleet, s: Sys, s': Sys, q: RunId)
    requires Indexed(s) && RunsShaped(fleet, s) && q in s.db.runs && s.db.runs[q].status == RunRunning
    requires s' == s.(db := CancelTx(s.db, q).value)
    ensures Possible(fleet, ViewOf(s, q), Act.Cancel, s.db.now)
    ensures Covered(s', q)
    ensures ViewOf(s', q) == Perform(fleet, ViewOf(s, q), Act.Cancel, s.db.now)
    ensures forall r | r in s.db.runs && r != q :: Covered(s', r) && ViewOf(s', r) == ViewOf(s, r)
  {
    OnlyLastOpen(fleet, s, q);
    CancelOneRow(fleet, s, s', q, IdsOf(s, q)[|IdsOf(s, q)| - 1]);
  }

  lemma CancelOneRow(fleet: Fleet, s: Sys, s': Sys, q: RunId, t: TaskId)
    requires Indexed(s) && q in s.db.runs && s.db.runs[q].status == RunRunning && AtTop(fleet, s, t)
    requires s.db.tasks[t].runID == q && LiveStatus(s.db.tasks[t].status)
    requires forall u | u in s.db.tasks && s.db.tasks[u].runID == q && u != t :: s.db.tasks[u].status == TaskCompleted
    requires s' == s.(db := CancelTx(s.db, q).value)
    ensures Possible(fleet, ViewOf(s, q), Act.Cancel, s.db.now)
    ensures Covered(s', q)
    ensures ViewOf(s', q) == Perform(fleet, ViewOf(s, q), Act.Cancel, s.db.now)
    ensures forall r | r in s.db.runs && r != q :: Covered(s', r) && ViewOf(s', r) == ViewOf(s, r)
  {
    CancelChanges(s, s', q, t);
    OneEvent(s, s', q, t, MakeEvent(q, None, EventWorkflowCancelled, Some(EMPTY_OBJECT), s.db.now));
  }

  lemma CancelChanges(s: Sys, s': Sys, q: RunId, t: TaskId)
    requires Indexed(s) && q in s.db.runs && s.db.runs[q].status == RunRunning
    requires t in s.db.tasks && t in s.leases && s.db.tasks[t].runID == q && LiveStatus(s.db.tasks[t].status)
    requires forall u | u in s.db.tasks && s.db.tasks[u].runID == q && u != t :: s.db.tasks[u].status == TaskCompleted
    requires s' == s.(db := CancelTx(s.db, q).value)
    ensures OneRow(s, s', q, t) && s'.db.tasks[t] == CancelRow(s.db.tasks[t], s.db.now)
  {
  }

  // ----- reaping -----

  lemma {:induction false} HistoryConcat(events: seq<Event>, more: seq<Event>, r: RunId)
    ensures HistoryOf(events + more, r) == HistoryOf(events, r) + HistoryOf(more, r)
  {
    if |more| == 0 {
      assert events + more == events;
    } else {
      var front, e := more[..|more| - 1], more[|more| - 1];
      HistoryConcat(events, front, r);
      assert events + more == events + front + [e];
      HistoryAppend(events + front, e, r);
    }
  }

  // Among the reclaim events, run r has one, for t, if t is listed, and none otherwise.
  lemma {:induction false} ReclaimLog(db: Tables, order: seq<TaskId>, r: RunId, t: TaskId)
    requires forall i | 0 <= i < |order| :: order[i] in db.tasks
    requires forall i | 0 <= i < |order| :: db.tasks[order[i]].runID == r ==> order[i] == t
    requires forall i, j | 0 <= i < j < |order| :: order[i] != order[j]
    requires t in order ==> db.tasks[t].runID == r
    ensures HistoryOf(ReclaimEvents(db, order), r)
         == if t in order then [MakeEvent(r, Some(t), EventReclaimed, Some(EMPTY_OBJECT), db.now)] else []
  {
    if |order| > 0 {
      var n := |order| - 1;
      var events := ReclaimEvents(db, order);
      assert events[..n] == ReclaimEvents(db, order[..n]);
      assert order == order[..n] + [order[n]];
      ReclaimLog(db, order[..n], r, t);
    }
  }

  // Of one run, a reap can only reclaim the last task.
  lemma ReapsLast(fleet: Fleet, s: Sys, r: RunId)
    requires Indexed(s) && RunsShaped(fleet, s) && r in s.db.runs
    ensures |IdsOf(s, r)| > 0
    ensures Known(fleet, ViewOf(s, r))
    ensures var t := IdsOf(s, r)[|IdsOf(s, r)| - 1];
            t in s.db.tasks && s.db.tasks[t].runID == r && forall u | Expired(s.db, u) && s.db.tasks[u].runID == r :: u == t
  {
    var v := ViewOf(s, r);
    assert Shaped(fleet, v);
    assert s.db.tasks[v.ids[Top(v)]].runID == r;
    forall u | Expired(s.db, u) && s.db.tasks[u].runID == r
      ensures u == v.ids[Top(v)]
    {
      OpenIsLast(fleet, s, u);
    }
  }

  lemma ReapView(fleet: Fleet, s: Sys, s': Sys, order: seq<TaskId>, r: RunId)
    requires Indexed(s) && ReapOrder(s.db, order) && r in s.db.runs
    requires Known(fleet, ViewOf(s, r)) && |IdsOf(s, r)| > 0
    requires var t := IdsOf(s, r)[|IdsOf(s, r)| - 1];
             t in s.db.tasks && s.db.tasks[t].runID == r && forall u | Expired(s.db, u) && s.db.tasks[u].runID == r :: u == t
    requires s' == s.(db := ReapTx(s.db, order))
    ensures var a := if CurrentExpired(s, r) then Reclaim else Stay;
            && Possible(fleet, ViewOf(s, r), a, s.db.now)
            && Covered(s', r)
            && ViewOf(s', r) == Perform(fleet, ViewOf(s, r), a, s.db.now)
    ensures IdsOf(s', r) == IdsOf(s, r)
  {
    var t := IdsOf(s, r)[|IdsOf(s, r)| - 1];
    forall i | 0 <= i < |order| && s.db.tasks[order[i]].runID == r
      ensures order[i] == t
    {
      assert Expired(s.db, order[i]);
    }
    ReapHistory(s, s', order, r, t);
    ReapRows(s, s', order, r, t);
  }

  lemma ReapHistory(s: Sys, s': Sys, order: seq<TaskId>, r: RunId, t: TaskId)
    requires Indexed(s) && ReapOrder(s.db, order) && t in s.db.tasks && s.db.tasks[t].runID == r
    requires forall i | 0 <= i < |order| && s.db.tasks[order[i]].runID == r :: order[i] == t
    requires s' == s.(db := ReapTx(s.db, order))
    ensures HistoryOf(s'.db.events, r) == HistoryOf(s.db.events, r)
              + if Expired(s.db, t) then [MakeEvent(r, Some(t), EventReclaimed, Some(EMPTY_OBJECT), s.db.now)] else []
    ensures IdsOf(s', r) == IdsOf(s, r)
  {
    ReclaimLog(s.db, order, r, t);
    HistoryConcat(s.db.events, ReclaimEvents(s.db, order), r);
    if Expired(s.db, t) {
      IdsAppend(HistoryOf(s.db.events, r), MakeEvent(r, Some(t), EventReclaimed, Some(EMPTY_OBJECT), s.db.now), EventActivityScheduled);
    } else {
      assert HistoryOf(s.db.events, r) + [] == HistoryOf(s.db.events, r);
    }
  }

  lemma ReapRows(s: Sys, s': Sys, order: seq<TaskId>, r: RunId, t: TaskId)
    requires Indexed(s) && ReapOrder(s.db, order) && r in s.db.runs && t in s.db.tasks && s.db.tasks[t].runID == r
    requires |IdsOf(s, r)| > 0 && IdsOf(s, r)[|IdsOf(s, r)| - 1] == t
    requires forall i | 0 <= i < |order| && s.db.tasks[order[i]].runID == r :: order[i] == t
    requires s' == s.(db := ReapTx(s.db, order)) && IdsOf(s', r) == IdsOf(s, r)
    ensures Covered(s', r)
    ensures var v, k := ViewOf(s, r), |IdsOf(s, r)| - 1;
            ViewOf(s', r) == v.(rows := if Expired(s.db, t) then v.rows[k := ReclaimRow(v.rows[k], s.db.now)] else v.rows,
                                history := HistoryOf(s'.db.events, r))
  {
    var ids, v, k := IdsOf(s, r), ViewOf(s, r), |IdsOf(s, r)| - 1;
    forall i | 0 <= i < |ids|
      ensures s'.db.tasks[ids[i]] == if i == k && Expired(s.db, t) then ReclaimRow(v.rows[k], s.db.now) else v.rows[i]
    {
      assert s.db.tasks[ids[i]].runID == r && s.db.tasks[ids[i]].stepIndex == i && s.db.tasks[t].stepIndex == k;
    }
    assert AllAt(s'.db.tasks, ids) == if Expired(s.db, t) then v.rows[k := ReclaimRow(v.rows[k], s.db.now)] else v.rows;
    assert AllAt(s'.leases, ids) == v.grants;
  }

  // ----- starting a run -----

  lemma StartView(fleet: Fleet, s: Sys, c: int)
    requires Indexed(s) && c in s.calls && Creates(s, c)
    ensures var s', cmd := Started(s, c), s.calls[c].cmd;
            && cmd.runID !in s.db.runs
            && IdsOf(s', cmd.runID) == [cmd.first.id]
            && Covered(s', cmd.runID)
            && ViewOf(s', cmd.runID) == Opening(cmd.runID, cmd, s.calls[c].stamp, s.db.now)
  {
    var s', cmd := Started(s, c), s.calls[c].cmd;
    var q := cmd.runID;
    NoHistory(s.db.events, q);
    var e1 := MakeEvent(q, None, EventWorkflowStarted, Some(cmd.input), s.db.now);
    var e2 := MakeEvent(q, Some(cmd.first.id), EventActivityScheduled, Some(cmd.first.input), s.db.now);
    assert s'.db.events == s.db.events + [e1] + [e2];
    LogAppend(s.db.events, e1, q);
    LogAppend(s.db.events + [e1], e2, q);
    assert HistoryOf(s'.db.events, q) == [e1] + [e2];
    assert IdsOf(s', q) == [cmd.first.id];
    assert AllAt(s'.db.tasks, IdsOf(s', q)) == [NewRow(q, cmd.first, s.db.now)];
    assert AllAt(s'.leases, IdsOf(s', q)) == [0];
  }

  lemma StartOthers(s: Sys, c: int, r: RunId)
    requires Indexed(s) && c in s.calls && r in s.db.runs
    ensures IdsOf(Started(s, c), r) == IdsOf(s, r)
    ensures Covered(Started(s, c), r) && ViewOf(Started(s, c), r) == ViewOf(s, r)
  {
    var s', cmd := Started(s, c), s.calls[c].cmd;
    if Creates(s, c) {
      var e1 := MakeEvent(cmd.runID, None, EventWorkflowStarted, Some(cmd.input), s.db.now);
      var e2 := MakeEvent(cmd.runID, Some(cmd.first.id), EventActivityScheduled, Some(cmd.first.input), s.db.now);
      assert s'.db.events == s.db.events + [e1] + [e2];
      LogTwo(s.db.events, e1, e2, r);
    }
    assert Covered(s, r);
    SameView(s, s', r);
  }

  lemma StartIndexed(s: Sys, c: int)
    requires Indexed(s) && c in s.calls
    requires Creates(s, c) ==> IdsOf(Started(s, c), s.calls[c].cmd.runID) == [s.calls[c].cmd.first.id]
    requires forall r | r in s.db.runs :: IdsOf(Started(s, c), r) == IdsOf(s, r)
    requires s.calls[c].cmd.first.stepIndex == 0
    ensures Indexed(Started(s, c))
  {
    var s', cmd := Started(s, c), s.calls[c].cmd;
    if !Creates(s, c) {
      IndexedKept(s, s');
      return;
    }
    forall r | r in s'.db.runs
      ensures Covered(s', r)
    {
      if r != cmd.runID {
        assert Covered(s, r);
      }
    }
    forall r, i | r in s'.db.runs && 0 <= i < |IdsOf(s', r)|
      ensures s'.db.tasks[IdsOf(s', r)[i]].runID == r && s'.db.tasks[IdsOf(s', r)[i]].stepIndex == i
    {
      if r != cmd.runID {
        assert Covered(s, r);
        var t := IdsOf(s, r)[i];
        assert s.db.tasks[t].runID == r && s.db.tasks[t].stepIndex == i;
      }
    }
    forall t | t in s'.db.tasks
      ensures Listed(s', t)
    {
      if t != cmd.first.id {
        assert Listed(s, t);
      }
    }
  }
}
