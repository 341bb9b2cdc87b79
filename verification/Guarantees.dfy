/**
 What every trace keeps, whatever the workers are called and however they crash: the history tells
 the run, no step is advanced twice, results are those of straight-line execution, final runs stay
 final, timers are waited for.
 */
module Guarantees {
  import opened Options
  import opened Workflow
  import opened Store
  import opened History
  import opened Scheduling
  import opened RunView
  import opened Protocol
  import opened Simulation
  import opened Invariant

  // ----- history -----

  /**
   The event log tells everything: folding a run's events gives back its row and its tasks' rows, in
   every reachable state, and every task row of the run is among them.
   */
  lemma HistoryRecoversRun(fleet: Fleet, s: Sys, r: RunId)
    requires Reachable(fleet, s) && r in s.db.runs
    ensures Covered(s, r) && Recovers(Replay(HistoryOf(s.db.events, r)), ViewOf(s, r))
    ensures forall t | t in s.db.tasks && s.db.tasks[t].runID == r ::
              && 0 <= s.db.tasks[t].stepIndex < |ViewOf(s, r).rows|
              && ViewOf(s, r).ids[s.db.tasks[t].stepIndex] == t
              && ViewOf(s, r).rows[s.db.tasks[t].stepIndex] == s.db.tasks[t]
  {
    ReachableGood(fleet, s, r);
    forall t | t in s.db.tasks && s.db.tasks[t].runID == r
      ensures 0 <= s.db.tasks[t].stepIndex < |ViewOf(s, r).rows|
      ensures ViewOf(s, r).ids[s.db.tasks[t].stepIndex] == t
      ensures ViewOf(s, r).rows[s.db.tasks[t].stepIndex] == s.db.tasks[t]
    {
      InView(s, t);
    }
  }

  lemma NothingFollows(l: Ledger, e: Event)
    requires l.phase in {Finished, Stopped, Rejected}
    ensures Record(l, e).phase == Rejected
  {
  }

  lemma FinalPhase(l: Ledger, e: Event)
    requires e.typ == EventWorkflowCompleted || e.typ == EventWorkflowCancelled
    ensures Record(l, e).phase in {Finished, Stopped, Rejected}
  {
  }

  lemma {:induction false} PrefixAccepted(h: seq<Event>, n: nat)
    requires Replay(h).phase != Rejected && n <= |h|
    ensures Replay(h[..n]).phase != Rejected
    decreases |h|
  {
    if n < |h| {
      var g := h[..|h| - 1];
      if Replay(g).phase == Rejected {
        NothingFollows(Replay(g), h[|h| - 1]);
      }
      PrefixAccepted(g, n);
      assert g[..n] == h[..n];
    } else {
      assert h[..n] == h;
    }
  }

  lemma ReplayTwo(h: seq<Event>, i: int)
    requires 0 <= i < |h| - 1
    ensures Replay(h[..i + 2]) == Record(Record(Replay(h[..i]), h[i]), h[i + 1])
  {
    assert h[..i + 1] == h[..i] + [h[i]] && h[..i + 2] == h[..i + 1] + [h[i + 1]];
    ReplayAppend(h[..i], h[i]);
    ReplayAppend(h[..i + 1], h[i + 1]);
  }

  lemma FinalThenRejected(l: Ledger, e1: Event, e2: Event)
    requires e1.typ == EventWorkflowCompleted || e1.typ == EventWorkflowCancelled
    ensures Record(Record(l, e1), e2).phase == Rejected
  {
    FinalPhase(l, e1);
    NothingFollows(Record(l, e1), e2);
  }

  // In an accepted log, nothing follows completion or cancellation.
  lemma FinalIsLast(h: seq<Event>, i: int)
    requires 0 <= i < |h| && Replay(h).phase != Rejected
    requires h[i].typ == EventWorkflowCompleted || h[i].typ == EventWorkflowCancelled
    ensures i == |h| - 1
  {
    if i + 1 < |h| {
      PrefixAccepted(h, i + 2);
      ReplayTwo(h, i);
      FinalThenRejected(Replay(h[..i]), h[i], h[i + 1]);
    }
  }

  lemma RecoveredPhase(l: Ledger, v: View)
    requires Recovers(l, v)
    ensures l.phase != Rejected
  {
  }

  /** Completion and cancellation are the last event of any run's history they occur in. */
  lemma FinalEventIsLast(fleet: Fleet, s: Sys, r: RunId, i: int)
    requires Reachable(fleet, s) && r in s.db.runs && 0 <= i < |HistoryOf(s.db.events, r)|
    requires HistoryOf(s.db.events, r)[i].typ in {EventWorkflowCompleted, EventWorkflowCancelled}
    ensures i == |HistoryOf(s.db.events, r)| - 1
  {
    HistoryRecoversRun(fleet, s, r);
    RecoveredPhase(Replay(HistoryOf(s.db.events, r)), ViewOf(s, r));
    FinalIsLast(HistoryOf(s.db.events, r), i);
  }

  /** Each task has at most one ActivityCompleted event, whoever holds snapshots of it. */
  lemma NoDoubleAdvance(fleet: Fleet, s: Sys, t: TaskId)
    requires Reachable(fleet, s) && t in s.db.tasks
    ensures Count(HistoryOf(s.db.events, s.db.tasks[t].runID), EventActivityCompleted, t)
         == if s.db.tasks[t].status == TaskCompleted then 1 else 0
    ensures forall u | u in s.db.tasks && s.db.tasks[u].runID == s.db.tasks[t].runID
                       && s.db.tasks[u].stepIndex == s.db.tasks[t].stepIndex :: u == t
  {
    ReachableInv(fleet, s);
    InView(s, t);
    var v, i := ViewOf(s, s.db.tasks[t].runID), s.db.tasks[t].stepIndex;
    assert Good(fleet, v, s.db.now);
    assert TallyAt(v.history, v.ids[i], v.rows[i].status, v.grants[i]);
    forall u | u in s.db.tasks && s.db.tasks[u].runID == v.id && s.db.tasks[u].stepIndex == i
      ensures u == t
    {
      InView(s, u);
    }
  }

  /** A completed run completed every step once, in order, and then nothing more was logged. */
  lemma CompletedInOrder(fleet: Fleet, s: Sys, r: RunId)
    requires Reachable(fleet, s) && r in s.db.runs && s.db.runs[r].status == RunCompleted
    ensures var h, run := HistoryOf(s.db.events, r), s.db.runs[r];
            var done := Ids(h, EventActivityCompleted);
            && |done| == run.totalSteps == run.currentStep + 1
            && (forall i | 0 <= i < |done| ::
                 && done[i] in s.db.tasks
                 && s.db.tasks[done[i]].runID == r
                 && s.db.tasks[done[i]].stepIndex == i
                 && s.db.tasks[done[i]].status == TaskCompleted)
            && |h| > 0 && h[|h| - 1].typ == EventWorkflowCompleted
            && (forall i | 0 <= i < |h| && h[i].typ == EventWorkflowCompleted :: i == |h| - 1)
  {
    ReachableGood(fleet, s, r);
    var v := ViewOf(s, r);
    var h := v.history;
    CompletedPhase(Replay(h), v);
    FinishedLast(h);
    forall i | 0 <= i < |v.ids|
      ensures v.ids[i] in s.db.tasks && s.db.tasks[v.ids[i]] == v.rows[i]
    {
      assert Covered(s, r);
    }
    CompletedRows(fleet, v, s.db.now);
    forall i | 0 <= i < |h| && h[i].typ == EventWorkflowCompleted
      ensures i == |h| - 1
    {
      FinalIsLast(h, i);
    }
  }

  lemma CompletedPhase(l: Ledger, v: View)
    requires Recovers(l, v) && v.run.status == RunCompleted
    ensures l.phase == Finished
  {
  }

  lemma FinishedLast(h: seq<Event>)
    requires Replay(h).phase == Finished
    ensures |h| > 0 && h[|h| - 1].typ == EventWorkflowCompleted
  {
    if |h| > 0 {
      OnlyCompletionFinishes(Replay(h[..|h| - 1]), h[|h| - 1]);
    }
  }

  lemma OnlyCompletionFinishes(l: Ledger, e: Event)
    ensures Record(l, e).phase == Finished ==> e.typ == EventWorkflowCompleted
  {
  }

  lemma CompletedRows(fleet: Fleet, v: View, now: Time)
    requires Good(fleet, v, now) && v.run.status == RunCompleted
    ensures Ids(v.history, EventActivityCompleted) == v.ids && |v.ids| == v.run.totalSteps == v.run.currentStep + 1
    ensures |v.rows| == |v.ids|
    ensures forall i | 0 <= i < |v.rows| ::
              v.rows[i].status == TaskCompleted && v.rows[i].runID == v.id && v.rows[i].stepIndex == i
  {
    forall i | 0 <= i < |v.rows|
      ensures v.rows[i].status == TaskCompleted && v.rows[i].runID == v.id && v.rows[i].stepIndex == i
    {
      assert Fits(fleet, v, i);
    }
  }

  // ----- shape -----

  ghost predicate HasStep(s: Sys, r: RunId, i: int) {
    exists t :: t in s.db.tasks && s.db.tasks[t].runID == r && s.db.tasks[t].stepIndex == i
  }

  // A run's task rows are exactly the rows of its view.
  lemma RowsOfRun(s: Sys, r: RunId)
    requires Indexed(s) && r in s.db.runs
    ensures forall t | t in s.db.tasks && s.db.tasks[t].runID == r ::
              0 <= s.db.tasks[t].stepIndex < |ViewOf(s, r).rows| && ViewOf(s, r).rows[s.db.tasks[t].stepIndex] == s.db.tasks[t]
    ensures forall i | 0 <= i < |ViewOf(s, r).rows| :: HasStep(s, r, i)
  {
    forall t | t in s.db.tasks && s.db.tasks[t].runID == r
      ensures 0 <= s.db.tasks[t].stepIndex < |ViewOf(s, r).rows| && ViewOf(s, r).rows[s.db.tasks[t].stepIndex] == s.db.tasks[t]
    {
      InView(s, t);
    }
    forall i | 0 <= i < |ViewOf(s, r).rows|
      ensures HasStep(s, r, i)
    {
      var t := IdsOf(s, r)[i];
      assert Covered(s, r);
      assert t in s.db.tasks && s.db.tasks[t].runID == r && s.db.tasks[t].stepIndex == i;
    }
  }

  /**
   The tasks of a run are the steps 0..currentStep, all but the last completed, each fed by the
   result of the one before it (the first by the run's input).
   */
  lemma RunShape(fleet: Fleet, s: Sys, r: RunId)
    requires Reachable(fleet, s) && r in s.db.runs
    ensures var run := s.db.runs[r];
            && 0 <= run.currentStep < run.totalSteps
            && (forall t | t in s.db.tasks && s.db.tasks[t].runID == r ::
                 && 0 <= s.db.tasks[t].stepIndex <= run.currentStep
                 && (s.db.tasks[t].stepIndex < run.currentStep ==> s.db.tasks[t].status == TaskCompleted)
                 && (s.db.tasks[t].stepIndex == 0 ==> s.db.tasks[t].input == run.input))
            && (forall i | 0 <= i <= run.currentStep :: HasStep(s, r, i))
            && (forall t, u | t in s.db.tasks && u in s.db.tasks && s.db.tasks[t].runID == s.db.tasks[u].runID == r
                              && s.db.tasks[u].stepIndex == s.db.tasks[t].stepIndex + 1 ::
                 s.db.tasks[t].result == Some(s.db.tasks[u].input))
  {
    ReachableGood(fleet, s, r);
    RowsOfRun(s, r);
    ShapeFacts(fleet, ViewOf(s, r), s.db.now);
  }

  lemma ShapeFacts(fleet: Fleet, v: View, now: Time)
    requires Good(fleet, v, now)
    ensures 0 <= v.run.currentStep < v.run.totalSteps && |v.rows| == v.run.currentStep + 1
    ensures forall i | 0 <= i < v.run.currentStep ::
              v.rows[i].status == TaskCompleted && v.rows[i].result == Some(v.rows[i + 1].input)
    ensures v.rows[0].input == v.run.input
  {
  }

  /**
   In every reachable state a replay takes place exactly if its task is dead; it is then the protocol's,
   and puts that task back at the start of its attempts, due now, and changes no other row.
   */
  lemma ReplayTakesTheDead(fleet: Fleet, s: Sys, t: TaskId)
    requires Reachable(fleet, s)
    ensures ReplayTx(s.db, t).Some? <==> t in s.db.tasks && s.db.tasks[t].status == TaskDead
    ensures ReplayTx(s.db, t).Some? ==>
              && Enabled(fleet, s, ReplayDead(t))
              && var db' := Apply(fleet, s, ReplayDead(t)).db;
                 && ReplayTx(s.db, t) == Some(Commit(db'))
                 && db'.runs == s.db.runs && db'.tasks.Keys == s.db.tasks.Keys
                 && (forall u | u in s.db.tasks && u != t :: db'.tasks[u] == s.db.tasks[u])
                 && db'.tasks[t].status == TaskPending && db'.tasks[t].availableAt == s.db.now
                 && db'.tasks[t].attempt == 0 && db'.tasks[t].error == None
  {
    if ReplayTx(s.db, t).Some? {
      ReachableIndexed(fleet, s);
      assert Listed(s, t);
      assert Apply(fleet, s, ReplayDead(t)).db == ReplayTx(s.db, t).value.tables;
    }
  }

  // The step a task row belongs to: its run's workflow is registered and has that many steps.
  ghost predicate HasDefinition(fleet: Fleet, db: Tables, t: TaskId) {
    && t in db.tasks && db.tasks[t].runID in db.runs
    && db.runs[db.tasks[t].runID].workflowName in fleet.catalog.defs
    && 0 <= db.tasks[t].stepIndex < |fleet.catalog.defs[db.runs[db.tasks[t].runID].workflowName].steps|
  }

  ghost function StepOf(fleet: Fleet, db: Tables, t: TaskId): Step
    requires HasDefinition(fleet, db, t)
  {
    fleet.catalog.defs[db.runs[db.tasks[t].runID].workflowName].steps[db.tasks[t].stepIndex]
  }

  /**
   Every task row is its step's: a timer is tried once; an activity carries its name, and may be tried as
   often as the step says, or as the configuration does if the step says nothing.
   */
  lemma TaskIsItsStep(fleet: Fleet, s: Sys, t: TaskId)
    requires Reachable(fleet, s) && t in s.db.tasks
    ensures HasDefinition(fleet, s.db, t)
    ensures var row, step := s.db.tasks[t], StepOf(fleet, s.db, t);
            && (step.timer > 0 ==> row.kind == KindTimer && row.activityName == "__timer__" && row.maxAttempts == 1)
            && (step.timer <= 0 ==> row.kind == KindActivity && row.activityName == step.activity)
            && (step.timer <= 0 && step.maxAttempts > 0 ==> row.maxAttempts == step.maxAttempts)
            && (step.timer <= 0 && step.maxAttempts <= 0 ==> row.maxAttempts == fleet.cfg.defaultRetries)
  {
    ReachableInv(fleet, s);
    InView(s, t);
    ReachableGood(fleet, s, s.db.tasks[t].runID);
    RowFits(fleet, ViewOf(s, s.db.tasks[t].runID), s.db.tasks[t].stepIndex);
  }

  lemma RowFits(fleet: Fleet, v: View, i: int)
    requires Shaped(fleet, v) && 0 <= i < |v.rows|
    ensures i < |StepsOf(fleet, v)| && Fits(fleet, v, i)
  {
    assert AllFit(fleet, v);
  }

  // Steps of run q end at the one t is.
  lemma NoLaterStep(fleet: Fleet, s: Sys, t: TaskId)
    requires Indexed(s) && AtTop(fleet, s, t)
    ensures forall u | u in s.db.tasks && s.db.tasks[u].runID == s.db.tasks[t].runID ::
              s.db.tasks[u].stepIndex <= s.db.tasks[t].stepIndex
  {
    RowsOfRun(s, s.db.tasks[t].runID);
  }

  /** UNIQUE (run_id, step_index) never fires: past the fence only a repeated UUID stops an Advance. */
  lemma AdvanceFits(fleet: Fleet, s: Sys, l: Label)
    requires Reachable(fleet, s) && Enabled(fleet, s, l) && l.Advance?
    requires Fenced(s.db, s.hands[l.worker].id, fleet.owner(l.worker))
    ensures var cmd := AdvanceCmdOf(fleet, s, l);
            AdvanceTx(s.db, cmd).Commit? <==> (cmd.nextStep.Some? ==> cmd.nextStep.value.id !in s.db.tasks)
  {
    ReachableLands(fleet, s, l.worker);
    NoLaterStep(fleet, s, s.hands[l.worker].id);
    TopAdvanceFits(fleet, s, l);
  }

  lemma ReachableLands(fleet: Fleet, s: Sys, w: Worker)
    requires Reachable(fleet, s) && w in s.hands && Fenced(s.db, s.hands[w].id, fleet.owner(w))
    ensures Indexed(s) && OnTop(fleet, s, w)
  {
    ReachableInv(fleet, s);
    InvShaped(fleet, s);
    LandsOn(fleet, s, w);
  }

  lemma TopAdvanceFits(fleet: Fleet, s: Sys, l: Label)
    requires Indexed(s) && Enabled(fleet, s, l) && l.Advance? && OnTop(fleet, s, l.worker)
    requires Fenced(s.db, s.hands[l.worker].id, fleet.owner(l.worker))
    requires forall u | u in s.db.tasks && s.db.tasks[u].runID == s.hands[l.worker].task.runID ::
              s.db.tasks[u].stepIndex <= s.hands[l.worker].task.stepIndex
    ensures var cmd := AdvanceCmdOf(fleet, s, l);
            AdvanceTx(s.db, cmd).Commit? <==> (cmd.nextStep.Some? ==> cmd.nextStep.value.id !in s.db.tasks)
  {
  }

  // ----- meaning -----

  // Running the steps one after the other on an input may give this output.
  ghost predicate StraightLine(catalog: Catalog, steps: seq<Step>, input: Payload, output: Payload)
    decreases |steps|
  {
    if |steps| == 0 then input == output
    else exists mid :: Returns(catalog, steps[0], input, mid) && StraightLine(catalog, steps[1..], mid, output)
  }

  lemma {:induction false} Chain(catalog: Catalog, steps: seq<Step>, values: seq<Payload>)
    requires |values| == |steps| + 1
    requires forall i | 0 <= i < |steps| :: Returns(catalog, steps[i], values[i], values[i + 1])
    ensures StraightLine(catalog, steps, values[0], values[|steps|])
    decreases |steps|
  {
    if |steps| > 0 {
      assert Returns(catalog, steps[0], values[0], values[1]);
      forall i | 0 <= i < |steps[1..]|
        ensures Returns(catalog, steps[1..][i], values[1..][i], values[1..][i + 1])
      {
        assert Returns(catalog, steps[i + 1], values[i + 1], values[i + 2]);
      }
      Chain(catalog, steps[1..], values[1..]);
    }
  }

  // The values that flow through a run: its input, then the result of each completed step.
  ghost function Flow(v: View, n: nat): seq<Payload>
    requires n <= |v.rows| && forall i | 0 <= i < n :: v.rows[i].result.Some?
  {
    [v.run.input] + seq(n, i requires 0 <= i < n => v.rows[i].result.value)
  }

  lemma FlowIsStraight(fleet: Fleet, v: View, n: nat)
    requires Shaped(fleet, v) && n <= |v.rows|
    requires forall i | 0 <= i < n :: v.rows[i].status == TaskCompleted
    ensures forall i | 0 <= i < n :: v.rows[i].result.Some?
    ensures StraightLine(fleet.catalog, StepsOf(fleet, v)[..n], v.run.input, Flow(v, n)[n])
  {
    var steps, values := StepsOf(fleet, v)[..n], Flow(v, n);
    forall i | 0 <= i < n
      ensures Returns(fleet.catalog, steps[i], values[i], values[i + 1])
    {
      assert values[i + 1] == v.rows[i].result.value;
      assert values[i] == v.rows[i].input;
    }
    Chain(fleet.catalog, steps, values);
  }

  // Rows that each got a possible result and handed it on run straight from any of them to the last.
  lemma {:induction false} RowsAreStraight(catalog: Catalog, steps: seq<Step>, rows: seq<Task>, i: nat)
    requires |rows| == |steps| && i < |rows|
    requires forall j | 0 <= j < |rows| :: rows[j].result.Some? && Returns(catalog, steps[j], rows[j].input, rows[j].result.value)
    requires forall j | 0 <= j < |rows| - 1 :: rows[j].result == Some(rows[j + 1].input)
    ensures StraightLine(catalog, steps[i..], rows[i].input, rows[|rows| - 1].result.value)
    decreases |rows| - i
  {
    assert steps[i..][0] == steps[i] && steps[i..][1..] == steps[i + 1..];
    assert Returns(catalog, steps[i], rows[i].input, rows[i].result.value);
    var mid := rows[i].result.value;
    if i + 1 < |rows| {
      RowsAreStraight(catalog, steps, rows, i + 1);
      assert rows[i].result == Some(rows[i + 1].input);
    } else {
      assert StraightLine(catalog, steps[i + 1..], mid, mid);
    }
    assert Returns(catalog, steps[i..][0], rows[i].input, mid)
        && StraightLine(catalog, steps[i..][1..], mid, rows[|rows| - 1].result.value);
  }

  lemma SuffixIsStraight(fleet: Fleet, v: View, i: nat)
    requires Shaped(fleet, v) && v.run.status == RunCompleted && i < |v.rows|
    ensures v.run.result.Some?
    ensures StraightLine(fleet.catalog, StepsOf(fleet, v)[i..], v.rows[i].input, v.run.result.value)
  {
    forall j | 0 <= j < |v.rows|
      ensures v.rows[j].status == TaskCompleted
    {
    }
    RowsAreStraight(fleet.catalog, StepsOf(fleet, v), v.rows, i);
  }

  /**
   Meaning is preserved: a completed run's result is one that executing its definition step after
   step on its input could have given, however often handlers ran, crashed, retried or were replayed.
   */
  lemma CompletedMeansStraightLine(fleet: Fleet, s: Sys, r: RunId)
    requires Reachable(fleet, s) && r in s.db.runs && s.db.runs[r].status == RunCompleted
    ensures var run := s.db.runs[r];
            && run.workflowName in fleet.catalog.defs
            && run.result.Some?
            && StraightLine(fleet.catalog, fleet.catalog.defs[run.workflowName].steps, run.input, run.result.value)
  {
    ReachableGood(fleet, s, r);
    var v := ViewOf(s, r);
    SuffixIsStraight(fleet, v, 0);
    assert StepsOf(fleet, v)[0..] == StepsOf(fleet, v);
  }

  /** The same for a run under way: its current task's input is what the earlier steps compute. */
  lemma CurrentInputIsStraightLine(fleet: Fleet, s: Sys, t: TaskId)
    requires Reachable(fleet, s) && t in s.db.tasks
    ensures var task := s.db.tasks[t];
            && task.runID in s.db.runs
            && var run := s.db.runs[task.runID];
               && run.workflowName in fleet.catalog.defs
               && var steps := fleet.catalog.defs[run.workflowName].steps;
                  && 0 <= task.stepIndex < |steps|
                  && StraightLine(fleet.catalog, steps[..task.stepIndex], run.input, task.input)
  {
    ReachableIndexed(fleet, s);
    InView(s, t);
    ReachableGood(fleet, s, s.db.tasks[t].runID);
    InputIsStraight(fleet, ViewOf(s, s.db.tasks[t].runID), s.db.tasks[t].stepIndex);
  }

  lemma ReachableIndexed(fleet: Fleet, s: Sys)
    requires Reachable(fleet, s)
    ensures Indexed(s)
  {
    ReachableInv(fleet, s);
  }

  lemma InputIsStraight(fleet: Fleet, v: View, n: nat)
    requires Shaped(fleet, v) && n < |v.rows|
    ensures StraightLine(fleet.catalog, StepsOf(fleet, v)[..n], v.run.input, v.rows[n].input)
  {
    FlowIsStraight(fleet, v, n);
    assert Flow(v, n)[n] == v.rows[n].input;
  }

  // Handlers that compute a function of their input.
  ghost predicate Computes(catalog: Catalog, f: (string, Payload) -> Payload) {
    forall name, input, output | name in catalog.activities && catalog.activities[name](input, output) :: output == f(name, input)
  }

  ghost function Fold(f: (string, Payload) -> Payload, steps: seq<Step>, input: Payload): Payload
    decreases |steps|
  {
    if |steps| == 0 then input
    else Fold(f, steps[1..], if steps[0].timer > 0 then FIRED else f(steps[0].activity, input))
  }

  lemma {:induction false} StraightLineIsFold(catalog: Catalog, f: (string, Payload) -> Payload, steps: seq<Step>, input: Payload, output: Payload)
    requires Computes(catalog, f) && StraightLine(catalog, steps, input, output)
    ensures output == Fold(f, steps, input)
    decreases |steps|
  {
    if |steps| > 0 {
      var mid :| Returns(catalog, steps[0], input, mid) && StraightLine(catalog, steps[1..], mid, output);
      StraightLineIsFold(catalog, f, steps[1..], mid, output);
    }
  }

  /** With deterministic handlers a completed run's result is the fold of the steps over its input. */
  lemma CompletedIsFold(fleet: Fleet, f: (string, Payload) -> Payload, s: Sys, r: RunId)
    requires Computes(fleet.catalog, f)
    requires Reachable(fleet, s) && r in s.db.runs && s.db.runs[r].status == RunCompleted
    ensures var run := s.db.runs[r];
            && run.workflowName in fleet.catalog.defs
            && run.result == Some(Fold(f, fleet.catalog.defs[run.workflowName].steps, run.input))
  {
    CompletedMeansStraightLine(fleet, s, r);
    var run := s.db.runs[r];
    StraightLineIsFold(fleet.catalog, f, fleet.catalog.defs[run.workflowName].steps, run.input, run.result.value);
  }

  // ----- final runs -----

  ghost predicate Final(status: RunStatus) {
    status == RunCompleted || status == RunCancelled
  }

  lemma FinalOnlyStays(fleet: Fleet, v: View, a: Act, now: Time)
    requires Shaped(fleet, v) && Possible(fleet, v, a, now)
    ensures Final(v.run.status) ==> a == Stay
  {
  }

  /**
   Absorption: a completed or cancelled run never changes again. Its row, its tasks, its lease counts
   and its history are all as they were, whatever snapshots are still held.
   */
  lemma {:induction false} FinalForGood(fleet: Fleet, s: Sys, ls: seq<Label>, r: RunId)
    requires Reachable(fleet, s) && Feasible(fleet, s, ls)
    requires r in s.db.runs && Final(s.db.runs[r].status)
    ensures Covered(s, r) && Covered(End(fleet, s, ls), r)
    ensures ViewOf(End(fleet, s, ls), r) == ViewOf(s, r)
    decreases |ls|
  {
    ReachableIndexed(fleet, s);
    if |ls| > 0 {
      FinalStep(fleet, s, ls[0], r);
      ReachableStep(fleet, s, ls[0]);
      FinalForGood(fleet, Apply(fleet, s, ls[0]), ls[1..], r);
    }
  }

  lemma FinalStep(fleet: Fleet, s: Sys, l: Label, r: RunId)
    requires Reachable(fleet, s) && Enabled(fleet, s, l)
    requires r in s.db.runs && Final(s.db.runs[r].status)
    ensures Covered(s, r) && Covered(Apply(fleet, s, l), r) && ViewOf(Apply(fleet, s, l), r) == ViewOf(s, r)
  {
    ReachableGood(fleet, s, r);
    StepIsAnAct(fleet, s, l, r);
    FinalOnlyStays(fleet, ViewOf(s, r), ActOf(fleet, s, l, r), s.db.now);
  }

  /** A failed run is never running or cancelled again; it stays failed or completes. */
  lemma {:induction false} FailedStaysOrCompletes(fleet: Fleet, s: Sys, ls: seq<Label>, r: RunId)
    requires Reachable(fleet, s) && Feasible(fleet, s, ls)
    requires r in s.db.runs && s.db.runs[r].status == RunFailed
    ensures r in End(fleet, s, ls).db.runs
    ensures End(fleet, s, ls).db.runs[r].status in {RunFailed, RunCompleted}
    decreases |ls|
  {
    if |ls| > 0 {
      var s' := Apply(fleet, s, ls[0]);
      FailedStep(fleet, s, ls[0], r);
      ReachableStep(fleet, s, ls[0]);
      if s'.db.runs[r].status == RunFailed {
        FailedStaysOrCompletes(fleet, s', ls[1..], r);
      } else {
        FinalForGood(fleet, s', ls[1..], r);
      }
    }
  }

  /** Failed is left only by the Advance of the last step. */
  lemma FailedStep(fleet: Fleet, s: Sys, l: Label, r: RunId)
    requires Reachable(fleet, s) && Enabled(fleet, s, l)
    requires r in s.db.runs && s.db.runs[r].status == RunFailed
    ensures var s' := Apply(fleet, s, l);
            && r in s'.db.runs
            && s'.db.runs[r].status in {RunFailed, RunCompleted}
            && (s'.db.runs[r].status == RunCompleted ==>
                 l.Advance? && s.hands[l.worker].task.runID == r && AdvanceCmdOf(fleet, s, l).nextStep == None)
  {
    StepIsAnAct(fleet, s, l, r);
    FailedActs(fleet, s, l, r);
  }

  lemma FailedActs(fleet: Fleet, s: Sys, l: Label, r: RunId)
    requires Indexed(s) && Enabled(fleet, s, l) && r in s.db.runs && Mirrors(fleet, s, l, r)
    requires s.db.runs[r].status == RunFailed
    ensures var s' := Apply(fleet, s, l);
            && r in s'.db.runs
            && s'.db.runs[r].status == (if ActOf(fleet, s, l, r).Finish? then RunCompleted else RunFailed)
            && (ActOf(fleet, s, l, r).Finish? ==>
                 l.Advance? && s.hands[l.worker].task.runID == r && AdvanceCmdOf(fleet, s, l).nextStep == None)
  {
    assert ViewOf(Apply(fleet, s, l), r).run == Apply(fleet, s, l).db.runs[r];
  }

  // ----- timers -----

  /**
   Durable timers: a task is never leased before it is available, it is never available before its
   run began plus every timer up to and including its own step, and a run completes no earlier
   than its start plus all its timers.
   */
  lemma TimersAreWaitedFor(fleet: Fleet, s: Sys, r: RunId)
    requires Reachable(fleet, s) && r in s.db.runs
    ensures var run := s.db.runs[r];
            && r in s.begun
            && run.workflowName in fleet.catalog.defs
            && var steps := fleet.catalog.defs[run.workflowName].steps;
               && (forall t | t in s.db.tasks && s.db.tasks[t].runID == r ::
                    && 0 <= s.db.tasks[t].stepIndex < |steps|
                    && s.begun[r] + TimerSum(steps, s.db.tasks[t].stepIndex + 1) <= s.db.tasks[t].availableAt)
               && (forall t | t in s.db.tasks && s.db.tasks[t].runID == r && s.db.tasks[t].status == TaskLeased ::
                    s.db.tasks[t].availableAt <= s.db.tasks[t].updatedAt)
               && (run.status == RunCompleted ==> s.begun[r] + TimerSum(steps, |steps|) <= run.updatedAt)
  {
    ReachableGood(fleet, s, r);
    RowsOfRun(s, r);
    TimerFacts(fleet, ViewOf(s, r), s.db.now);
  }

  lemma TimerFacts(fleet: Fleet, v: View, now: Time)
    requires Good(fleet, v, now)
    ensures Known(fleet, v)
    ensures forall i | 0 <= i < |v.rows| :: v.begun + TimerSum(StepsOf(fleet, v), i + 1) <= v.rows[i].availableAt
    ensures forall i | 0 <= i < |v.rows| && v.rows[i].status == TaskLeased :: v.rows[i].availableAt <= v.rows[i].updatedAt
    ensures v.run.status == RunCompleted ==> v.begun + TimerSum(StepsOf(fleet, v), |StepsOf(fleet, v)|) <= v.run.updatedAt
  {
    assert forall i | 0 <= i < |v.rows| :: Due(fleet, v, i) <= v.rows[i].availableAt;
  }

  // ----- idempotent starts -----

  ghost predicate KeysUnique(s: Sys) {
    forall r, q | r in s.db.runs && q in s.db.runs && s.db.runs[r].idempotencyKey.Some?
                  && s.db.runs[r].idempotencyKey == s.db.runs[q].idempotencyKey :: r == q
  }

  lemma KeysStep(fleet: Fleet, s: Sys, l: Label)
    requires Inv(fleet, s) && Enabled(fleet, s, l) && KeysUnique(s)
    ensures KeysUnique(Apply(fleet, s, l))
  {
    var s' := Apply(fleet, s, l);
    forall r | r in s.db.runs
      ensures r in s'.db.runs && s'.db.runs[r].idempotencyKey == s.db.runs[r].idempotencyKey
    {
      Simulates(fleet, s, l, r);
      PerformFrame(fleet, ViewOf(s, r), ActOf(fleet, s, l, r), s.db.now);
      assert ViewOf(s', r).run == s'.db.runs[r];
    }
    forall r | r in s'.db.runs && r !in s.db.runs
      ensures l.CommitStart? && Creates(s, l.call) && s.calls[l.call].cmd.runID == r
      ensures s'.db.runs[r].idempotencyKey == s.calls[l.call].cmd.idempotencyKey
    {
      NewRuns(fleet, s, l, r);
    }
  }

  lemma {:induction false} KeysTrace(fleet: Fleet, s: Sys, ls: seq<Label>)
    requires Inv(fleet, s) && KeysUnique(s) && Feasible(fleet, s, ls)
    ensures KeysUnique(End(fleet, s, ls))
    decreases |ls|
  {
    if |ls| > 0 {
      KeysStep(fleet, s, ls[0]);
      InvStep(fleet, s, ls[0]);
      KeysTrace(fleet, Apply(fleet, s, ls[0]), ls[1..]);
    }
  }

  /** However many StartWorkflow calls race, an idempotency key names at most one run. */
  lemma OneRunPerKey(fleet: Fleet, s: Sys, r: RunId, q: RunId)
    requires Reachable(fleet, s) && r in s.db.runs && q in s.db.runs
    requires s.db.runs[r].idempotencyKey.Some? && s.db.runs[r].idempotencyKey == s.db.runs[q].idempotencyKey
    ensures r == q
  {
    var now, ls :| Reaches(fleet, now, ls, s);
    InvInitial(fleet, now);
    KeysTrace(fleet, Initial(now), ls);
  }
}
