/** The history tells what went wrong: each error column is the last failure logged and not replayed since. */
module Failures {
  import opened Options
  import opened Workflow
  import opened Store
  import opened History
  import opened Scheduling
  import opened RunView
  import opened Protocol
  import opened Simulation
  import opened Invariant
  import opened Guarantees
  import opened Accounting

  // The payload of t's last retry or dead letter, unless it was replayed since.
  ghost function LastFailure(history: seq<Event>, t: TaskId): Option<Payload> {
    if |history| == 0 then None
    else
      var e := history[|history| - 1];
      var before := LastFailure(history[..|history| - 1], t);
      if e.taskID != Some(t) then before
      else if e.typ == EventActivityRetried || e.typ == EventDeadLettered then Some(e.payload)
      else if e.typ == EventReplayed then None
      else before
  }

  // The payload of the last WorkflowFailed event.
  ghost function LastRunFailure(history: seq<Event>): Option<Payload> {
    if |history| == 0 then None
    else
      var e := history[|history| - 1];
      if e.typ == EventWorkflowFailed then Some(e.payload) else LastRunFailure(history[..|history| - 1])
  }

  // How an error column reads in a payload.
  ghost function Text(error: Option<string>): Option<Payload> {
    if error.Some? then Some("{\"error\":\"" + error.value + "\"}") else None
  }

  ghost predicate TaskTold(v: View, i: int)
    requires 0 <= i < |v.rows| == |v.ids|
  {
    LastFailure(v.history, v.ids[i]) == Text(v.rows[i].error)
  }

  ghost predicate Told(v: View)
    requires |v.rows| == |v.ids| > 0
  {
    && (forall i | 0 <= i < |v.rows| :: TaskTold(v, i))
    && (forall t | t !in v.ids :: LastFailure(v.history, t) == None)
    && LastRunFailure(v.history) == Text(v.run.error)
    && (v.rows[Top(v)].status == TaskDead ==> v.rows[Top(v)].error.Some? && v.run.error == v.rows[Top(v)].error)
  }

  lemma OneMoreEvent(h: seq<Event>, e: Event, t: TaskId)
    ensures LastFailure(h + [e], t)
         == if e.taskID != Some(t) then LastFailure(h, t)
            else if e.typ == EventActivityRetried || e.typ == EventDeadLettered then Some(e.payload)
            else if e.typ == EventReplayed then None
            else LastFailure(h, t)
    ensures LastRunFailure(h + [e]) == if e.typ == EventWorkflowFailed then Some(e.payload) else LastRunFailure(h)
  {
    assert (h + [e])[..|h|] == h;
  }

  // What an act adds to the history.
  ghost function Logged(fleet: Fleet, v: View, a: Act, now: Time): (es: seq<Event>)
    requires Possible(fleet, v, a, now)
    ensures Perform(fleet, v, a, now).history == v.history + es && |es| <= 2
  {
    var h := Perform(fleet, v, a, now).history;
    h[|v.history|..]
  }

  // After an act, as far as the history goes: only the current task's last failure, and the run's, can change.
  lemma FailuresAfter(fleet: Fleet, v: View, a: Act, now: Time, t: TaskId)
    requires Possible(fleet, v, a, now)
    ensures var w, current := Perform(fleet, v, a, now), t == v.ids[Top(v)];
            && LastFailure(w.history, t)
               == (if current && (a.Retry? || a.Bury?) then Text(Some(a.msg))
                   else if current && a.Revive? then None
                   else LastFailure(v.history, t))
            && LastRunFailure(w.history) == if a.Bury? then Text(Some(a.msg)) else LastRunFailure(v.history)
  {
    var h, es := v.history, Logged(fleet, v, a, now);
    if |es| > 0 {
      OneMoreEvent(h, es[0], t);
      if |es| > 1 {
        OneMoreEvent(h + [es[0]], es[1], t);
        assert h + es == h + [es[0]] + [es[1]];
      } else {
        assert h + es == h + [es[0]];
      }
    } else {
      assert h + es == h;
    }
  }

  lemma PerformTold(fleet: Fleet, v: View, a: Act, now: Time)
    requires Shaped(fleet, v) && Told(v) && Possible(fleet, v, a, now)
    ensures Told(Perform(fleet, v, a, now))
  {
    var w := Perform(fleet, v, a, now);
    assert TaskTold(v, Top(v));
    forall i | 0 <= i < |w.rows|
      ensures TaskTold(w, i)
    {
      FailuresAfter(fleet, v, a, now, w.ids[i]);
      if i < |v.rows| {
        assert TaskTold(v, i) && w.ids[i] == v.ids[i];
      }
    }
    forall t | t !in w.ids
      ensures LastFailure(w.history, t) == None
    {
      assert v.ids <= w.ids;
      FailuresAfter(fleet, v, a, now, t);
    }
    FailuresAfter(fleet, v, a, now, v.ids[Top(v)]);
  }

  ghost predicate RunTold(fleet: Fleet, s: Sys, r: RunId) {
    Indexed(s) && r in s.db.runs && Known(fleet, ViewOf(s, r)) && Told(ViewOf(s, r))
  }

  lemma OpeningTold(id: RunId, cmd: StartRunCmd, begun: Time, now: Time)
    ensures Told(Opening(id, cmd, begun, now))
  {
    var v := Opening(id, cmd, begun, now);
    var e1, e2 := v.history[0], v.history[1];
    assert v.history == [] + [e1] + [e2];
    forall t
      ensures LastFailure(v.history, t) == None && LastRunFailure(v.history) == None
    {
      OneMoreEvent([], e1, t);
      OneMoreEvent([] + [e1], e2, t);
    }
  }

  lemma ToldStep(fleet: Fleet, s: Sys, l: Label, r: RunId)
    requires Reachable(fleet, s) && Enabled(fleet, s, l) && r in Apply(fleet, s, l).db.runs
    requires r in s.db.runs ==> RunTold(fleet, s, r)
    ensures RunTold(fleet, Apply(fleet, s, l), r)
  {
    ReachableStep(fleet, s, l);
    ReachableGood(fleet, Apply(fleet, s, l), r);
    if r in s.db.runs {
      ReachableGood(fleet, s, r);
      StepIsAnAct(fleet, s, l, r);
      PerformTold(fleet, ViewOf(s, r), ActOf(fleet, s, l, r), s.db.now);
    } else {
      NewRuns(fleet, s, l, r);
      OpeningOf(fleet, s, l.call);
      OpeningTold(r, s.calls[l.call].cmd, s.calls[l.call].stamp, s.db.now);
    }
  }

  lemma {:induction false} ToldTrace(fleet: Fleet, s: Sys, ls: seq<Label>, r: RunId)
    requires Reachable(fleet, s) && Feasible(fleet, s, ls) && r in End(fleet, s, ls).db.runs
    requires r in s.db.runs ==> RunTold(fleet, s, r)
    ensures RunTold(fleet, End(fleet, s, ls), r)
    decreases |ls|
  {
    if |ls| > 0 {
      ReachableStep(fleet, s, ls[0]);
      if r in Apply(fleet, s, ls[0]).db.runs {
        ToldStep(fleet, s, ls[0], r);
      }
      ToldTrace(fleet, Apply(fleet, s, ls[0]), ls[1..], r);
    }
  }

  lemma DeadIsLast(fleet: Fleet, s: Sys, t: TaskId)
    requires Reachable(fleet, s) && t in s.db.tasks && s.db.tasks[t].status == TaskDead
    ensures s.db.tasks[t].runID in s.db.runs && Covered(s, s.db.tasks[t].runID)
    ensures s.db.tasks[t].stepIndex == Top(ViewOf(s, s.db.tasks[t].runID))
  {
    ReachableInv(fleet, s);
    InView(s, t);
    ReachableGood(fleet, s, s.db.tasks[t].runID);
    DeadOnTop(fleet, ViewOf(s, s.db.tasks[t].runID), s.db.tasks[t].stepIndex);
  }

  lemma DeadOnTop(fleet: Fleet, v: View, i: int)
    requires Shaped(fleet, v) && 0 <= i < |v.rows| && v.rows[i].status == TaskDead
    ensures i == Top(v)
  {
  }

  lemma ReachableTold(fleet: Fleet, s: Sys, r: RunId)
    requires Reachable(fleet, s) && r in s.db.runs
    ensures RunTold(fleet, s, r)
  {
    var now, ls :| Reaches(fleet, now, ls, s);
    InitialReachable(fleet, now);
    ToldTrace(fleet, Initial(now), ls, r);
  }

  /**
   In every reachable state a task's error is the message of its last retry or dead letter, unless it was
   replayed since, and a run's error that of its last failure; a dead task and its run tell the same.
   */
  lemma FailuresAreTold(fleet: Fleet, s: Sys, r: RunId)
    requires Reachable(fleet, s) && r in s.db.runs
    ensures LastRunFailure(HistoryOf(s.db.events, r)) == Text(s.db.runs[r].error)
    ensures forall t | t in s.db.tasks && s.db.tasks[t].runID == r ::
              && LastFailure(HistoryOf(s.db.events, r), t) == Text(s.db.tasks[t].error)
              && (s.db.tasks[t].status == TaskDead ==> s.db.tasks[t].error.Some? && s.db.runs[r].error == s.db.tasks[t].error)
  {
    ReachableTold(fleet, s, r);
    var v := ViewOf(s, r);
    forall t | t in s.db.tasks && s.db.tasks[t].runID == r
      ensures LastFailure(v.history, t) == Text(s.db.tasks[t].error)
      ensures s.db.tasks[t].status == TaskDead ==> s.db.tasks[t].error.Some? && s.db.runs[r].error == s.db.tasks[t].error
    {
      InView(s, t);
      assert TaskTold(v, s.db.tasks[t].stepIndex);
      if s.db.tasks[t].status == TaskDead {
        DeadIsLast(fleet, s, t);
      }
    }
  }
}
