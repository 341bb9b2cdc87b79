/**
 How often a task can be leased, and why a run goes quiet: each retry uses up a hand whose snapshot
 still had attempts left, and a round of max_attempts grants only so many of those. Owner names play
 no part in it.
 */
module Termination {
  import opened Options
  import opened Workflow
  import opened Store
  import opened History
  import opened Scheduling
  import opened RunView
  import opened Protocol
  import opened Simulation
  import opened Invariant
  import opened Guarantees
  import opened Fencing
  import opened Conservation
  import opened Queue
  import opened Accounting

  // Hands on t whose holder would retry it, were its handler to fail.
  ghost function LowHands(s: Sys, t: TaskId): set<Worker> {
    set w | w in s.hands && s.hands[w].id == t && s.hands[w].task.attempt < s.hands[w].task.maxAttempts
  }

  // Leases of the current round that can still put t into such a hand.
  ghost function Unused(row: Task): nat {
    if row.attempt + 1 < row.maxAttempts then row.maxAttempts - 1 - row.attempt else 0
  }

  ghost function Logged(s: Sys, typ: EventType, t: TaskId): nat
    requires t in s.db.tasks
  {
    Count(HistoryOf(s.db.events, s.db.tasks[t].runID), typ, t)
  }

  // Retries made, hands that may still retry, and leases that may still fill one: no more than
  // max_attempts - 1 for the first round and each replay.
  ghost predicate Allotted(s: Sys, t: TaskId)
    requires t in s.db.tasks
  {
    var row := s.db.tasks[t];
    Logged(s, EventActivityRetried, t) + |LowHands(s, t)| + Unused(row)
      <= (row.maxAttempts - 1) * (1 + Logged(s, EventReplayed, t))
  }

  // ----- what an act does to one task -----

  lemma RowAfter(fleet: Fleet, v: View, a: Act, now: Time, i: int)
    requires Possible(fleet, v, a, now) && 0 <= i < |v.rows|
    ensures var w := Perform(fleet, v, a, now);
            && i < |w.rows| && w.rows[i].maxAttempts == v.rows[i].maxAttempts
            && w.rows[i].attempt == if i < Top(v) then v.rows[i].attempt
                                    else if a.Lease? then v.rows[i].attempt + 1
                                    else if a.Revive? then 0 else v.rows[i].attempt
  {
  }

  lemma CountTwo(h: seq<Event>, e1: Event, e2: Event, typ: EventType, t: TaskId)
    ensures Count(h + [e1] + [e2], typ, t)
         == Count(h, typ, t) + (if e1.typ == typ && e1.taskID == Some(t) then 1 else 0)
                             + (if e2.typ == typ && e2.taskID == Some(t) then 1 else 0)
  {
    CountAppend(h, e1, typ, t);
    CountAppend(h + [e1], e2, typ, t);
  }

  lemma LogAfter(fleet: Fleet, v: View, a: Act, now: Time, i: int)
    requires Possible(fleet, v, a, now) && 0 <= i < |v.rows|
    requires i < Top(v) ==> v.ids[i] != v.ids[Top(v)]
    ensures var h, t := Perform(fleet, v, a, now).history, v.ids[i];
            && Count(h, EventActivityRetried, t) == Count(v.history, EventActivityRetried, t) + (if i == Top(v) && a.Retry? then 1 else 0)
            && Count(h, EventReplayed, t) == Count(v.history, EventReplayed, t) + (if i == Top(v) && a.Revive? then 1 else 0)
  {
    var h, n, t := Perform(fleet, v, a, now).history, |v.history|, v.ids[i];
    if |h| == n + 1 {
      CountAppend(v.history, h[n], EventActivityRetried, t);
      CountAppend(v.history, h[n], EventReplayed, t);
    } else if |h| == n + 2 {
      assert h == v.history + [h[n]] + [h[n + 1]];
      CountTwo(v.history, h[n], h[n + 1], EventActivityRetried, t);
      CountTwo(v.history, h[n], h[n + 1], EventReplayed, t);
    }
  }

  // Task t is the current one of its run.
  ghost predicate Current(s: Sys, t: TaskId)
    requires Indexed(s) && t in s.db.tasks
  {
    s.db.tasks[t].runID in s.db.runs && s.db.tasks[t].stepIndex == Top(ViewOf(s, s.db.tasks[t].runID))
  }

  ghost function ActOn(fleet: Fleet, s: Sys, l: Label, t: TaskId): Act
    requires Enabled(fleet, s, l) && t in s.db.tasks
  {
    ActOf(fleet, s, l, s.db.tasks[t].runID)
  }

  lemma ViewIs(s: Sys, t: TaskId)
    requires Indexed(s) && t in s.db.tasks
    ensures s.db.tasks[t].runID in s.db.runs
    ensures var v, i := ViewOf(s, s.db.tasks[t].runID), s.db.tasks[t].stepIndex;
            && 0 <= i < |v.rows| == |v.ids| && v.ids[i] == t && v.rows[i] == s.db.tasks[t]
            && v.history == HistoryOf(s.db.events, s.db.tasks[t].runID)
  {
    InView(s, t);
  }

  lemma DistinctIds(fleet: Fleet, v: View, i: int)
    requires Shaped(fleet, v) && 0 <= i < Top(v)
    ensures v.ids[i] != v.ids[Top(v)]
  {
  }

  lemma TaskStep(fleet: Fleet, s: Sys, l: Label, t: TaskId)
    requires Reachable(fleet, s) && Enabled(fleet, s, l) && t in s.db.tasks
    ensures Indexed(s) && t in Apply(fleet, s, l).db.tasks
    ensures var s', row, a := Apply(fleet, s, l), s.db.tasks[t], ActOn(fleet, s, l, t);
            var row' := s'.db.tasks[t];
            && row'.runID == row.runID && row'.maxAttempts == row.maxAttempts
            && row'.attempt == (if !Current(s, t) then row.attempt else if a.Lease? then row.attempt + 1
                                else if a.Revive? then 0 else row.attempt)
            && Logged(s', EventActivityRetried, t) == Logged(s, EventActivityRetried, t) + (if Current(s, t) && a.Retry? then 1 else 0)
            && Logged(s', EventReplayed, t) == Logged(s, EventReplayed, t) + (if Current(s, t) && a.Revive? then 1 else 0)
  {
    ReachableIndexed(fleet, s);
    ViewIs(s, t);
    RunStep(fleet, s, l, s.db.tasks[t].runID, s.db.tasks[t].stepIndex);
    StillThere(s, Apply(fleet, s, l), t);
    ReachableStep(fleet, s, l);
    SameRun(fleet, s, l, t);
  }

  lemma SameRun(fleet: Fleet, s: Sys, l: Label, t: TaskId)
    requires Enabled(fleet, s, l) && t in s.db.tasks && t in Apply(fleet, s, l).db.tasks
    ensures Apply(fleet, s, l).db.tasks[t].runID == s.db.tasks[t].runID
  {
    RowMoves(fleet, s, l, t);
    if l.Advance? && AdvanceTx(s.db, AdvanceCmdOf(fleet, s, l)).Commit? {
      AdvanceRow(s.db, AdvanceCmdOf(fleet, s, l), t);
    } else if l.Fail? {
      FailKeeps(fleet, s.db, s.hands[l.worker], fleet.owner(l.worker), l.msg, l.delay, l.stamp);
    }
  }

  // The same for a run's view, before and after.
  lemma RunStep(fleet: Fleet, s: Sys, l: Label, r: RunId, i: int)
    requires Reachable(fleet, s) && Enabled(fleet, s, l) && r in s.db.runs
    requires Covered(s, r) && 0 <= i < |ViewOf(s, r).rows| == |ViewOf(s, r).ids|
    ensures Covered(Apply(fleet, s, l), r)
    ensures var v, w, a, t := ViewOf(s, r), ViewOf(Apply(fleet, s, l), r), ActOf(fleet, s, l, r), ViewOf(s, r).ids[i];
            && r in Apply(fleet, s, l).db.runs && v.ids <= w.ids
            && i < |w.rows| && w.rows[i].maxAttempts == v.rows[i].maxAttempts
            && w.rows[i].attempt == (if i < Top(v) then v.rows[i].attempt
                                     else if a.Lease? then v.rows[i].attempt + 1
                                     else if a.Revive? then 0 else v.rows[i].attempt)
            && Count(w.history, EventActivityRetried, t) == Count(v.history, EventActivityRetried, t) + (if i == Top(v) && a.Retry? then 1 else 0)
            && Count(w.history, EventReplayed, t) == Count(v.history, EventReplayed, t) + (if i == Top(v) && a.Revive? then 1 else 0)
  {
    ReachableGood(fleet, s, r);
    StepIsAnAct(fleet, s, l, r);
    ViewStep(fleet, ViewOf(s, r), ActOf(fleet, s, l, r), s.db.now, i);
    PerformFrame(fleet, ViewOf(s, r), ActOf(fleet, s, l, r), s.db.now);
  }

  lemma ViewStep(fleet: Fleet, v: View, a: Act, now: Time, i: int)
    requires Shaped(fleet, v) && Possible(fleet, v, a, now) && 0 <= i < |v.rows|
    ensures var w, t := Perform(fleet, v, a, now), v.ids[i];
            && i < |w.rows| && w.rows[i].maxAttempts == v.rows[i].maxAttempts
            && w.rows[i].attempt == (if i < Top(v) then v.rows[i].attempt
                                     else if a.Lease? then v.rows[i].attempt + 1
                                     else if a.Revive? then 0 else v.rows[i].attempt)
            && Count(w.history, EventActivityRetried, t) == Count(v.history, EventActivityRetried, t) + (if i == Top(v) && a.Retry? then 1 else 0)
            && Count(w.history, EventReplayed, t) == Count(v.history, EventReplayed, t) + (if i == Top(v) && a.Revive? then 1 else 0)
  {
    if i < Top(v) {
      DistinctIds(fleet, v, i);
    }
    RowAfter(fleet, v, a, now, i);
    LogAfter(fleet, v, a, now, i);
  }

  // ----- and to the hands on it -----

  // A retry comes from a low hand on the task; a lease goes to the task it is an act on.
  lemma ActMeans(fleet: Fleet, s: Sys, l: Label, t: TaskId)
    requires Reachable(fleet, s) && Enabled(fleet, s, l) && t in s.db.tasks
    ensures Indexed(s)
    ensures Current(s, t) && ActOn(fleet, s, l, t).Retry? ==> l.Fail? && l.worker in LowHands(s, t)
    ensures l.LeaseNext? && l.task == t ==> Current(s, t) && ActOn(fleet, s, l, t).Lease?
  {
    ReachableIndexed(fleet, s);
    ViewIs(s, t);
    if l.LeaseNext? && l.task == t {
      OpenOnTop(fleet, s, t);
    } else if l.Fail? && Lands(fleet, s, l) {
      ReachableLands(fleet, s, l.worker);
    }
  }

  lemma OpenOnTop(fleet: Fleet, s: Sys, t: TaskId)
    requires Reachable(fleet, s) && t in s.db.tasks && s.db.tasks[t].status in {TaskPending, TaskLeased, TaskDead}
    ensures Indexed(s) && AtTop(fleet, s, t)
  {
    ReachableInv(fleet, s);
    InvShaped(fleet, s);
    OpenIsLast(fleet, s, t);
  }

  lemma LowHandsAfter(fleet: Fleet, s: Sys, l: Label, t: TaskId)
    requires Enabled(fleet, s, l) && t in s.db.tasks
    ensures !(l.LeaseNext? && l.task == t) ==> LowHands(Apply(fleet, s, l), t) <= LowHands(s, t)
    ensures l.LeaseNext? && l.task == t ==>
              (LowHands(Apply(fleet, s, l), t)
                 <= LowHands(s, t) + (if s.db.tasks[t].attempt + 1 < s.db.tasks[t].maxAttempts then {l.worker} else {}))
    ensures l.Fail? ==> l.worker !in LowHands(Apply(fleet, s, l), t)
  {
  }

  lemma LowStep(fleet: Fleet, s: Sys, l: Label, t: TaskId)
    requires Reachable(fleet, s) && Enabled(fleet, s, l) && t in s.db.tasks
    ensures Indexed(s)
    ensures var row, a := s.db.tasks[t], ActOn(fleet, s, l, t);
            |LowHands(Apply(fleet, s, l), t)| + (if Current(s, t) && a.Retry? then 1 else 0)
              <= |LowHands(s, t)| + (if Current(s, t) && a.Lease? && row.attempt + 1 < row.maxAttempts then 1 else 0)
  {
    var s' := Apply(fleet, s, l);
    ActMeans(fleet, s, l, t);
    LowHandsAfter(fleet, s, l, t);
    if l.LeaseNext? && l.task == t {
      if s.db.tasks[t].attempt + 1 < s.db.tasks[t].maxAttempts {
        SmallerBut(LowHands(s', t), LowHands(s, t), l.worker);
      } else {
        Smaller(LowHands(s', t), LowHands(s, t));
      }
    } else if Current(s, t) && ActOn(fleet, s, l, t).Retry? {
      SmallerWithout(LowHands(s', t), LowHands(s, t), l.worker);
    } else {
      Smaller(LowHands(s', t), LowHands(s, t));
    }
  }

  // ----- the allotment is kept -----

  lemma AllotmentKept(retried: int, low: int, unused: int, retried': int, low': int, unused': int, max: int, replays: int, replays': int)
    requires retried + low + unused <= (max - 1) * (1 + replays)
    requires (replays' == replays && retried' + low' + unused' <= retried + low + unused)
          || (replays' == replays + 1 && retried' + low' <= retried + low && unused' <= max - 1 && unused >= 0)
    ensures retried' + low' + unused' <= (max - 1) * (1 + replays')
  {
    if replays' == replays + 1 {
      assert (max - 1) * (1 + replays') == (max - 1) * (1 + replays) + (max - 1);
    }
  }

  // What the current lease, retry or replay of a task does to its three counts.
  lemma CountsMove(row: Task, row': Task, retried: int, low: int, retried': int, low': int, lease: bool, retry: bool, replay: bool)
    requires row'.maxAttempts == row.maxAttempts > 0 && !(lease && (retry || replay)) && !(retry && replay)
    requires row'.attempt == if lease then row.attempt + 1 else if replay then 0 else row.attempt
    requires retried' == retried + if retry then 1 else 0
    requires low' + (if retry then 1 else 0) <= low + if lease && row.attempt + 1 < row.maxAttempts then 1 else 0
    ensures !replay ==> retried' + low' + Unused(row') <= retried + low + Unused(row)
    ensures replay ==> retried' + low' <= retried + low && Unused(row') <= row.maxAttempts - 1
  {
  }

  lemma AttemptsAreSome(fleet: Fleet, s: Sys, t: TaskId)
    requires Sound(fleet) && Reachable(fleet, s) && t in s.db.tasks
    ensures s.db.tasks[t].maxAttempts > 0
  {
    ReachableIndexed(fleet, s);
    ViewIs(s, t);
    ReachableGood(fleet, s, s.db.tasks[t].runID);
    PositiveAttempts(fleet, ViewOf(s, s.db.tasks[t].runID), s.db.tasks[t].stepIndex);
  }

  lemma AllotStep(fleet: Fleet, s: Sys, l: Label, t: TaskId)
    requires Sound(fleet) && Reachable(fleet, s) && Enabled(fleet, s, l) && t in s.db.tasks && Allotted(s, t)
    ensures t in Apply(fleet, s, l).db.tasks && Allotted(Apply(fleet, s, l), t)
  {
    var s', row := Apply(fleet, s, l), s.db.tasks[t];
    TaskStep(fleet, s, l, t);
    LowStep(fleet, s, l, t);
    AttemptsAreSome(fleet, s, t);
    var a, top := ActOn(fleet, s, l, t), Current(s, t);
    AllotmentMoves(s, s', t, top && a.Lease?, top && a.Retry?, top && a.Revive?);
  }

  lemma AllotmentMoves(s: Sys, s': Sys, t: TaskId, lease: bool, retry: bool, replay: bool)
    requires t in s.db.tasks && t in s'.db.tasks && Allotted(s, t)
    requires s'.db.tasks[t].maxAttempts == s.db.tasks[t].maxAttempts > 0 && !(lease && (retry || replay)) && !(retry && replay)
    requires s'.db.tasks[t].attempt == if lease then s.db.tasks[t].attempt + 1 else if replay then 0 else s.db.tasks[t].attempt
    requires Logged(s', EventActivityRetried, t) == Logged(s, EventActivityRetried, t) + if retry then 1 else 0
    requires Logged(s', EventReplayed, t) == Logged(s, EventReplayed, t) + if replay then 1 else 0
    requires |LowHands(s', t)| + (if retry then 1 else 0)
               <= |LowHands(s, t)| + if lease && s.db.tasks[t].attempt + 1 < s.db.tasks[t].maxAttempts then 1 else 0
    ensures Allotted(s', t)
  {
    var row, row' := s.db.tasks[t], s'.db.tasks[t];
    CountsMove(row, row', Logged(s, EventActivityRetried, t), |LowHands(s, t)|,
               Logged(s', EventActivityRetried, t), |LowHands(s', t)|, lease, retry, replay);
    AllotmentKept(Logged(s, EventActivityRetried, t), |LowHands(s, t)|, Unused(row),
                  Logged(s', EventActivityRetried, t), |LowHands(s', t)|, Unused(row'),
                  row.maxAttempts, Logged(s, EventReplayed, t), Logged(s', EventReplayed, t));
  }

  // A task no lease was granted of: nothing is logged of it, and nobody holds it.
  lemma NeverLeased(fleet: Fleet, s: Sys, t: TaskId)
    requires Reachable(fleet, s) && t in s.db.tasks && t in s.leases && s.leases[t] == 0 && s.db.tasks[t].status == TaskPending
    ensures Logged(s, EventActivityRetried, t) == 0 && LowHands(s, t) == {}
  {
    LeasesAreLogged(fleet, s, t);
    forall w | w in s.hands
      ensures s.hands[w].id != t
    {
      HeldWasLeased(fleet, s, w);
    }
  }

  lemma HeldWasLeased(fleet: Fleet, s: Sys, w: Worker)
    requires Reachable(fleet, s) && w in s.hands
    ensures s.hands[w].id in s.leases && s.leases[s.hands[w].id] >= 1
  {
    ReachableInv(fleet, s);
    assert HandGood(fleet, s, w);
  }

  lemma NewRowFresh(fleet: Fleet, s: Sys, l: Label, t: TaskId)
    requires Enabled(fleet, s, l) && t !in s.db.tasks && t in Apply(fleet, s, l).db.tasks
    ensures var s' := Apply(fleet, s, l);
            t in s'.leases && s'.leases[t] == 0 && s'.db.tasks[t].status == TaskPending && s'.db.tasks[t].attempt == 0
  {
    NewTasksPending(fleet, s, l, t);
    if l.Advance? {
      AdvanceFresh(fleet, s, l, t);
    } else {
      StartFresh(s, l.call, t);
    }
  }

  lemma StartFresh(s: Sys, c: int, t: TaskId)
    requires c in s.calls && t !in s.db.tasks && t in Started(s, c).db.tasks
    ensures var s' := Started(s, c);
            t in s'.leases && s'.leases[t] == 0 && s'.db.tasks[t].status == TaskPending && s'.db.tasks[t].attempt == 0
  {
  }

  lemma AdvanceFresh(fleet: Fleet, s: Sys, l: Label, t: TaskId)
    requires Enabled(fleet, s, l) && l.Advance? && t !in s.db.tasks && t in Apply(fleet, s, l).db.tasks
    ensures var s' := Apply(fleet, s, l);
            t in s'.leases && s'.leases[t] == 0 && s'.db.tasks[t].attempt == 0
  {
    AdvanceFreshRow(s.db, AdvanceCmdOf(fleet, s, l), t);
  }

  lemma AdvanceFreshRow(db: Tables, cmd: AdvanceCmd, t: TaskId)
    requires AdvanceTx(db, cmd).Commit? && t !in db.tasks && t in AdvanceTx(db, cmd).tables.tasks
    ensures Fenced(db, cmd.taskID, cmd.owner) && cmd.nextStep.Some? && cmd.nextStep.value.id == t
    ensures AdvanceTx(db, cmd).tables.tasks[t].attempt == 0
  {
  }

  lemma NewAllotted(fleet: Fleet, s: Sys, l: Label, t: TaskId)
    requires Sound(fleet) && Reachable(fleet, s) && Enabled(fleet, s, l) && t !in s.db.tasks && t in Apply(fleet, s, l).db.tasks
    ensures Allotted(Apply(fleet, s, l), t)
  {
    var s' := Apply(fleet, s, l);
    NewRowFresh(fleet, s, l, t);
    ReachableStep(fleet, s, l);
    NeverLeased(fleet, s', t);
    AttemptsAreSome(fleet, s', t);
    FreshAllotted(s', t);
  }

  lemma FreshAllotted(s: Sys, t: TaskId)
    requires t in s.db.tasks && s.db.tasks[t].attempt == 0 && s.db.tasks[t].maxAttempts > 0
    requires Logged(s, EventActivityRetried, t) == 0 && LowHands(s, t) == {}
    ensures Allotted(s, t)
  {
    var m, n := s.db.tasks[t].maxAttempts - 1, Logged(s, EventReplayed, t);
    assert m * (1 + n) == m + m * n;
  }

  ghost predicate HasAllotment(s: Sys, t: TaskId) {
    t in s.db.tasks ==> Allotted(s, t)
  }

  lemma {:induction false} AllotTrace(fleet: Fleet, s: Sys, ls: seq<Label>, t: TaskId)
    requires Sound(fleet) && Reachable(fleet, s) && Feasible(fleet, s, ls) && HasAllotment(s, t)
    ensures HasAllotment(End(fleet, s, ls), t)
    decreases |ls|
  {
    if |ls| > 0 {
      ReachableStep(fleet, s, ls[0]);
      if t in s.db.tasks {
        AllotStep(fleet, s, ls[0], t);
      } else if t in Apply(fleet, s, ls[0]).db.tasks {
        NewAllotted(fleet, s, ls[0], t);
      }
      AllotTrace(fleet, Apply(fleet, s, ls[0]), ls[1..], t);
    }
  }

  lemma ReachableAllotted(fleet: Fleet, s: Sys, t: TaskId)
    requires Sound(fleet) && Reachable(fleet, s) && t in s.db.tasks
    ensures Allotted(s, t)
  {
    var now, ls :| Reaches(fleet, now, ls, s);
    InitialReachable(fleet, now);
    AllotTrace(fleet, Initial(now), ls, t);
  }

  /**
   Execution bound, for any owner names: a task is leased at most max_attempts * (1 + replays) + reclaims
   times.
   */
  lemma LeasesBounded(fleet: Fleet, s: Sys, t: TaskId)
    requires Sound(fleet) && Reachable(fleet, s) && t in s.db.tasks
    ensures var row := s.db.tasks[t];
            var h := HistoryOf(s.db.events, row.runID);
            && t in s.leases
            && s.leases[t] <= row.maxAttempts * (1 + Count(h, EventReplayed, t)) + Count(h, EventReclaimed, t)
  {
    ReachableAllotted(fleet, s, t);
    TaskTally(fleet, s, t);
    TallyBounded(HistoryOf(s.db.events, s.db.tasks[t].runID), t, s.db.tasks[t].status, s.leases[t], s.db.tasks[t].maxAttempts);
  }

  lemma TallyBounded(h: seq<Event>, t: TaskId, status: TaskStatus, grants: int, max: int)
    requires TallyAt(h, t, status, grants)
    requires Count(h, EventActivityRetried, t) <= (max - 1) * (1 + Count(h, EventReplayed, t))
    ensures grants <= max * (1 + Count(h, EventReplayed, t)) + Count(h, EventReclaimed, t)
  {
    var n := Count(h, EventReplayed, t);
    assert max * (1 + n) == (max - 1) * (1 + n) + (1 + n);
  }

  lemma TaskTally(fleet: Fleet, s: Sys, t: TaskId)
    requires Reachable(fleet, s) && t in s.db.tasks
    ensures t in s.leases
    ensures TallyAt(HistoryOf(s.db.events, s.db.tasks[t].runID), t, s.db.tasks[t].status, s.leases[t])
  {
    ReachableIndexed(fleet, s);
    InView(s, t);
    ReachableGood(fleet, s, s.db.tasks[t].runID);
    assert TallyAt(ViewOf(s, s.db.tasks[t].runID).history, t, s.db.tasks[t].status, s.leases[t]);
  }

  // ----- a measure every commit uses up -----

  // What the steps after step k can still cost.
  ghost function Ahead(cfg: Config, steps: seq<Step>, k: int): int
    requires 0 <= k <= |steps|
    decreases |steps| - k
  {
    if k == |steps| then 0 else 3 * (MaxAttempts(cfg, steps[k]) - 1) + 2 + Ahead(cfg, steps, k + 1)
  }

  // What the current task can still cost: leases that may fill a low hand, low hands, and how far the
  // current lease has come.
  ghost function Cost(status: TaskStatus, unused: int, low: int): int {
    match status
    case TaskPending => 3 * unused + 2 * low + 2
    case TaskLeased => 3 * unused + 2 * low + 1
    case TaskDead => 3 * unused + 2 * low
    case _ => 0
  }

  ghost function PotentialOf(fleet: Fleet, v: View, low: int): int
    requires Known(fleet, v)
  {
    var row := v.rows[Top(v)];
    Cost(row.status, Unused(row), low)
      + if row.status in {TaskPending, TaskLeased, TaskDead} then Ahead(fleet.cfg, StepsOf(fleet, v), |v.rows|) else 0
  }

  ghost function Potential(fleet: Fleet, s: Sys, r: RunId): int
    requires Covered(s, r) && Known(fleet, ViewOf(s, r))
  {
    PotentialOf(fleet, ViewOf(s, r), |LowHands(s, ViewOf(s, r).ids[Top(ViewOf(s, r))])|)
  }

  ghost predicate Commits(a: Act) {
    a.Lease? || a.Next? || a.Finish? || a.Retry? || a.Bury? || a.Cancel?
  }

  ghost function Spent(a: Act): int {
    if Commits(a) then 1 else 0
  }

  // Only a reclaim or a replay adds anything.
  ghost function Refund(a: Act, most: int): int {
    if a.Reclaim? then 1 else if a.Revive? then 3 * most - 1 else 0
  }

  lemma AheadPositive(fleet: Fleet, steps: seq<Step>, k: int)
    requires Sound(fleet) && 0 <= k <= |steps|
    ensures Ahead(fleet.cfg, steps, k) >= 0
    decreases |steps| - k
  {
  }

  lemma PotentialPositive(fleet: Fleet, s: Sys, r: RunId)
    requires Sound(fleet) && Covered(s, r) && Known(fleet, ViewOf(s, r))
    ensures Potential(fleet, s, r) >= 0
  {
    AheadPositive(fleet, StepsOf(fleet, ViewOf(s, r)), |ViewOf(s, r).rows|);
  }

  // An act within a step: the low hands change by no more than the act allows.
  lemma CostDrops(fleet: Fleet, v: View, a: Act, now: Time, low: nat, low': nat)
    requires Possible(fleet, v, a, now) && !a.Next? && !a.Finish? && !a.Cancel?
    requires low' + (if a.Retry? then 1 else 0)
               <= low + (if a.Lease? && v.rows[Top(v)].attempt + 1 < v.rows[Top(v)].maxAttempts then 1 else 0)
    requires v.rows[Top(v)].maxAttempts > 0
    ensures var row, row' := v.rows[Top(v)], Perform(fleet, v, a, now).rows[Top(v)];
            Cost(row'.status, Unused(row'), low') + Spent(a) <= Cost(row.status, Unused(row), low) + Refund(a, row.maxAttempts)
  {
  }

  lemma FinalCost(fleet: Fleet, v: View, a: Act, now: Time)
    requires Possible(fleet, v, a, now) && Consistent(v.run.status, v.rows[Top(v)].status) && (a.Finish? || a.Cancel?)
    ensures Perform(fleet, v, a, now).rows[Top(v)].status in {TaskCompleted, TaskCancelled}
    ensures LiveStatus(v.rows[Top(v)].status)
  {
  }

  // The current task's row, and its hands, as the potential sees them.
  lemma TopTask(fleet: Fleet, s: Sys, r: RunId) returns (t: TaskId)
    requires Reachable(fleet, s) && r in s.db.runs
    ensures Covered(s, r) && Known(fleet, ViewOf(s, r)) && t == ViewOf(s, r).ids[Top(ViewOf(s, r))]
    ensures t in s.db.tasks && s.db.tasks[t].runID == r && Indexed(s) && Current(s, t)
    ensures s.db.tasks[t] == ViewOf(s, r).rows[Top(ViewOf(s, r))]
  {
    ReachableGood(fleet, s, r);
    t := ViewOf(s, r).ids[Top(ViewOf(s, r))];
    assert Covered(s, r);
    assert Fits(fleet, ViewOf(s, r), Top(ViewOf(s, r)));
  }

  lemma SamePotential(fleet: Fleet, v: View, a: Act, now: Time, low: nat, low': nat)
    requires Possible(fleet, v, a, now) && !a.Next? && Known(fleet, Perform(fleet, v, a, now))
    requires Consistent(v.run.status, v.rows[Top(v)].status) && v.rows[Top(v)].maxAttempts > 0
    requires Ahead(fleet.cfg, StepsOf(fleet, v), |v.rows|) >= 0
    requires low' + (if a.Retry? then 1 else 0)
               <= low + (if a.Lease? && v.rows[Top(v)].attempt + 1 < v.rows[Top(v)].maxAttempts then 1 else 0)
    ensures PotentialOf(fleet, Perform(fleet, v, a, now), low') + Spent(a)
         <= PotentialOf(fleet, v, low) + Refund(a, v.rows[Top(v)].maxAttempts)
  {
    if a.Finish? || a.Cancel? {
      FinalCost(fleet, v, a, now);
    } else {
      CostDrops(fleet, v, a, now, low, low');
      SameStatusKind(fleet, v, a, now);
    }
    SameLength(fleet, v, a, now);
  }

  lemma SameStatusKind(fleet: Fleet, v: View, a: Act, now: Time)
    requires Possible(fleet, v, a, now) && !a.Next? && !a.Finish? && !a.Cancel?
    ensures var row, row' := v.rows[Top(v)], Perform(fleet, v, a, now).rows[Top(v)];
            row.status in {TaskPending, TaskLeased, TaskDead} <==> row'.status in {TaskPending, TaskLeased, TaskDead}
    ensures StepsOf(fleet, Perform(fleet, v, a, now)) == StepsOf(fleet, v)
  {
  }

  lemma SameStep(fleet: Fleet, s: Sys, l: Label, r: RunId)
    requires Sound(fleet) && Reachable(fleet, s) && Enabled(fleet, s, l) && r in s.db.runs
    requires Indexed(s) && Mirrors(fleet, s, l, r) && !ActOf(fleet, s, l, r).Next?
    requires Known(fleet, ViewOf(s, r)) && Known(fleet, ViewOf(Apply(fleet, s, l), r))
    requires Consistent(s.db.runs[r].status, ViewOf(s, r).rows[Top(ViewOf(s, r))].status)
    ensures Potential(fleet, Apply(fleet, s, l), r) + Spent(ActOf(fleet, s, l, r))
         <= Potential(fleet, s, r) + Refund(ActOf(fleet, s, l, r), ViewOf(s, r).rows[Top(ViewOf(s, r))].maxAttempts)
  {
    var v, a := ViewOf(s, r), ActOf(fleet, s, l, r);
    var t := TopTask(fleet, s, r);
    AttemptsAreSome(fleet, s, t);
    LowStep(fleet, s, l, t);
    AheadPositive(fleet, StepsOf(fleet, v), |v.rows|);
    SamePotential(fleet, v, a, s.db.now, |LowHands(s, t)|, |LowHands(Apply(fleet, s, l), t)|);
    SameTop(fleet, v, a, s.db.now);
  }

  lemma SameTop(fleet: Fleet, v: View, a: Act, now: Time)
    requires Possible(fleet, v, a, now) && !a.Next?
    ensures var w := Perform(fleet, v, a, now);
            Top(w) == Top(v) && Top(v) < |w.ids| && w.ids[Top(w)] == v.ids[Top(v)]
  {
  }

  lemma NextStepCost(fleet: Fleet, s: Sys, l: Label, r: RunId)
    requires Sound(fleet) && Reachable(fleet, s) && Enabled(fleet, s, l) && r in s.db.runs
    requires Indexed(s) && Mirrors(fleet, s, l, r) && ActOf(fleet, s, l, r).Next?
    requires Known(fleet, ViewOf(s, r)) && Known(fleet, ViewOf(Apply(fleet, s, l), r))
    requires Reachable(fleet, Apply(fleet, s, l))
    ensures Potential(fleet, Apply(fleet, s, l), r) + 1 <= Potential(fleet, s, r)
  {
    var s', v, a := Apply(fleet, s, l), ViewOf(s, r), ActOf(fleet, s, l, r);
    NextPotential(fleet, v, a, s.db.now, |LowHands(s, v.ids[Top(v)])|);
    NobodyHolds(fleet, s, l, r);
  }

  lemma NobodyHolds(fleet: Fleet, s: Sys, l: Label, r: RunId)
    requires Reachable(fleet, s) && Enabled(fleet, s, l) && r in s.db.runs && ActOf(fleet, s, l, r).Next?
    requires Reachable(fleet, Apply(fleet, s, l)) && Indexed(s) && Mirrors(fleet, s, l, r)
    ensures |LowHands(Apply(fleet, s, l), ActOf(fleet, s, l, r).id)| == 0
  {
    NextIsNew(fleet, s, l, r);
    NewRowFresh(fleet, s, l, ActOf(fleet, s, l, r).id);
    NeverLeased(fleet, Apply(fleet, s, l), ActOf(fleet, s, l, r).id);
  }

  lemma NextPotential(fleet: Fleet, v: View, a: Act, now: Time, low: nat)
    requires Possible(fleet, v, a, now) && a.Next?
    requires Known(fleet, Perform(fleet, v, a, now))
    requires Sound(fleet)
    ensures Top(Perform(fleet, v, a, now)) < |Perform(fleet, v, a, now).ids|
    ensures Perform(fleet, v, a, now).ids[Top(Perform(fleet, v, a, now))] == a.id
    ensures PotentialOf(fleet, Perform(fleet, v, a, now), 0) + 1 <= PotentialOf(fleet, v, low)
  {
    NextCost(fleet, v, a, now);
  }

  lemma NextIsNew(fleet: Fleet, s: Sys, l: Label, r: RunId)
    requires Reachable(fleet, s) && Enabled(fleet, s, l) && r in s.db.runs && ActOf(fleet, s, l, r).Next?
    requires Reachable(fleet, Apply(fleet, s, l)) && Indexed(s) && Mirrors(fleet, s, l, r)
    ensures ActOf(fleet, s, l, r).id !in s.db.tasks && ActOf(fleet, s, l, r).id in Apply(fleet, s, l).db.tasks
  {
    AdvanceFits(fleet, s, l);
    AdvanceBrings(s.db, AdvanceCmdOf(fleet, s, l));
  }

  lemma AdvanceBrings(db: Tables, cmd: AdvanceCmd)
    requires AdvanceTx(db, cmd).Commit? && Fenced(db, cmd.taskID, cmd.owner) && cmd.nextStep.Some?
    ensures cmd.nextStep.value.id in AdvanceTx(db, cmd).tables.tasks
  {
  }

  lemma NextCost(fleet: Fleet, v: View, a: Act, now: Time)
    requires Possible(fleet, v, a, now) && a.Next?
    ensures var w, k := Perform(fleet, v, a, now), Top(v);
            && |w.rows| == |w.ids| == k + 2 && w.ids[k + 1] == a.id
            && v.rows[k].status == TaskLeased && w.rows[k + 1].status == TaskPending
            && StepsOf(fleet, w) == StepsOf(fleet, v)
            && k + 1 < |StepsOf(fleet, v)|
            && w.rows[k + 1].attempt == 0 && w.rows[k + 1].maxAttempts == MaxAttempts(fleet.cfg, StepsOf(fleet, v)[k + 1])
  {
  }

  /** The measure drops with every lease, advance, retry, dead-letter and cancellation, for any owner names. */
  lemma PotentialDrops(fleet: Fleet, s: Sys, l: Label, r: RunId)
    requires Sound(fleet) && Reachable(fleet, s) && Enabled(fleet, s, l) && r in s.db.runs
    ensures Covered(s, r) && Known(fleet, ViewOf(s, r))
    ensures Covered(Apply(fleet, s, l), r) && Known(fleet, ViewOf(Apply(fleet, s, l), r))
    ensures Potential(fleet, Apply(fleet, s, l), r) + Spent(ActOf(fleet, s, l, r))
         <= Potential(fleet, s, r) + Refund(ActOf(fleet, s, l, r), ViewOf(s, r).rows[Top(ViewOf(s, r))].maxAttempts)
  {
    ReachableGood(fleet, s, r);
    StepIsAnAct(fleet, s, l, r);
    PerformFrame(fleet, ViewOf(s, r), ActOf(fleet, s, l, r), s.db.now);
    TopConsistent(fleet, ViewOf(s, r));
    if ActOf(fleet, s, l, r).Next? {
      ReachableStep(fleet, s, l);
      NextStepCost(fleet, s, l, r);
    } else {
      SameStep(fleet, s, l, r);
    }
  }

  // The acts of one run along a trace.
  ghost function ActsOf(fleet: Fleet, s: Sys, ls: seq<Label>, r: RunId): seq<Act>
    requires Feasible(fleet, s, ls)
    decreases |ls|
  {
    if |ls| == 0 then [] else [ActOf(fleet, s, ls[0], r)] + ActsOf(fleet, Apply(fleet, s, ls[0]), ls[1..], r)
  }

  ghost function CommitsIn(acts: seq<Act>): nat {
    if |acts| == 0 then 0 else Spent(acts[0]) + CommitsIn(acts[1..])
  }

  ghost function ReclaimsIn(acts: seq<Act>): nat {
    if |acts| == 0 then 0 else (if acts[0].Reclaim? then 1 else 0) + ReclaimsIn(acts[1..])
  }

  ghost function ReplaysIn(acts: seq<Act>): nat {
    if |acts| == 0 then 0 else (if acts[0].Revive? then 1 else 0) + ReplaysIn(acts[1..])
  }

  ghost predicate PaidBy(acts: seq<Act>, most: int, potential: int) {
    CommitsIn(acts) <= potential + ReclaimsIn(acts) + (3 * most - 1) * ReplaysIn(acts)
  }

  // The bound on a sequence of acts, from the bound on its tail.
  lemma OneMoreAct(a: Act, rest: seq<Act>, most: int, before: int, after: int)
    requires after + Spent(a) <= before + Refund(a, most) && PaidBy(rest, most, after)
    ensures PaidBy([a] + rest, most, before)
  {
    assert ([a] + rest)[1..] == rest;
    var m, replays := 3 * most - 1, ReplaysIn(rest);
    assert m * (replays + 1) == m * replays + m;
  }

  // The attempts any step of a workflow may use in one round.
  ghost predicate AttemptsAtMost(fleet: Fleet, steps: seq<Step>, most: int) {
    forall i | 0 <= i < |steps| :: MaxAttempts(fleet.cfg, steps[i]) <= most
  }

  ghost predicate RunAtMost(fleet: Fleet, s: Sys, r: RunId, most: int) {
    && r in s.db.runs && s.db.runs[r].workflowName in fleet.catalog.defs
    && AttemptsAtMost(fleet, fleet.catalog.defs[s.db.runs[r].workflowName].steps, most)
  }

  lemma DropsByMost(fleet: Fleet, s: Sys, l: Label, r: RunId, most: int)
    requires Sound(fleet) && Reachable(fleet, s) && Enabled(fleet, s, l) && RunAtMost(fleet, s, r, most)
    ensures Covered(s, r) && Known(fleet, ViewOf(s, r))
    ensures Covered(Apply(fleet, s, l), r) && Known(fleet, ViewOf(Apply(fleet, s, l), r))
    ensures RunAtMost(fleet, Apply(fleet, s, l), r, most)
    ensures Potential(fleet, Apply(fleet, s, l), r) + Spent(ActOf(fleet, s, l, r))
         <= Potential(fleet, s, r) + Refund(ActOf(fleet, s, l, r), most)
  {
    PotentialDrops(fleet, s, l, r);
    ReachableGood(fleet, s, r);
    PositiveAttempts(fleet, ViewOf(s, r), Top(ViewOf(s, r)));
    StepIsAnAct(fleet, s, l, r);
    PerformFrame(fleet, ViewOf(s, r), ActOf(fleet, s, l, r), s.db.now);
  }

  lemma {:induction false} EveryTracePays(fleet: Fleet, s: Sys, ls: seq<Label>, r: RunId, most: int)
    requires Sound(fleet) && Reachable(fleet, s) && Feasible(fleet, s, ls) && RunAtMost(fleet, s, r, most)
    ensures Covered(s, r) && Known(fleet, ViewOf(s, r))
    ensures PaidBy(ActsOf(fleet, s, ls, r), most, Potential(fleet, s, r))
    decreases |ls|
  {
    ReachableGood(fleet, s, r);
    PotentialPositive(fleet, s, r);
    if |ls| > 0 {
      var s' := Apply(fleet, s, ls[0]);
      DropsByMost(fleet, s, ls[0], r, most);
      ReachableStep(fleet, s, ls[0]);
      EveryTracePays(fleet, s', ls[1..], r, most);
      OneMoreAct(ActOf(fleet, s, ls[0], r), ActsOf(fleet, s', ls[1..], r), most, Potential(fleet, s, r), Potential(fleet, s', r));
    }
  }

  /**
   Termination, for any owner names: from any reachable state, the commits a trace can make on one run
   are bounded by the run's potential, one more for each reclaim and a round's worth for each replay.
   With finitely many reclaims and replays a run goes quiet.
   */
  lemma CommitsBounded(fleet: Fleet, s: Sys, ls: seq<Label>, r: RunId, most: int)
    requires Sound(fleet) && Reachable(fleet, s) && Feasible(fleet, s, ls) && r in s.db.runs
    requires s.db.runs[r].workflowName in fleet.catalog.defs ==>
               AttemptsAtMost(fleet, fleet.catalog.defs[s.db.runs[r].workflowName].steps, most)
    ensures Covered(s, r) && Known(fleet, ViewOf(s, r))
    ensures var acts := ActsOf(fleet, s, ls, r);
            CommitsIn(acts) <= Potential(fleet, s, r) + ReclaimsIn(acts) + (3 * most - 1) * ReplaysIn(acts)
  {
    ReachableGood(fleet, s, r);
    EveryTracePays(fleet, s, ls, r, most);
  }
}
