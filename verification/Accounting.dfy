/**
 What the attempt column means: for any owner names it counts what the log says happened to the task
 since its last replay; with private names it stays within max_attempts, reclaims aside.
 */
module Accounting {
  import opened Options
  import opened Workflow
  import opened Store
  import opened History
  import opened Scheduling
  import opened RunView
  import opened Protocol
  import opened Simulation
  import opened Invariant
  import opened Guarantees
  import opened Fencing

  // How often a type of event was recorded for t since t was last replayed.
  ghost function Since(history: seq<Event>, typ: EventType, t: TaskId): nat {
    if |history| == 0 then 0
    else
      var e := history[|history| - 1];
      if e.typ == EventReplayed && e.taskID == Some(t) then 0
      else Since(history[..|history| - 1], typ, t) + if e.typ == typ && e.taskID == Some(t) then 1 else 0
  }

  lemma SinceAppend(h: seq<Event>, e: Event, typ: EventType, t: TaskId)
    ensures Since(h + [e], typ, t)
         == if e.typ == EventReplayed && e.taskID == Some(t) then 0
            else Since(h, typ, t) + if e.typ == typ && e.taskID == Some(t) then 1 else 0
  {
    assert (h + [e])[..|h|] == h;
  }

  lemma {:induction false} SinceAtMostCount(h: seq<Event>, typ: EventType, t: TaskId)
    ensures Since(h, typ, t) <= Count(h, typ, t)
  {
    if |h| > 0 {
      SinceAtMostCount(h[..|h| - 1], typ, t);
    }
  }

  // ----- with a true snapshot, fail decides on the row's own attempt -----

  ghost predicate Fair(v: View, a: Act)
    requires |v.rows| > 0
  {
    var row := v.rows[Top(v)];
    match a
    case Retry(at, _) => row.attempt < row.maxAttempts && row.availableAt <= at
    case Bury(_) => row.attempt >= row.maxAttempts
    case _ => true
  }

  lemma FairActs(fleet: Fleet, s: Sys, l: Label, r: RunId)
    requires Inv(fleet, s) && FenceInv(fleet, s) && Enabled(fleet, s, l) && r in s.db.runs
    ensures |ViewOf(s, r).rows| > 0 && Fair(ViewOf(s, r), ActOf(fleet, s, l, r))
  {
    HasRows(fleet, s, r);
    if l.Fail? && Fenced(s.db, s.hands[l.worker].id, fleet.owner(l.worker)) {
      FailingHand(fleet, s, l.worker);
    }
    FairFail(fleet, s, l, r);
  }

  lemma HasRows(fleet: Fleet, s: Sys, r: RunId)
    requires Inv(fleet, s) && r in s.db.runs
    ensures RunsShaped(fleet, s) && |ViewOf(s, r).rows| > 0
  {
    InvShaped(fleet, s);
    assert Shaped(fleet, ViewOf(s, r));
  }

  lemma FailingHand(fleet: Fleet, s: Sys, w: Worker)
    requires Inv(fleet, s) && RunsShaped(fleet, s) && FenceInv(fleet, s)
    requires w in s.hands && Fenced(s.db, s.hands[w].id, fleet.owner(w))
    ensures OnTop(fleet, s, w) && s.db.tasks[s.hands[w].id] == s.hands[w].task
    ensures s.hands[w].task.availableAt <= s.hands[w].task.updatedAt
  {
    LandsOn(fleet, s, w);
    assert HandTrue(fleet, s, w) && HandGood(fleet, s, w);
  }

  lemma FairFail(fleet: Fleet, s: Sys, l: Label, r: RunId)
    requires Indexed(s) && Enabled(fleet, s, l) && r in s.db.runs && |ViewOf(s, r).rows| > 0
    requires l.Fail? && Fenced(s.db, s.hands[l.worker].id, fleet.owner(l.worker)) ==>
               && OnTop(fleet, s, l.worker) && s.db.tasks[s.hands[l.worker].id] == s.hands[l.worker].task
               && s.hands[l.worker].task.availableAt <= s.hands[l.worker].task.updatedAt
    ensures Fair(ViewOf(s, r), ActOf(fleet, s, l, r))
  {
  }

  // ----- the books of one run -----

  // A task's attempt, told by its events since its last replay.
  ghost predicate Accounted(h: seq<Event>, t: TaskId, row: Task) {
    AttemptMatches(row.status, row.attempt, Since(h, EventActivityRetried, t) + Since(h, EventReclaimed, t))
  }

  // The ledger's counters are the current task's, and every earlier task is accounted for.
  ghost predicate Counted(v: View)
    requires |v.rows| == |v.ids| > 0
  {
    && Replay(v.history).retries == Since(v.history, EventActivityRetried, v.ids[Top(v)])
    && Replay(v.history).reclaims == Since(v.history, EventReclaimed, v.ids[Top(v)])
    && EarlierAccounted(v, Top(v))
  }

  ghost predicate EarlierAccounted(v: View, n: int) {
    n <= |v.rows| == |v.ids| && forall i | 0 <= i < n :: Accounted(v.history, v.ids[i], v.rows[i])
  }

  ghost predicate Within(status: TaskStatus, attempt: int, max: int, reclaims: int) {
    match status
    case TaskPending => attempt < max + reclaims
    case TaskDead => max <= attempt <= max + reclaims
    case _ => attempt <= max + reclaims
  }

  ghost predicate Limited(h: seq<Event>, t: TaskId, row: Task) {
    Within(row.status, row.attempt, row.maxAttempts, Since(h, EventReclaimed, t))
  }

  ghost predicate AllLimited(v: View)
    requires |v.rows| == |v.ids|
  {
    forall i | 0 <= i < |v.rows| :: Limited(v.history, v.ids[i], v.rows[i])
  }

  // The counts of one task after one more event.
  lemma Counts(h: seq<Event>, e: Event, t: TaskId)
    ensures Since(h + [e], EventActivityRetried, t)
         == if e.typ == EventReplayed && e.taskID == Some(t) then 0
            else Since(h, EventActivityRetried, t) + if e.typ == EventActivityRetried && e.taskID == Some(t) then 1 else 0
    ensures Since(h + [e], EventReclaimed, t)
         == if e.typ == EventReplayed && e.taskID == Some(t) then 0
            else Since(h, EventReclaimed, t) + if e.typ == EventReclaimed && e.taskID == Some(t) then 1 else 0
    ensures Count(h + [e], EventReplayed, t) == Count(h, EventReplayed, t) + if e.typ == EventReplayed && e.taskID == Some(t) then 1 else 0
    ensures Count(h + [e], EventReclaimed, t) == Count(h, EventReclaimed, t) + if e.typ == EventReclaimed && e.taskID == Some(t) then 1 else 0
  {
    SinceAppend(h, e, EventActivityRetried, t);
    SinceAppend(h, e, EventReclaimed, t);
    CountAppend(h, e, EventReplayed, t);
    CountAppend(h, e, EventReclaimed, t);
  }

  // An act logs events of the current task only: the earlier ones keep their rows and their counts.
  lemma EarlierKept(fleet: Fleet, v: View, a: Act, now: Time, i: int)
    requires Shaped(fleet, v) && Possible(fleet, v, a, now) && 0 <= i < Top(v)
    ensures var w := Perform(fleet, v, a, now);
            && i < |w.rows| == |w.ids| && w.rows[i] == v.rows[i] && w.ids[i] == v.ids[i]
            && Since(w.history, EventActivityRetried, v.ids[i]) == Since(v.history, EventActivityRetried, v.ids[i])
            && Since(w.history, EventReclaimed, v.ids[i]) == Since(v.history, EventReclaimed, v.ids[i])
  {
    var w, h, n := Perform(fleet, v, a, now), v.history, |v.history|;
    if |w.history| > n {
      Counts(h, w.history[n], v.ids[i]);
      if |w.history| > n + 1 {
        assert w.history == h + [w.history[n]] + [w.history[n + 1]];
        Counts(h + [w.history[n]], w.history[n + 1], v.ids[i]);
      }
    }
  }

  // The ledger's two counters after an act.
  ghost function RetriesAfter(l: Ledger, a: Act): nat {
    if a.Retry? then l.retries + 1 else if a.Revive? || a.Next? then 0 else l.retries
  }

  ghost function ReclaimsAfter(l: Ledger, a: Act): nat {
    if a.Reclaim? then l.reclaims + 1 else if a.Revive? || a.Next? then 0 else l.reclaims
  }

  lemma LedgerAfterOne(fleet: Fleet, l: Ledger, v: View, a: Act, now: Time)
    requires Shaped(fleet, v) && Recovers(l, v) && Possible(fleet, v, a, now)
    requires a.Retry? || a.Reclaim? || a.Revive? || a.Cancel?
    ensures var m := Record(l, Perform(fleet, v, a, now).history[|v.history|]);
            m.retries == RetriesAfter(l, a) && m.reclaims == ReclaimsAfter(l, a)
  {
  }

  lemma LedgerAfterTwo(fleet: Fleet, l: Ledger, v: View, a: Act, now: Time)
    requires Shaped(fleet, v) && Recovers(l, v) && Possible(fleet, v, a, now)
    requires a.Next? || a.Finish? || a.Bury?
    ensures var h, n := Perform(fleet, v, a, now).history, |v.history|;
            var m := Record(Record(l, h[n]), h[n + 1]);
            m.retries == RetriesAfter(l, a) && m.reclaims == ReclaimsAfter(l, a)
  {
  }

  lemma LedgerAfter(fleet: Fleet, v: View, a: Act, now: Time)
    requires Shaped(fleet, v) && Recovers(Replay(v.history), v) && Possible(fleet, v, a, now)
    ensures var w := Perform(fleet, v, a, now);
            && Replay(w.history).retries == RetriesAfter(Replay(v.history), a)
            && Replay(w.history).reclaims == ReclaimsAfter(Replay(v.history), a)
  {
    var w, n := Perform(fleet, v, a, now), |v.history|;
    if a.Next? || a.Finish? || a.Bury? {
      LedgerAfterTwo(fleet, Replay(v.history), v, a, now);
      assert w.history == v.history + [w.history[n]] + [w.history[n + 1]];
      ReplayAppend(v.history, w.history[n]);
      ReplayAppend(v.history + [w.history[n]], w.history[n + 1]);
    } else if !a.Stay? && !a.Lease? {
      LedgerAfterOne(fleet, Replay(v.history), v, a, now);
      ReplayAppend(v.history, w.history[n]);
    }
  }

  // The current task's counts after an act.
  lemma CountsAfter(fleet: Fleet, v: View, a: Act, now: Time)
    requires Possible(fleet, v, a, now)
    ensures var w, h, t := Perform(fleet, v, a, now), v.history, v.ids[Top(v)];
            && Since(w.history, EventActivityRetried, t)
               == (if a.Revive? then 0 else Since(h, EventActivityRetried, t) + if a.Retry? then 1 else 0)
            && Since(w.history, EventReclaimed, t) == (if a.Revive? then 0 else Since(h, EventReclaimed, t) + if a.Reclaim? then 1 else 0)
            && Count(w.history, EventReplayed, t) == Count(h, EventReplayed, t) + (if a.Revive? then 1 else 0)
            && Count(w.history, EventReclaimed, t) == Count(h, EventReclaimed, t) + (if a.Reclaim? then 1 else 0)
  {
    var w, h, n, t := Perform(fleet, v, a, now), v.history, |v.history|, v.ids[Top(v)];
    if |w.history| > n {
      Counts(h, w.history[n], t);
      if |w.history| > n + 1 {
        assert w.history == h + [w.history[n]] + [w.history[n + 1]];
        Counts(h + [w.history[n]], w.history[n + 1], t);
      }
    }
  }

  // The completed step's books close, and the next one's are empty.
  lemma FreshBooks(fleet: Fleet, v: View, a: Act, now: Time)
    requires Known(fleet, v) && Tallied(v) && Possible(fleet, v, a, now) && a.Next?
    ensures var h := Perform(fleet, v, a, now).history;
            && Since(h, EventActivityRetried, a.id) == Since(h, EventReclaimed, a.id) == 0
            && Count(h, EventReplayed, a.id) == Count(h, EventReclaimed, a.id) == 0
  {
    var w, h := Perform(fleet, v, a, now), v.history;
    var e1, e2 := w.history[|h|], w.history[|h| + 1];
    assert w.history == h + [e1] + [e2];
    FreshCounts(h, v.ids, a.id);
    Counts(h, e1, a.id);
    Counts(h + [e1], e2, a.id);
  }

  lemma FreshCounts(h: seq<Event>, ids: seq<TaskId>, t: TaskId)
    requires Unseen(h, ids) && t !in ids
    ensures Since(h, EventActivityRetried, t) == Since(h, EventReclaimed, t) == 0
    ensures Count(h, EventReplayed, t) == Count(h, EventReclaimed, t) == 0
  {
    SinceAtMostCount(h, EventActivityRetried, t);
    SinceAtMostCount(h, EventReclaimed, t);
  }

  lemma PositiveAttempts(fleet: Fleet, v: View, i: int)
    requires Sound(fleet) && Shaped(fleet, v) && 0 <= i < |StepsOf(fleet, v)|
    ensures MaxAttempts(fleet.cfg, StepsOf(fleet, v)[i]) > 0
    ensures i < |v.rows| ==> v.rows[i].maxAttempts == MaxAttempts(fleet.cfg, StepsOf(fleet, v)[i])
  {
    if i < |v.rows| {
      assert Fits(fleet, v, i);
    }
  }

  lemma SameLast(fleet: Fleet, v: View, a: Act, now: Time)
    requires Possible(fleet, v, a, now)
    ensures Top(v) < |Perform(fleet, v, a, now).ids| && Perform(fleet, v, a, now).ids[Top(v)] == v.ids[Top(v)]
  {
  }

  // ----- any names: the counts -----

  lemma TopAccounted(v: View)
    requires |v.rows| == |v.ids| > 0 && Counted(v) && Recovers(Replay(v.history), v)
    ensures Accounted(v.history, v.ids[Top(v)], v.rows[Top(v)])
  {
  }

  lemma CountedEarlier(fleet: Fleet, v: View, a: Act, now: Time, i: int)
    requires Shaped(fleet, v) && Counted(v) && Possible(fleet, v, a, now) && 0 <= i < Top(v)
    ensures var w := Perform(fleet, v, a, now); i < |w.rows| == |w.ids| && Accounted(w.history, w.ids[i], w.rows[i])
  {
    EarlierKept(fleet, v, a, now, i);
  }

  lemma CountedNext(fleet: Fleet, v: View, a: Act, now: Time)
    requires Possible(fleet, v, a, now) && a.Next? && Tallied(v)
    requires Accounted(v.history, v.ids[Top(v)], v.rows[Top(v)])
    ensures var w, k := Perform(fleet, v, a, now), Top(v);
            && Accounted(w.history, w.ids[k], w.rows[k])
            && Since(w.history, EventActivityRetried, w.ids[k + 1]) == Since(w.history, EventReclaimed, w.ids[k + 1]) == 0
  {
    NextRows(fleet, v, a, now);
    CountsAfter(fleet, v, a, now);
    FreshBooks(fleet, v, a, now);
  }

  lemma NextRows(fleet: Fleet, v: View, a: Act, now: Time)
    requires Possible(fleet, v, a, now) && a.Next?
    ensures var w, k := Perform(fleet, v, a, now), Top(v);
            && |w.rows| == |w.ids| == k + 2
            && w.ids[k] == v.ids[k] && w.ids[k + 1] == a.id
            && v.rows[k].status == TaskLeased && w.rows[k] == CompleteRow(v.rows[k], a.result, now)
  {
  }

  lemma CountedSame(fleet: Fleet, v: View, a: Act, now: Time, l: Ledger)
    requires Possible(fleet, v, a, now) && !a.Next?
    requires l.retries == Since(v.history, EventActivityRetried, v.ids[Top(v)])
    requires l.reclaims == Since(v.history, EventReclaimed, v.ids[Top(v)])
    ensures var w, k := Perform(fleet, v, a, now), Top(v);
            && k < |w.ids| && w.ids[k] == v.ids[k]
            && Since(w.history, EventActivityRetried, v.ids[k]) == RetriesAfter(l, a)
            && Since(w.history, EventReclaimed, v.ids[k]) == ReclaimsAfter(l, a)
  {
    CountsAfter(fleet, v, a, now);
    SameLast(fleet, v, a, now);
  }

  lemma PerformCounted(fleet: Fleet, v: View, a: Act, now: Time)
    requires Good(fleet, v, now) && Counted(v) && Possible(fleet, v, a, now)
    ensures Known(fleet, Perform(fleet, v, a, now)) && Counted(Perform(fleet, v, a, now))
  {
    PerformFrame(fleet, v, a, now);
    LedgerAfter(fleet, v, a, now);
    TopAccounted(v);
    forall i | 0 <= i < Top(v)
      ensures Accounted(Perform(fleet, v, a, now).history, Perform(fleet, v, a, now).ids[i], Perform(fleet, v, a, now).rows[i])
    {
      CountedEarlier(fleet, v, a, now, i);
    }
    CountedAfter(fleet, v, a, now);
  }

  lemma CountedAfter(fleet: Fleet, v: View, a: Act, now: Time)
    requires Possible(fleet, v, a, now) && Counted(v) && Tallied(v) && Accounted(v.history, v.ids[Top(v)], v.rows[Top(v)])
    requires EarlierAccounted(Perform(fleet, v, a, now), Top(v))
    requires Replay(Perform(fleet, v, a, now).history).retries == RetriesAfter(Replay(v.history), a)
    requires Replay(Perform(fleet, v, a, now).history).reclaims == ReclaimsAfter(Replay(v.history), a)
    ensures |Perform(fleet, v, a, now).rows| == |Perform(fleet, v, a, now).ids| > 0 && Counted(Perform(fleet, v, a, now))
  {
    if a.Next? {
      NextRows(fleet, v, a, now);
      CountedNext(fleet, v, a, now);
    } else {
      SameLength(fleet, v, a, now);
      CountedSame(fleet, v, a, now, Replay(v.history));
    }
  }

  lemma OpeningLedger(id: RunId, cmd: StartRunCmd, begun: Time, now: Time)
    requires cmd.first.input == cmd.input
    ensures var l := Replay(Opening(id, cmd, begun, now).history); l.retries == l.reclaims == 0
  {
    var h := Opening(id, cmd, begun, now).history;
    assert h == [] + [h[0]] + [h[1]];
    ReplayAppend([], h[0]);
    ReplayAppend([] + [h[0]], h[1]);
  }

  lemma OpeningCounts(e1: Event, e2: Event, t: TaskId)
    requires e1.typ == EventWorkflowStarted && e2.typ == EventActivityScheduled
    ensures var h := [] + [e1] + [e2];
            && Since(h, EventActivityRetried, t) == Since(h, EventReclaimed, t) == 0
            && Count(h, EventReplayed, t) == Count(h, EventReclaimed, t) == 0
  {
    Counts([], e1, t);
    Counts([] + [e1], e2, t);
    assert Since([], EventActivityRetried, t) == 0;
  }

  lemma OpeningCounted(fleet: Fleet, id: RunId, cmd: StartRunCmd, begun: Time, now: Time)
    requires WellFormedStart(fleet, cmd, begun)
    ensures Counted(Opening(id, cmd, begun, now))
    ensures Sound(fleet) ==> AllLimited(Opening(id, cmd, begun, now))
  {
    var v := Opening(id, cmd, begun, now);
    OpeningLedger(id, cmd, begun, now);
    OpeningCounts(v.history[0], v.history[1], cmd.first.id);
    assert v.history == [] + [v.history[0]] + [v.history[1]];
  }

  // ----- private names: the limits -----

  lemma LimitedTop(fleet: Fleet, v: View, a: Act, now: Time)
    requires Possible(fleet, v, a, now) && Fair(v, a) && !a.Next?
    requires Consistent(v.run.status, v.rows[Top(v)].status) && v.rows[Top(v)].maxAttempts > 0
    requires Limited(v.history, v.ids[Top(v)], v.rows[Top(v)])
    ensures var w, k := Perform(fleet, v, a, now), Top(v); k < |w.ids| == |w.rows| && Limited(w.history, w.ids[k], w.rows[k])
  {
    CountsAfter(fleet, v, a, now);
    SameLast(fleet, v, a, now);
    SameLength(fleet, v, a, now);
    WithinAfter(fleet, v, a, now, Since(v.history, EventReclaimed, v.ids[Top(v)]));
  }

  lemma WithinAfter(fleet: Fleet, v: View, a: Act, now: Time, reclaims: nat)
    requires Possible(fleet, v, a, now) && Fair(v, a) && !a.Next?
    requires Consistent(v.run.status, v.rows[Top(v)].status) && v.rows[Top(v)].maxAttempts > 0
    requires Within(v.rows[Top(v)].status, v.rows[Top(v)].attempt, v.rows[Top(v)].maxAttempts, reclaims)
    ensures Top(v) < |Perform(fleet, v, a, now).rows|
    ensures var row := Perform(fleet, v, a, now).rows[Top(v)];
            Within(row.status, row.attempt, row.maxAttempts,
                   if a.Revive? then 0 else reclaims + if a.Reclaim? then 1 else 0)
  {
  }

  lemma LimitedNext(fleet: Fleet, v: View, a: Act, now: Time)
    requires Possible(fleet, v, a, now) && a.Next? && Tallied(v)
    requires MaxAttempts(fleet.cfg, StepsOf(fleet, v)[|v.rows|]) > 0
    requires Limited(v.history, v.ids[Top(v)], v.rows[Top(v)])
    ensures var w, k := Perform(fleet, v, a, now), Top(v);
            && |w.ids| == |w.rows| == k + 2
            && Limited(w.history, w.ids[k], w.rows[k]) && Limited(w.history, w.ids[k + 1], w.rows[k + 1])
  {
    CountsAfter(fleet, v, a, now);
    FreshBooks(fleet, v, a, now);
  }

  lemma PerformLimited(fleet: Fleet, v: View, a: Act, now: Time)
    requires Sound(fleet) && Shaped(fleet, v) && Tallied(v) && AllLimited(v) && Possible(fleet, v, a, now) && Fair(v, a)
    ensures Known(fleet, Perform(fleet, v, a, now)) && AllLimited(Perform(fleet, v, a, now))
  {
    PerformFrame(fleet, v, a, now);
    PositiveAttempts(fleet, v, Top(v));
    if a.Next? {
      PositiveAttempts(fleet, v, |v.rows|);
    }
    forall i | 0 <= i < |Perform(fleet, v, a, now).rows|
      ensures Limited(Perform(fleet, v, a, now).history, Perform(fleet, v, a, now).ids[i], Perform(fleet, v, a, now).rows[i])
    {
      LimitedAt(fleet, v, a, now, i);
    }
  }

  lemma LimitedAt(fleet: Fleet, v: View, a: Act, now: Time, i: int)
    requires Shaped(fleet, v) && Tallied(v) && AllLimited(v) && Possible(fleet, v, a, now) && Fair(v, a)
    requires v.rows[Top(v)].maxAttempts > 0 && (a.Next? ==> MaxAttempts(fleet.cfg, StepsOf(fleet, v)[|v.rows|]) > 0)
    requires 0 <= i < |Perform(fleet, v, a, now).rows| == |Perform(fleet, v, a, now).ids|
    ensures Limited(Perform(fleet, v, a, now).history, Perform(fleet, v, a, now).ids[i], Perform(fleet, v, a, now).rows[i])
  {
    assert Limited(v.history, v.ids[Top(v)], v.rows[Top(v)]);
    if i < Top(v) {
      EarlierKept(fleet, v, a, now, i);
      assert Limited(v.history, v.ids[i], v.rows[i]);
    } else if a.Next? {
      LimitedNext(fleet, v, a, now);
    } else {
      SameLength(fleet, v, a, now);
      LimitedTop(fleet, v, a, now);
    }
  }

  lemma SameLength(fleet: Fleet, v: View, a: Act, now: Time)
    requires Possible(fleet, v, a, now) && !a.Next?
    ensures |Perform(fleet, v, a, now).rows| == |v.rows| && |Perform(fleet, v, a, now).ids| == |v.ids|
  {
  }

  // ----- over traces -----

  ghost predicate RunCounted(fleet: Fleet, s: Sys, r: RunId) {
    Indexed(s) && r in s.db.runs && Known(fleet, ViewOf(s, r)) && Counted(ViewOf(s, r))
  }

  ghost predicate RunLimited(fleet: Fleet, s: Sys, r: RunId) {
    Indexed(s) && r in s.db.runs && Known(fleet, ViewOf(s, r)) && AllLimited(ViewOf(s, r))
  }

  lemma OpeningOf(fleet: Fleet, s: Sys, c: int)
    requires Reachable(fleet, s) && c in s.calls && Creates(s, c)
    ensures WellFormedStart(fleet, s.calls[c].cmd, s.calls[c].stamp) && Covered(Started(s, c), s.calls[c].cmd.runID)
    ensures ViewOf(Started(s, c), s.calls[c].cmd.runID)
         == Opening(s.calls[c].cmd.runID, s.calls[c].cmd, s.calls[c].stamp, s.db.now)
  {
    ReachableInv(fleet, s);
    assert CallGood(fleet, s, c);
    StartView(fleet, s, c);
  }

  // A run that a label brings into being.
  lemma NewRunOpens(fleet: Fleet, s: Sys, l: Label, r: RunId)
    requires Reachable(fleet, s) && Enabled(fleet, s, l) && r in Apply(fleet, s, l).db.runs && r !in s.db.runs
    ensures RunCounted(fleet, Apply(fleet, s, l), r)
    ensures Sound(fleet) ==> RunLimited(fleet, Apply(fleet, s, l), r)
  {
    ReachableStep(fleet, s, l);
    ReachableGood(fleet, Apply(fleet, s, l), r);
    NewRuns(fleet, s, l, r);
    OpeningOf(fleet, s, l.call);
    OpeningCounted(fleet, r, s.calls[l.call].cmd, s.calls[l.call].stamp, s.db.now);
  }

  lemma CountedStep(fleet: Fleet, s: Sys, l: Label, r: RunId)
    requires Reachable(fleet, s) && Enabled(fleet, s, l) && r in Apply(fleet, s, l).db.runs
    requires r in s.db.runs ==> RunCounted(fleet, s, r)
    ensures RunCounted(fleet, Apply(fleet, s, l), r)
  {
    if r in s.db.runs {
      ReachableGood(fleet, s, r);
      StepIsAnAct(fleet, s, l, r);
      PerformCounted(fleet, ViewOf(s, r), ActOf(fleet, s, l, r), s.db.now);
      ReachableStep(fleet, s, l);
      ReachableIndexed(fleet, Apply(fleet, s, l));
    } else {
      NewRunOpens(fleet, s, l, r);
    }
  }

  lemma {:induction false} CountedTrace(fleet: Fleet, s: Sys, ls: seq<Label>, r: RunId)
    requires Reachable(fleet, s) && Feasible(fleet, s, ls) && r in End(fleet, s, ls).db.runs
    requires r in s.db.runs ==> RunCounted(fleet, s, r)
    ensures RunCounted(fleet, End(fleet, s, ls), r)
    decreases |ls|
  {
    if |ls| > 0 {
      ReachableStep(fleet, s, ls[0]);
      if r in Apply(fleet, s, ls[0]).db.runs {
        CountedStep(fleet, s, ls[0], r);
      }
      CountedTrace(fleet, Apply(fleet, s, ls[0]), ls[1..], r);
    }
  }

  lemma InitialReachable(fleet: Fleet, now: Time)
    ensures Reachable(fleet, Initial(now))
  {
    assert Feasible(fleet, Initial(now), []) && Initial(now) == End(fleet, Initial(now), []);
    assert Reaches(fleet, now, [], Initial(now));
  }

  lemma ReachableCounted(fleet: Fleet, s: Sys, r: RunId)
    requires Reachable(fleet, s) && r in s.db.runs
    ensures RunCounted(fleet, s, r)
  {
    var now, ls :| Reaches(fleet, now, ls, s);
    InitialReachable(fleet, now);
    CountedTrace(fleet, Initial(now), ls, r);
  }

  lemma ReachableFair(fleet: Fleet, s: Sys, l: Label, r: RunId)
    requires PrivateNames(fleet) && Reachable(fleet, s) && Enabled(fleet, s, l) && r in s.db.runs
    ensures Covered(s, r) && |ViewOf(s, r).rows| > 0 && Fair(ViewOf(s, r), ActOf(fleet, s, l, r))
  {
    ReachableFence(fleet, s);
    FairActs(fleet, s, l, r);
  }

  lemma LimitedStep(fleet: Fleet, s: Sys, l: Label, r: RunId)
    requires Sound(fleet) && PrivateNames(fleet)
    requires Reachable(fleet, s) && Enabled(fleet, s, l) && r in Apply(fleet, s, l).db.runs
    requires r in s.db.runs ==> RunLimited(fleet, s, r)
    ensures RunLimited(fleet, Apply(fleet, s, l), r)
  {
    if r in s.db.runs {
      ReachableGood(fleet, s, r);
      StepIsAnAct(fleet, s, l, r);
      ReachableFair(fleet, s, l, r);
      PerformLimited(fleet, ViewOf(s, r), ActOf(fleet, s, l, r), s.db.now);
      ReachableStep(fleet, s, l);
      ReachableIndexed(fleet, Apply(fleet, s, l));
    } else {
      NewRunOpens(fleet, s, l, r);
    }
  }

  lemma {:induction false} LimitedTrace(fleet: Fleet, s: Sys, ls: seq<Label>, r: RunId)
    requires Sound(fleet) && PrivateNames(fleet)
    requires Reachable(fleet, s) && Feasible(fleet, s, ls) && r in End(fleet, s, ls).db.runs
    requires r in s.db.runs ==> RunLimited(fleet, s, r)
    ensures RunLimited(fleet, End(fleet, s, ls), r)
    decreases |ls|
  {
    if |ls| > 0 {
      ReachableStep(fleet, s, ls[0]);
      if r in Apply(fleet, s, ls[0]).db.runs {
        LimitedStep(fleet, s, ls[0], r);
      }
      LimitedTrace(fleet, Apply(fleet, s, ls[0]), ls[1..], r);
    }
  }

  lemma ReachableLimited(fleet: Fleet, s: Sys, r: RunId)
    requires Sound(fleet) && PrivateNames(fleet) && Reachable(fleet, s) && r in s.db.runs
    ensures RunLimited(fleet, s, r)
  {
    var now, ls :| Reaches(fleet, now, ls, s);
    InitialReachable(fleet, now);
    LimitedTrace(fleet, Initial(now), ls, r);
  }

  /**
   Attempt accounting, for any owner names: a task's attempt is the retries and reclaims logged since
   its last replay, plus one once leased; for a cancelled task it may be either.
   */
  lemma AttemptsAccounted(fleet: Fleet, s: Sys, t: TaskId)
    requires Reachable(fleet, s) && t in s.db.tasks
    ensures var row := s.db.tasks[t];
            var h := HistoryOf(s.db.events, row.runID);
            var counted := Since(h, EventActivityRetried, t) + Since(h, EventReclaimed, t);
            if row.status == TaskPending then row.attempt == counted
            else if row.status == TaskCancelled then counted <= row.attempt <= counted + 1
            else row.attempt == counted + 1
  {
    ReachableIndexed(fleet, s);
    InView(s, t);
    ReachableGood(fleet, s, s.db.tasks[t].runID);
    ReachableCounted(fleet, s, s.db.tasks[t].runID);
    EachAccounted(ViewOf(s, s.db.tasks[t].runID), s.db.tasks[t].stepIndex);
  }

  lemma EachAccounted(v: View, i: int)
    requires |v.rows| == |v.ids| > 0 && Counted(v) && Recovers(Replay(v.history), v) && 0 <= i < |v.rows|
    ensures Accounted(v.history, v.ids[i], v.rows[i])
  {
    if i == Top(v) {
      TopAccounted(v);
    }
  }

  /**
   With private names attempt passes max_attempts by no more than the reclaims since the last replay,
   and a dead-lettered task has used max_attempts up.
   */
  lemma AttemptsLimited(fleet: Fleet, s: Sys, t: TaskId)
    requires Sound(fleet) && PrivateNames(fleet) && Reachable(fleet, s) && t in s.db.tasks
    ensures var row := s.db.tasks[t];
            var reclaims := Since(HistoryOf(s.db.events, row.runID), EventReclaimed, t);
            && row.attempt <= row.maxAttempts + reclaims
            && (row.status == TaskPending ==> row.attempt < row.maxAttempts + reclaims)
            && (row.status == TaskDead ==> row.maxAttempts <= row.attempt)
  {
    ReachableIndexed(fleet, s);
    InView(s, t);
    ReachableLimited(fleet, s, s.db.tasks[t].runID);
    assert Limited(HistoryOf(s.db.events, s.db.tasks[t].runID), t, s.db.tasks[t]);
  }

  /** Every lease ends in one recorded way: leases granted are the endings logged, plus the one still open. */
  lemma LeasesAreLogged(fleet: Fleet, s: Sys, t: TaskId)
    requires Reachable(fleet, s) && t in s.db.tasks && s.db.tasks[t].status != TaskCancelled
    ensures var h := HistoryOf(s.db.events, s.db.tasks[t].runID);
            && t in s.leases
            && s.leases[t] == Count(h, EventActivityRetried, t) + Count(h, EventReclaimed, t) + Count(h, EventDeadLettered, t)
                              + Count(h, EventActivityCompleted, t) + (if s.db.tasks[t].status == TaskLeased then 1 else 0)
  {
    ReachableInv(fleet, s);
    InView(s, t);
    var v, i := ViewOf(s, s.db.tasks[t].runID), s.db.tasks[t].stepIndex;
    assert Good(fleet, v, s.db.now);
    assert TallyAt(v.history, v.ids[i], v.rows[i].status, v.grants[i]);
  }

  // ----- a task is never made due earlier -----

  lemma ActsPostpone(fleet: Fleet, v: View, a: Act, now: Time, i: int)
    requires Known(fleet, v) && Timed(fleet, v, now) && Possible(fleet, v, a, now) && 0 <= i < |v.rows|
    requires a.Retry? ==> v.rows[Top(v)].availableAt <= a.at
    ensures i < |Perform(fleet, v, a, now).rows| && v.rows[i].availableAt <= Perform(fleet, v, a, now).rows[i].availableAt
  {
  }

  lemma StillThere(s: Sys, s': Sys, t: TaskId)
    requires Indexed(s) && t in s.db.tasks && s.db.tasks[t].runID in s'.db.runs && Covered(s', s.db.tasks[t].runID)
    requires ViewOf(s, s.db.tasks[t].runID).ids <= ViewOf(s', s.db.tasks[t].runID).ids
    ensures var i, w := s.db.tasks[t].stepIndex, ViewOf(s', s.db.tasks[t].runID);
            0 <= i < |w.rows| && t in s'.db.tasks && w.rows[i] == s'.db.tasks[t]
  {
    assert Listed(s, t);
  }

  lemma PostponedStep(fleet: Fleet, s: Sys, l: Label, t: TaskId)
    requires Reachable(fleet, s) && Enabled(fleet, s, l) && t in s.db.tasks && s.db.tasks[t].runID in s.db.runs
    requires Covered(s, s.db.tasks[t].runID) && |ViewOf(s, s.db.tasks[t].runID).rows| > 0
    requires var v, a := ViewOf(s, s.db.tasks[t].runID), ActOf(fleet, s, l, s.db.tasks[t].runID);
             a.Retry? ==> v.rows[Top(v)].availableAt <= a.at
    ensures t in Apply(fleet, s, l).db.tasks && s.db.tasks[t].availableAt <= Apply(fleet, s, l).db.tasks[t].availableAt
  {
    var r := s.db.tasks[t].runID;
    StepIsAnAct(fleet, s, l, r);
    InView(s, t);
    ReachableGood(fleet, s, r);
    PerformFrame(fleet, ViewOf(s, r), ActOf(fleet, s, l, r), s.db.now);
    StillThere(s, Apply(fleet, s, l), t);
    ActsPostpone(fleet, ViewOf(s, r), ActOf(fleet, s, l, r), s.db.now, s.db.tasks[t].stepIndex);
  }

  /** With private names no transaction makes a task available earlier than it was. */
  lemma NeverDueEarlier(fleet: Fleet, s: Sys, l: Label, t: TaskId)
    requires PrivateNames(fleet) && Reachable(fleet, s) && Enabled(fleet, s, l) && t in s.db.tasks
    ensures t in Apply(fleet, s, l).db.tasks && s.db.tasks[t].availableAt <= Apply(fleet, s, l).db.tasks[t].availableAt
  {
    ReachableIndexed(fleet, s);
    InView(s, t);
    ReachableFair(fleet, s, l, s.db.tasks[t].runID);
    PostponedStep(fleet, s, l, t);
  }
}
