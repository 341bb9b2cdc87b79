/**
 The whole system as one transition system. A label is one committed transaction, one StartWorkflow
 call, one tick of the clock, or a worker losing what it holds. Inv is the inductive invariant, and
 Simulates shows that on every run each label is one of the acts of RunView.dfy.
 */
module Protocol {
  import opened Options
  import opened Workflow
  import opened Store
  import opened History
  import opened Scheduling
  import opened RunView
  import Backoff

  // A worker's hand: the row LeaseTask returned, held while the handler runs. `lease` says which
  // lease of the task it was; the source keeps no such number.
  datatype Hand = Hand(id: TaskId, task: Task, lease: int)

  // A StartWorkflow call that has built its command and not committed it.
  datatype Call = Call(cmd: StartRunCmd, stamp: Time)

  // begun and leases are history: when each run's StartWorkflow was called, and how many leases
  // each task has been given.
  datatype Sys = Sys(
    db: Tables,
    hands: map<Worker, Hand>,
    calls: map<int, Call>,
    begun: map<RunId, Time>,
    leases: map<TaskId, int>)

  datatype Label =
    | BeginStart(call: int, cmd: StartRunCmd)
    | CommitStart(call: int)
    | DropStart(call: int)
    | LeaseNext(worker: Worker, task: TaskId, locked: set<TaskId>)
    | Advance(worker: Worker, result: Payload, id: TaskId, stamp: Time)
    | Fail(worker: Worker, msg: string, delay: Time, stamp: Time)
    | Drop(worker: Worker)
    | Reap(order: seq<TaskId>)
    | ReplayDead(task: TaskId)
    | CancelRun(run: RunId)
    | Tick(to: Time)

  ghost function Initial(now: Time): Sys {
    Sys(Tables(map[], map[], [], now), map[], map[], map[], map[])
  }

  // ----- the commands an engine issues -----

  ghost predicate Resolvable(fleet: Fleet, db: Tables, t: Task) {
    && t.runID in db.runs
    && db.runs[t.runID].workflowName in fleet.catalog.defs
    && t.stepIndex >= 0
  }

  function AdvanceCmdFor(fleet: Fleet, def: Definition, t: Task, id: TaskId, owner: string, result: Payload,
                         newID: TaskId, stamp: Time): AdvanceCmd
    requires t.stepIndex >= 0
  {
    if t.stepIndex + 1 >= |def.steps| then
      AdvanceCmd(id, t.runID, owner, result, None, Some(result))
    else
      AdvanceCmd(id, t.runID, owner, result, Some(BuildTask(fleet.cfg, def, t.stepIndex + 1, result, newID, stamp)), None)
  }

  ghost function AdvanceCmdOf(fleet: Fleet, s: Sys, l: Label): AdvanceCmd
    requires l.Advance? && l.worker in s.hands && Resolvable(fleet, s.db, s.hands[l.worker].task)
  {
    var h := s.hands[l.worker];
    AdvanceCmdFor(fleet, fleet.catalog.defs[s.db.runs[h.task.runID].workflowName], h.task, h.id,
                  fleet.owner(l.worker), l.result, l.id, l.stamp)
  }

  function RetryCmdFor(t: Task, id: TaskId, owner: string, msg: string, at: Time): RetryCmd {
    RetryCmd(id, t.runID, owner, msg, at)
  }

  function DeadLetterCmdFor(t: Task, id: TaskId, owner: string, msg: string): DeadLetterCmd {
    DeadLetterCmd(id, t.runID, owner, msg)
  }

  // fail: dead-letter when the snapshot's attempts are used up, else retry after the backoff.
  ghost function FailTx(fleet: Fleet, db: Tables, h: Hand, owner: string, msg: string, delay: Time, stamp: Time): TxResult {
    if h.task.attempt >= h.task.maxAttempts then DeadLetterTx(db, DeadLetterCmdFor(h.task, h.id, owner, msg))
    else RetryTx(db, RetryCmdFor(h.task, h.id, owner, msg, stamp + delay))
  }

  // ----- steps -----

  ghost predicate Enabled(fleet: Fleet, s: Sys, l: Label) {
    match l
    case BeginStart(c, cmd) => c !in s.calls && WellFormedStart(fleet, cmd, s.db.now)
    case CommitStart(c) => c in s.calls
    case DropStart(c) => c in s.calls
    case LeaseNext(w, t, locked) => w !in s.hands && Pick(s.db, locked, t)
    case Advance(w, result, _, stamp) =>
      && w in s.hands
      && Resolvable(fleet, s.db, s.hands[w].task)
      && MayReturn(fleet.catalog, s.hands[w].task, result)
      && s.hands[w].task.updatedAt <= stamp <= s.db.now
    case Fail(w, _, delay, stamp) =>
      && w in s.hands
      && s.hands[w].task.updatedAt <= stamp <= s.db.now
      && 0 <= delay <= Backoff.Ceiling(fleet.cfg.backoffBase, fleet.cfg.backoffMax, s.hands[w].task.attempt)
    case Drop(w) => w in s.hands
    case Reap(order) => ReapOrder(s.db, order)
    case ReplayDead(t) => t in s.db.tasks && s.db.tasks[t].status == TaskDead
    case CancelRun(r) => r in s.db.runs
    case Tick(to) => s.db.now <= to
  }

  ghost function Settle(s: Sys, r: TxResult): Sys {
    if r.Commit? then s.(db := r.tables) else s
  }

  ghost function Apply(fleet: Fleet, s: Sys, l: Label): Sys
    requires Enabled(fleet, s, l)
  {
    match l
    case BeginStart(c, cmd) => s.(calls := s.calls[c := Call(cmd, s.db.now)])
    case CommitStart(c) => Started(s, c)
    case DropStart(c) => s.(calls := s.calls - {c})
    case LeaseNext(w, t, _) => Leased(fleet, s, w, t)
    case Advance(w, _, id, _) =>
      var cmd := AdvanceCmdOf(fleet, s, l);
      var r := AdvanceTx(s.db, cmd);
      var s' := Settle(s, r).(hands := s.hands - {w});
      if r.Commit? && Fenced(s.db, cmd.taskID, cmd.owner) && cmd.nextStep.Some? then s'.(leases := s.leases[id := 0]) else s'
    case Fail(w, msg, delay, stamp) =>
      Settle(s, FailTx(fleet, s.db, s.hands[w], fleet.owner(w), msg, delay, stamp)).(hands := s.hands - {w})
    case Drop(w) => s.(hands := s.hands - {w})
    case Reap(order) => s.(db := ReapTx(s.db, order))
    case ReplayDead(t) => Settle(s, ReplayTx(s.db, t).value)
    case CancelRun(r) => s.(db := CancelTx(s.db, r).value)
    case Tick(to) => s.(db := s.db.(now := to))
  }

  ghost function Leased(fleet: Fleet, s: Sys, w: Worker, t: TaskId): Sys
    requires t in s.db.tasks
  {
    var db := LeaseTx(s.db, fleet.owner(w), fleet.cfg.leaseDuration, t);
    var n := (if t in s.leases then s.leases[t] else 0) + 1;
    s.(db := db, hands := s.hands[w := Hand(t, db.tasks[t], n)], leases := s.leases[t := n])
  }

  // A start whose key is taken commits nothing new; a constraint violation commits nothing at all.
  ghost predicate Creates(s: Sys, c: int)
    requires c in s.calls
  {
    !KeyTaken(s.db, s.calls[c].cmd.idempotencyKey) && StartRunTx(s.db, s.calls[c].cmd).Commit?
  }

  ghost function Started(s: Sys, c: int): Sys
    requires c in s.calls
  {
    var cmd := s.calls[c].cmd;
    var s' := Settle(s, StartRunTx(s.db, cmd)).(calls := s.calls - {c});
    if Creates(s, c) then
      s'.(begun := s.begun[cmd.runID := s.calls[c].stamp], leases := s.leases[cmd.first.id := 0])
    else s'
  }

  // ----- a run seen on its own -----

  ghost function IdsOf(s: Sys, r: RunId): seq<TaskId> {
    ScheduledIds(HistoryOf(s.db.events, r))
  }

  ghost predicate Covered(s: Sys, r: RunId) {
    && r in s.db.runs
    && r in s.begun
    && (forall i | 0 <= i < |IdsOf(s, r)| :: IdsOf(s, r)[i] in s.db.tasks && IdsOf(s, r)[i] in s.leases)
  }

  ghost function AllAt<T>(m: map<TaskId, T>, ids: seq<TaskId>): (xs: seq<T>)
    requires forall i | 0 <= i < |ids| :: ids[i] in m
    ensures |xs| == |ids| && forall i | 0 <= i < |ids| :: xs[i] == m[ids[i]]
  {
    seq(|ids|, i requires 0 <= i < |ids| => m[ids[i]])
  }

  ghost function ViewOf(s: Sys, r: RunId): View
    requires Covered(s, r)
  {
    var ids := IdsOf(s, r);
    View(r, s.db.runs[r], s.begun[r], ids, AllAt(s.db.tasks, ids), AllAt(s.leases, ids), HistoryOf(s.db.events, r))
  }

  // ----- the invariant -----

  // The history of a run lists exactly the run's tasks, by step.
  ghost predicate Indexed(s: Sys) {
    && (forall r | r in s.db.runs :: Covered(s, r))
    && (forall r, i | r in s.db.runs && 0 <= i < |IdsOf(s, r)| ::
         s.db.tasks[IdsOf(s, r)[i]].runID == r && s.db.tasks[IdsOf(s, r)[i]].stepIndex == i)
    && (forall t | t in s.db.tasks :: Listed(s, t))
    && (forall i | 0 <= i < |s.db.events| :: s.db.events[i].runID in s.db.runs)
  }

  ghost predicate Listed(s: Sys, t: TaskId)
    requires t in s.db.tasks
  {
    var row := s.db.tasks[t];
    row.runID in s.db.runs && 0 <= row.stepIndex < |IdsOf(s, row.runID)| && IdsOf(s, row.runID)[row.stepIndex] == t
  }

  ghost predicate RunsGood(fleet: Fleet, s: Sys)
    requires Indexed(s)
  {
    forall r | r in s.db.runs :: Good(fleet, ViewOf(s, r), s.db.now)
  }

  ghost predicate RunsShaped(fleet: Fleet, s: Sys)
    requires Indexed(s)
  {
    forall r | r in s.db.runs :: Shaped(fleet, ViewOf(s, r)) && Timed(fleet, ViewOf(s, r), s.db.now)
  }

  // A snapshot may be stale, but it was a real lease of this very task.
  ghost predicate HandGood(fleet: Fleet, s: Sys, w: Worker)
    requires w in s.hands && Indexed(s)
  {
    var h := s.hands[w];
    && h.id in s.db.tasks
    && SameTask(s.db.tasks[h.id], h.task)
    && h.task.status == TaskLeased
    && h.task.leasedBy == Some(fleet.owner(w))
    && h.task.leaseExpires == Some(h.task.updatedAt + fleet.cfg.leaseDuration)
    && h.task.availableAt <= h.task.updatedAt <= s.db.now
    && h.id in s.leases
    && 1 <= h.lease <= s.leases[h.id]
    && Covered(s, h.task.runID)
    && Known(fleet, ViewOf(s, h.task.runID))
    && 0 <= h.task.stepIndex < |ViewOf(s, h.task.runID).rows|
    && Due(fleet, ViewOf(s, h.task.runID), h.task.stepIndex) <= h.task.availableAt
  }

  ghost predicate CallGood(fleet: Fleet, s: Sys, c: int)
    requires c in s.calls
  {
    WellFormedStart(fleet, s.calls[c].cmd, s.calls[c].stamp) && s.calls[c].stamp <= s.db.now
  }

  ghost predicate Inv(fleet: Fleet, s: Sys) {
    && Indexed(s)
    && RunsGood(fleet, s)
    && (forall w | w in s.hands :: HandGood(fleet, s, w))
    && (forall c | c in s.calls :: CallGood(fleet, s, c))
  }

  // ----- what a label does to one run -----

  ghost predicate Lands(fleet: Fleet, s: Sys, l: Label)
    requires Enabled(fleet, s, l) && (l.Advance? || l.Fail?)
  {
    && Fenced(s.db, s.hands[l.worker].id, fleet.owner(l.worker))
    && s.hands[l.worker].task.runID in s.db.runs
    && (l.Advance? ==> AdvanceTx(s.db, AdvanceCmdOf(fleet, s, l)).Commit?)
  }

  ghost predicate CurrentExpired(s: Sys, r: RunId) {
    |IdsOf(s, r)| > 0 && Expired(s.db, IdsOf(s, r)[|IdsOf(s, r)| - 1])
  }

  ghost function ActOf(fleet: Fleet, s: Sys, l: Label, r: RunId): Act
    requires Enabled(fleet, s, l)
  {
    match l
    case LeaseNext(w, t, _) =>
      if s.db.tasks[t].runID == r then Act.Lease(fleet.owner(w), s.db.now + fleet.cfg.leaseDuration) else Stay
    case Advance(w, result, id, stamp) =>
      if s.hands[w].task.runID == r && Lands(fleet, s, l) then
        if AdvanceCmdOf(fleet, s, l).nextStep.Some? then Next(result, id, stamp) else Finish(result)
      else Stay
    case Fail(w, msg, delay, stamp) =>
      if s.hands[w].task.runID == r && Lands(fleet, s, l) then
        if s.hands[w].task.attempt >= s.hands[w].task.maxAttempts then Bury(msg) else Act.Retry(stamp + delay, msg)
      else Stay
    case Reap(_) => if CurrentExpired(s, r) then Reclaim else Stay
    case ReplayDead(t) => if s.db.tasks[t].runID == r then Revive else Stay
    case CancelRun(x) => if x == r && s.db.runs[x].status == RunRunning then Act.Cancel else Stay
    case _ => Stay
  }

  // On run r, label l is its act.
  ghost predicate Mirrors(fleet: Fleet, s: Sys, l: Label, r: RunId)
    requires Enabled(fleet, s, l) && Indexed(s) && r in s.db.runs
  {
    && Covered(Apply(fleet, s, l), r)
    && Possible(fleet, ViewOf(s, r), ActOf(fleet, s, l, r), s.db.now)
    && ViewOf(Apply(fleet, s, l), r) == Perform(fleet, ViewOf(s, r), ActOf(fleet, s, l, r), s.db.now)
  }
}
