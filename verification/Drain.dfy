/**
 Shutdown. One engine's workers as program counters around the protocol: after cancellation each of
 them leases at most once more, and once all have returned no row is leased under their names.
 */
module Drain {
  import opened Options
  import opened Workflow
  import opened Store
  import opened Scheduling
  import opened RunView
  import opened Protocol
  import opened Simulation
  import opened Invariant
  import opened Guarantees
  import opened Fencing
  import opened Conservation
  import Backoff

  // Where a worker's loop stands: about to look at ctx, about to lease, with a task in hand, asleep
  // for want of one, returned.
  datatype Pc = AtCheck | AtLease | Holding | Sleeping | Done

  // late counts the leases a worker was granted after cancellation. The store has returned an error
  // for some commit when a task in hand was lost to it, or an Advance refused.
  datatype Pool = Pool(sys: Sys, pc: map<Worker, Pc>, cancelled: bool, late: map<Worker, nat>, lost: bool, refused: bool)

  datatype Move =
    | Check(w: Worker)                                         // the select at the top of the loop
    | Take(w: Worker, task: TaskId, locked: set<TaskId>)       // LeaseTask returns a task
    | Idle(w: Worker, locked: set<TaskId>, failed: bool)       // it fails, or has nothing to return
    | Wake(w: Worker, woken: bool)                             // the sleep ends, by cancellation or not
    | Conclude(w: Worker, commit: Label)                       // execute, to its commit or a store error
    | CancelContext
    | Elsewhere(commit: Label)                                 // reapers, API calls, the clock, other engines

  // The worker whose step a label is, if it is a worker's.
  ghost predicate By(l: Label, w: Worker) {
    (l.LeaseNext? || l.Advance? || l.Fail? || l.Drop?) && l.worker == w
  }

  // A constraint turns the commit down. Guarantees.AdvanceFits: only a UUID that is in use does that.
  ghost predicate Refused(fleet: Fleet, s: Sys, l: Label)
    requires Enabled(fleet, s, l)
  {
    l.Advance? && AdvanceTx(s.db, AdvanceCmdOf(fleet, s, l)).Rollback?
  }

  ghost predicate Allowed(fleet: Fleet, p: Pool, m: Move) {
    match m
    case Check(w) => w in p.pc && p.pc[w] == AtCheck
    case Idle(w, locked, failed) =>
      w in p.pc && p.pc[w] == AtLease && (failed || forall t | Eligible(p.sys.db, t) :: t in locked)
    case Wake(w, woken) => w in p.pc && p.pc[w] == Sleeping && (woken ==> p.cancelled)
    case Take(w, t, locked) => w in p.pc && p.pc[w] == AtLease && Enabled(fleet, p.sys, LeaseNext(w, t, locked))
    case Conclude(w, l) =>
      && w in p.pc && p.pc[w] == Holding
      && (l.Advance? || l.Fail? || l.Drop?) && l.worker == w
      && Enabled(fleet, p.sys, l)
    case CancelContext => true
    case Elsewhere(l) => Enabled(fleet, p.sys, l) && forall w | w in p.pc :: !By(l, w)
  }

  ghost function Do(fleet: Fleet, p: Pool, m: Move): Pool
    requires p.late.Keys == p.pc.Keys && Allowed(fleet, p, m)
  {
    match m
    case Check(w) => p.(pc := p.pc[w := if p.cancelled then Done else AtLease])
    case Idle(w, _, _) => p.(pc := p.pc[w := Sleeping])
    case Wake(w, woken) => p.(pc := p.pc[w := if woken then Done else AtCheck])
    case Take(w, t, locked) =>
      p.(sys := Apply(fleet, p.sys, LeaseNext(w, t, locked)),
         pc := p.pc[w := Holding],
         late := if p.cancelled then p.late[w := p.late[w] + 1] else p.late)
    case Conclude(w, l) =>
      p.(sys := Apply(fleet, p.sys, l), pc := p.pc[w := AtCheck],
         lost := p.lost || l.Drop?, refused := p.refused || Refused(fleet, p.sys, l))
    case CancelContext => p.(cancelled := true)
    case Elsewhere(l) => p.(sys := Apply(fleet, p.sys, l))
  }

  // ----- what every move keeps -----

  // The engine's names are its own; other engines may share theirs.
  ghost predicate OwnNames(fleet: Fleet, mine: set<Worker>) {
    forall w, u | w in mine && fleet.owner(w) == fleet.owner(u) :: w == u
  }

  // A row leased under a worker's name is the one in its hand.
  ghost predicate HeldByHand(fleet: Fleet, s: Sys, w: Worker) {
    forall t | Fenced(s.db, t, fleet.owner(w)) :: w in s.hands && s.hands[w].id == t
  }

  ghost predicate LateAtMostOnce(p: Pool, w: Worker)
    requires w in p.pc && w in p.late
  {
    && p.late[w] <= 1
    && (!p.cancelled ==> p.late[w] == 0)
    && (p.late[w] == 1 ==> p.pc[w] != AtLease)
  }

  ghost predicate PoolInv(fleet: Fleet, p: Pool) {
    && Reachable(fleet, p.sys)
    && p.late.Keys == p.pc.Keys
    && (forall w | w in p.pc :: WorkerInv(p, w))
  }

  // Without store errors every worker holds what is leased under its name.
  ghost predicate PoolHolds(fleet: Fleet, p: Pool) {
    !p.lost && !p.refused ==> forall w | w in p.pc :: HeldByHand(fleet, p.sys, w)
  }

  // Run has just started the workers.
  ghost predicate Begins(fleet: Fleet, p: Pool, mine: set<Worker>) {
    && Reachable(fleet, p.sys)
    && p.pc.Keys == p.late.Keys == mine
    && !p.cancelled && !p.lost && !p.refused
    && (forall w | w in mine :: p.pc[w] == AtCheck && p.late[w] == 0 && w !in p.sys.hands)
  }

  // Under names no row is leased to.
  ghost predicate CleanNames(fleet: Fleet, s: Sys, mine: set<Worker>) {
    forall w, t | w in mine :: !Fenced(s.db, t, fleet.owner(w))
  }

  // A row leased under a name after a label was so before it, or it was leased by that label.
  lemma FencedBefore(fleet: Fleet, s: Sys, l: Label, w: Worker, t: TaskId)
    requires Enabled(fleet, s, l) && Fenced(Apply(fleet, s, l).db, t, fleet.owner(w))
    ensures Fenced(s.db, t, fleet.owner(w)) || (l.LeaseNext? && l.task == t && fleet.owner(l.worker) == fleet.owner(w))
  {
    if t in s.db.tasks {
      RowMoves(fleet, s, l, t);
    } else {
      NewTasksPending(fleet, s, l, t);
    }
  }

  lemma OthersKeepHand(fleet: Fleet, s: Sys, l: Label, w: Worker)
    requires Enabled(fleet, s, l) && !By(l, w)
    ensures w in Apply(fleet, s, l).hands <==> w in s.hands
    ensures w in s.hands ==> Apply(fleet, s, l).hands[w] == s.hands[w]
  {
  }

  lemma OthersKeepHeld(fleet: Fleet, s: Sys, l: Label, w: Worker)
    requires Enabled(fleet, s, l) && HeldByHand(fleet, s, w) && !By(l, w)
    requires forall u | fleet.owner(w) == fleet.owner(u) :: w == u
    ensures HeldByHand(fleet, Apply(fleet, s, l), w)
  {
    OthersKeepHand(fleet, s, l, w);
    forall t | Fenced(Apply(fleet, s, l).db, t, fleet.owner(w))
      ensures Fenced(s.db, t, fleet.owner(w))
    {
      FencedBefore(fleet, s, l, w, t);
    }
  }

  lemma TakeHeld(fleet: Fleet, s: Sys, l: Label)
    requires Enabled(fleet, s, l) && l.LeaseNext? && HeldByHand(fleet, s, l.worker)
    ensures HeldByHand(fleet, Apply(fleet, s, l), l.worker) && l.worker in Apply(fleet, s, l).hands
  {
    forall t | Fenced(Apply(fleet, s, l).db, t, fleet.owner(l.worker))
      ensures t == l.task
    {
      FencedBefore(fleet, s, l, l.worker, t);
    }
  }

  lemma HandFacts(fleet: Fleet, s: Sys, w: Worker)
    requires Reachable(fleet, s) && w in s.hands
    ensures s.hands[w].id in s.db.tasks && s.hands[w].task.runID in s.db.runs && s.hands[w].task.updatedAt <= s.db.now
  {
    ReachableInv(fleet, s);
    assert HandGood(fleet, s, w);
  }

  // A commit that meets no store error ends the lease, if the worker still has it.
  lemma CommitReleases(fleet: Fleet, s: Sys, l: Label)
    requires Enabled(fleet, s, l) && (l.Advance? || l.Fail?) && !Refused(fleet, s, l)
    requires s.hands[l.worker].task.runID in s.db.runs && s.hands[l.worker].id in s.db.tasks
    ensures !Fenced(Apply(fleet, s, l).db, s.hands[l.worker].id, fleet.owner(l.worker))
  {
    if Fenced(s.db, s.hands[l.worker].id, fleet.owner(l.worker)) {
      if l.Advance? {
        AdvanceEnds(s.db, AdvanceCmdOf(fleet, s, l));
      } else {
        FailEnds(fleet, s.db, s.hands[l.worker], fleet.owner(l.worker), l.msg, l.delay, l.stamp);
      }
    }
  }

  lemma AdvanceEnds(db: Tables, cmd: AdvanceCmd)
    requires AdvanceTx(db, cmd).Commit? && Fenced(db, cmd.taskID, cmd.owner)
    ensures var db' := AdvanceTx(db, cmd).tables;
            cmd.taskID in db'.tasks && db'.tasks[cmd.taskID].status == TaskCompleted
  {
  }

  lemma FailEnds(fleet: Fleet, db: Tables, h: Hand, owner: string, msg: string, delay: Time, stamp: Time)
    requires Fenced(db, h.id, owner) && h.task.runID in db.runs
    ensures var r := FailTx(fleet, db, h, owner, msg, delay, stamp);
            r.Commit? && h.id in r.tables.tasks && r.tables.tasks[h.id].status in {TaskDead, TaskPending}
  {
  }

  lemma ConcludeHeld(fleet: Fleet, s: Sys, l: Label)
    requires Reachable(fleet, s) && Enabled(fleet, s, l) && (l.Advance? || l.Fail?) && !Refused(fleet, s, l)
    requires HeldByHand(fleet, s, l.worker)
    ensures HeldByHand(fleet, Apply(fleet, s, l), l.worker)
  {
    HandFacts(fleet, s, l.worker);
    CommitReleases(fleet, s, l);
    forall t | Fenced(Apply(fleet, s, l).db, t, fleet.owner(l.worker))
      ensures false
    {
      FencedBefore(fleet, s, l, l.worker, t);
    }
  }

  // The label a move takes, if it takes one.
  ghost function LabelOf(m: Move): Option<Label> {
    match m
    case Take(w, t, locked) => Some(LeaseNext(w, t, locked))
    case Conclude(_, l) => Some(l)
    case Elsewhere(l) => Some(l)
    case _ => None
  }

  lemma MoveHolds(fleet: Fleet, p: Pool, m: Move, w: Worker)
    requires OwnNames(fleet, p.pc.Keys) && PoolInv(fleet, p) && PoolHolds(fleet, p) && Allowed(fleet, p, m) && w in p.pc
    requires !Do(fleet, p, m).lost && !Do(fleet, p, m).refused
    ensures HeldByHand(fleet, Do(fleet, p, m).sys, w)
  {
    assert HeldByHand(fleet, p.sys, w);
    if LabelOf(m).Some? {
      var l := LabelOf(m).value;
      if !By(l, w) {
        OthersKeepHeld(fleet, p.sys, l, w);
      } else if m.Take? {
        TakeHeld(fleet, p.sys, l);
      } else {
        ConcludeHeld(fleet, p.sys, l);
      }
    }
  }

  lemma HandAfter(fleet: Fleet, s: Sys, l: Label, w: Worker)
    requires Enabled(fleet, s, l)
    ensures w in Apply(fleet, s, l).hands <==> (if By(l, w) then l.LeaseNext? else w in s.hands)
  {
  }

  lemma MoveHands(fleet: Fleet, p: Pool, m: Move, w: Worker)
    requires p.late.Keys == p.pc.Keys && Allowed(fleet, p, m) && w in p.pc && (p.pc[w] == Holding <==> w in p.sys.hands)
    ensures Do(fleet, p, m).pc[w] == Holding <==> w in Do(fleet, p, m).sys.hands
  {
    if LabelOf(m).Some? {
      HandAfter(fleet, p.sys, LabelOf(m).value, w);
    }
  }

  lemma MoveReaches(fleet: Fleet, p: Pool, m: Move)
    requires p.late.Keys == p.pc.Keys && Reachable(fleet, p.sys) && Allowed(fleet, p, m)
    ensures Reachable(fleet, Do(fleet, p, m).sys)
  {
    if LabelOf(m).Some? {
      ReachableStep(fleet, p.sys, LabelOf(m).value);
    }
  }

  lemma LateStep(fleet: Fleet, p: Pool, m: Move, w: Worker)
    requires p.late.Keys == p.pc.Keys && Allowed(fleet, p, m) && w in p.pc && LateAtMostOnce(p, w)
    ensures LateAtMostOnce(Do(fleet, p, m), w)
  {
  }

  lemma MoveKeys(fleet: Fleet, p: Pool, m: Move)
    requires p.late.Keys == p.pc.Keys && Allowed(fleet, p, m)
    ensures Do(fleet, p, m).pc.Keys == Do(fleet, p, m).late.Keys == p.pc.Keys
  {
  }

  ghost predicate WorkerInv(p: Pool, w: Worker)
    requires w in p.pc && w in p.late
  {
    (p.pc[w] == Holding <==> w in p.sys.hands) && LateAtMostOnce(p, w)
  }

  lemma WorkerStep(fleet: Fleet, p: Pool, m: Move, w: Worker)
    requires p.late.Keys == p.pc.Keys && Allowed(fleet, p, m) && w in p.pc && WorkerInv(p, w)
    ensures w in Do(fleet, p, m).pc && w in Do(fleet, p, m).late && WorkerInv(Do(fleet, p, m), w)
  {
    MoveHands(fleet, p, m, w);
    LateStep(fleet, p, m, w);
  }

  lemma PoolStep(fleet: Fleet, p: Pool, m: Move)
    requires PoolInv(fleet, p) && Allowed(fleet, p, m)
    ensures PoolInv(fleet, Do(fleet, p, m)) && Do(fleet, p, m).pc.Keys == p.pc.Keys
  {
    MoveReaches(fleet, p, m);
    MoveKeys(fleet, p, m);
    forall w | w in p.pc
      ensures WorkerInv(Do(fleet, p, m), w)
    {
      WorkerStep(fleet, p, m, w);
    }
  }

  lemma PoolHoldsStep(fleet: Fleet, p: Pool, m: Move)
    requires OwnNames(fleet, p.pc.Keys) && PoolInv(fleet, p) && PoolHolds(fleet, p) && Allowed(fleet, p, m)
    ensures PoolHolds(fleet, Do(fleet, p, m))
  {
    var q := Do(fleet, p, m);
    if !q.lost && !q.refused {
      forall w | w in p.pc
        ensures HeldByHand(fleet, q.sys, w)
      {
        MoveHolds(fleet, p, m, w);
      }
    }
  }

  // ----- runs of the engine -----

  ghost predicate Moves(fleet: Fleet, p: Pool, ms: seq<Move>)
    requires p.late.Keys == p.pc.Keys
    decreases |ms|
  {
    |ms| == 0 || (Allowed(fleet, p, ms[0]) && Moves(fleet, Do(fleet, p, ms[0]), ms[1..]))
  }

  ghost function After(fleet: Fleet, p: Pool, ms: seq<Move>): Pool
    requires p.late.Keys == p.pc.Keys && Moves(fleet, p, ms)
    decreases |ms|
  {
    if |ms| == 0 then p else After(fleet, Do(fleet, p, ms[0]), ms[1..])
  }

  lemma {:induction false} PoolTrace(fleet: Fleet, p: Pool, ms: seq<Move>)
    requires PoolInv(fleet, p) && Moves(fleet, p, ms)
    ensures PoolInv(fleet, After(fleet, p, ms)) && After(fleet, p, ms).pc.Keys == p.pc.Keys
    decreases |ms|
  {
    if |ms| > 0 {
      PoolStep(fleet, p, ms[0]);
      PoolTrace(fleet, Do(fleet, p, ms[0]), ms[1..]);
    }
  }

  lemma {:induction false} PoolHoldsTrace(fleet: Fleet, p: Pool, ms: seq<Move>)
    requires OwnNames(fleet, p.pc.Keys) && PoolInv(fleet, p) && PoolHolds(fleet, p) && Moves(fleet, p, ms)
    ensures PoolHolds(fleet, After(fleet, p, ms))
    decreases |ms|
  {
    if |ms| > 0 {
      PoolStep(fleet, p, ms[0]);
      PoolHoldsStep(fleet, p, ms[0]);
      PoolHoldsTrace(fleet, Do(fleet, p, ms[0]), ms[1..]);
    }
  }

  /**
   Clean drain: however its workers interleave with each other, with other engines and with the API,
   a row leased under one of this engine's names is the task in that worker's hand, as long as no
   commit met a store error. So when every worker has returned, no row is left leased to this engine.
   */
  lemma DrainIsClean(fleet: Fleet, p: Pool, ms: seq<Move>, mine: set<Worker>)
    requires OwnNames(fleet, mine) && Begins(fleet, p, mine) && CleanNames(fleet, p.sys, mine) && Moves(fleet, p, ms)
    requires !After(fleet, p, ms).lost && !After(fleet, p, ms).refused
    ensures var q := After(fleet, p, ms);
            && q.pc.Keys == mine
            && (forall w, t | w in mine && Fenced(q.sys.db, t, fleet.owner(w)) :: w in q.sys.hands && q.sys.hands[w].id == t)
            && ((forall w | w in mine :: q.pc[w] == Done) ==> CleanNames(fleet, q.sys, mine))
  {
    PoolTrace(fleet, p, ms);
    PoolHoldsTrace(fleet, p, ms);
    var q := After(fleet, p, ms);
    forall w, t | w in mine && Fenced(q.sys.db, t, fleet.owner(w))
      ensures w in q.sys.hands && q.sys.hands[w].id == t && q.pc[w] == Holding
    {
      assert HeldByHand(fleet, q.sys, w) && WorkerInv(q, w);
    }
  }

  /** Each worker is granted at most one lease after cancellation, whatever it and others are called. */
  lemma OneLateLease(fleet: Fleet, p: Pool, ms: seq<Move>, mine: set<Worker>, w: Worker)
    requires Begins(fleet, p, mine) && Moves(fleet, p, ms) && w in mine
    ensures var q := After(fleet, p, ms); w in q.late && q.late[w] <= 1
  {
    PoolTrace(fleet, p, ms);
    assert WorkerInv(After(fleet, p, ms), w);
  }

  // Once ctx is cancelled, a worker that is not about to lease never will be.
  lemma {:induction false} PastLeasing(fleet: Fleet, p: Pool, ms: seq<Move>, w: Worker)
    requires p.late.Keys == p.pc.Keys && p.cancelled && Moves(fleet, p, ms)
    requires w in p.pc && p.pc[w] != AtLease
    ensures var q := After(fleet, p, ms); w in q.late && q.late[w] == p.late[w]
    decreases |ms|
  {
    if |ms| > 0 {
      PastLeasing(fleet, Do(fleet, p, ms[0]), ms[1..], w);
    }
  }

  // ----- the drain ends -----

  // Moves of its own a worker has left once ctx is cancelled, at most.
  ghost function Left(pc: Pc): nat {
    match pc
    case AtLease => 3
    case Holding => 2
    case Sleeping => 2
    case AtCheck => 1
    case Done => 0
  }

  ghost predicate OwnMove(m: Move, w: Worker) {
    (m.Check? || m.Take? || m.Idle? || m.Wake? || m.Conclude?) && m.w == w
  }

  ghost function OwnMoves(ms: seq<Move>, w: Worker): nat {
    if |ms| == 0 then 0 else (if OwnMove(ms[0], w) then 1 else 0) + OwnMoves(ms[1..], w)
  }

  lemma {:induction false} OwnMovesLeft(fleet: Fleet, p: Pool, ms: seq<Move>, w: Worker)
    requires p.late.Keys == p.pc.Keys && p.cancelled && Moves(fleet, p, ms) && w in p.pc
    ensures w in After(fleet, p, ms).pc && OwnMoves(ms, w) + Left(After(fleet, p, ms).pc[w]) <= Left(p.pc[w])
    decreases |ms|
  {
    if |ms| > 0 {
      OwnMovesLeft(fleet, Do(fleet, p, ms[0]), ms[1..], w);
    }
  }

  /** Once ctx is cancelled each worker makes at most three more moves, however many it shares the pool with. */
  lemma DrainEnds(fleet: Fleet, p: Pool, ms: seq<Move>, w: Worker)
    requires p.late.Keys == p.pc.Keys && p.cancelled && Moves(fleet, p, ms) && w in p.pc
    ensures OwnMoves(ms, w) <= 3
  {
    OwnMovesLeft(fleet, p, ms, w);
  }

  lemma CanFail(fleet: Fleet, s: Sys, w: Worker)
    requires Sound(fleet) && w in s.hands && s.hands[w].task.updatedAt <= s.db.now
    ensures Enabled(fleet, s, Label.Fail(w, "", 0, s.db.now))
  {
    Backoff.CeilingInRange(fleet.cfg.backoffBase, fleet.cfg.backoffMax, s.hands[w].task.attempt);
  }

  /** And until it has returned a worker is never stuck: some move of its own is always open to it. */
  lemma NeverStuck(fleet: Fleet, p: Pool, w: Worker) returns (m: Move)
    requires Sound(fleet) && PoolInv(fleet, p) && w in p.pc && p.pc[w] != Done
    ensures OwnMove(m, w) && Allowed(fleet, p, m)
  {
    match p.pc[w]
    case AtCheck => m := Check(w);
    case AtLease => m := Idle(w, p.sys.db.tasks.Keys, false);
    case Sleeping => m := Wake(w, false);
    case Holding =>
      assert WorkerInv(p, w);
      HandFacts(fleet, p.sys, w);
      CanFail(fleet, p.sys, w);
      m := Conclude(w, Label.Fail(w, "", 0, p.sys.db.now));
  }
}
