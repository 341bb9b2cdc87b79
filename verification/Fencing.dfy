/**
 What the owner-name fence gives when no two workers share a name: a commit that passes it was
 computed from the row as it stands, and a task has at most one holder within its deadline.
 */
module Fencing {
  import opened Options
  import opened Workflow
  import opened Store
  import opened History
  import opened Scheduling
  import opened RunView
  import opened Protocol
  import opened Simulation
  import opened Invariant
  import opened Guarantees

  // ----- one row, one label -----

  ghost predicate RowStep(fleet: Fleet, s: Sys, l: Label, t: TaskId, row: Task, row': Task) {
    || row' == row
    || (l.LeaseNext? && l.task == t && row.status == TaskPending
        && row' == LeaseRow(row, fleet.owner(l.worker), s.db.now + fleet.cfg.leaseDuration, s.db.now))
    || ((l.Advance? || l.Fail?) && l.worker in s.hands && s.hands[l.worker].id == t
        && Fenced(s.db, t, fleet.owner(l.worker)) && row'.status != TaskLeased && row'.updatedAt == s.db.now)
    || (l.Reap? && Expired(s.db, t) && row' == ReclaimRow(row, s.db.now))
    || (l.ReplayDead? && row.status == TaskDead && row' == ReplayRow(row, s.db.now))
    || (l.CancelRun? && !Terminal(row.status) && row' == CancelRow(row, s.db.now))
  }

  lemma AdvanceRow(db: Tables, cmd: AdvanceCmd, t: TaskId)
    requires t in db.tasks && AdvanceTx(db, cmd).Commit?
    ensures var db' := AdvanceTx(db, cmd).tables;
            && t in db'.tasks
            && (db'.tasks[t] == db.tasks[t]
                || (t == cmd.taskID && Fenced(db, t, cmd.owner) && db'.tasks[t] == CompleteRow(db.tasks[t], cmd.result, db.now)))
  {
  }

  lemma FailRow(fleet: Fleet, db: Tables, h: Hand, owner: string, msg: string, delay: Time, stamp: Time, t: TaskId)
    requires t in db.tasks && FailTx(fleet, db, h, owner, msg, delay, stamp).Commit?
    ensures var db' := FailTx(fleet, db, h, owner, msg, delay, stamp).tables;
            && t in db'.tasks
            && (db'.tasks[t] == db.tasks[t]
                || (t == h.id && Fenced(db, t, owner) && db'.tasks[t].status != TaskLeased && db'.tasks[t].updatedAt == db.now))
  {
  }

  lemma RowMoves(fleet: Fleet, s: Sys, l: Label, t: TaskId)
    requires Enabled(fleet, s, l) && t in s.db.tasks
    ensures t in Apply(fleet, s, l).db.tasks
    ensures RowStep(fleet, s, l, t, s.db.tasks[t], Apply(fleet, s, l).db.tasks[t])
  {
    if l.Advance? {
      if AdvanceTx(s.db, AdvanceCmdOf(fleet, s, l)).Commit? {
        AdvanceRow(s.db, AdvanceCmdOf(fleet, s, l), t);
      }
    } else if l.Fail? {
      var h := s.hands[l.worker];
      if FailTx(fleet, s.db, h, fleet.owner(l.worker), l.msg, l.delay, l.stamp).Commit? {
        FailRow(fleet, s.db, h, fleet.owner(l.worker), l.msg, l.delay, l.stamp, t);
      }
    } else {
      RestRow(fleet, s, l, t);
    }
  }

  lemma RestRow(fleet: Fleet, s: Sys, l: Label, t: TaskId)
    requires Enabled(fleet, s, l) && t in s.db.tasks && !l.Advance? && !l.Fail?
    ensures t in Apply(fleet, s, l).db.tasks
    ensures RowStep(fleet, s, l, t, s.db.tasks[t], Apply(fleet, s, l).db.tasks[t])
  {
    if l.CommitStart? {
      StartRow(s, l.call, t);
    }
  }

  lemma StartRow(s: Sys, c: int, t: TaskId)
    requires c in s.calls && t in s.db.tasks
    ensures t in Started(s, c).db.tasks && Started(s, c).db.tasks[t] == s.db.tasks[t]
  {
  }

  lemma LeaseCounts(fleet: Fleet, s: Sys, l: Label, t: TaskId)
    requires Enabled(fleet, s, l) && t in s.db.tasks && t in s.leases
    ensures t in Apply(fleet, s, l).leases
    ensures Apply(fleet, s, l).leases[t] == s.leases[t] + if l.LeaseNext? && l.task == t then 1 else 0
  {
  }

  // ----- the invariant of the fence -----

  // A hand the fence would let through holds the row itself; any other hand is past its deadline,
  // or its task was cancelled.
  ghost predicate HandTrue(fleet: Fleet, s: Sys, w: Worker)
    requires w in s.hands
  {
    var h := s.hands[w];
    && h.id in s.db.tasks && h.id in s.leases && h.task.leaseExpires.Some?
    && h.lease <= s.leases[h.id]
    && (if Fenced(s.db, h.id, fleet.owner(w)) then s.db.tasks[h.id] == h.task && s.leases[h.id] == h.lease
        else s.db.tasks[h.id].status == TaskCancelled || h.task.leaseExpires.value < s.db.tasks[h.id].updatedAt)
  }

  // Two holders of one task: the older one's deadline had passed before the newer lease was granted.
  ghost predicate Exclusive(s: Sys, w: Worker, u: Worker)
    requires w in s.hands && u in s.hands
  {
    w != u && s.hands[w].id == s.hands[u].id ==>
      && s.hands[w].lease != s.hands[u].lease
      && s.hands[w].task.leaseExpires.Some?
      && (s.hands[w].lease < s.hands[u].lease ==> s.hands[w].task.leaseExpires.value < s.hands[u].task.updatedAt)
  }

  ghost predicate FenceInv(fleet: Fleet, s: Sys) {
    && (forall w | w in s.hands :: HandTrue(fleet, s, w))
    && (forall w, u | w in s.hands && u in s.hands :: Exclusive(s, w, u))
  }

  lemma UpdatedInPast(fleet: Fleet, s: Sys, t: TaskId)
    requires Inv(fleet, s) && t in s.db.tasks
    ensures s.db.tasks[t].updatedAt <= s.db.now
  {
    InView(s, t);
    assert Good(fleet, ViewOf(s, s.db.tasks[t].runID), s.db.now);
  }

  lemma HandTrueStep(fleet: Fleet, s: Sys, l: Label, w: Worker)
    requires PrivateNames(fleet) && Enabled(fleet, s, l)
    requires w in s.hands && HandTrue(fleet, s, w) && w in Apply(fleet, s, l).hands
    requires s.db.tasks[s.hands[w].id].updatedAt <= s.db.now
    ensures HandTrue(fleet, Apply(fleet, s, l), w)
  {
    var t := s.hands[w].id;
    RowMoves(fleet, s, l, t);
    LeaseCounts(fleet, s, l, t);
    HandsOf(fleet, s, l, w);
    HandDropped(fleet, s, l);
    if l.LeaseNext? || l.Advance? || l.Fail? {
      assert fleet.owner(l.worker) == fleet.owner(w) ==> l.worker == w;
    }
  }

  lemma HandDropped(fleet: Fleet, s: Sys, l: Label)
    requires Enabled(fleet, s, l)
    ensures l.Advance? || l.Fail? ==> l.worker !in Apply(fleet, s, l).hands
    ensures l.LeaseNext? ==> l.worker !in s.hands
  {
  }

  lemma NewHandTrue(fleet: Fleet, s: Sys, l: Label)
    requires Enabled(fleet, s, l) && l.LeaseNext?
    ensures l.worker in Apply(fleet, s, l).hands && HandTrue(fleet, Apply(fleet, s, l), l.worker)
  {
  }

  // Everyone who held the task before this lease is past their deadline.
  lemma NewHandExclusive(fleet: Fleet, s: Sys, l: Label, w: Worker)
    requires Enabled(fleet, s, l) && l.LeaseNext? && w in s.hands && HandTrue(fleet, s, w)
    requires s.db.tasks[s.hands[w].id].updatedAt <= s.db.now
    ensures w in Apply(fleet, s, l).hands && l.worker in Apply(fleet, s, l).hands
    ensures Exclusive(Apply(fleet, s, l), w, l.worker) && Exclusive(Apply(fleet, s, l), l.worker, w)
  {
  }

  lemma FenceStep(fleet: Fleet, s: Sys, l: Label)
    requires PrivateNames(fleet) && Inv(fleet, s) && FenceInv(fleet, s) && Enabled(fleet, s, l)
    ensures FenceInv(fleet, Apply(fleet, s, l))
  {
    forall w | w in s.hands
      ensures HandTrue(fleet, s, w) && s.db.tasks[s.hands[w].id].updatedAt <= s.db.now
    {
      UpdatedInPast(fleet, s, s.hands[w].id);
    }
    FenceStepHands(fleet, s, l);
    var s' := Apply(fleet, s, l);
    forall w, u | w in s'.hands && u in s'.hands
      ensures Exclusive(s', w, u)
    {
      ExclusiveStep(fleet, s, l, w, u);
    }
  }

  lemma ExclusiveStep(fleet: Fleet, s: Sys, l: Label, w: Worker, u: Worker)
    requires Enabled(fleet, s, l)
    requires forall w | w in s.hands :: HandTrue(fleet, s, w) && s.db.tasks[s.hands[w].id].updatedAt <= s.db.now
    requires w in s.hands && u in s.hands ==> Exclusive(s, w, u)
    requires w in Apply(fleet, s, l).hands && u in Apply(fleet, s, l).hands
    ensures Exclusive(Apply(fleet, s, l), w, u)
  {
    HandsOf(fleet, s, l, w);
    HandsOf(fleet, s, l, u);
    HandDropped(fleet, s, l);
    if w != u {
      if w !in s.hands {
        NewHandExclusive(fleet, s, l, u);
      } else if u !in s.hands {
        NewHandExclusive(fleet, s, l, w);
      }
    }
  }

  lemma FenceStepHands(fleet: Fleet, s: Sys, l: Label)
    requires PrivateNames(fleet) && Enabled(fleet, s, l)
    requires forall w | w in s.hands :: HandTrue(fleet, s, w) && s.db.tasks[s.hands[w].id].updatedAt <= s.db.now
    ensures forall w | w in Apply(fleet, s, l).hands :: HandTrue(fleet, Apply(fleet, s, l), w)
  {
    forall w | w in Apply(fleet, s, l).hands
      ensures HandTrue(fleet, Apply(fleet, s, l), w)
    {
      HandsOf(fleet, s, l, w);
      if w in s.hands {
        HandTrueStep(fleet, s, l, w);
      } else {
        NewHandTrue(fleet, s, l);
      }
    }
  }

  lemma {:induction false} FenceTrace(fleet: Fleet, s: Sys, ls: seq<Label>)
    requires PrivateNames(fleet) && Inv(fleet, s) && FenceInv(fleet, s) && Feasible(fleet, s, ls)
    ensures FenceInv(fleet, End(fleet, s, ls))
    decreases |ls|
  {
    if |ls| > 0 {
      InvStep(fleet, s, ls[0]);
      FenceStep(fleet, s, ls[0]);
      FenceTrace(fleet, Apply(fleet, s, ls[0]), ls[1..]);
    }
  }

  lemma ReachableFence(fleet: Fleet, s: Sys)
    requires PrivateNames(fleet) && Reachable(fleet, s)
    ensures Inv(fleet, s) && FenceInv(fleet, s)
  {
    ReachableInv(fleet, s);
    var now, ls :| Reaches(fleet, now, ls, s);
    InvInitial(fleet, now);
    FenceTrace(fleet, Initial(now), ls);
  }

  /**
   Fence soundness: when a worker's commit would pass the fence, its snapshot is the row itself and
   comes from the row's latest lease, even after reclaims, replays and re-leases of the same task.
   */
  lemma FenceSound(fleet: Fleet, s: Sys, w: Worker)
    requires PrivateNames(fleet) && Reachable(fleet, s)
    requires w in s.hands && Fenced(s.db, s.hands[w].id, fleet.owner(w))
    ensures s.db.tasks[s.hands[w].id] == s.hands[w].task
    ensures s.hands[w].id in s.leases && s.leases[s.hands[w].id] == s.hands[w].lease
  {
    ReachableFence(fleet, s);
    assert HandTrue(fleet, s, w);
  }

  /**
   Visibility: of two workers holding one task, the older lease's deadline had strictly passed
   before the newer lease was granted; so at most one holder is within its deadline.
   */
  lemma VisibilityExclusion(fleet: Fleet, s: Sys, w: Worker, u: Worker)
    requires PrivateNames(fleet) && Reachable(fleet, s)
    requires w in s.hands && u in s.hands && w != u && s.hands[w].id == s.hands[u].id
    requires s.hands[w].lease <= s.hands[u].lease
    ensures s.hands[w].task.leaseExpires.Some?
    ensures s.hands[w].task.leaseExpires.value < s.hands[u].task.updatedAt <= s.db.now
  {
    ReachableFence(fleet, s);
    assert Exclusive(s, w, u);
    assert HandGood(fleet, s, u);
  }

  /** A snapshot that is no longer the row is past its deadline, or its task was cancelled. */
  lemma StaleHandIsLate(fleet: Fleet, s: Sys, w: Worker)
    requires PrivateNames(fleet) && Reachable(fleet, s)
    requires w in s.hands && s.hands[w].id in s.db.tasks && s.db.tasks[s.hands[w].id] != s.hands[w].task
    ensures s.hands[w].task.leaseExpires.Some?
    ensures s.db.tasks[s.hands[w].id].status == TaskCancelled || s.hands[w].task.leaseExpires.value < s.db.now
  {
    ReachableFence(fleet, s);
    assert HandTrue(fleet, s, w);
    UpdatedInPast(fleet, s, s.hands[w].id);
  }
}
