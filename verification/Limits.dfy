/**
 What the guarantees depend on, and exactly when: each claim that does not hold of every fleet or every
 run comes with the condition under which it does, and runs of the system that show it fails otherwise.
 */
module Limits {
  import opened Options
  import opened Workflow
  import opened Store
  import opened Scheduling
  import opened RunView
  import opened Protocol
  import opened Simulation
  import opened Invariant
  import opened Guarantees
  import opened Fencing
  import opened Conservation
  import opened Accounting
  import opened Termination
  import opened Drain
  import opened Interleaving
  import opened NoLostRun
  import Backoff

  // ----- building runs, one transaction at a time -----

  ghost predicate HasRow(s: Sys, t: TaskId, row: Task) {
    t in s.db.tasks && s.db.tasks[t] == row
  }

  // Some workflow can be started.
  ghost predicate Startable(fleet: Fleet, name: string) {
    name in fleet.catalog.defs && |fleet.catalog.defs[name].steps| > 0
  }

  ghost function FreshStart(fleet: Fleet, s: Sys, name: string, input: Payload, r: RunId, t: TaskId): StartRunCmd
    requires Startable(fleet, name)
  {
    var def := fleet.catalog.defs[name];
    StartRunCmd(r, name, input, |def.steps|, None, BuildTask(fleet.cfg, def, 0, input, t, s.db.now))
  }

  lemma FreshCommits(fleet: Fleet, s: Sys, c: int, cmd: StartRunCmd)
    requires Reachable(fleet, s) && c in s.calls && s.calls[c].cmd == cmd
    requires cmd.idempotencyKey == None && cmd.runID !in s.db.runs && cmd.first.id !in s.db.tasks
    ensures var s' := Started(s, c);
            && s'.db.tasks == s.db.tasks[cmd.first.id := NewRow(cmd.runID, cmd.first, s.db.now)]
            && s'.db.runs == s.db.runs[cmd.runID := OpenRun(cmd, s.db.now)]
            && s'.hands == s.hands && s'.db.now == s.db.now
  {
    ReachableIndexed(fleet, s);
    assert forall u | u in s.db.tasks :: Listed(s, u);
  }

  // From any state a run of any workflow can be started, with a new task and nobody's hand touched.
  lemma StartFreshRun(fleet: Fleet, s: Sys, name: string, input: Payload) returns (ls: seq<Label>, r: RunId, t: TaskId)
    requires Reachable(fleet, s) && Startable(fleet, name)
    ensures Feasible(fleet, s, ls) && forall i, w | 0 <= i < |ls| :: !By(ls[i], w)
    ensures var s' := End(fleet, s, ls);
            && Reachable(fleet, s') && s'.hands == s.hands
            && t !in s.db.tasks && HasRow(s', t, NewRow(r, FreshStart(fleet, s, name, input, r, t).first, s.db.now))
            && r in s'.db.runs && s'.db.runs[r].workflowName == name
  {
    var c := Above(s.calls.Keys);
    r := Above(s.db.runs.Keys);
    t := Above(s.db.tasks.Keys);
    var cmd := FreshStart(fleet, s, name, input, r, t);
    var s1 := Apply(fleet, s, BeginStart(c, cmd));
    ReachableStep(fleet, s, BeginStart(c, cmd));
    FreshCommits(fleet, s1, c, cmd);
    ls := Pair(fleet, s, BeginStart(c, cmd), CommitStart(c));
    ReachableOn(fleet, s, ls);
  }

  lemma Wait(fleet: Fleet, s: Sys, until: Time) returns (s': Sys)
    requires Reachable(fleet, s)
    ensures Reachable(fleet, s') && s'.db.tasks == s.db.tasks && s'.hands == s.hands && s'.leases == s.leases
    ensures s.db.now <= s'.db.now && until <= s'.db.now
  {
    var to := if until <= s.db.now then s.db.now else until;
    s' := Apply(fleet, s, Tick(to));
    ReachableStep(fleet, s, Tick(to));
  }

  // With every other row locked, LeaseTask picks t.
  ghost function AllBut(s: Sys, t: TaskId): set<TaskId> {
    s.db.tasks.Keys - {t}
  }

  lemma LeaseAlone(fleet: Fleet, s: Sys, t: TaskId, row: Task, w: Worker)
    requires HasRow(s, t, row) && row.status == TaskPending && row.availableAt <= s.db.now && w !in s.hands
    ensures Enabled(fleet, s, LeaseNext(w, t, AllBut(s, t)))
    ensures var s', row' := Apply(fleet, s, LeaseNext(w, t, AllBut(s, t))),
                            LeaseRow(row, fleet.owner(w), s.db.now + fleet.cfg.leaseDuration, s.db.now);
            && HasRow(s', t, row') && w in s'.hands && s'.hands == s.hands[w := s'.hands[w]]
            && s'.hands[w].id == t && s'.hands[w].task == row' && s'.db.now == s.db.now
            && t in s'.leases && s'.hands[w].lease == s'.leases[t] == (if t in s.leases then s.leases[t] else 0) + 1
  {
    assert forall u | u in s.db.tasks && u !in AllBut(s, t) :: u == t;
  }

  lemma LeaseOnceDue(fleet: Fleet, s: Sys, t: TaskId, row: Task, w: Worker) returns (s': Sys, row': Task)
    requires Reachable(fleet, s) && HasRow(s, t, row) && row.status == TaskPending && w !in s.hands
    ensures Reachable(fleet, s') && HasRow(s', t, row') && s.db.now <= s'.db.now
    ensures w in s'.hands && s'.hands == s.hands[w := s'.hands[w]] && s'.hands[w].id == t && s'.hands[w].task == row'
    ensures row' == LeaseRow(row, fleet.owner(w), s'.db.now + fleet.cfg.leaseDuration, s'.db.now)
    ensures t in s'.leases && s'.hands[w].lease == s'.leases[t] == (if t in s.leases then s.leases[t] else 0) + 1
  {
    var s1 := Wait(fleet, s, row.availableAt);
    LeaseAlone(fleet, s1, t, row, w);
    s' := Apply(fleet, s1, LeaseNext(w, t, AllBut(s1, t)));
    row' := LeaseRow(row, fleet.owner(w), s1.db.now + fleet.cfg.leaseDuration, s1.db.now);
    ReachableStep(fleet, s1, LeaseNext(w, t, AllBut(s1, t)));
  }

  lemma ReapOnceExpired(fleet: Fleet, s: Sys, t: TaskId, row: Task) returns (s': Sys, row': Task)
    requires Reachable(fleet, s) && HasRow(s, t, row) && row.status == TaskLeased && row.leaseExpires.Some?
    ensures Reachable(fleet, s') && HasRow(s', t, row') && s'.hands == s.hands && s'.leases == s.leases
    ensures row' == ReclaimRow(row, s'.db.now) && row.leaseExpires.value < s'.db.now && s.db.now <= s'.db.now
  {
    var s1 := Wait(fleet, s, row.leaseExpires.value + 1);
    assert Expired(s1.db, t);
    var order := ExpiredOrder(s1.db);
    s', row' := Apply(fleet, s1, Reap(order)), ReclaimRow(row, s1.db.now);
    ReachableStep(fleet, s1, Reap(order));
  }

  lemma EmptyHand(fleet: Fleet, s: Sys, w: Worker) returns (s': Sys)
    requires Reachable(fleet, s)
    ensures Reachable(fleet, s') && s'.db == s.db && s'.leases == s.leases && s'.hands == s.hands - {w}
  {
    s' := s;
    if w in s.hands {
      s' := Apply(fleet, s, Drop(w));
      ReachableStep(fleet, s, Drop(w));
    } else {
      assert s.hands - {w} == s.hands;
    }
  }

  // A worker's failure, at a time of its own choosing since its lease, with no delay.
  lemma FailLands(fleet: Fleet, s: Sys, t: TaskId, row: Task, w: Worker, stamp: Time)
    requires Sound(fleet) && HasRow(s, t, row) && row.status == TaskLeased && row.leasedBy == Some(fleet.owner(w))
    requires w in s.hands && s.hands[w].id == t && s.hands[w].task.updatedAt <= stamp <= s.db.now
    requires s.hands[w].task.runID in s.db.runs
    ensures Enabled(fleet, s, Label.Fail(w, "", 0, stamp))
    ensures var s', h := Apply(fleet, s, Label.Fail(w, "", 0, stamp)), s.hands[w];
            && HasRow(s', t, if h.task.attempt >= h.task.maxAttempts then DeadRow(row, "", s.db.now)
                             else RetryRow(row, stamp, "", s.db.now))
            && s'.hands == s.hands - {w} && s'.leases == s.leases && s'.db.now == s.db.now
  {
    Backoff.CeilingInRange(fleet.cfg.backoffBase, fleet.cfg.backoffMax, s.hands[w].task.attempt);
  }

  lemma FailNow(fleet: Fleet, s: Sys, t: TaskId, row: Task, w: Worker) returns (s': Sys, row': Task)
    requires Sound(fleet) && Reachable(fleet, s) && HasRow(s, t, row) && row.status == TaskLeased && row.leasedBy == Some(fleet.owner(w))
    requires w in s.hands && s.hands[w].id == t && s.hands[w].task == row && row.updatedAt <= s.db.now
    ensures Reachable(fleet, s') && HasRow(s', t, row') && s'.hands == s.hands - {w} && s'.db.now == s.db.now
    ensures row' == if row.attempt >= row.maxAttempts then DeadRow(row, "", s.db.now) else RetryRow(row, s.db.now, "", s.db.now)
  {
    HandFacts(fleet, s, w);
    FailLands(fleet, s, t, row, w, s.db.now);
    s' := Apply(fleet, s, Label.Fail(w, "", 0, s.db.now));
    row' := s'.db.tasks[t];
    ReachableStep(fleet, s, Label.Fail(w, "", 0, s.db.now));
  }

  lemma ReplayNow(fleet: Fleet, s: Sys, t: TaskId, row: Task) returns (s': Sys, row': Task)
    requires Reachable(fleet, s) && HasRow(s, t, row) && row.status == TaskDead
    ensures Reachable(fleet, s') && HasRow(s', t, row') && s'.hands == s.hands && s'.db.now == s.db.now
    ensures row' == ReplayRow(row, s.db.now)
  {
    ReachableIndexed(fleet, s);
    assert Listed(s, t);
    s', row' := Apply(fleet, s, ReplayDead(t)), ReplayRow(row, s.db.now);
    ReachableStep(fleet, s, ReplayDead(t));
  }

  // ----- the fence -----

  // A worker the fence would let commit holds the row's current lease.
  ghost predicate FenceHolds(fleet: Fleet) {
    forall s, w | Reachable(fleet, s) && MayCommit(fleet, s, w) :: HoldsCurrent(s, w)
  }

  ghost predicate MayCommit(fleet: Fleet, s: Sys, w: Worker) {
    w in s.hands && Fenced(s.db, s.hands[w].id, fleet.owner(w))
  }

  ghost predicate HoldsCurrent(s: Sys, w: Worker)
    requires w in s.hands
  {
    s.hands[w].id in s.leases && s.leases[s.hands[w].id] == s.hands[w].lease
  }

  lemma StaleCommitPasses(fleet: Fleet, name: string, w: Worker, u: Worker) returns (s: Sys)
    requires Startable(fleet, name) && w != u && fleet.owner(w) == fleet.owner(u)
    ensures Reachable(fleet, s) && MayCommit(fleet, s, w) && !HoldsCurrent(s, w)
  {
    InitialReachable(fleet, 0);
    var ls, r, t := StartFreshRun(fleet, Initial(0), name, EMPTY_OBJECT);
    s := End(fleet, Initial(0), ls);
    var row := s.db.tasks[t];
    s, row := LeaseOnceDue(fleet, s, t, row, w);
    s, row := ReapOnceExpired(fleet, s, t, row);
    s, row := LeaseOnceDue(fleet, s, t, row, u);
  }

  /**
   The fence tells leases apart exactly when no two workers lease under one name (unless there is no
   workflow to run at all).
   */
  lemma FenceNeedsPrivateNames(fleet: Fleet)
    requires exists name :: Startable(fleet, name)
    ensures FenceHolds(fleet) <==> PrivateNames(fleet)
  {
    if PrivateNames(fleet) {
      forall s, w | Reachable(fleet, s) && MayCommit(fleet, s, w)
        ensures HoldsCurrent(s, w)
      {
        FenceSound(fleet, s, w);
      }
    } else {
      var w, u :| fleet.owner(w) == fleet.owner(u) && w != u;
      var name :| Startable(fleet, name);
      var s := StaleCommitPasses(fleet, name, w, u);
      assert MayCommit(fleet, s, w) && !HoldsCurrent(s, w);
    }
  }

  // ----- max_attempts -----

  // The claim that a task is dead-lettered after max_attempts: it has made no more attempts than that,
  // and is pending only with some left.
  ghost predicate InBudget(row: Task) {
    row.attempt <= row.maxAttempts && (row.status == TaskPending ==> row.attempt < row.maxAttempts)
  }

  ghost predicate HasBudget(s: Sys, t: TaskId) {
    t in s.db.tasks ==> InBudget(s.db.tasks[t])
  }

  // The reaper takes back the lease of a task's last attempt, without looking at max_attempts.
  ghost predicate ReapsLastAttempt(s: Sys, l: Label, t: TaskId) {
    l.Reap? && Expired(s.db, t) && s.db.tasks[t].attempt >= s.db.tasks[t].maxAttempts
  }

  lemma FailedBudget(fleet: Fleet, db: Tables, h: Hand, owner: string, msg: string, delay: Time, stamp: Time, t: TaskId)
    requires t in db.tasks && FailTx(fleet, db, h, owner, msg, delay, stamp).Commit?
    requires t == h.id && Fenced(db, t, owner) ==> h.task == db.tasks[t]
    requires InBudget(db.tasks[t])
    ensures var db' := FailTx(fleet, db, h, owner, msg, delay, stamp).tables; t in db'.tasks && InBudget(db'.tasks[t])
  {
  }

  lemma AdvancedBudget(db: Tables, cmd: AdvanceCmd, t: TaskId)
    requires AdvanceTx(db, cmd).Commit? && t in db.tasks && InBudget(db.tasks[t])
    ensures t in AdvanceTx(db, cmd).tables.tasks && InBudget(AdvanceTx(db, cmd).tables.tasks[t])
  {
  }

  lemma CommitBudget(fleet: Fleet, s: Sys, l: Label, t: TaskId)
    requires Enabled(fleet, s, l) && (l.Advance? || l.Fail?) && t in s.db.tasks && InBudget(s.db.tasks[t])
    requires s.hands[l.worker].id == t && Fenced(s.db, t, fleet.owner(l.worker)) ==> s.hands[l.worker].task == s.db.tasks[t]
    ensures t in Apply(fleet, s, l).db.tasks && InBudget(Apply(fleet, s, l).db.tasks[t])
  {
    if l.Advance? {
      if AdvanceTx(s.db, AdvanceCmdOf(fleet, s, l)).Commit? {
        AdvancedBudget(s.db, AdvanceCmdOf(fleet, s, l), t);
      }
    } else if FailTx(fleet, s.db, s.hands[l.worker], fleet.owner(l.worker), l.msg, l.delay, l.stamp).Commit? {
      FailedBudget(fleet, s.db, s.hands[l.worker], fleet.owner(l.worker), l.msg, l.delay, l.stamp, t);
    }
  }

  lemma RestBudget(fleet: Fleet, s: Sys, l: Label, t: TaskId)
    requires Enabled(fleet, s, l) && !l.Advance? && !l.Fail? && t in s.db.tasks
    requires InBudget(s.db.tasks[t]) && s.db.tasks[t].maxAttempts > 0
    ensures t in Apply(fleet, s, l).db.tasks
    ensures InBudget(Apply(fleet, s, l).db.tasks[t]) <==> !ReapsLastAttempt(s, l, t)
  {
    RestRow(fleet, s, l, t);
  }

  // A task within its budget leaves it by one thing only.
  lemma BudgetStep(fleet: Fleet, s: Sys, l: Label, t: TaskId)
    requires Sound(fleet) && PrivateNames(fleet) && Reachable(fleet, s) && Enabled(fleet, s, l) && HasBudget(s, t)
    ensures HasBudget(Apply(fleet, s, l), t) <==> !ReapsLastAttempt(s, l, t)
  {
    if t in s.db.tasks {
      AttemptsAreSome(fleet, s, t);
      if l.Advance? || l.Fail? {
        if Fenced(s.db, s.hands[l.worker].id, fleet.owner(l.worker)) {
          FenceSound(fleet, s, l.worker);
        }
        CommitBudget(fleet, s, l, t);
      } else {
        RestBudget(fleet, s, l, t);
      }
    } else if t in Apply(fleet, s, l).db.tasks {
      NewRowFresh(fleet, s, l, t);
      ReachableStep(fleet, s, l);
      AttemptsAreSome(fleet, Apply(fleet, s, l), t);
    }
  }

  ghost predicate AlwaysInBudget(fleet: Fleet, s: Sys, ls: seq<Label>, t: TaskId)
    requires Feasible(fleet, s, ls)
    decreases |ls|
  {
    HasBudget(s, t) && (|ls| > 0 ==> AlwaysInBudget(fleet, Apply(fleet, s, ls[0]), ls[1..], t))
  }

  ghost predicate LastAttemptReaped(fleet: Fleet, s: Sys, ls: seq<Label>, t: TaskId)
    requires Feasible(fleet, s, ls)
    decreases |ls|
  {
    |ls| > 0 && (ReapsLastAttempt(s, ls[0], t) || LastAttemptReaped(fleet, Apply(fleet, s, ls[0]), ls[1..], t))
  }

  /**
   With private names a task is dead-lettered after max_attempts, and never tried beyond them, exactly
   as long as the reaper does not take back the lease of its last attempt.
   */
  lemma {:induction false} WithinMaxAttempts(fleet: Fleet, s: Sys, ls: seq<Label>, t: TaskId)
    requires Sound(fleet) && PrivateNames(fleet) && Reachable(fleet, s) && Feasible(fleet, s, ls) && HasBudget(s, t)
    ensures AlwaysInBudget(fleet, s, ls, t) <==> !LastAttemptReaped(fleet, s, ls, t)
    decreases |ls|
  {
    if |ls| > 0 {
      BudgetStep(fleet, s, ls[0], t);
      if HasBudget(Apply(fleet, s, ls[0]), t) {
        ReachableStep(fleet, s, ls[0]);
        WithinMaxAttempts(fleet, Apply(fleet, s, ls[0]), ls[1..], t);
      }
    }
  }

  // A worker leases, crashes, and the reaper takes the task back: one attempt more, nothing else.
  lemma {:induction false} LeasedAndLost(fleet: Fleet, name: string, n: nat) returns (s: Sys, t: TaskId)
    requires Startable(fleet, name)
    ensures Reachable(fleet, s) && t in s.db.tasks && s.db.tasks[t].status == TaskPending && s.db.tasks[t].attempt == n
    decreases n
  {
    if n == 0 {
      InitialReachable(fleet, 0);
      var ls, r;
      ls, r, t := StartFreshRun(fleet, Initial(0), name, EMPTY_OBJECT);
      s := End(fleet, Initial(0), ls);
    } else {
      s, t := LeasedAndLost(fleet, name, n - 1);
      var w := IdleWorker(s);
      var row := s.db.tasks[t];
      s, row := LeaseOnceDue(fleet, s, t, row, w);
      s, row := ReapOnceExpired(fleet, s, t, row);
    }
  }

  /** Crashes alone take a task to any attempt: no number is a bound on attempts. */
  lemma AttemptsHaveNoBound(fleet: Fleet, name: string, n: nat)
    requires Startable(fleet, name)
    ensures exists s, t :: Reachable(fleet, s) && t in s.db.tasks && s.db.tasks[t].attempt == n && s.db.tasks[t].status == TaskPending
  {
    var s, t := LeasedAndLost(fleet, name, n);
  }

  // ----- leases after cancellation -----

  ghost function ElsewhereOf(ls: seq<Label>): seq<Move> {
    if |ls| == 0 then [] else [Elsewhere(ls[0])] + ElsewhereOf(ls[1..])
  }

  lemma {:induction false} ElsewhereMoves(fleet: Fleet, p: Pool, ls: seq<Label>)
    requires p.late.Keys == p.pc.Keys && Feasible(fleet, p.sys, ls)
    requires forall i, w | 0 <= i < |ls| && w in p.pc :: !By(ls[i], w)
    ensures Leads(fleet, p, ElsewhereOf(ls), p.(sys := End(fleet, p.sys, ls)))
    decreases |ls|
  {
    if |ls| > 0 {
      var m := Elsewhere(ls[0]);
      ElsewhereMoves(fleet, Do(fleet, p, m), ls[1..]);
      assert ElsewhereOf(ls)[0] == m && ElsewhereOf(ls)[1..] == ElsewhereOf(ls[1..]);
    }
  }

  // These moves grant worker w a lease that counts as late.
  ghost predicate GrantsLate(fleet: Fleet, p: Pool, ms: seq<Move>, w: Worker) {
    && p.late.Keys == p.pc.Keys && Moves(fleet, p, ms)
    && w in p.late && w in After(fleet, p, ms).late
    && After(fleet, p, ms).late[w] > p.late[w]
  }

  // Start a run elsewhere, let it come due, and let w take it.
  lemma LateLeaseFor(fleet: Fleet, p: Pool, name: string, w: Worker) returns (ms: seq<Move>)
    requires PoolInv(fleet, p) && p.cancelled && w in p.pc && p.pc[w] == AtLease && Startable(fleet, name)
    ensures GrantsLate(fleet, p, ms, w)
  {
    assert WorkerInv(p, w);
    var ls, r, t := StartFreshRun(fleet, p.sys, name, EMPTY_OBJECT);
    var s1 := End(fleet, p.sys, ls);
    var row := s1.db.tasks[t];
    var to := if row.availableAt <= s1.db.now then s1.db.now else row.availableAt;
    Single(fleet, s1, Tick(to));
    Append(fleet, p.sys, ls, [Tick(to)]);
    ReachableStep(fleet, s1, Tick(to));
    var s2 := Apply(fleet, s1, Tick(to));
    ElsewhereMoves(fleet, p, ls + [Tick(to)]);
    LeaseAlone(fleet, s2, t, row, w);
    OneMoreMove(fleet, p, ElsewhereOf(ls + [Tick(to)]), p.(sys := s2), Take(w, t, AllBut(s2, t)));
    ms := ElsewhereOf(ls + [Tick(to)]) + [Take(w, t, AllBut(s2, t))];
  }

  /**
   Cancellation stops leasing, except for the workers that are past their check: from there on a worker
   may be granted a lease exactly if it was about to lease when ctx was cancelled.
   */
  lemma LateLeaseExactly(fleet: Fleet, p: Pool, w: Worker)
    requires PoolInv(fleet, p) && p.cancelled && w in p.pc && exists name :: Startable(fleet, name)
    ensures (exists ms :: GrantsLate(fleet, p, ms, w)) <==> p.pc[w] == AtLease
  {
    if p.pc[w] == AtLease {
      var name :| Startable(fleet, name);
      var ms := LateLeaseFor(fleet, p, name, w);
      assert GrantsLate(fleet, p, ms, w);
    } else {
      forall ms | p.late.Keys == p.pc.Keys && Moves(fleet, p, ms)
        ensures !GrantsLate(fleet, p, ms, w)
      {
        PastLeasing(fleet, p, ms, w);
      }
    }
  }

  /** And a worker does get there: it checks, and ctx is cancelled before it has leased. */
  lemma LateLeaseHappens(fleet: Fleet, s: Sys, w: Worker)
    requires Reachable(fleet, s) && w !in s.hands && exists name :: Startable(fleet, name)
    ensures exists ms :: Moves(fleet, Alone(s, w), ms) && After(fleet, Alone(s, w), ms).late == map[w := 1]
  {
    var name :| Startable(fleet, name);
    var p := Alone(s, w);
    var ms, q := [], p;
    ms, q := Extend(fleet, p, ms, q, Check(w));
    ms, q := Extend(fleet, p, ms, q, CancelContext);
    var more := LateLeaseFor(fleet, q, name, w);
    JoinMoves(fleet, p, ms, q, more);
    assert Begins(fleet, p, {w});
    OneLateLease(fleet, p, ms + more, {w}, w);
    PoolTrace(fleet, p, ms + more);
    assert After(fleet, p, ms + more).late == map[w := 1];
  }

  lemma {:induction false} JoinMoves(fleet: Fleet, p: Pool, ms: seq<Move>, q: Pool, more: seq<Move>)
    requires Leads(fleet, p, ms, q) && q.late.Keys == q.pc.Keys && Moves(fleet, q, more)
    ensures Leads(fleet, p, ms + more, After(fleet, q, more))
    decreases |ms|
  {
    if |ms| == 0 {
      assert ms + more == more;
    } else {
      assert (ms + more)[0] == ms[0] && (ms + more)[1..] == ms[1..] + more;
      JoinMoves(fleet, Do(fleet, p, ms[0]), ms[1..], q, more);
    }
  }

  // ----- due times -----

  // No transaction makes a task available earlier than it was.
  ghost predicate NeverEarlier(fleet: Fleet) {
    forall s, l, t | Reachable(fleet, s) && Enabled(fleet, s, l) && t in s.db.tasks :: KeepsDue(s, Apply(fleet, s, l), t)
  }

  ghost predicate KeepsDue(s: Sys, s': Sys, t: TaskId)
    requires t in s.db.tasks
  {
    t in s'.db.tasks && s.db.tasks[t].availableAt <= s'.db.tasks[t].availableAt
  }

  // Step k of a workflow may be tried more than once, and some input can get a run there.
  ghost predicate Retriable(fleet: Fleet, name: string, k: nat, input: Payload, mid: Payload) {
    && name in fleet.catalog.defs
    && k < |fleet.catalog.defs[name].steps|
    && MaxAttempts(fleet.cfg, fleet.catalog.defs[name].steps[k]) > 1
    && StraightLine(fleet.catalog, fleet.catalog.defs[name].steps[..k], input, mid)
  }

  ghost predicate HandsTried(s: Sys) {
    forall w | w in s.hands :: s.hands[w].task.attempt >= 1
  }

  lemma TriedStep(fleet: Fleet, s: Sys, l: Label)
    requires Reachable(fleet, s) && Enabled(fleet, s, l) && HandsTried(s)
    ensures HandsTried(Apply(fleet, s, l))
  {
    if l.LeaseNext? {
      AttemptsAccounted(fleet, s, l.task);
    }
  }

  lemma {:induction false} TriedTrace(fleet: Fleet, s: Sys, ls: seq<Label>)
    requires Reachable(fleet, s) && HandsTried(s) && Feasible(fleet, s, ls)
    ensures HandsTried(End(fleet, s, ls))
    decreases |ls|
  {
    if |ls| > 0 {
      TriedStep(fleet, s, ls[0]);
      ReachableStep(fleet, s, ls[0]);
      TriedTrace(fleet, Apply(fleet, s, ls[0]), ls[1..]);
    }
  }

  lemma ReachableTried(fleet: Fleet, s: Sys)
    requires Reachable(fleet, s)
    ensures HandsTried(s)
  {
    var now, ls :| Reaches(fleet, now, ls, s);
    InitialReachable(fleet, now);
    TriedTrace(fleet, Initial(now), ls);
  }

  // A retry shows that the task's step may be tried more than once.
  lemma RetryIsRetriable(fleet: Fleet, s: Sys, l: Label, t: TaskId) returns (name: string, k: nat, input: Payload)
    requires Reachable(fleet, s) && Enabled(fleet, s, l) && t in s.db.tasks && ActOn(fleet, s, l, t).Retry?
    ensures s.db.tasks[t].runID in s.db.runs && Covered(s, s.db.tasks[t].runID)
    ensures exists mid :: Retriable(fleet, name, k, input, mid)
  {
    var r := s.db.tasks[t].runID;
    var u := s.hands[l.worker].id;
    ReachableLands(fleet, s, l.worker);
    ReachableTried(fleet, s);
    HeldTask(fleet, s, l.worker);
    TaskIsItsStep(fleet, s, u);
    CurrentInputIsStraightLine(fleet, s, u);
    name, k, input := s.db.runs[r].workflowName, s.db.tasks[u].stepIndex, s.db.runs[r].input;
    assert Retriable(fleet, name, k, input, s.db.tasks[u].input);
  }

  lemma HeldTask(fleet: Fleet, s: Sys, w: Worker)
    requires Reachable(fleet, s) && w in s.hands
    ensures s.hands[w].id in s.db.tasks && SameTask(s.db.tasks[s.hands[w].id], s.hands[w].task)
  {
    ReachableInv(fleet, s);
    assert HandGood(fleet, s, w);
  }

  lemma UnretriedKeepsDue(fleet: Fleet, s: Sys, l: Label, t: TaskId)
    requires Reachable(fleet, s) && Enabled(fleet, s, l) && t in s.db.tasks
    requires !exists name, k, input, mid :: Retriable(fleet, name, k, input, mid)
    ensures KeepsDue(s, Apply(fleet, s, l), t)
  {
    ReachableIndexed(fleet, s);
    InView(s, t);
    ReachableGood(fleet, s, s.db.tasks[t].runID);
    if ActOn(fleet, s, l, t).Retry? {
      var name, k, input := RetryIsRetriable(fleet, s, l, t);
    }
    PostponedStep(fleet, s, l, t);
  }

  // Bring run r, whose current task has just been scheduled, to step k.
  lemma {:induction false} DriveTo(fleet: Fleet, s: Sys, r: RunId, k: nat, mid: Payload) returns (s': Sys)
    requires Reachable(fleet, s) && Alive(s, r) && s.db.runs[r].workflowName in fleet.catalog.defs
    requires |IdsOf(s, r)| - 1 <= k < |StepsOfRun(fleet, s, r)|
    requires s.db.tasks[LastOf(s, r)].status == TaskPending && s.db.tasks[LastOf(s, r)].attempt == 0
    requires StraightLine(fleet.catalog, StepsOfRun(fleet, s, r)[|IdsOf(s, r)| - 1..k], s.db.tasks[LastOf(s, r)].input, mid)
    ensures Reachable(fleet, s') && Alive(s', r) && |IdsOf(s', r)| == k + 1
    ensures s'.db.tasks[LastOf(s', r)].status == TaskPending && s'.db.tasks[LastOf(s', r)].attempt == 0
    ensures s'.db.runs[r].workflowName == s.db.runs[r].workflowName
    decreases k - |IdsOf(s, r)|
  {
    var i, all := |IdsOf(s, r)| - 1, StepsOfRun(fleet, s, r);
    s' := s;
    if i < k {
      assert all[i..k][0] == all[i] && all[i..k][1..] == all[i + 1..k];
      var next :| Returns(fleet.catalog, all[i..k][0], s.db.tasks[LastOf(s, r)].input, next)
                  && StraightLine(fleet.catalog, all[i..k][1..], next, mid);
      var ls := CompleteStep(fleet, s, r, next);
      s' := DriveTo(fleet, End(fleet, s, ls), r, k, mid);
    }
  }

  // A pending task with nobody of these two holding anything, never tried and with two attempts at least.
  lemma RetriableTask(fleet: Fleet, name: string, k: nat, input: Payload, mid: Payload, w: Worker, u: Worker)
    returns (s: Sys, t: TaskId)
    requires Retriable(fleet, name, k, input, mid)
    ensures Reachable(fleet, s) && w !in s.hands && u !in s.hands
    ensures t in s.db.tasks && s.db.tasks[t].status == TaskPending && s.db.tasks[t].attempt == 0 && s.db.tasks[t].maxAttempts > 1
  {
    InitialReachable(fleet, 0);
    var ls, r, first := StartFreshRun(fleet, Initial(0), name, input);
    s := End(fleet, Initial(0), ls);
    LiveIsAlive(fleet, s, first);
    FirstOfRun(fleet, s, first);
    assert StepsOfRun(fleet, s, r)[0..k] == fleet.catalog.defs[name].steps[..k];
    s := DriveTo(fleet, s, r, k, mid);
    t := LastOf(s, r);
    LiveIsAlive(fleet, s, t);
    TaskIsItsStep(fleet, s, t);
    s := EmptyHand(fleet, s, w);
    s := EmptyHand(fleet, s, u);
  }

  lemma FirstOfRun(fleet: Fleet, s: Sys, t: TaskId)
    requires Reachable(fleet, s) && t in s.db.tasks && LiveStatus(s.db.tasks[t].status) && s.db.tasks[t].stepIndex == 0
    ensures Alive(s, s.db.tasks[t].runID) && |IdsOf(s, s.db.tasks[t].runID)| == 1 && LastOf(s, s.db.tasks[t].runID) == t
  {
    LiveIsAlive(fleet, s, t);
  }

  // u takes a task up again and puts it off until now.
  lemma PutOff(fleet: Fleet, s0: Sys, t: TaskId, row0: Task, u: Worker) returns (s: Sys, row: Task)
    requires Sound(fleet) && Reachable(fleet, s0) && HasRow(s0, t, row0) && row0.status == TaskPending && u !in s0.hands
    ensures Reachable(fleet, s) && HasRow(s, t, row) && row.status == TaskPending && s.hands == s0.hands
    ensures s0.db.now <= row.availableAt == s.db.now
  {
    s, row := LeaseOnceDue(fleet, s0, t, row0, u);
    s, row := FailNow(fleet, s, t, row, u);
    if row.status == TaskDead {
      s, row := ReplayNow(fleet, s, t, row);
    }
  }

  // w leases, stalls and loses the task; u puts it off; under u's next lease w's late failure passes
  // the fence and calls the task due as of its own stamp.
  lemma StaleRetry(fleet: Fleet, s0: Sys, t: TaskId, w: Worker, u: Worker) returns (s: Sys, l: Label)
    requires Sound(fleet) && w != u && fleet.owner(w) == fleet.owner(u)
    requires Reachable(fleet, s0) && w !in s0.hands && u !in s0.hands
    requires t in s0.db.tasks && s0.db.tasks[t].status == TaskPending && s0.db.tasks[t].attempt == 0 && s0.db.tasks[t].maxAttempts > 1
    ensures Reachable(fleet, s) && Enabled(fleet, s, l) && t in s.db.tasks && !KeepsDue(s, Apply(fleet, s, l), t)
  {
    var row := s0.db.tasks[t];
    s, row := LeaseOnceDue(fleet, s0, t, row, w);
    var stamp, held := s.db.now, s.hands[w];
    s, row := ReapOnceExpired(fleet, s, t, row);
    s, row := PutOff(fleet, s, t, row, u);
    s, row := LeaseOnceDue(fleet, s, t, row, u);
    assert s.hands[w] == held && stamp < row.availableAt;
    l := LateFailure(fleet, s, t, row, w);
  }

  lemma LateFailure(fleet: Fleet, s: Sys, t: TaskId, row: Task, w: Worker) returns (l: Label)
    requires Sound(fleet) && Reachable(fleet, s) && HasRow(s, t, row) && row.status == TaskLeased && row.leasedBy == Some(fleet.owner(w))
    requires w in s.hands && s.hands[w].id == t && s.hands[w].task.attempt < s.hands[w].task.maxAttempts
    requires s.hands[w].task.updatedAt < row.availableAt
    ensures Enabled(fleet, s, l) && t in s.db.tasks && !KeepsDue(s, Apply(fleet, s, l), t)
  {
    HandFacts(fleet, s, w);
    l := Label.Fail(w, "", 0, s.hands[w].task.updatedAt);
    FailLands(fleet, s, t, row, w, s.hands[w].task.updatedAt);
  }

  /**
   Due times only move on exactly if names are private, or no step a run can get to may be tried twice.
   */
  lemma NeverEarlierExactly(fleet: Fleet)
    requires Sound(fleet)
    ensures NeverEarlier(fleet)
       <==> PrivateNames(fleet) || !exists name, k: nat, input, mid :: Retriable(fleet, name, k, input, mid)
  {
    if PrivateNames(fleet) || !exists name, k: nat, input, mid :: Retriable(fleet, name, k, input, mid) {
      forall s, l, t | Reachable(fleet, s) && Enabled(fleet, s, l) && t in s.db.tasks
        ensures KeepsDue(s, Apply(fleet, s, l), t)
      {
        if PrivateNames(fleet) {
          NeverDueEarlier(fleet, s, l, t);
        } else {
          UnretriedKeepsDue(fleet, s, l, t);
        }
      }
    } else {
      var name, k: nat, input, mid :| Retriable(fleet, name, k, input, mid);
      var w, u :| fleet.owner(w) == fleet.owner(u) && w != u;
      var s0, t := RetriableTask(fleet, name, k, input, mid, w, u);
      var s, l := StaleRetry(fleet, s0, t, w, u);
    }
  }
}
