/**
 What a worker's loop owes to the circumstances it meets: every round asks for a task, sleeps only when
 there was none to have, and concludes the one it got as its handler's outcome demands.
 */
module Loop {
  import opened Options
  import opened Workflow
  import opened Store
  import opened Scheduling
  import opened RunView
  import opened Protocol
  import opened Invariant
  import opened Guarantees
  import opened Drain
  import opened Interleaving
  import opened Environment

  // A result is committed, unless the run cannot be read: that counts as a failure of the task.
  ghost predicate Commits(result: Payload, c: Circumstances, l: Label) {
    if c.readLasts > 0 then l.Advance? && l.result == result else l.Fail? && l.msg == "store: get run"
  }

  // How a task has to be concluded, if the connection lasts: a timer fires; an activity advances with
  // what its handler returned, and fails with what went wrong.
  ghost predicate Rightly(catalog: Catalog, task: Task, c: Circumstances, l: Label) {
    c.commitLasts >= 6 ==>
      if task.kind == KindTimer then Commits(FIRED, c, l)
      else if task.activityName !in catalog.activities then
        l.Fail? && l.msg == "no activity registered for " + task.activityName
      else
        match c.handler(task.activityName, task.input)
        case Returned(output) => Commits(output, c, l)
        case Errored(msg) => l.Fail? && l.msg == msg
        case Panicked(value) => l.Fail? && l.msg == "activity panicked: " + value
  }

  // A move of a round in these circumstances. Only an unreachable store excuses a lease that fails.
  ghost predicate MoveFits(fleet: Fleet, p: Pool, m: Move, c: Circumstances) {
    match m
    case Take(_, _, locked) => locked == c.locked && c.leaseLasts > 0
    case Idle(_, locked, failed) => locked == c.locked && (failed <==> c.leaseLasts == 0)
    case Wake(_, woken) => woken <==> p.cancelled && c.doneFirst
    case Conclude(w, l) => w in p.sys.hands && Rightly(fleet.catalog, p.sys.hands[w].task, c, l)
    case _ => true
  }

  // A round ends with the sleep or with the commit.
  ghost function Ends(m: Move): nat {
    if m.Wake? || m.Conclude? then 1 else 0
  }

  ghost function RoundsIn(ms: seq<Move>): nat {
    if |ms| == 0 then 0 else Ends(ms[0]) + RoundsIn(ms[1..])
  }

  // The k-th of the moves ms of pool p belongs to a round, and fits the circumstances scheduled for it.
  ghost predicate FitsAt(fleet: Fleet, p: Pool, ms: seq<Move>, k: nat, schedule: nat -> Circumstances)
    requires k < |ms|
  {
    && p.late.Keys == p.pc.Keys && Moves(fleet, p, ms[..k])
    && MoveFits(fleet, After(fleet, p, ms[..k]), ms[k], schedule(RoundsIn(ms[..k])))
  }

  ghost predicate Follows(fleet: Fleet, p: Pool, ms: seq<Move>, schedule: nat -> Circumstances) {
    forall k | 0 <= k < |ms| :: FitsAt(fleet, p, ms, k, schedule)
  }

  lemma FollowsMore(fleet: Fleet, p: Pool, ms: seq<Move>, q: Pool, m: Move, schedule: nat -> Circumstances)
    requires Follows(fleet, p, ms, schedule) && Leads(fleet, p, ms, q) && MoveFits(fleet, q, m, schedule(RoundsIn(ms)))
    ensures Follows(fleet, p, ms + [m], schedule)
  {
    forall k | 0 <= k < |ms + [m]|
      ensures FitsAt(fleet, p, ms + [m], k, schedule)
    {
      if k < |ms| {
        assert FitsAt(fleet, p, ms, k, schedule) && (ms + [m])[..k] == ms[..k];
      } else {
        assert (ms + [m])[..k] == ms;
      }
    }
  }

  lemma {:induction false} RoundsMore(ms: seq<Move>, m: Move)
    ensures RoundsIn(ms + [m]) == RoundsIn(ms) + Ends(m)
    decreases |ms|
  {
    if |ms| == 0 {
      assert ms + [m] == [m] && [m][1..] == [];
    } else {
      assert (ms + [m])[0] == ms[0] && (ms + [m])[1..] == ms[1..] + [m];
      RoundsMore(ms[1..], m);
    }
  }

  // Worker w's pool after ms, its counter at pc, n rounds done as scheduled.
  ghost predicate At(fleet: Fleet, p: Pool, ms: seq<Move>, q: Pool, w: Worker, pc: Pc, schedule: nat -> Circumstances, n: nat) {
    && Leads(fleet, p, ms, q) && q.late.Keys == {w} && q.pc == map[w := pc] && Reachable(fleet, q.sys)
    && (w in q.sys.hands <==> pc == Holding)
    && Follows(fleet, p, ms, schedule) && RoundsIn(ms) == n
  }

  lemma OneMove(fleet: Fleet, p: Pool, ms: seq<Move>, q: Pool, w: Worker, pc: Pc, m: Move, schedule: nat -> Circumstances, n: nat)
    returns (ms': seq<Move>, q': Pool)
    requires At(fleet, p, ms, q, w, pc, schedule, n) && Allowed(fleet, q, m) && MoveFits(fleet, q, m, schedule(n))
    ensures ms' == ms + [m] && q' == Do(fleet, q, m) && Leads(fleet, p, ms', q') && q'.late.Keys == q'.pc.Keys && Reachable(fleet, q'.sys)
    ensures Follows(fleet, p, ms', schedule) && RoundsIn(ms') == n + Ends(m)
  {
    ms', q' := Extend(fleet, p, ms, q, m);
    FollowsMore(fleet, p, ms, q, m, schedule);
    RoundsMore(ms, m);
  }

  lemma {:induction false} Elsewheres(fleet: Fleet, p: Pool, ms: seq<Move>, q: Pool, ls: seq<Label>, w: Worker, pc: Pc,
                                      schedule: nat -> Circumstances, n: nat)
    returns (ms': seq<Move>, q': Pool)
    requires At(fleet, p, ms, q, w, pc, schedule, n) && Feasible(fleet, q.sys, ls) && Foreign(ls, Looping(w))
    ensures ms <= ms' && At(fleet, p, ms', q', w, pc, schedule, n) && q' == q.(sys := End(fleet, q.sys, ls))
    decreases |ls|
  {
    ms', q' := ms, q;
    if |ls| > 0 {
      ForeignStep(fleet, q.sys, ls[0], Looping(w));
      ms', q' := OneMove(fleet, p, ms, q, w, pc, Elsewhere(ls[0]), schedule, n);
      ms', q' := Elsewheres(fleet, p, ms', q', ls[1..], w, pc, schedule, n);
    }
  }

  // The others take their steps, and ctx may be cancelled.
  lemma Waits(fleet: Fleet, p: Pool, ms: seq<Move>, q: Pool, ls: seq<Label>, w: Worker, pc: Pc, cancelled: bool,
              schedule: nat -> Circumstances, n: nat)
    returns (ms': seq<Move>, q': Pool)
    requires At(fleet, p, ms, q, w, pc, schedule, n) && Feasible(fleet, q.sys, ls) && Foreign(ls, Looping(w))
    requires q.cancelled ==> cancelled
    ensures ms <= ms' && At(fleet, p, ms', q', w, pc, schedule, n)
    ensures q' == q.(sys := End(fleet, q.sys, ls), cancelled := cancelled)
  {
    ms', q' := Elsewheres(fleet, p, ms, q, ls, w, pc, schedule, n);
    if cancelled {
      ms', q' := OneMove(fleet, p, ms', q', w, pc, CancelContext, schedule, n);
    }
  }

  lemma Checks(fleet: Fleet, p: Pool, ms: seq<Move>, q: Pool, w: Worker, schedule: nat -> Circumstances, n: nat)
    returns (ms': seq<Move>, q': Pool)
    requires At(fleet, p, ms, q, w, AtCheck, schedule, n)
    ensures At(fleet, p, ms', q', w, if q.cancelled then Done else AtLease, schedule, n)
    ensures q' == q.(pc := q'.pc)
  {
    ms', q' := OneMove(fleet, p, ms, q, w, AtCheck, Check(w), schedule, n);
  }

  // LeaseTask fails, or returns nothing: every due row was locked.
  lemma Idles(fleet: Fleet, p: Pool, ms: seq<Move>, q: Pool, w: Worker, schedule: nat -> Circumstances, n: nat)
    returns (ms': seq<Move>, q': Pool)
    requires At(fleet, p, ms, q, w, AtLease, schedule, n)
    requires schedule(n).leaseLasts == 0 || forall t | Eligible(q.sys.db, t) :: t in schedule(n).locked
    ensures At(fleet, p, ms', q', w, Sleeping, schedule, n) && q' == q.(pc := q'.pc)
    ensures ms' == ms + [Idle(w, schedule(n).locked, schedule(n).leaseLasts == 0)]
  {
    ms', q' := OneMove(fleet, p, ms, q, w, AtLease, Idle(w, schedule(n).locked, schedule(n).leaseLasts == 0), schedule, n);
  }

  lemma Wakes(fleet: Fleet, p: Pool, ms: seq<Move>, q: Pool, w: Worker, schedule: nat -> Circumstances, n: nat)
    returns (ms': seq<Move>, q': Pool)
    requires At(fleet, p, ms, q, w, Sleeping, schedule, n)
    ensures At(fleet, p, ms', q', w, if q.cancelled && schedule(n).doneFirst then Done else AtCheck, schedule, n + 1)
    ensures q' == q.(pc := q'.pc) && ms' == ms + [Wake(w, q.cancelled && schedule(n).doneFirst)]
  {
    ms', q' := OneMove(fleet, p, ms, q, w, Sleeping, Wake(w, q.cancelled && schedule(n).doneFirst), schedule, n);
  }

  // The a-th of a round's moves is where it asks for a task. The connection lasting, it takes one whenever
  // some row is due that nobody has locked, and concludes it; otherwise it sleeps.
  ghost predicate Asks(fleet: Fleet, p: Pool, ms: seq<Move>, a: nat, c: Circumstances) {
    && a < |ms| && p.late.Keys == p.pc.Keys && Moves(fleet, p, ms[..a])
    && var db := After(fleet, p, ms[..a]).sys.db;
       if c.leaseLasts > 0 && exists t | t in db.tasks :: Eligible(db, t) && t !in c.locked then
         ms[a].Take? && ms[|ms| - 1].Conclude?
       else
         ms[a].Idle? && ms[|ms| - 1].Wake?
  }

  lemma AskedAndTook(fleet: Fleet, p: Pool, before: seq<Move>, q: Pool, id: TaskId, ms: seq<Move>, c: Circumstances)
    requires Leads(fleet, p, before, q) && Pick(q.sys.db, c.locked, id) && c.leaseLasts > 0
    requires |before| < |ms| && before <= ms && ms[|before|].Take? && ms[|ms| - 1].Conclude?
    ensures Asks(fleet, p, ms, |before|, c)
  {
    assert ms[..|before|] == before;
  }

  lemma AskedInVain(fleet: Fleet, p: Pool, before: seq<Move>, q: Pool, ms: seq<Move>, c: Circumstances)
    requires Leads(fleet, p, before, q) && (c.leaseLasts == 0 || forall t | Eligible(q.sys.db, t) :: t in c.locked)
    requires |before| < |ms| && before <= ms && ms[|before|].Idle? && ms[|ms| - 1].Wake?
    ensures Asks(fleet, p, ms, |before|, c)
  {
    assert ms[..|before|] == before;
  }

  // Worker w has this task in hand.
  ghost predicate InHand(s: Sys, w: Worker, id: TaskId, task: Task) {
    w in s.hands && s.hands[w].id == id && s.hands[w].task == task
  }

  // A task in hand can always be resolved: its run exists and names a registered workflow.
  lemma HandResolves(fleet: Fleet, s: Sys, w: Worker)
    requires Reachable(fleet, s) && w in s.hands
    ensures Resolvable(fleet, s.db, s.hands[w].task) && s.hands[w].task.updatedAt <= s.db.now
  {
    ReachableInv(fleet, s);
    assert HandGood(fleet, s, w);
  }

  lemma Takes(fleet: Fleet, p: Pool, ms: seq<Move>, q: Pool, w: Worker, id: TaskId, schedule: nat -> Circumstances, n: nat)
    returns (ms': seq<Move>, q': Pool)
    requires At(fleet, p, ms, q, w, AtLease, schedule, n) && Pick(q.sys.db, schedule(n).locked, id) && schedule(n).leaseLasts > 0
    ensures At(fleet, p, ms', q', w, Holding, schedule, n) && q' == q.(sys := q'.sys, pc := q'.pc, late := q'.late)
    ensures q'.sys.db == LeaseTx(q.sys.db, fleet.owner(w), fleet.cfg.leaseDuration, id)
    ensures InHand(q'.sys, w, id, q'.sys.db.tasks[id]) && Resolvable(fleet, q'.sys.db, q'.sys.db.tasks[id])
    ensures q'.sys.db.tasks[id].updatedAt <= q'.sys.db.now && ms' == ms + [Take(w, id, schedule(n).locked)]
  {
    ms', q' := OneMove(fleet, p, ms, q, w, AtLease, Take(w, id, schedule(n).locked), schedule, n);
    HandResolves(fleet, q'.sys, w);
  }

  // Others take ls, and then worker w commits what it holds, or loses it to a store error.
  ghost predicate Concludes(fleet: Fleet, s: Sys, w: Worker, ls: seq<Label>, l: Label, s': Sys) {
    && Feasible(fleet, s, ls) && Foreign(ls, Looping(w))
    && (l.Advance? || l.Fail? || l.Drop?) && l.worker == w
    && Enabled(fleet, End(fleet, s, ls), l)
    && s' == Apply(fleet, End(fleet, s, ls), l)
  }

  lemma ConcludesOn(fleet: Fleet, p: Pool, ms: seq<Move>, q: Pool, w: Worker, ls: seq<Label>, l: Label, s': Sys,
                    schedule: nat -> Circumstances, n: nat)
    returns (ms': seq<Move>, q': Pool)
    requires At(fleet, p, ms, q, w, Holding, schedule, n) && Concludes(fleet, q.sys, w, ls, l, s')
    requires w in q.sys.hands && Rightly(fleet.catalog, q.sys.hands[w].task, schedule(n), l)
    ensures At(fleet, p, ms', q', w, AtCheck, schedule, n + 1) && q'.sys == s' && q'.cancelled == q.cancelled
    ensures (q'.lost ==> q.lost || l.Drop?) && ms <= ms' && |ms| < |ms'| && ms'[|ms'| - 1] == Conclude(w, l)
  {
    ForeignTrace(fleet, q.sys, ls, Looping(w));
    ms', q' := Waits(fleet, p, ms, q, ls, w, Holding, q.cancelled, schedule, n);
    ms', q' := Concluded(fleet, p, ms', q', w, l, schedule, n);
  }

  lemma Concluded(fleet: Fleet, p: Pool, ms: seq<Move>, q: Pool, w: Worker, l: Label, schedule: nat -> Circumstances, n: nat)
    returns (ms': seq<Move>, q': Pool)
    requires At(fleet, p, ms, q, w, Holding, schedule, n)
    requires Enabled(fleet, q.sys, l) && (l.Advance? || l.Fail? || l.Drop?) && l.worker == w
    requires w in q.sys.hands && Rightly(fleet.catalog, q.sys.hands[w].task, schedule(n), l)
    ensures At(fleet, p, ms', q', w, AtCheck, schedule, n + 1) && q'.sys == Apply(fleet, q.sys, l) && q'.cancelled == q.cancelled
    ensures (q'.lost ==> q.lost || l.Drop?) && ms <= ms' && |ms| < |ms'| && ms'[|ms'| - 1] == Conclude(w, l)
  {
    HandAfter(fleet, q.sys, l, w);
    ms', q' := OneMove(fleet, p, ms, q, w, Holding, Conclude(w, l), schedule, n);
  }

  // A pool of one has the properties of any pool.
  lemma LoneWorker(fleet: Fleet, s: Sys, w: Worker, ms: seq<Move>, q: Pool)
    requires Reachable(fleet, s) && w !in s.hands && Leads(fleet, Alone(s, w), ms, q) && q.pc == map[w := Done]
    ensures w in q.late && q.late[w] <= 1
    ensures !q.lost && !q.refused && OwnNames(fleet, {w}) && CleanNames(fleet, s, {w}) ==> CleanNames(fleet, q.sys, {w})
  {
    assert Begins(fleet, Alone(s, w), {w});
    OneLateLease(fleet, Alone(s, w), ms, {w}, w);
    if !q.lost && !q.refused && OwnNames(fleet, {w}) && CleanNames(fleet, s, {w}) {
      DrainIsClean(fleet, Alone(s, w), ms, {w});
    }
  }
}
