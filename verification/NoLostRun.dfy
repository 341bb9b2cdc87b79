/**
 No run is lost: whatever has crashed and whatever is still leased, a run with a live task can be
 brought to completion exactly as far as its handlers can take it, and this many labels are enough.
 */
module NoLostRun {
  import opened Options
  import opened Workflow
  import opened Store
  import opened Scheduling
  import opened RunView
  import opened Protocol
  import opened Simulation
  import opened Invariant
  import opened Guarantees
  import opened Fencing
  import opened Conservation
  import opened Queue
  import opened Accounting
  import Backoff

  // Pending and leased tasks of all runs.
  ghost function LiveTasks(db: Tables): set<TaskId> {
    set t | t in db.tasks && LiveStatus(db.tasks[t].status)
  }

  // The run's current task is live.
  ghost predicate Alive(s: Sys, r: RunId) {
    && r in s.db.runs
    && |IdsOf(s, r)| > 0
    && LastOf(s, r) in LiveTasks(s.db)
    && s.db.tasks[LastOf(s, r)].runID == r
  }

  // ----- fresh names, and lists of finite sets -----

  lemma {:induction false} Above(a: set<int>) returns (n: int)
    ensures n !in a && forall x | x in a :: x < n
    decreases |a|
  {
    n := 0;
    if a != {} {
      var x := AnyOf(a);
      n := Above(a - {x});
      n := if n <= x then x + 1 else n;
      assert forall y | y in a :: y in a - {x} || y == x;
    } else {
      assert forall x :: x !in a;
    }
  }

  lemma IdleWorker(s: Sys) returns (w: Worker)
    ensures w !in s.hands
  {
    var n := Above(set u | u in s.hands :: u.engine);
    w := Worker(n, 0);
  }

  lemma {:induction false} Listing(a: set<TaskId>) returns (xs: seq<TaskId>)
    ensures forall x :: x in xs <==> x in a
    ensures forall i, j | 0 <= i < j < |xs| :: xs[i] != xs[j]
    decreases |a|
  {
    xs := [];
    if a != {} {
      var x := AnyOf(a);
      var rest := Listing(a - {x});
      xs := rest + [x];
      assert forall y :: y in xs <==> y in rest || y == x;
    }
  }

  // ----- putting labels together -----

  // What the continuation keeps while it works on run r's last task: it stays the last one, and no
  // task becomes live or stops being live.
  ghost predicate OnTheWay(s: Sys, s': Sys, r: RunId)
    requires Alive(s, r)
  {
    && Alive(s', r)
    && IdsOf(s', r) == IdsOf(s, r)
    && LiveTasks(s'.db) == LiveTasks(s.db)
    && s'.db.runs[r] == s.db.runs[r]
    && s'.db.tasks[LastOf(s', r)].input == s.db.tasks[LastOf(s, r)].input
  }

  lemma SameLive(db: Tables, db': Tables)
    requires forall t :: t in db.tasks <==> t in db'.tasks
    requires forall t | t in db.tasks :: LiveStatus(db.tasks[t].status) <==> LiveStatus(db'.tasks[t].status)
    ensures LiveTasks(db) == LiveTasks(db')
  {
    assert forall t: TaskId :: t in LiveTasks(db) <==> t in LiveTasks(db');
  }

  lemma TickOn(fleet: Fleet, s: Sys, r: RunId, to: Time)
    requires Alive(s, r) && s.db.now <= to
    ensures OnTheWay(s, Apply(fleet, s, Tick(to)), r)
    ensures Apply(fleet, s, Tick(to)).db == s.db.(now := to)
  {
  }

  lemma ReapOn(fleet: Fleet, s: Sys, r: RunId, order: seq<TaskId>)
    requires Alive(s, r) && ReapOrder(s.db, order) && IdsOf(Apply(fleet, s, Reap(order)), r) == IdsOf(s, r)
    ensures OnTheWay(s, Apply(fleet, s, Reap(order)), r)
    ensures Expired(s.db, LastOf(s, r)) ==> Apply(fleet, s, Reap(order)).db.tasks[LastOf(s, r)].status == TaskPending
  {
    SameLive(s.db, Apply(fleet, s, Reap(order)).db);
  }

  lemma ReapIds(fleet: Fleet, s: Sys, r: RunId, order: seq<TaskId>)
    requires Reachable(fleet, s) && r in s.db.runs && ReapOrder(s.db, order)
    ensures IdsOf(Apply(fleet, s, Reap(order)), r) == IdsOf(s, r)
  {
    ReachableInv(fleet, s);
    InvShaped(fleet, s);
    ReapsLast(fleet, s, r);
    ReapView(fleet, s, Apply(fleet, s, Reap(order)), order, r);
  }

  lemma LeaseOn(fleet: Fleet, s: Sys, r: RunId, w: Worker, t: TaskId)
    requires Alive(s, r) && w !in s.hands && Pick(s.db, {}, t)
    ensures OnTheWay(s, Apply(fleet, s, LeaseNext(w, t, {})), r)
    ensures var s' := Apply(fleet, s, LeaseNext(w, t, {}));
            && s'.db.now == s.db.now
            && (forall u | u in s.db.tasks && u != t :: u in s'.db.tasks && s'.db.tasks[u] == s.db.tasks[u])
            && (forall u | u in s'.db.tasks :: u in s.db.tasks)
            && t in s'.db.tasks && s'.db.tasks[t].status == TaskLeased && s'.db.tasks[t].leasedBy == Some(fleet.owner(w))
            && w in s'.hands && s'.hands[w].id == t && s'.hands[w].task == s'.db.tasks[t] && s'.hands[w].task.updatedAt == s.db.now
  {
    SameLive(s.db, Apply(fleet, s, LeaseNext(w, t, {})).db);
  }

  // ----- step 1: the task is pending, reclaimed first if some worker has it -----

  // Wait until the lease has run out, then reap.
  lemma Reclaims(fleet: Fleet, s: Sys, r: RunId, to: Time) returns (order: seq<TaskId>)
    requires Reachable(fleet, s) && Alive(s, r) && s.db.now <= to && s.db.tasks[LastOf(s, r)].status == TaskLeased
    requires s.db.tasks[LastOf(s, r)].leaseExpires.Some? && s.db.tasks[LastOf(s, r)].leaseExpires.value < to
    ensures Enabled(fleet, Apply(fleet, s, Tick(to)), Reap(order))
    ensures var s' := Apply(fleet, Apply(fleet, s, Tick(to)), Reap(order));
            Reachable(fleet, s') && OnTheWay(s, s', r) && s'.db.tasks[LastOf(s', r)].status == TaskPending
  {
    var s1 := Apply(fleet, s, Tick(to));
    TickOn(fleet, s, r, to);
    ReachableStep(fleet, s, Tick(to));
    order := ExpiredOrder(s1.db);
    ReapIds(fleet, s1, r, order);
    ReapOn(fleet, s1, r, order);
    ReachableStep(fleet, s1, Reap(order));
  }

  lemma ExpiredOrder(db: Tables) returns (order: seq<TaskId>)
    ensures ReapOrder(db, order)
  {
    order := Listing(set u | u in db.tasks && Expired(db, u));
    forall i | 0 <= i < |order|
      ensures Expired(db, order[i])
    {
      assert order[i] in order;
    }
  }

  lemma LeaseRunsOut(fleet: Fleet, s: Sys, t: TaskId)
    requires Reachable(fleet, s) && t in s.db.tasks && s.db.tasks[t].status == TaskLeased
    ensures s.db.tasks[t].leaseExpires.Some?
  {
    ReachableInv(fleet, s);
    LeasedRows(fleet, s, t);
  }

  lemma MakePending(fleet: Fleet, s: Sys, r: RunId) returns (ls: seq<Label>)
    requires Reachable(fleet, s) && Alive(s, r)
    ensures Feasible(fleet, s, ls) && |ls| <= 2
    ensures var s' := End(fleet, s, ls);
            Reachable(fleet, s') && OnTheWay(s, s', r) && s'.db.tasks[LastOf(s', r)].status == TaskPending
  {
    var t := LastOf(s, r);
    if s.db.tasks[t].status == TaskPending {
      ls := [];
    } else {
      LeaseRunsOut(fleet, s, t);
      var expires := s.db.tasks[t].leaseExpires.value;
      var to := if s.db.now <= expires then expires + 1 else s.db.now;
      var order := Reclaims(fleet, s, r, to);
      ls := Pair(fleet, s, Tick(to), Reap(order));
    }
  }

  lemma Pair(fleet: Fleet, s: Sys, l: Label, m: Label) returns (ls: seq<Label>)
    requires Enabled(fleet, s, l) && Enabled(fleet, Apply(fleet, s, l), m)
    ensures ls == [l, m] && Feasible(fleet, s, ls) && End(fleet, s, ls) == Apply(fleet, Apply(fleet, s, l), m)
  {
    Single(fleet, s, l);
    Single(fleet, Apply(fleet, s, l), m);
    Append(fleet, s, [l], [m]);
    ls := [l] + [m];
  }

  lemma Prepend(fleet: Fleet, s: Sys, l: Label, rest: seq<Label>) returns (ls: seq<Label>)
    requires Enabled(fleet, s, l) && Feasible(fleet, Apply(fleet, s, l), rest)
    ensures |ls| == |rest| + 1 && Feasible(fleet, s, ls) && End(fleet, s, ls) == End(fleet, Apply(fleet, s, l), rest)
  {
    Single(fleet, s, l);
    Append(fleet, s, [l], rest);
    ls := [l] + rest;
  }

  // ----- step 2: it is due, and every task before it has been leased away -----

  // Eligible tasks that come strictly before t in the queue.
  ghost function Earlier(db: Tables, t: TaskId): set<TaskId>
    requires t in db.tasks
  {
    set u | u in db.tasks && Eligible(db, u) && db.tasks[u].availableAt < db.tasks[t].availableAt
  }

  // The first of the earlier tasks is what LeaseTask picks.
  lemma FirstIsPicked(db: Tables, t: TaskId, u: TaskId)
    requires Eligible(db, t) && u in Earlier(db, t)
    requires forall x | x in Earlier(db, t) :: db.tasks[u].availableAt <= db.tasks[x].availableAt
    ensures Pick(db, {}, u)
  {
    forall x | x in db.tasks && Eligible(db, x)
      ensures db.tasks[u].availableAt <= db.tasks[x].availableAt
    {
      if db.tasks[x].availableAt < db.tasks[t].availableAt {
        assert x in Earlier(db, t);
      }
    }
  }

  lemma NoneEarlier(db: Tables, t: TaskId)
    requires Eligible(db, t) && Earlier(db, t) == {}
    ensures Pick(db, {}, t)
  {
    assert forall x | x in db.tasks && Eligible(db, x) && db.tasks[x].availableAt < db.tasks[t].availableAt :: x in Earlier(db, t);
  }

  lemma FewerEarlier(fleet: Fleet, s: Sys, w: Worker, t: TaskId, u: TaskId)
    requires w !in s.hands && Pick(s.db, {}, u) && t in s.db.tasks && u in Earlier(s.db, t)
    ensures var s' := Apply(fleet, s, LeaseNext(w, u, {}));
            t in s'.db.tasks && s'.db.tasks[t] == s.db.tasks[t] && |Earlier(s'.db, t)| + 1 <= |Earlier(s.db, t)|
  {
    SmallerWithout(Earlier(Apply(fleet, s, LeaseNext(w, u, {})).db, t), Earlier(s.db, t), u);
  }

  // Worker w holds the run's task, as it stands.
  ghost predicate Holds(fleet: Fleet, s: Sys, w: Worker, t: TaskId) {
    && w in s.hands && s.hands[w].id == t
    && Fenced(s.db, t, fleet.owner(w)) && s.hands[w].task == s.db.tasks[t]
    && s.hands[w].task.updatedAt <= s.db.now
  }

  lemma LeaseIt(fleet: Fleet, s: Sys, r: RunId, w: Worker)
    requires Reachable(fleet, s) && Alive(s, r) && Eligible(s.db, LastOf(s, r)) && Earlier(s.db, LastOf(s, r)) == {} && w !in s.hands
    ensures Enabled(fleet, s, LeaseNext(w, LastOf(s, r), {}))
    ensures var s' := Apply(fleet, s, LeaseNext(w, LastOf(s, r), {}));
            Reachable(fleet, s') && OnTheWay(s, s', r) && Holds(fleet, s', w, LastOf(s, r))
  {
    var t := LastOf(s, r);
    NoneEarlier(s.db, t);
    LeaseOn(fleet, s, r, w, t);
    ReachableStep(fleet, s, LeaseNext(w, t, {}));
  }

  lemma LeaseEarlier(fleet: Fleet, s: Sys, r: RunId, w: Worker) returns (u: TaskId)
    requires Reachable(fleet, s) && Alive(s, r) && Eligible(s.db, LastOf(s, r)) && Earlier(s.db, LastOf(s, r)) != {} && w !in s.hands
    ensures Enabled(fleet, s, LeaseNext(w, u, {}))
    ensures var s', t := Apply(fleet, s, LeaseNext(w, u, {})), LastOf(s, r);
            && Reachable(fleet, s') && OnTheWay(s, s', r) && LastOf(s', r) == t
            && Eligible(s'.db, t) && |Earlier(s'.db, t)| + 1 <= |Earlier(s.db, t)|
  {
    var t := LastOf(s, r);
    u := EarliestOf(s.db, Earlier(s.db, t));
    FirstIsPicked(s.db, t, u);
    LeaseOn(fleet, s, r, w, u);
    FewerEarlier(fleet, s, w, t, u);
    ReachableStep(fleet, s, LeaseNext(w, u, {}));
  }

  // Lease every earlier task to a new worker, then this one.
  lemma {:induction false} LeaseItsTurn(fleet: Fleet, s: Sys, r: RunId) returns (ls: seq<Label>, w: Worker)
    requires Reachable(fleet, s) && Alive(s, r) && Eligible(s.db, LastOf(s, r))
    ensures Feasible(fleet, s, ls) && |ls| <= |Earlier(s.db, LastOf(s, r))| + 1
    ensures var s' := End(fleet, s, ls);
            Reachable(fleet, s') && OnTheWay(s, s', r) && Holds(fleet, s', w, LastOf(s, r))
    decreases |Earlier(s.db, LastOf(s, r))|
  {
    w := IdleWorker(s);
    if Earlier(s.db, LastOf(s, r)) == {} {
      LeaseIt(fleet, s, r, w);
      Single(fleet, s, LeaseNext(w, LastOf(s, r), {}));
      ls := [LeaseNext(w, LastOf(s, r), {})];
    } else {
      var u := LeaseEarlier(fleet, s, r, w);
      var l := LeaseNext(w, u, {});
      var rest;
      rest, w := LeaseItsTurn(fleet, Apply(fleet, s, l), r);
      ls := Prepend(fleet, s, l, rest);
    }
  }

  // ----- step 3: the worker advances it -----

  // The label with which worker w finishes the step it holds, now.
  ghost function Success(s: Sys, w: Worker, result: Payload, id: TaskId): Label {
    Label.Advance(w, result, id, s.db.now)
  }

  lemma HoldsTop(fleet: Fleet, s: Sys, r: RunId, w: Worker)
    requires Reachable(fleet, s) && Alive(s, r) && Holds(fleet, s, w, LastOf(s, r))
    ensures Indexed(s) && OnTop(fleet, s, w) && s.hands[w].task.runID == r
  {
    ReachableInv(fleet, s);
    InvShaped(fleet, s);
    LandsOn(fleet, s, w);
  }

  lemma SuccessMirrors(fleet: Fleet, s: Sys, r: RunId, l: Label)
    requires Reachable(fleet, s) && r in s.db.runs && l.Advance? && Enabled(fleet, s, l)
    requires Fenced(s.db, s.hands[l.worker].id, fleet.owner(l.worker)) && l.id !in s.db.tasks
    ensures Indexed(s) && Mirrors(fleet, s, l, r) && AdvanceTx(s.db, AdvanceCmdOf(fleet, s, l)).Commit?
  {
    StepIsAnAct(fleet, s, l, r);
    AdvanceFits(fleet, s, l);
  }

  lemma CanSucceed(fleet: Fleet, s: Sys, r: RunId, w: Worker, result: Payload)
    requires Indexed(s) && Alive(s, r) && Holds(fleet, s, w, LastOf(s, r)) && OnTop(fleet, s, w) && s.hands[w].task.runID == r
    requires s.db.runs[r].workflowName in fleet.catalog.defs
    requires 0 < |IdsOf(s, r)| <= |StepsOfRun(fleet, s, r)|
    requires Returns(fleet.catalog, StepsOfRun(fleet, s, r)[|IdsOf(s, r)| - 1], s.db.tasks[LastOf(s, r)].input, result)
    ensures forall id :: Enabled(fleet, s, Success(s, w, result, id))
  {
    assert MayReturn(fleet.catalog, s.hands[w].task, result);
  }

  // What the run looks like after it.
  lemma SuccessAct(fleet: Fleet, s: Sys, r: RunId, w: Worker, result: Payload, id: TaskId)
    requires Indexed(s) && Alive(s, r) && Holds(fleet, s, w, LastOf(s, r)) && OnTop(fleet, s, w) && s.hands[w].task.runID == r
    requires Enabled(fleet, s, Success(s, w, result, id))
    requires AdvanceTx(s.db, AdvanceCmdOf(fleet, s, Success(s, w, result, id))).Commit?
    ensures Known(fleet, ViewOf(s, r))
    ensures var v := ViewOf(s, r);
            ActOf(fleet, s, Success(s, w, result, id), r)
              == if |v.rows| == |StepsOf(fleet, v)| then Finish(result) else Next(result, id, s.db.now)
  {
  }

  lemma SuccessView(fleet: Fleet, s: Sys, r: RunId, w: Worker, result: Payload, id: TaskId)
    requires Indexed(s) && r in s.db.runs && Known(fleet, ViewOf(s, r))
    requires Enabled(fleet, s, Success(s, w, result, id)) && Mirrors(fleet, s, Success(s, w, result, id), r)
    requires var v := ViewOf(s, r);
             ActOf(fleet, s, Success(s, w, result, id), r)
               == if |v.rows| == |StepsOf(fleet, v)| then Finish(result) else Next(result, id, s.db.now)
    ensures var s', v := Apply(fleet, s, Success(s, w, result, id)), ViewOf(s, r);
            && r in s'.db.runs
            && s'.db.runs[r].workflowName == s.db.runs[r].workflowName
            && (if |v.rows| == |StepsOf(fleet, v)| then s'.db.runs[r].status == RunCompleted && s'.db.runs[r].result == Some(result)
                else |IdsOf(s', r)| == |v.rows| + 1 && LastOf(s', r) == id && id in s'.db.tasks && s'.db.tasks[id].input == result
                     && s'.db.tasks[id].status == TaskPending && s'.db.tasks[id].attempt == 0 && s'.db.tasks[id].runID == r)
  {
    var s' := Apply(fleet, s, Success(s, w, result, id));
    assert ViewOf(s', r).run == s'.db.runs[r];
    assert ViewOf(s', r).ids == IdsOf(s', r);
  }

  // One task leaves the live ones, and if the step was not the last one another joins them.
  lemma SuccessLive(fleet: Fleet, s: Sys, r: RunId, w: Worker, result: Payload, id: TaskId)
    requires Alive(s, r) && Holds(fleet, s, w, LastOf(s, r)) && id !in s.db.tasks
    requires Enabled(fleet, s, Success(s, w, result, id))
    ensures |LiveTasks(Apply(fleet, s, Success(s, w, result, id)).db)| <= |LiveTasks(s.db)|
  {
    var l, t := Success(s, w, result, id), LastOf(s, r);
    var s' := Apply(fleet, s, l);
    AdvanceLive(s.db, AdvanceCmdOf(fleet, s, l), t, id);
    var rest := LiveTasks(s.db) - {t};
    if AdvanceTx(s.db, AdvanceCmdOf(fleet, s, l)).Commit? {
      SmallerBut(LiveTasks(s'.db), rest, id);
    }
  }

  lemma AdvanceLive(db: Tables, cmd: AdvanceCmd, t: TaskId, id: TaskId)
    requires cmd.taskID == t && Fenced(db, t, cmd.owner) && (cmd.nextStep.Some? ==> cmd.nextStep.value.id == id)
    ensures AdvanceTx(db, cmd).Commit? ==> LiveTasks(AdvanceTx(db, cmd).tables) <= (LiveTasks(db) - {t}) + {id}
  {
  }

  lemma AdvanceIt(fleet: Fleet, s: Sys, r: RunId, w: Worker, result: Payload) returns (l: Label)
    requires Reachable(fleet, s) && Alive(s, r) && Holds(fleet, s, w, LastOf(s, r))
    requires MayStep(fleet, s, r, result)
    ensures Enabled(fleet, s, l) && Reachable(fleet, Apply(fleet, s, l))
    ensures StepDone(fleet, s, Apply(fleet, s, l), r, result)
  {
    HoldsTop(fleet, s, r, w);
    CanSucceed(fleet, s, r, w, result);
    var id := Above(s.db.tasks.Keys);
    l := Success(s, w, result, id);
    ReachableStep(fleet, s, l);
    SuccessMirrors(fleet, s, r, l);
    SuccessAct(fleet, s, r, w, result, id);
    SuccessView(fleet, s, r, w, result, id);
    SuccessLive(fleet, s, r, w, result, id);
  }

  // The handler of the run's current step may return this result.
  ghost predicate MayStep(fleet: Fleet, s: Sys, r: RunId, result: Payload) {
    && Alive(s, r)
    && s.db.runs[r].workflowName in fleet.catalog.defs
    && |IdsOf(s, r)| <= |StepsOfRun(fleet, s, r)|
    && Returns(fleet.catalog, StepsOfRun(fleet, s, r)[|IdsOf(s, r)| - 1], s.db.tasks[LastOf(s, r)].input, result)
  }

  // The run has moved on by one step with this result, without more tasks being live.
  ghost predicate StepDone(fleet: Fleet, s: Sys, s': Sys, r: RunId, result: Payload) {
    && r in s.db.runs && r in s'.db.runs
    && s.db.runs[r].workflowName in fleet.catalog.defs
    && s'.db.runs[r].workflowName == s.db.runs[r].workflowName
    && |LiveTasks(s'.db)| <= |LiveTasks(s.db)|
    && (if |IdsOf(s, r)| == |StepsOfRun(fleet, s, r)| then s'.db.runs[r].status == RunCompleted && s'.db.runs[r].result == Some(result)
        else Alive(s', r) && |IdsOf(s', r)| == |IdsOf(s, r)| + 1 && s'.db.tasks[LastOf(s', r)].input == result
             && s'.db.tasks[LastOf(s', r)].status == TaskPending && s'.db.tasks[LastOf(s', r)].attempt == 0)
  }

  ghost function StepsOfRun(fleet: Fleet, s: Sys, r: RunId): seq<Step>
    requires r in s.db.runs && s.db.runs[r].workflowName in fleet.catalog.defs
  {
    fleet.catalog.defs[s.db.runs[r].workflowName].steps
  }

  // ----- the whole way -----

  lemma EarlierAreLive(db: Tables, t: TaskId)
    requires t in LiveTasks(db)
    ensures |Earlier(db, t)| + 1 <= |LiveTasks(db)|
  {
    SmallerWithout(Earlier(db, t), LiveTasks(db), t);
  }

  // Wait until it is due, then lease it in its turn.
  lemma WaitAndLease(fleet: Fleet, s: Sys, r: RunId) returns (ls: seq<Label>, w: Worker)
    requires Reachable(fleet, s) && Alive(s, r) && s.db.tasks[LastOf(s, r)].status == TaskPending
    ensures Feasible(fleet, s, ls) && |ls| <= |LiveTasks(s.db)| + 1
    ensures var s' := End(fleet, s, ls);
            Reachable(fleet, s') && OnTheWay(s, s', r) && Holds(fleet, s', w, LastOf(s, r))
  {
    var at := s.db.tasks[LastOf(s, r)].availableAt;
    var to := if s.db.now <= at then at else s.db.now;
    var s1 := Apply(fleet, s, Tick(to));
    TickOn(fleet, s, r, to);
    ReachableStep(fleet, s, Tick(to));
    EarlierAreLive(s1.db, LastOf(s, r));
    var rest;
    rest, w := LeaseItsTurn(fleet, s1, r);
    ls := Prepend(fleet, s, Tick(to), rest);
  }

  lemma CompleteStep(fleet: Fleet, s: Sys, r: RunId, result: Payload) returns (ls: seq<Label>)
    requires Reachable(fleet, s) && MayStep(fleet, s, r, result)
    ensures Feasible(fleet, s, ls) && |ls| <= |LiveTasks(s.db)| + 4
    ensures Reachable(fleet, End(fleet, s, ls)) && StepDone(fleet, s, End(fleet, s, ls), r, result)
  {
    var first := MakePending(fleet, s, r);
    var s1 := End(fleet, s, first);
    var second, w := WaitAndLease(fleet, s1, r);
    var s2 := End(fleet, s1, second);
    var l := AdvanceIt(fleet, s2, r, w, result);
    Single(fleet, s2, l);
    Append(fleet, s1, second, [l]);
    Append(fleet, s, first, second + [l]);
    ls := first + (second + [l]);
  }

  lemma LiveIsAlive(fleet: Fleet, s: Sys, t: TaskId)
    requires Reachable(fleet, s) && t in s.db.tasks && LiveStatus(s.db.tasks[t].status)
    ensures var r := s.db.tasks[t].runID;
            && Alive(s, r) && LastOf(s, r) == t && s.db.tasks[t].stepIndex == |IdsOf(s, r)| - 1
            && s.db.runs[r].workflowName in fleet.catalog.defs
            && 0 < |IdsOf(s, r)| == s.db.runs[r].currentStep + 1 <= |StepsOfRun(fleet, s, r)| == s.db.runs[r].totalSteps
  {
    LiveOnTop(fleet, s, t);
    assert Covered(s, s.db.tasks[t].runID);
  }

  lemma LiveOnTop(fleet: Fleet, s: Sys, t: TaskId)
    requires Reachable(fleet, s) && t in s.db.tasks && LiveStatus(s.db.tasks[t].status)
    ensures Indexed(s) && AtTop(fleet, s, t)
    ensures var v := ViewOf(s, s.db.tasks[t].runID); v.run.currentStep == Top(v) && v.run.totalSteps == |StepsOf(fleet, v)|
  {
    ReachableInv(fleet, s);
    InvShaped(fleet, s);
    OpenIsLast(fleet, s, t);
    ShapedCounts(fleet, ViewOf(s, s.db.tasks[t].runID));
  }

  lemma ShapedCounts(fleet: Fleet, v: View)
    requires Shaped(fleet, v)
    ensures v.run.currentStep == Top(v) && v.run.totalSteps == |StepsOf(fleet, v)|
  {
  }

  ghost function Allowance(steps: int, live: int): int {
    steps * (live + 4)
  }

  lemma AllowanceStep(steps: int, live: int, fewer: int, cost: int)
    requires steps >= 1 && fewer <= live && cost <= live + 4
    ensures cost + Allowance(steps - 1, fewer) <= Allowance(steps, live)
  {
    assert (steps - 1) * (fewer + 4) <= (steps - 1) * (live + 4);
    assert steps * (live + 4) == (steps - 1) * (live + 4) + (live + 4);
  }

  // A trace that completes the run with this result.
  ghost predicate Completes(fleet: Fleet, s: Sys, ls: seq<Label>, r: RunId, output: Payload) {
    && Feasible(fleet, s, ls)
    && r in End(fleet, s, ls).db.runs
    && End(fleet, s, ls).db.runs[r].status == RunCompleted
    && End(fleet, s, ls).db.runs[r].result == Some(output)
  }

  // What the steps from the current one on may still make of its input.
  ghost predicate CanEndWith(fleet: Fleet, s: Sys, r: RunId, output: Payload) {
    && Alive(s, r)
    && s.db.runs[r].workflowName in fleet.catalog.defs
    && |IdsOf(s, r)| <= |StepsOfRun(fleet, s, r)|
    && StraightLine(fleet.catalog, StepsOfRun(fleet, s, r)[|IdsOf(s, r)| - 1..], s.db.tasks[LastOf(s, r)].input, output)
  }

  lemma FirstStep(fleet: Fleet, s: Sys, r: RunId, output: Payload) returns (mid: Payload)
    requires CanEndWith(fleet, s, r, output)
    ensures MayStep(fleet, s, r, mid)
    ensures StraightLine(fleet.catalog, StepsOfRun(fleet, s, r)[|IdsOf(s, r)|..], mid, output)
  {
    var steps := StepsOfRun(fleet, s, r)[|IdsOf(s, r)| - 1..];
    assert steps[0] == StepsOfRun(fleet, s, r)[|IdsOf(s, r)| - 1];
    assert steps[1..] == StepsOfRun(fleet, s, r)[|IdsOf(s, r)|..];
    mid :| Returns(fleet.catalog, steps[0], s.db.tasks[LastOf(s, r)].input, mid) && StraightLine(fleet.catalog, steps[1..], mid, output);
  }

  lemma {:induction false} Complete(fleet: Fleet, s: Sys, r: RunId, output: Payload) returns (ls: seq<Label>)
    requires Reachable(fleet, s) && CanEndWith(fleet, s, r, output)
    ensures Completes(fleet, s, ls, r, output)
    ensures |ls| <= Allowance(|StepsOfRun(fleet, s, r)| - |IdsOf(s, r)| + 1, |LiveTasks(s.db)|)
    decreases |StepsOfRun(fleet, s, r)| - |IdsOf(s, r)|
  {
    var n := |StepsOfRun(fleet, s, r)| - |IdsOf(s, r)| + 1;
    var mid := FirstStep(fleet, s, r, output);
    ls := CompleteStep(fleet, s, r, mid);
    var s1 := End(fleet, s, ls);
    AllowanceStep(n, |LiveTasks(s.db)|, |LiveTasks(s1.db)|, |ls|);
    if n == 1 {
      assert StepsOfRun(fleet, s, r)[|IdsOf(s, r)|..] == [];
      assert Allowance(0, |LiveTasks(s1.db)|) == 0;
    } else {
      var rest := Complete(fleet, s1, r, output);
      Append(fleet, s, ls, rest);
      ls := ls + rest;
    }
  }

  // ----- and no further -----

  // A task keeps its run, step and input, and the run its workflow.
  ghost predicate Keeps(s: Sys, s': Sys, t: TaskId) {
    && t in s.db.tasks && t in s'.db.tasks && SameTask(s.db.tasks[t], s'.db.tasks[t])
    && s.db.tasks[t].runID in s.db.runs && s.db.tasks[t].runID in s'.db.runs
    && s'.db.runs[s.db.tasks[t].runID].workflowName == s.db.runs[s.db.tasks[t].runID].workflowName
  }

  lemma KeepsStep(fleet: Fleet, s: Sys, l: Label, t: TaskId)
    requires Reachable(fleet, s) && Enabled(fleet, s, l) && t in s.db.tasks
    ensures Keeps(s, Apply(fleet, s, l), t)
  {
    var r := s.db.tasks[t].runID;
    ReachableIndexed(fleet, s);
    InView(s, t);
    StepIsAnAct(fleet, s, l, r);
    PerformFrame(fleet, ViewOf(s, r), ActOf(fleet, s, l, r), s.db.now);
    StillThere(s, Apply(fleet, s, l), t);
  }

  lemma {:induction false} KeepsTrace(fleet: Fleet, s: Sys, ls: seq<Label>, t: TaskId)
    requires Reachable(fleet, s) && Feasible(fleet, s, ls) && t in s.db.tasks
    ensures Keeps(s, End(fleet, s, ls), t)
    decreases |ls|
  {
    if |ls| > 0 {
      KeepsStep(fleet, s, ls[0], t);
      ReachableStep(fleet, s, ls[0]);
      KeepsTrace(fleet, Apply(fleet, s, ls[0]), ls[1..], t);
    } else {
      ReachableIndexed(fleet, s);
      InView(s, t);
    }
  }

  lemma CompletionIsStraight(fleet: Fleet, s: Sys, ls: seq<Label>, t: TaskId, output: Payload)
    requires Reachable(fleet, s) && t in s.db.tasks && s.db.tasks[t].runID in s.db.runs
    requires Completes(fleet, s, ls, s.db.tasks[t].runID, output)
    requires s.db.runs[s.db.tasks[t].runID].workflowName in fleet.catalog.defs
    requires 0 <= s.db.tasks[t].stepIndex < |StepsOfRun(fleet, s, s.db.tasks[t].runID)|
    ensures StraightLine(fleet.catalog, StepsOfRun(fleet, s, s.db.tasks[t].runID)[s.db.tasks[t].stepIndex..], s.db.tasks[t].input, output)
  {
    var s', r := End(fleet, s, ls), s.db.tasks[t].runID;
    KeepsTrace(fleet, s, ls, t);
    ReachableOn(fleet, s, ls);
    ReachableGood(fleet, s', r);
    InView(s', t);
    SuffixIsStraight(fleet, ViewOf(s', r), s.db.tasks[t].stepIndex);
  }

  /**
   No lost run: from every reachable state, a run whose current task is pending or leased has a
   continuation that completes it with a given result exactly when the steps from the current one on
   may turn the task's input into that result. If there is one, (steps left) * (live tasks + 4)
   labels are enough.
   */
  lemma NoRunIsLost(fleet: Fleet, s: Sys, t: TaskId, output: Payload)
    requires Reachable(fleet, s) && t in s.db.tasks && LiveStatus(s.db.tasks[t].status)
    ensures var task := s.db.tasks[t];
            && task.runID in s.db.runs
            && var run := s.db.runs[task.runID];
               && run.workflowName in fleet.catalog.defs
               && 0 <= task.stepIndex < |fleet.catalog.defs[run.workflowName].steps|
               && ((exists ls :: Completes(fleet, s, ls, task.runID, output))
                   <==> StraightLine(fleet.catalog, fleet.catalog.defs[run.workflowName].steps[task.stepIndex..], task.input, output))
               && ((exists ls :: Completes(fleet, s, ls, task.runID, output))
                   ==> exists ls :: Completes(fleet, s, ls, task.runID, output)
                                    && |ls| <= Allowance(run.totalSteps - run.currentStep, |LiveTasks(s.db)|))
  {
    LiveIsAlive(fleet, s, t);
    var r := s.db.tasks[t].runID;
    var steps := StepsOfRun(fleet, s, r);
    if StraightLine(fleet.catalog, steps[s.db.tasks[t].stepIndex..], s.db.tasks[t].input, output) {
      var ls := Complete(fleet, s, r, output);
      assert Completes(fleet, s, ls, r, output) && |ls| <= Allowance(s.db.runs[r].totalSteps - s.db.runs[r].currentStep, |LiveTasks(s.db)|);
    }
    if exists ls :: Completes(fleet, s, ls, r, output) {
      var ls :| Completes(fleet, s, ls, r, output);
      CompletionIsStraight(fleet, s, ls, t, output);
    }
  }
}
