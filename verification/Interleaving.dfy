/**
 What one goroutine can rely on while everybody else runs: the labels that are not its own leave
 alone what it holds, whatever else they do to the tables.
 */
module Interleaving {
  import opened Options
  import opened Workflow
  import opened Store
  import opened Scheduling
  import opened RunView
  import opened Protocol
  import opened Invariant
  import opened Drain

  // A goroutine that talks to the store, with the labels only it can take.
  datatype Actor = Looping(w: Worker) | Starting(call: int) | Reaping

  ghost predicate Own(l: Label, a: Actor) {
    match a
    case Looping(w) => By(l, w)
    case Starting(c) => (l.BeginStart? || l.CommitStart? || l.DropStart?) && l.call == c
    case Reaping => false
  }

  ghost predicate Foreign(ls: seq<Label>, a: Actor) {
    forall i | 0 <= i < |ls| :: !Own(ls[i], a)
  }

  // What actor a finds unchanged in s' after leaving s.
  ghost predicate Continues(s: Sys, s': Sys, a: Actor) {
    && s.db.now <= s'.db.now
    && (forall r | r in s.db.runs :: r in s'.db.runs && s'.db.runs[r].workflowName == s.db.runs[r].workflowName)
    && match a
       case Looping(w) => (w in s'.hands <==> w in s.hands) && (w in s.hands ==> s'.hands[w] == s.hands[w])
       case Starting(c) => (c in s'.calls <==> c in s.calls) && (c in s.calls ==> s'.calls[c] == s.calls[c])
       case Reaping => true
  }

  lemma AdvanceKeepsName(db: Tables, cmd: AdvanceCmd, r: RunId)
    requires AdvanceTx(db, cmd).Commit? && r in db.runs
    ensures var db' := AdvanceTx(db, cmd).tables;
            r in db'.runs && db'.runs[r].workflowName == db.runs[r].workflowName
  {
  }

  lemma FailKeepsName(fleet: Fleet, db: Tables, h: Hand, owner: string, msg: string, delay: Time, stamp: Time, r: RunId)
    requires FailTx(fleet, db, h, owner, msg, delay, stamp).Commit? && r in db.runs
    ensures var db' := FailTx(fleet, db, h, owner, msg, delay, stamp).tables;
            r in db'.runs && db'.runs[r].workflowName == db.runs[r].workflowName
  {
  }

  lemma RunsKeepNames(fleet: Fleet, s: Sys, l: Label, r: RunId)
    requires Enabled(fleet, s, l) && r in s.db.runs
    ensures r in Apply(fleet, s, l).db.runs && Apply(fleet, s, l).db.runs[r].workflowName == s.db.runs[r].workflowName
  {
    if l.Advance? {
      if AdvanceTx(s.db, AdvanceCmdOf(fleet, s, l)).Commit? {
        AdvanceKeepsName(s.db, AdvanceCmdOf(fleet, s, l), r);
      }
    } else if l.Fail? {
      var h := s.hands[l.worker];
      if FailTx(fleet, s.db, h, fleet.owner(l.worker), l.msg, l.delay, l.stamp).Commit? {
        FailKeepsName(fleet, s.db, h, fleet.owner(l.worker), l.msg, l.delay, l.stamp, r);
      }
    } else {
      RestKeepNames(fleet, s, l, r);
    }
  }

  lemma RestKeepNames(fleet: Fleet, s: Sys, l: Label, r: RunId)
    requires Enabled(fleet, s, l) && r in s.db.runs && !l.Advance? && !l.Fail?
    ensures r in Apply(fleet, s, l).db.runs && Apply(fleet, s, l).db.runs[r].workflowName == s.db.runs[r].workflowName
  {
  }

  lemma CallsKept(fleet: Fleet, s: Sys, l: Label, c: int)
    requires Enabled(fleet, s, l) && !Own(l, Starting(c))
    ensures c in Apply(fleet, s, l).calls <==> c in s.calls
    ensures c in s.calls ==> Apply(fleet, s, l).calls[c] == s.calls[c]
  {
  }

  lemma ForeignStep(fleet: Fleet, s: Sys, l: Label, a: Actor)
    requires Enabled(fleet, s, l) && !Own(l, a)
    ensures Continues(s, Apply(fleet, s, l), a)
  {
    ClockRuns(fleet, s, l);
    forall r | r in s.db.runs
      ensures r in Apply(fleet, s, l).db.runs && Apply(fleet, s, l).db.runs[r].workflowName == s.db.runs[r].workflowName
    {
      RunsKeepNames(fleet, s, l, r);
    }
    match a
    case Looping(w) => OthersKeepHand(fleet, s, l, w);
    case Starting(c) => CallsKept(fleet, s, l, c);
    case Reaping =>
  }

  /** Whatever the others do, an actor still holds what it held, and runs keep their workflow. */
  lemma {:induction false} ForeignTrace(fleet: Fleet, s: Sys, ls: seq<Label>, a: Actor)
    requires Feasible(fleet, s, ls) && Foreign(ls, a)
    ensures Continues(s, End(fleet, s, ls), a)
    decreases |ls|
  {
    if |ls| > 0 {
      ForeignStep(fleet, s, ls[0], a);
      ForeignTrace(fleet, Apply(fleet, s, ls[0]), ls[1..], a);
    }
  }

  // ----- a worker's loop as moves of its pool -----

  // What a worker starts with, as a pool of one.
  ghost function Alone(s: Sys, w: Worker): Pool {
    Pool(s, map[w := AtCheck], false, map[w := 0], false, false)
  }

  ghost predicate Leads(fleet: Fleet, p: Pool, ms: seq<Move>, q: Pool) {
    p.late.Keys == p.pc.Keys && Moves(fleet, p, ms) && q == After(fleet, p, ms)
  }

  lemma {:induction false} OneMoreMove(fleet: Fleet, p: Pool, ms: seq<Move>, q: Pool, m: Move)
    requires Leads(fleet, p, ms, q) && q.late.Keys == q.pc.Keys && Allowed(fleet, q, m)
    ensures Leads(fleet, p, ms + [m], Do(fleet, q, m))
    decreases |ms|
  {
    if |ms| == 0 {
      assert ([] + [m])[1..] == [];
      assert ms + [m] == [m];
    } else {
      assert (ms + [m])[0] == ms[0] && (ms + [m])[1..] == ms[1..] + [m];
      OneMoreMove(fleet, Do(fleet, p, ms[0]), ms[1..], q, m);
    }
  }

  lemma Extend(fleet: Fleet, p: Pool, ms: seq<Move>, q: Pool, m: Move) returns (ms': seq<Move>, q': Pool)
    requires Leads(fleet, p, ms, q) && q.late.Keys == q.pc.Keys && Allowed(fleet, q, m) && Reachable(fleet, q.sys)
    ensures ms' == ms + [m] && q' == Do(fleet, q, m)
    ensures Leads(fleet, p, ms', q') && q'.late.Keys == q'.pc.Keys && Reachable(fleet, q'.sys)
  {
    ms', q' := ms + [m], Do(fleet, q, m);
    OneMoreMove(fleet, p, ms, q, m);
    MoveReaches(fleet, q, m);
  }
}
