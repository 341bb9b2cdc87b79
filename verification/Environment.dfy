/**
 What the engine meets and does not decide: the steps of everybody else, when its context is cancelled,
 how handlers come back, which rows are locked, how long connections last, the next UUIDs and random
 numbers. All of it is given from outside, so that what the engine does about it can be stated.
 */
module Environment {
  import opened Options
  import opened Workflow
  import opened Store
  import opened Scheduling
  import opened Protocol
  import opened Invariant
  import opened Interleaving
  import DB = Postgres

  /**
   Between two calls of an actor the rest of the system may take any steps that are not the actor's.
   The body takes none; callers know the contract only.
   */
  method Others(store: DB.Postgres, ghost fleet: Fleet, ghost a: Actor, ghost s: Sys) returns (ghost ls: seq<Label>, ghost s': Sys)
    requires s.db == store.Tables()
    modifies store
    ensures Feasible(fleet, s, ls) && Foreign(ls, a)
    ensures s' == End(fleet, s, ls) && s'.db == store.Tables()
  {
    ls, s' := [], s;
  }

  /** A context that is cancelled during the wait after the next `left` ones. */
  class Context {
    var cancelled: bool
    var left: nat

    constructor (left: nat)
      ensures !cancelled && this.left == left
    {
      cancelled, this.left := false, left;
    }
  }

  /** The same, for a goroutine that watches ctx, which may be cancelled in the meantime. */
  method Await(store: DB.Postgres, ctx: Context, ghost fleet: Fleet, ghost a: Actor, ghost s: Sys)
    returns (ghost ls: seq<Label>, ghost s': Sys)
    requires s.db == store.Tables()
    modifies store, ctx
    ensures Feasible(fleet, s, ls) && Foreign(ls, a)
    ensures s' == End(fleet, s, ls) && s'.db == store.Tables()
    ensures ctx.cancelled <==> old(ctx.cancelled) || old(ctx.left) == 0
    ensures ctx.left == if ctx.cancelled then old(ctx.left) else old(ctx.left) - 1
  {
    ls, s' := Others(store, fleet, a, s);
    if ctx.left == 0 {
      ctx.cancelled := true;
    } else if !ctx.cancelled {
      ctx.left := ctx.left - 1;
    }
  }

  // How a handler comes back.
  datatype Outcome = Returned(output: Payload) | Errored(msg: string) | Panicked(value: string)

  // What one round of a worker's loop meets: the rows others have locked when it leases, how many
  // statements the connections of the lease, of GetRun and of the commit last, how each handler would come back, the next
  // UUID, and which case of the select is taken when several are ready.
  datatype Circumstances = Circumstances(
    locked: set<TaskId>,
    leaseLasts: nat,
    readLasts: nat,
    commitLasts: nat,
    handler: (string, Payload) -> Outcome,
    uuid: TaskId,
    doneFirst: bool)

  // Handlers return only what they may return.
  ghost predicate Lawful(catalog: Catalog, c: Circumstances) {
    forall name, input | name in catalog.activities && c.handler(name, input).Returned? ::
      catalog.activities[name](input, c.handler(name, input).output)
  }

  /** The random source, as the numbers it will deliver. */
  class LockedRand {
    const draws: nat -> nat
    var used: nat

    constructor (draws: nat -> nat)
      ensures this.draws == draws && used == 0
    {
      this.draws, used := draws, 0;
    }

    /** Full jitter: the next number, brought into 0..max. */
    method Duration(max: int) returns (d: int)
      modifies this
      ensures max <= 0 ==> d == 0 && used == old(used)
      ensures max > 0 ==> d == draws(old(used)) % (max + 1) && 0 <= d <= max && used == old(used) + 1
    {
      if max <= 0 {
        return 0;
      }
      d := draws(used) % (max + 1);
      used := used + 1;
    }
  }
}
