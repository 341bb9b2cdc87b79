/** The parts of the engine that only compute: configuration, task construction, next step. */
module Scheduling {
  import opened Options
  import opened Workflow
  import opened Store
  import Backoff
  import Names

  datatype Config = Config(
    workers: int,
    leaseDuration: Time,
    pollInterval: Time,
    reapInterval: Time,
    backoffBase: Time,
    backoffMax: Time,
    defaultRetries: int,
    workerID: string)

  // A worker goroutine: which engine it belongs to, and its number there.
  datatype Worker = Worker(engine: int, number: nat)

  // What the processes sharing one database have in common, and the owner name of each worker.
  datatype Fleet = Fleet(catalog: Catalog, cfg: Config, owner: Worker -> string)

  // An engine configured like the rest of its fleet. Its WorkerID, its number of workers and how
  // often they poll are its own affair.
  ghost predicate Agrees(fleet: Fleet, cfg: Config) {
    && cfg.leaseDuration == fleet.cfg.leaseDuration
    && cfg.reapInterval == fleet.cfg.reapInterval
    && cfg.backoffBase == fleet.cfg.backoffBase
    && cfg.backoffMax == fleet.cfg.backoffMax
    && cfg.defaultRetries == fleet.cfg.defaultRetries
  }

  // Run names the workers of an engine after its WorkerID.
  ghost predicate NamesWorkers(fleet: Fleet, engine: int, workerID: string) {
    forall i: nat :: fleet.owner(Worker(engine, i)) == Names.WorkerName(workerID, i)
  }

  ghost predicate Sound(fleet: Fleet) {
    && fleet.cfg.leaseDuration > 0
    && fleet.cfg.reapInterval > 0
    && Backoff.Duration(fleet.cfg.backoffBase)
    && Backoff.Duration(fleet.cfg.backoffMax)
    && fleet.cfg.defaultRetries > 0
  }

  // No two workers lease under the same name.
  ghost predicate PrivateNames(fleet: Fleet) {
    forall p, q {:trigger fleet.owner(p), fleet.owner(q)} :: fleet.owner(p) == fleet.owner(q) ==> p == q
  }

  /** Owner names are private exactly when no two engines are configured with the same WorkerID. */
  lemma PrivateWhenIDsDiffer(fleet: Fleet, ids: int -> string)
    requires forall e :: NamesWorkers(fleet, e, ids(e))
    ensures PrivateNames(fleet) <==> forall e, f {:trigger ids(e), ids(f)} :: ids(e) == ids(f) ==> e == f
  {
    forall p: Worker, q: Worker
      ensures fleet.owner(p) == fleet.owner(q) <==> ids(p.engine) == ids(q.engine) && p.number == q.number
    {
      assert NamesWorkers(fleet, p.engine, ids(p.engine)) && NamesWorkers(fleet, q.engine, ids(q.engine));
      assert p == Worker(p.engine, p.number) && q == Worker(q.engine, q.number);
      Names.NamesAreDistinct(ids(p.engine), p.number, ids(q.engine), q.number);
    }
    if PrivateNames(fleet) {
      forall e, f | ids(e) == ids(f)
        ensures e == f
      {
        assert fleet.owner(Worker(e, 0)) == fleet.owner(Worker(f, 0)) ==> Worker(e, 0) == Worker(f, 0);
      }
    }
  }

  function MaxAttempts(cfg: Config, s: Step): int {
    if s.timer > 0 then 1 else if s.maxAttempts <= 0 then cfg.defaultRetries else s.maxAttempts
  }

  function ActivityName(s: Step): string {
    if s.timer > 0 then TIMER_ACTIVITY else s.activity
  }

  function Kind(s: Step): TaskKind {
    if s.timer > 0 then KindTimer else KindActivity
  }

  // id stands for uuid.NewString(), stamp for time.Now().
  function BuildTask(cfg: Config, def: Definition, step: int, input: Payload, id: TaskId, stamp: Time): NewTask
    requires 0 <= step < |def.steps|
  {
    var s := def.steps[step];
    NewTask(id, step, ActivityName(s), Kind(s), input, MaxAttempts(cfg, s), if s.timer > 0 then stamp + s.timer else stamp)
  }

  // What the handler of a step, or the timer firing, may hand to the next step.
  ghost predicate Returns(catalog: Catalog, s: Step, input: Payload, output: Payload) {
    if s.timer > 0 then output == FIRED
    else s.activity in catalog.activities && catalog.activities[s.activity](input, output)
  }

  // The same, judged from a task row, as a worker does.
  ghost predicate MayReturn(catalog: Catalog, t: Task, output: Payload) {
    if t.kind == KindTimer then output == FIRED
    else t.activityName in catalog.activities && catalog.activities[t.activityName](t.input, output)
  }

  // Time the timers among the first n steps wait for in all.
  ghost function TimerSum(steps: seq<Step>, n: nat): Time
    requires n <= |steps|
  {
    if n == 0 then 0 else TimerSum(steps, n - 1) + if steps[n - 1].timer > 0 then steps[n - 1].timer else 0
  }
}
