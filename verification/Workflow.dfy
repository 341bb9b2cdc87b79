/** The value a Go pointer may or may not hold, and the choice of one element of a set. */
module Options {
  datatype Option<+T> = None | Some(value: T)

  ghost function AnyOf<T>(a: set<T>): (x: T)
    requires a != {}
    ensures x in a
  {
    var x :| x in a; x
  }
}

/** The domain model: rows of the three tables, workflow definitions, and the registry. */
module Workflow {
  import opened Options

  // UUIDs, read as numbers.
  type RunId = int
  type TaskId = int

  // Payloads are JSON texts and are only ever handed on; nothing looks inside them.
  type Payload = string

  // Nanoseconds, on the one clock the model has.
  type Time = int

  const EMPTY_OBJECT: Payload := "{}"
  const FIRED: Payload := "{\"fired\":true}"
  const TIMER_ACTIVITY := "__timer__"

  datatype RunStatus = RunRunning | RunCompleted | RunFailed | RunCancelled

  datatype TaskStatus = TaskPending | TaskLeased | TaskCompleted | TaskFailed | TaskDead | TaskCancelled

  datatype TaskKind = KindActivity | KindTimer

  datatype EventType =
    | EventWorkflowStarted
    | EventActivityScheduled
    | EventActivityStarted
    | EventActivityCompleted
    | EventActivityFailed
    | EventActivityRetried
    | EventTimerStarted
    | EventTimerFired
    | EventDeadLettered
    | EventReclaimed
    | EventReplayed
    | EventWorkflowCompleted
    | EventWorkflowFailed
    | EventWorkflowCancelled

  datatype Run = Run(
    workflowName: string,
    input: Payload,
    status: RunStatus,
    currentStep: int,
    totalSteps: int,
    idempotencyKey: Option<string>,
    result: Option<Payload>,
    error: Option<string>,
    createdAt: Time,
    updatedAt: Time)

  datatype Task = Task(
    runID: RunId,
    stepIndex: int,
    activityName: string,
    kind: TaskKind,
    input: Payload,
    status: TaskStatus,
    attempt: int,
    maxAttempts: int,
    availableAt: Time,
    leaseExpires: Option<Time>,
    leasedBy: Option<string>,
    result: Option<Payload>,
    error: Option<string>,
    createdAt: Time,
    updatedAt: Time)

  // The position in the log stands for the BIGSERIAL id.
  datatype Event = Event(runID: RunId, taskID: Option<TaskId>, typ: EventType, payload: Payload, createdAt: Time)

  datatype Step = Step(activity: string, timer: Time, maxAttempts: int)

  datatype Definition = Definition(name: string, steps: seq<Step>)

  // A handler is the relation "on this input it may return this output"; returning an error is
  // always possible as well.
  type ActivityFunc = (Payload, Payload) -> bool

  // What a registry holds at one moment.
  datatype Catalog = Catalog(defs: map<string, Definition>, activities: map<string, ActivityFunc>)

  /** Definitions and handlers, registered in place. */
  class Registry {
    var defs: map<string, Definition>
    var activities: map<string, ActivityFunc>

    ghost function Contents(): (c: Catalog)
      reads this
    {
      Catalog(defs, activities)
    }

    constructor ()
      ensures Contents() == Catalog(map[], map[])
    {
      defs, activities := map[], map[];
    }

    method RegisterWorkflow(d: Definition)
      modifies this
      ensures defs == old(defs)[d.name := d] && activities == old(activities)
    {
      defs := defs[d.name := d];
    }

    method RegisterActivity(name: string, fn: ActivityFunc)
      modifies this
      ensures activities == old(activities)[name := fn] && defs == old(defs)
    {
      activities := activities[name := fn];
    }

    method Workflow(name: string) returns (d: Option<Definition>)
      ensures d.Some? <==> name in defs
      ensures d.Some? ==> d.value == defs[name]
    {
      d := if name in defs then Some(defs[name]) else None;
    }

    method Activity(name: string) returns (fn: Option<ActivityFunc>)
      ensures fn.Some? <==> name in activities
      ensures fn.Some? ==> fn.value == activities[name]
    {
      fn := if name in activities then Some(activities[name]) else None;
    }
  }
}
