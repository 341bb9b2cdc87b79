/**
 The event log read back. Replay folds one run's history into a Ledger; every event the protocol
 does not allow at that point sends the fold to Rejected, so Replay is also the acceptor of
 legal histories.
 */
module History {
  import opened Options
  import opened Workflow

  // GetHistory: the events of one run, in insertion order.
  ghost function HistoryOf(events: seq<Event>, r: RunId): seq<Event> {
    if |events| == 0 then []
    else
      var before := HistoryOf(events[..|events| - 1], r);
      if events[|events| - 1].runID == r then before + [events[|events| - 1]] else before
  }

  // The tasks a history schedules, in order.
  ghost function ScheduledIds(history: seq<Event>): seq<TaskId> {
    Ids(history, EventActivityScheduled)
  }

  // The task ids carried by the events of one type, in order.
  ghost function Ids(history: seq<Event>, typ: EventType): seq<TaskId> {
    if |history| == 0 then []
    else
      var before := Ids(history[..|history| - 1], typ);
      var e := history[|history| - 1];
      if e.typ == typ && e.taskID.Some? then before + [e.taskID.value] else before
  }

  // How often an event of this type was recorded for this task.
  ghost function Count(history: seq<Event>, typ: EventType, t: TaskId): nat {
    if |history| == 0 then 0
    else
      var e := history[|history| - 1];
      Count(history[..|history| - 1], typ, t) + if e.typ == typ && e.taskID == Some(t) then 1 else 0
  }

  lemma HistoryAppend(events: seq<Event>, e: Event, r: RunId)
    ensures HistoryOf(events + [e], r) == if e.runID == r then HistoryOf(events, r) + [e] else HistoryOf(events, r)
  {
    assert (events + [e])[..|events|] == events;
  }

  lemma IdsAppend(history: seq<Event>, e: Event, typ: EventType)
    ensures Ids(history + [e], typ)
         == if e.typ == typ && e.taskID.Some? then Ids(history, typ) + [e.taskID.value] else Ids(history, typ)
  {
    assert (history + [e])[..|history|] == history;
  }

  lemma CountAppend(history: seq<Event>, e: Event, typ: EventType, t: TaskId)
    ensures Count(history + [e], typ, t) == Count(history, typ, t) + if e.typ == typ && e.taskID == Some(t) then 1 else 0
  {
    assert (history + [e])[..|history|] == history;
  }

  lemma {:induction false} NoHistory(events: seq<Event>, r: RunId)
    requires forall i | 0 <= i < |events| :: events[i].runID != r
    ensures HistoryOf(events, r) == []
  {
    if |events| > 0 {
      NoHistory(events[..|events| - 1], r);
    }
  }

  // ----- the automaton -----

  datatype Phase =
    | Unopened    // nothing recorded
    | Opened      // WorkflowStarted, first task still to be scheduled
    | Live        // one task is pending or leased
    | Between     // a step completed; the next is scheduled, or the run completes, in the same transaction
    | Burying     // dead-lettered; the run is failed in the same transaction
    | Dead        // the current task is in the dead-letter queue
    | Finished    // WorkflowCompleted
    | Stopped     // WorkflowCancelled
    | Rejected    // not a history of this protocol

  datatype Recorded = Recorded(id: TaskId, input: Payload, result: Option<Payload>)

  // retries and reclaims count the events of the current step since it was scheduled or replayed.
  datatype Ledger = Ledger(
    phase: Phase,
    input: Payload,
    steps: seq<Recorded>,
    failed: bool,
    result: Option<Payload>,
    retries: nat,
    reclaims: nat)

  const BLANK := Ledger(Unopened, EMPTY_OBJECT, [], false, None, 0, 0)

  ghost predicate Current(l: Ledger, e: Event) {
    |l.steps| > 0 && e.taskID == Some(l.steps[|l.steps| - 1].id)
  }

  ghost function Reject(l: Ledger): Ledger {
    l.(phase := Rejected)
  }

  ghost function Record(l: Ledger, e: Event): Ledger {
    match e.typ
    case EventWorkflowStarted =>
      if l.phase == Unopened then l.(phase := Opened, input := e.payload) else Reject(l)
    case EventActivityScheduled =>
      if e.taskID == None then Reject(l)
      else if l.phase == Opened && e.payload == l.input then
        l.(phase := Live, steps := [Recorded(e.taskID.value, e.payload, None)])
      else if l.phase == Between && |l.steps| > 0 && l.steps[|l.steps| - 1].result == Some(e.payload) then
        l.(phase := Live, steps := l.steps + [Recorded(e.taskID.value, e.payload, None)], retries := 0, reclaims := 0)
      else Reject(l)
    case EventActivityRetried =>
      if l.phase == Live && Current(l, e) then l.(retries := l.retries + 1) else Reject(l)
    case EventReclaimed =>
      if l.phase == Live && Current(l, e) then l.(reclaims := l.reclaims + 1) else Reject(l)
    case EventActivityCompleted =>
      if l.phase == Live && Current(l, e) then
        l.(phase := Between, steps := l.steps[|l.steps| - 1 := l.steps[|l.steps| - 1].(result := Some(e.payload))])
      else Reject(l)
    case EventDeadLettered =>
      if l.phase == Live && Current(l, e) then l.(phase := Burying) else Reject(l)
    case EventWorkflowFailed =>
      if l.phase == Burying then l.(phase := Dead, failed := true) else Reject(l)
    case EventReplayed =>
      if l.phase == Dead && Current(l, e) then l.(phase := Live, retries := 0, reclaims := 0) else Reject(l)
    case EventWorkflowCompleted =>
      if l.phase == Between && |l.steps| > 0 && l.steps[|l.steps| - 1].result == Some(e.payload) then
        l.(phase := Finished, result := Some(e.payload))
      else Reject(l)
    case EventWorkflowCancelled =>
      if l.phase == Live && !l.failed then l.(phase := Stopped) else Reject(l)
    case _ =>
      Reject(l)
  }

  ghost function Replay(history: seq<Event>): Ledger {
    if |history| == 0 then BLANK else Record(Replay(history[..|history| - 1]), history[|history| - 1])
  }

  lemma ReplayAppend(history: seq<Event>, e: Event)
    ensures Replay(history + [e]) == Record(Replay(history), e)
  {
    assert (history + [e])[..|history|] == history;
  }

  // The run status a ledger stands for.
  ghost function StatusOf(l: Ledger): RunStatus {
    match l.phase
    case Finished => RunCompleted
    case Stopped => RunCancelled
    case Dead => RunFailed
    case _ => if l.failed then RunFailed else RunRunning
  }
}
