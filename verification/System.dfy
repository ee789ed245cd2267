/**
 * The Postgres backend as a transition system: any number of workers, reapers and
 * operators, each statement or transaction one step. A worker that was too slow
 * stays in flight after the reaper took its event away and may still report.
 * The trail records, step by step, what happened to which event and circuit.
 */
module System {
  import opened Common
  import opened Schema
  import opened Queue
  import Circuit
  import Integrity

  type WorkerId = nat
  type CallId = nat

  /** How far one delivery has come since its event was claimed. */
  datatype Stage = Fetched | Found(endpoint: Endpoint) | Missing

  /** One delivery in flight: the claimed event as it was returned, and what was read since. */
  datatype Worker = Worker(event: EventId, endpointId: EndpointId, claimedAt: int, stage: Stage)

  /** One call to retry a dead event, between its three database accesses. */
  datatype Call = SawDead(event: EventId) | SawEndpoint(event: EventId, endpointId: Option<EndpointId>)

  datatype Effect = Enqueued | Claimed | Reaped | Succeeded | Retried | DeadLettered | HandedBack | Closed | Requeued

  datatype CircuitEffect = Registered | FailureCounted | CircuitReset

  datatype Entry = Entry(at: int, events: map<EventId, Effect>, circuits: map<EndpointId, CircuitEffect>)

  datatype State = State(
    db: Db,
    now: int,
    workers: map<WorkerId, Worker>,
    calls: map<CallId, Call>,
    issued: set<EventId>,
    trail: seq<Entry>)

  datatype Step =
    | Register(id: EndpointId, config: NewEndpoint)
    | Configure(id: EndpointId, update: UpdateEndpoint)
    | Unregister(id: EndpointId)
    | Send(e: EventId, id: EndpointId, eventType: string, payload: string, key: Option<string>)
    | SendToAll(targets: map<EventId, EndpointId>, eventType: string, payload: string, key: Option<string>)
    | ClaimBatch(limit: nat, locked: set<EventId>, chosen: set<EventId>, names: map<EventId, WorkerId>)
    | LookUp(w: WorkerId)
    | ReportSuccess(w: WorkerId, response: int, body: Option<string>)
    | ReportFailure(w: WorkerId, reason: Option<int>, draw: nat)
    | HandBack(w: WorkerId)
    | CloseMissing(w: WorkerId)
    | Crash(w: WorkerId)
    | Reap(stuckAfterSecs: int)
    | RetryStart(c: CallId, e: EventId)
    | RetryLookUp(c: CallId)
    | RetryCommit(c: CallId)
    | RetryAll(id: EndpointId)
    | Purge(status: Status, olderThanSecs: int)
    | Tick(elapsed: nat)

  predicate Initial(s: State) {
    s.db == EmptyDb && s.workers == map[] && s.calls == map[] && s.issued == {} && s.trail == []
  }

  /** The worker found its endpoint, and `enabled` as given. */
  predicate HasEndpoint(s: State, w: WorkerId, enabled: bool) {
    w in s.workers && s.workers[w].stage.Found? && s.workers[w].stage.endpoint.enabled == enabled
  }

  predicate Enabled(s: State, step: Step) {
    match step
    case Register(id, config) =>
      id !in s.db.endpoints && Integrity.LimitsOk(config.maxAttempts, config.initialDelayMs)
    case Configure(_, update) => Integrity.LimitsOk(update.maxAttempts, update.initialDelayMs)
    case Send(e, _, _, _, _) => e !in s.issued
    case SendToAll(targets, eventType, _, _) =>
      targets.Keys !! s.issued && FreshFor(s.db, targets, Targets(Circuit.Postgres, s.db, eventType))
    case ClaimBatch(limit, locked, chosen, names) =>
      && Earliest(s.db, DueEvents(s.db, s.now) - locked, limit, chosen)
      && names.Keys == chosen && names.Values !! s.workers.Keys
      && forall e, f :: e in names && f in names && e != f ==> names[e] != names[f]
    case LookUp(w) => w in s.workers && s.workers[w].stage.Fetched?
    case ReportSuccess(w, _, _) => HasEndpoint(s, w, true)
    case ReportFailure(w, _, _) => HasEndpoint(s, w, true)
    case HandBack(w) => HasEndpoint(s, w, false)
    case CloseMissing(w) => w in s.workers && s.workers[w].stage.Missing?
    case Crash(w) => w in s.workers
    case RetryStart(c, e) => c !in s.calls && e in s.db.events && s.db.events[e].status == Dead
    case RetryLookUp(c) => c in s.calls && s.calls[c].SawDead?
    case RetryCommit(c) => c in s.calls && s.calls[c].SawEndpoint?
    case Purge(status, _) => status == Delivered || status == Dead
    case _ => true
  }

  /** What a worker passes to record_failure. */
  function FailureOf(s: State, w: WorkerId, reason: Option<int>): Failure
    requires HasEndpoint(s, w, true)
  {
    var worker := s.workers[w];
    Failure(worker.endpointId, worker.stage.endpoint.maxAttempts, worker.stage.endpoint.initialDelayMs,
      Attempt(false, s.now, reason, None))
  }

  function DbAfter(s: State, step: Step): Db
    requires Enabled(s, step)
  {
    match step
    case Register(id, config) => Create(s.db, id, config)
    case Configure(id, update) => Update(s.db, id, update)
    case Unregister(id) => Delete(s.db, id)
    case Send(e, id, eventType, payload, key) => Enqueue(s.db, e, id, eventType, payload, key, s.now)
    case SendToAll(targets, eventType, payload, key) => Broadcast(s.db, targets, eventType, payload, key, s.now)
    case ClaimBatch(_, _, chosen, _) => Claim(s.db, chosen, s.now)
    case ReportSuccess(w, response, body) => RecordSuccess(s.db, s.workers[w].event, SuccessRow(response, body, s.now))
    case ReportFailure(w, reason, draw) =>
      RecordFailure(Circuit.Postgres, s.db, s.workers[w].event, FailureOf(s, w, reason), s.now, draw)
    case HandBack(w) => ResetToPending(s.db, s.workers[w].event, s.now)
    case CloseMissing(w) => RecordEndpointDeleted(s.db, s.workers[w].event, Attempt(false, s.now, None, None))
    case Reap(secs) => Recover(s.db, Ago(s.now, secs))
    case RetryCommit(c) => RetryDead(s.db, s.calls[c].event, s.calls[c].endpointId, s.now)
    case RetryAll(id) => RetryAllDead(s.db, id, s.now)
    case Purge(status, secs) => Cleanup(s.db, status, Ago(s.now, secs))
    case _ => s.db
  }

  function Only(e: EventId, effect: Effect, happens: bool): map<EventId, Effect> {
    if happens then map[e := effect] else map[]
  }

  /** What a step does to events. */
  function EventEffects(s: State, step: Step): map<EventId, Effect>
    requires Enabled(s, step)
  {
    match step
    case Send(e, id, _, _, key) => Only(e, Enqueued, id in s.db.endpoints && !Taken(s.db, id, key))
    case SendToAll(targets, _, _, key) => map e | e in targets && !Taken(s.db, targets[e], key) :: Enqueued
    case ClaimBatch(_, _, chosen, _) => map e | e in chosen :: Claimed
    case ReportSuccess(w, _, _) => Only(s.workers[w].event, Succeeded, IsDelivering(s.db, s.workers[w].event))
    case ReportFailure(w, reason, _) =>
      var e, failure := s.workers[w].event, FailureOf(s, w, reason);
      Only(e,
        if e in s.db.events && s.db.events[e].attempts + 1 >= failure.maxAttempts then DeadLettered else Retried,
        IsDelivering(s.db, e) && FailureCommits(Circuit.Postgres, s.db, e, failure, s.now))
    case HandBack(w) => Only(s.workers[w].event, HandedBack, IsDelivering(s.db, s.workers[w].event))
    case CloseMissing(w) => Only(s.workers[w].event, Closed, IsDelivering(s.db, s.workers[w].event))
    case Reap(secs) => map e | e in s.db.events && Stuck(s.db.events[e], Ago(s.now, secs)) :: Reaped
    case RetryCommit(c) =>
      var e := s.calls[c].event;
      Only(e, Requeued, e in s.db.events && s.db.events[e].status == Dead)
    case RetryAll(id) => map e | e in DeadOf(s.db, id) :: Requeued
    case _ => map[]
  }

  function OnlyCircuit(id: EndpointId, effect: CircuitEffect, happens: bool): map<EndpointId, CircuitEffect> {
    if happens then map[id := effect] else map[]
  }

  /** What a step does to circuits. */
  function CircuitEffects(s: State, step: Step): map<EndpointId, CircuitEffect>
    requires Enabled(s, step)
  {
    match step
    case Register(id, _) => map[id := Registered]
    case ReportSuccess(w, _, _) =>
      var e := s.workers[w].event;
      if IsDelivering(s.db, e)
      then OnlyCircuit(s.db.events[e].endpointId, CircuitReset, s.db.events[e].endpointId in s.db.endpoints)
      else map[]
    case ReportFailure(w, reason, _) =>
      var failure := FailureOf(s, w, reason);
      OnlyCircuit(failure.endpointId, FailureCounted,
        failure.endpointId in s.db.endpoints
        && FailureCommits(Circuit.Postgres, s.db, s.workers[w].event, failure, s.now))
    case RetryCommit(c) =>
      var e, id := s.calls[c].event, s.calls[c].endpointId;
      if id.Some? then
        OnlyCircuit(id.value, CircuitReset,
          id.value in s.db.endpoints && e in s.db.events && s.db.events[e].status == Dead)
      else map[]
    case RetryAll(id) => OnlyCircuit(id, CircuitReset, id in s.db.endpoints)
    case _ => map[]
  }

  function IssuedBy(step: Step): set<EventId> {
    match step
    case Send(e, _, _, _, _) => {e}
    case SendToAll(targets, _, _, _) => targets.Keys
    case _ => {}
  }

  function NewWorker(db: Db, now: int, e: EventId): Worker
    requires e in db.events
  {
    Worker(e, db.events[e].endpointId, now, Fetched)
  }

  /** The deliveries of a claimed batch, under the given names. */
  function NewWorkers(db: Db, now: int, chosen: set<EventId>, names: map<EventId, WorkerId>): (workers: map<WorkerId, Worker>)
    requires chosen == names.Keys && chosen <= db.events.Keys
    requires forall e, f :: e in names && f in names && e != f ==> names[e] != names[f]
    ensures workers.Keys == names.Values
    ensures forall e :: e in chosen ==> workers[names[e]] == NewWorker(db, now, e)
  {
    map e | e in chosen :: names[e] := NewWorker(db, now, e)
  }

  /** One delivery per claimed event; a report or a crash ends it. */
  function WorkersAfter(s: State, step: Step): map<WorkerId, Worker>
    requires Enabled(s, step)
  {
    match step
    case ClaimBatch(_, _, chosen, names) =>
      s.workers + NewWorkers(s.db, s.now, chosen, names)
    case LookUp(w) =>
      var id := s.workers[w].endpointId;
      s.workers[w := s.workers[w].(stage := if id in s.db.endpoints then Found(s.db.endpoints[id]) else Missing)]
    case ReportSuccess(w, _, _) => s.workers - {w}
    case ReportFailure(w, _, _) => s.workers - {w}
    case HandBack(w) => s.workers - {w}
    case CloseMissing(w) => s.workers - {w}
    case Crash(w) => s.workers - {w}
    case _ => s.workers
  }

  function CallsAfter(s: State, step: Step): map<CallId, Call>
    requires Enabled(s, step)
  {
    match step
    case RetryStart(c, e) => s.calls[c := SawDead(e)]
    case RetryLookUp(c) =>
      var e := s.calls[c].event;
      s.calls[c := SawEndpoint(e, if e in s.db.events then Some(s.db.events[e].endpointId) else None)]
    case RetryCommit(c) => s.calls - {c}
    case _ => s.calls
  }

  function Apply(s: State, step: Step): State
    requires Enabled(s, step)
  {
    State(
      DbAfter(s, step),
      if step.Tick? then s.now + step.elapsed else s.now,
      WorkersAfter(s, step),
      CallsAfter(s, step),
      s.issued + IssuedBy(step),
      s.trail + [Entry(s.now, EventEffects(s, step), CircuitEffects(s, step))])
  }

  predicate Next(s: State, step: Step, next: State) {
    Enabled(s, step) && next == Apply(s, step)
  }

  ghost predicate StepAt(states: seq<State>, steps: seq<Step>, i: nat)
    requires |states| == |steps| + 1 && i < |steps|
  {
    Next(states[i], steps[i], states[i + 1])
  }

  /** A run: any interleaving of enabled steps from an empty database. */
  ghost predicate Run(states: seq<State>, steps: seq<Step>) {
    && |states| == |steps| + 1
    && Initial(states[0])
    && forall i :: 0 <= i < |steps| ==> StepAt(states, steps, i)
  }
}
