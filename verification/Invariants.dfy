/**
 * What every reachable state keeps, and that the trail tells the truth: each step
 * changes events and circuits exactly as the entry it appends says.
 */
module Invariants {
  import opened Common
  import opened Schema
  import opened Queue
  import opened System
  import Circuit
  import Integrity

  // ---- The core invariant ----

  predicate WorkerOk(s: State, worker: Worker) {
    && worker.event in s.issued && worker.claimedAt <= s.now
    && (worker.stage.Found? ==> EndpointOk(worker.stage.endpoint))
    && (worker.event in s.db.events ==>
        s.db.events[worker.event].endpointId == worker.endpointId && !worker.stage.Missing?)
  }

  predicate CallOk(s: State, call: Call) {
    && call.event in s.issued
    && (call.SawEndpoint? && call.event in s.db.events ==>
        call.endpointId == Some(s.db.events[call.event].endpointId))
  }

  /** The tables are consistent, ids are never reused, and what was read earlier still fits. */
  predicate Core(s: State) {
    && Consistent(s.db)
    && s.db.events.Keys <= s.issued
    && (forall w :: w in s.workers ==> WorkerOk(s, s.workers[w]))
    && (forall c :: c in s.calls ==> CallOk(s, s.calls[c]))
  }

  // ---- What an entry of the trail means ----

  /** How an effect turns one version of an event into the next, and when it can. */
  predicate Transition(effect: Effect, before: Event, after: Event, now: int) {
    match effect
    case Enqueued => false
    case Claimed =>
      (before.status == Pending || before.status == Failed) && before.scheduledAt <= now && after == MarkClaimed(before, now)
    case Reaped => before.status == Delivering && after == Released(before)
    case Succeeded => before.status == Delivering && after == MarkDelivered(before)
    case Retried =>
      before.status == Delivering
      && after == before.(status := Failed, attempts := before.attempts + 1, scheduledAt := after.scheduledAt, deliveringSince := None)
    case DeadLettered =>
      before.status == Delivering
      && after == before.(status := Dead, attempts := before.attempts + 1, deliveringSince := None)
    case HandedBack => before.status == Delivering && after == Released(before).(scheduledAt := now)
    case Closed => before.status == Delivering && after == before.(status := Dead, deliveringSince := None)
    case Requeued => before.status == Dead && after == MarkRequeued(before, now)
  }

  /** An event after a step is the one before, changed as its effect says, or a new one. */
  predicate EventChange(effects: map<EventId, Effect>, s: State, events: map<EventId, Event>, e: EventId)
    requires e in events
  {
    if e in s.db.events then
      if e in effects then Transition(effects[e], s.db.events[e], events[e], s.now) else events[e] == s.db.events[e]
    else
      e in effects && effects[e] == Enqueued && e !in s.issued && events[e].status == Pending && events[e].attempts == 0
  }

  /** A circuit after a step is the one before, changed as its effect says, or a new closed one. */
  predicate CircuitChange(effects: map<EndpointId, CircuitEffect>, s: State, endpoints: map<EndpointId, Endpoint>, p: EndpointId)
    requires p in endpoints
  {
    if p in effects && effects[p] == Registered then
      endpoints[p].consecutiveFailures == 0 && endpoints[p].circuitOpenUntil == None
    else
      p in s.db.endpoints
      && if p !in effects then SameCircuit(s.db.endpoints[p], endpoints[p])
         else if effects[p] == CircuitReset then
           endpoints[p] == s.db.endpoints[p].(consecutiveFailures := 0, circuitOpenUntil := None)
         else EndpointAfterFailure(Circuit.Postgres, s.db.endpoints[p], s.now) == Some(endpoints[p])
  }

  /** The step from `s` to `next` did what the last entry of the trail says. */
  predicate Truthful(s: State, next: State) {
    && |next.trail| == |s.trail| + 1 && next.trail[..|s.trail|] == s.trail
    && s.issued <= next.issued && s.now <= next.now
    && var entry := next.trail[|s.trail|];
    && entry.at == s.now
    && entry.events.Keys <= next.db.events.Keys
    && (forall e :: e in next.db.events ==> EventChange(entry.events, s, next.db.events, e))
    && (forall p :: p in next.db.endpoints ==> CircuitChange(entry.circuits, s, next.db.endpoints, p))
  }

  // ---- Events ----

  lemma FailureIsReal(s: State, step: Step, e: EventId)
    requires Core(s) && Enabled(s, step) && step.ReportFailure? && e in DbAfter(s, step).events
    ensures EventChange(EventEffects(s, step), s, DbAfter(s, step).events, e)
  {
    var failure := FailureOf(s, step.w, step.reason);
    Integrity.EventAfterFailureShape(s.db.events[e], failure.maxAttempts, failure.initialDelayMs, s.now, step.draw);
  }

  lemma SuccessIsReal(s: State, step: Step, e: EventId)
    requires Core(s) && Enabled(s, step) && step.ReportSuccess? && e in DbAfter(s, step).events
    ensures EventChange(EventEffects(s, step), s, DbAfter(s, step).events, e)
  {
  }

  lemma ReleaseIsReal(s: State, step: Step, e: EventId)
    requires Core(s) && Enabled(s, step) && e in DbAfter(s, step).events
    requires step.HandBack? || step.CloseMissing?
    ensures EventChange(EventEffects(s, step), s, DbAfter(s, step).events, e)
  {
  }

  lemma EnqueueIsReal(s: State, step: Step, e: EventId)
    requires Core(s) && Enabled(s, step) && e in DbAfter(s, step).events
    requires step.Send? || step.SendToAll?
    ensures EventChange(EventEffects(s, step), s, DbAfter(s, step).events, e)
    ensures e in s.db.events || e in IssuedBy(step)
  {
  }

  lemma ClaimIsReal(s: State, step: Step, e: EventId)
    requires Core(s) && Enabled(s, step) && step.ClaimBatch? && e in DbAfter(s, step).events
    ensures EventChange(EventEffects(s, step), s, DbAfter(s, step).events, e)
  {
  }

  lemma RetryIsReal(s: State, step: Step, e: EventId)
    requires Core(s) && Enabled(s, step) && e in DbAfter(s, step).events
    requires step.RetryCommit?
    ensures EventChange(EventEffects(s, step), s, DbAfter(s, step).events, e)
  {
  }

  lemma RetryAllIsReal(s: State, step: Step, e: EventId)
    requires Core(s) && Enabled(s, step) && e in DbAfter(s, step).events
    requires step.RetryAll?
    ensures EventChange(EventEffects(s, step), s, DbAfter(s, step).events, e)
  {
  }

  lemma ReapIsReal(s: State, step: Step, e: EventId)
    requires Core(s) && Enabled(s, step) && e in DbAfter(s, step).events
    requires step.Reap?
    ensures EventChange(EventEffects(s, step), s, DbAfter(s, step).events, e)
  {
  }

  lemma ReportIsReal(s: State, step: Step, e: EventId)
    requires Core(s) && Enabled(s, step) && e in DbAfter(s, step).events
    requires step.ReportSuccess? || step.ReportFailure? || step.HandBack? || step.CloseMissing?
    ensures EventChange(EventEffects(s, step), s, DbAfter(s, step).events, e)
  {
    if step.ReportFailure? {
      FailureIsReal(s, step, e);
    } else if step.ReportSuccess? {
      SuccessIsReal(s, step, e);
    } else {
      ReleaseIsReal(s, step, e);
    }
  }

  lemma OtherIsReal(s: State, step: Step, e: EventId)
    requires Core(s) && Enabled(s, step) && e in DbAfter(s, step).events
    requires step.Register? || step.Configure? || step.Unregister? || step.LookUp? || step.Crash?
      || step.RetryStart? || step.RetryLookUp? || step.Purge? || step.Tick?
    ensures EventChange(EventEffects(s, step), s, DbAfter(s, step).events, e)
  {
  }

  lemma EventsAreReal(s: State, step: Step, e: EventId)
    requires Core(s) && Enabled(s, step) && e in DbAfter(s, step).events
    ensures EventChange(EventEffects(s, step), s, DbAfter(s, step).events, e)
    ensures e in s.db.events || e in IssuedBy(step)
  {
    if step.Send? || step.SendToAll? {
      EnqueueIsReal(s, step, e);
    } else if step.ClaimBatch? {
      ClaimIsReal(s, step, e);
    } else if step.Reap? {
      ReapIsReal(s, step, e);
    } else if step.RetryCommit? {
      RetryIsReal(s, step, e);
    } else if step.RetryAll? {
      RetryAllIsReal(s, step, e);
    } else if step.ReportSuccess? || step.ReportFailure? || step.HandBack? || step.CloseMissing? {
      ReportIsReal(s, step, e);
    } else {
      OtherIsReal(s, step, e);
    }
  }

  lemma EffectsOnRows(s: State, step: Step)
    requires Core(s) && Enabled(s, step)
    ensures EventEffects(s, step).Keys <= DbAfter(s, step).events.Keys
  {
  }

  // ---- Circuits ----

  lemma ReportCircuit(s: State, step: Step, p: EndpointId)
    requires Enabled(s, step) && p in DbAfter(s, step).endpoints
    requires step.ReportSuccess? || step.ReportFailure?
    ensures CircuitChange(CircuitEffects(s, step), s, DbAfter(s, step).endpoints, p)
  {
  }

  lemma RetryCircuit(s: State, step: Step, p: EndpointId)
    requires Enabled(s, step) && p in DbAfter(s, step).endpoints
    requires step.RetryCommit? || step.RetryAll?
    ensures CircuitChange(CircuitEffects(s, step), s, DbAfter(s, step).endpoints, p)
  {
  }

  lemma CircuitsAreReal(s: State, step: Step, p: EndpointId)
    requires Enabled(s, step) && p in DbAfter(s, step).endpoints
    ensures CircuitChange(CircuitEffects(s, step), s, DbAfter(s, step).endpoints, p)
  {
    match step
    case ReportSuccess(_, _, _) => ReportCircuit(s, step, p);
    case ReportFailure(_, _, _) => ReportCircuit(s, step, p);
    case RetryCommit(_) => RetryCircuit(s, step, p);
    case RetryAll(_) => RetryCircuit(s, step, p);
    case _ =>
  }

  /** Every step does what it records. */
  lemma StepIsTruthful(s: State, step: Step)
    requires Core(s) && Enabled(s, step)
    ensures Truthful(s, Apply(s, step))
  {
    var next := Apply(s, step);
    EffectsOnRows(s, step);
    forall e | e in next.db.events ensures EventChange(EventEffects(s, step), s, next.db.events, e) {
      EventsAreReal(s, step, e);
    }
    forall p | p in next.db.endpoints ensures CircuitChange(CircuitEffects(s, step), s, next.db.endpoints, p) {
      CircuitsAreReal(s, step, p);
    }
  }

  // ---- The core invariant is kept ----

  lemma ReportKeepsConsistent(s: State, step: Step)
    requires Core(s) && Enabled(s, step)
    requires step.ReportSuccess? || step.ReportFailure? || step.HandBack? || step.CloseMissing?
    ensures Consistent(DbAfter(s, step))
  {
    var e := s.workers[step.w].event;
    match step
    case ReportSuccess(w, response, body) => Integrity.RecordSuccessKeeps(s.db, e, SuccessRow(response, body, s.now));
    case ReportFailure(w, reason, draw) =>
      Integrity.RecordFailureKeeps(Circuit.Postgres, s.db, e, FailureOf(s, w, reason), s.now, draw);
    case HandBack(w) => Integrity.ResetToPendingKeeps(s.db, e, s.now);
    case CloseMissing(w) => Integrity.RecordEndpointDeletedKeeps(s.db, e, Attempt(false, s.now, None, None));
  }

  lemma OperatorKeepsConsistent(s: State, step: Step)
    requires Core(s) && Enabled(s, step)
    requires step.Register? || step.Configure? || step.Unregister? || step.RetryCommit? || step.RetryAll? || step.Purge?
    ensures Consistent(DbAfter(s, step))
  {
    match step
    case Register(id, config) => Integrity.CreateKeeps(s.db, id, config);
    case Configure(id, update) => Integrity.UpdateKeeps(s.db, id, update);
    case Unregister(id) => Integrity.DeleteKeeps(s.db, id);
    case RetryCommit(c) => Integrity.RetryDeadKeeps(s.db, s.calls[c].event, s.calls[c].endpointId, s.now);
    case RetryAll(id) => Integrity.RetryAllDeadKeeps(s.db, id, s.now);
    case Purge(status, secs) => Integrity.WithoutKeeps(s.db, Expired(s.db, status, Ago(s.now, secs)));
  }

  lemma SendKeepsConsistent(s: State, step: Step)
    requires Core(s) && Enabled(s, step)
    requires step.Send? || step.SendToAll?
    ensures Consistent(DbAfter(s, step))
  {
    match step
    case Send(e, id, eventType, payload, key) => Integrity.EnqueueKeeps(s.db, e, id, eventType, payload, key, s.now);
    case SendToAll(targets, eventType, payload, key) =>
      Integrity.BroadcastKeeps(Circuit.Postgres, s.db, targets, eventType, payload, key, s.now);
  }

  lemma ClaimKeepsConsistent(s: State, step: Step)
    requires Core(s) && Enabled(s, step) && step.ClaimBatch?
    ensures Consistent(DbAfter(s, step))
  {
    Integrity.ClaimKeeps(s.db, step.chosen, s.now);
  }

  lemma ReapKeepsConsistent(s: State, step: Step)
    requires Core(s) && Enabled(s, step) && step.Reap?
    ensures Consistent(DbAfter(s, step))
  {
    Integrity.RecoverKeeps(s.db, Ago(s.now, step.stuckAfterSecs));
  }

  lemma ConsistentKept(s: State, step: Step)
    requires Core(s) && Enabled(s, step)
    ensures Consistent(DbAfter(s, step))
  {
    if step.ReportSuccess? || step.ReportFailure? || step.HandBack? || step.CloseMissing? {
      ReportKeepsConsistent(s, step);
    } else if step.Send? || step.SendToAll? {
      SendKeepsConsistent(s, step);
    } else if step.ClaimBatch? {
      ClaimKeepsConsistent(s, step);
    } else if step.Reap? {
      ReapKeepsConsistent(s, step);
    } else if step.LookUp? || step.Crash? || step.RetryStart? || step.RetryLookUp? || step.Tick? {
    } else {
      OperatorKeepsConsistent(s, step);
    }
  }

  lemma LookUpOk(s: State, w: WorkerId)
    requires Core(s) && Enabled(s, LookUp(w))
    ensures WorkerOk(s, WorkersAfter(s, LookUp(w))[w])
  {
    var worker := s.workers[w];
    assert WorkerOk(s, worker);
    if worker.event in s.db.events {
      assert EventOk(s.db, worker.event);
    }
  }

  lemma ClaimOk(s: State, step: Step, w: WorkerId)
    requires Core(s) && step.ClaimBatch? && Enabled(s, step) && w in WorkersAfter(s, step) && w !in s.workers
    ensures WorkerOk(s, WorkersAfter(s, step)[w])
  {
    var e :| e in step.chosen && step.names[e] == w;
    assert e in DueEvents(s.db, s.now);
    assert WorkersAfter(s, step)[w] == NewWorkers(s.db, s.now, step.chosen, step.names)[w] == NewWorker(s.db, s.now, e);
  }

  /** A worker after a step, seen in the tables before it: unchanged, advanced by a read, or newly claimed. */
  lemma WorkerOkBefore(s: State, step: Step, w: WorkerId)
    requires Core(s) && Enabled(s, step) && w in WorkersAfter(s, step)
    ensures WorkerOk(s, WorkersAfter(s, step)[w])
  {
    if w in s.workers {
      assert WorkerOk(s, s.workers[w]);
    }
    match step
    case LookUp(_) => if w == step.w { LookUpOk(s, w); }
    case ClaimBatch(_, _, _, _) => if w !in s.workers { ClaimOk(s, step, w); }
    case _ =>
  }

  lemma CallOkBefore(s: State, step: Step, c: CallId)
    requires Core(s) && Enabled(s, step) && c in CallsAfter(s, step)
    ensures CallOk(s, CallsAfter(s, step)[c])
  {
  }

  /** What a worker or caller knows outlives any truthful step. */
  lemma KnowledgeKept(s: State, next: State)
    requires Truthful(s, next)
    ensures forall worker :: WorkerOk(s, worker) ==> WorkerOk(next, worker)
    ensures forall call :: CallOk(s, call) ==> CallOk(next, call)
  {
  }

  lemma CoreKept(s: State, step: Step)
    requires Core(s) && Enabled(s, step)
    ensures Core(Apply(s, step)) && Truthful(s, Apply(s, step))
  {
    var next := Apply(s, step);
    ConsistentKept(s, step);
    StepIsTruthful(s, step);
    KnowledgeKept(s, next);
    forall e | e in next.db.events ensures e in next.issued {
      EventsAreReal(s, step, e);
    }
    forall w | w in next.workers ensures WorkerOk(next, next.workers[w]) {
      WorkerOkBefore(s, step, w);
    }
    forall c | c in next.calls ensures CallOk(next, next.calls[c]) {
      CallOkBefore(s, step, c);
    }
  }

  predicate TruthfulAt(states: seq<State>, i: nat)
    requires i + 1 < |states|
  {
    Truthful(states[i], states[i + 1])
  }

  /** A sequence of states in which every state is sound and every step is truthful. */
  ghost predicate IsHistory(states: seq<State>) {
    && |states| > 0 && Initial(states[0])
    && (forall i :: 0 <= i < |states| ==> Core(states[i]))
    && (forall i :: 0 <= i < |states| - 1 ==> TruthfulAt(states, i))
  }

  lemma {:induction false} CoreHolds(states: seq<State>, steps: seq<Step>, i: nat)
    requires Run(states, steps) && i < |states|
    ensures Core(states[i])
  {
    if i > 0 {
      CoreHolds(states, steps, i - 1);
      assert StepAt(states, steps, i - 1);
      CoreKept(states[i - 1], steps[i - 1]);
    }
  }

  /** Every run is such a history. */
  lemma RunIsHistory(states: seq<State>, steps: seq<Step>)
    requires Run(states, steps)
    ensures IsHistory(states)
  {
    forall i | 0 <= i < |states| ensures Core(states[i]) {
      CoreHolds(states, steps, i);
    }
    forall i | 0 <= i < |states| - 1 ensures TruthfulAt(states, i) {
      CoreHolds(states, steps, i);
      assert StepAt(states, steps, i);
      CoreKept(states[i], steps[i]);
    }
  }
}
