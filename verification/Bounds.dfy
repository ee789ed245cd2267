/**
 * Status and attempt count of every event fit the attempt limit of its endpoint, and
 * every storage operation of either backend keeps it so, as long as it leaves limits alone.
 */
module Bounds {
  import opened Common
  import opened Schema
  import opened Queue
  import Circuit
  import Integrity

  /** Status and attempt count of an event fit an attempt limit. */
  predicate WithinLimit(ev: Event, maxAttempts: int) {
    match ev.status
    case Pending => 0 <= ev.attempts < maxAttempts
    case Failed => 0 <= ev.attempts < maxAttempts
    case Delivering => 0 <= ev.attempts < maxAttempts
    case Dead => ev.attempts == maxAttempts
    case Delivered => 1 <= ev.attempts <= maxAttempts
  }

  predicate BoundedAt(db: Db, e: EventId)
    requires e in db.events
  {
    db.events[e].endpointId in db.endpoints ==>
      WithinLimit(db.events[e], db.endpoints[db.events[e].endpointId].maxAttempts)
  }

  predicate Bounded(db: Db) {
    forall e :: e in db.events ==> BoundedAt(db, e)
  }

  /** Endpoints that stay keep their attempt limit. */
  predicate LimitsStay(before: Db, after: Db) {
    forall p :: p in before.endpoints && p in after.endpoints ==>
      after.endpoints[p].maxAttempts == before.endpoints[p].maxAttempts
  }

  // ---- Endpoints ----

  lemma SetEndpointKeeps(db: Db, id: EndpointId, ep: Endpoint)
    requires Bounded(db) && id in db.endpoints && ep.maxAttempts == db.endpoints[id].maxAttempts
    ensures Bounded(db.(endpoints := db.endpoints[id := ep]))
  {
    var next := db.(endpoints := db.endpoints[id := ep]);
    forall e | e in next.events ensures BoundedAt(next, e) {
      assert BoundedAt(db, e);
    }
  }

  lemma CreateKeeps(db: Db, id: EndpointId, config: NewEndpoint)
    requires Consistent(db) && Bounded(db) && id !in db.endpoints
    ensures Bounded(Create(db, id, config))
  {
    var next := Create(db, id, config);
    forall e | e in next.events ensures BoundedAt(next, e) {
      assert EventOk(db, e) && BoundedAt(db, e);
    }
  }

  lemma UpdateKeeps(db: Db, id: EndpointId, update: UpdateEndpoint)
    requires Bounded(db)
    requires id in db.endpoints && update.maxAttempts.Some? ==> update.maxAttempts.value == db.endpoints[id].maxAttempts
    ensures Bounded(Update(db, id, update))
  {
    if id in db.endpoints {
      SetEndpointKeeps(db, id, Updated(db.endpoints[id], update));
    }
  }

  lemma ResetCircuitKeeps(db: Db, id: EndpointId)
    requires Bounded(db)
    ensures Bounded(ResetCircuit(db, id))
  {
    if id in db.endpoints {
      SetEndpointKeeps(db, id, db.endpoints[id].(consecutiveFailures := 0, circuitOpenUntil := None));
    }
  }

  lemma WithoutKeeps(db: Db, gone: set<EventId>)
    requires Bounded(db)
    ensures Bounded(Without(db, gone))
  {
    var next := Without(db, gone);
    forall e | e in next.events ensures BoundedAt(next, e) {
      assert BoundedAt(db, e);
    }
  }

  lemma DeleteKeeps(db: Db, id: EndpointId)
    requires Bounded(db)
    ensures Bounded(Delete(db, id))
  {
    var next := Delete(db, id);
    forall e | e in next.events ensures BoundedAt(next, e) {
      assert BoundedAt(db, e);
    }
  }

  // ---- New events ----

  lemma EnqueueKeeps(db: Db, e: EventId, id: EndpointId, eventType: string, payload: string, key: Option<string>, now: int)
    requires Consistent(db) && Bounded(db)
    ensures Bounded(Enqueue(db, e, id, eventType, payload, key, now))
  {
    var next := Enqueue(db, e, id, eventType, payload, key, now);
    forall f | f in next.events ensures BoundedAt(next, f) {
      if f in db.events {
        assert BoundedAt(db, f);
      }
    }
  }

  lemma BroadcastKeeps(db: Db, targets: map<EventId, EndpointId>, eventType: string, payload: string, key: Option<string>, now: int)
    requires Consistent(db) && Bounded(db)
    ensures Bounded(Broadcast(db, targets, eventType, payload, key, now))
  {
    var next := Broadcast(db, targets, eventType, payload, key, now);
    forall f | f in next.events ensures BoundedAt(next, f) {
      if f in db.events {
        assert BoundedAt(db, f);
      }
    }
  }

  // ---- Claims and releases ----

  lemma ClaimKeeps(db: Db, chosen: set<EventId>, now: int)
    requires Bounded(db) && chosen <= DueEvents(db, now)
    ensures Bounded(Claim(db, chosen, now))
  {
    var next := Claim(db, chosen, now);
    forall e | e in next.events ensures BoundedAt(next, e) {
      assert BoundedAt(db, e);
    }
  }

  lemma RecoverKeeps(db: Db, cutoff: int)
    requires Bounded(db)
    ensures Bounded(Recover(db, cutoff))
  {
    var next := Recover(db, cutoff);
    forall e | e in next.events ensures BoundedAt(next, e) {
      assert BoundedAt(db, e);
    }
  }

  lemma RequeueAllKeeps(db: Db, ids: set<EventId>, now: int)
    requires Consistent(db) && Bounded(db)
    ensures Bounded(RequeueAll(db, ids, now))
  {
    var next := RequeueAll(db, ids, now);
    forall e | e in next.events ensures BoundedAt(next, e) {
      assert EventOk(db, e) && BoundedAt(db, e);
    }
  }

  /** One event replaced by a version that fits its limit; the log plays no part. */
  lemma SetEventKeeps(db: Db, e: EventId, ev: Event, log: map<EventId, seq<Attempt>>)
    requires Bounded(db) && e in db.events && ev.endpointId == db.events[e].endpointId
    requires ev.endpointId in db.endpoints ==> WithinLimit(ev, db.endpoints[ev.endpointId].maxAttempts)
    ensures Bounded(SetEvent(db.(log := log), e, ev))
  {
    var next := SetEvent(db.(log := log), e, ev);
    forall f | f in next.events ensures BoundedAt(next, f) {
      assert BoundedAt(db, f);
    }
  }

  lemma LogKeeps(db: Db, log: map<EventId, seq<Attempt>>)
    requires Bounded(db)
    ensures Bounded(db.(log := log))
  {
    forall e | e in db.events ensures BoundedAt(db.(log := log), e) {
      assert BoundedAt(db, e);
    }
  }

  lemma ResetToPendingKeeps(db: Db, e: EventId, now: int)
    requires Bounded(db)
    ensures Bounded(ResetToPending(db, e, now))
  {
    if IsDelivering(db, e) {
      assert BoundedAt(db, e);
      SetEventKeeps(db, e, Released(db.events[e]).(scheduledAt := now), db.log);
    }
  }

  // ---- Results ----

  lemma RecordSuccessKeeps(db: Db, e: EventId, row: Attempt)
    requires Bounded(db)
    ensures Bounded(RecordSuccess(db, e, row))
  {
    if e in db.events {
      var log := Append(db, e, row).log;
      if db.events[e].status == Delivering {
        assert BoundedAt(db, e);
        SetEventKeeps(db, e, MarkDelivered(db.events[e]), log);
        ResetCircuitKeeps(SetEvent(Append(db, e, row), e, MarkDelivered(db.events[e])), db.events[e].endpointId);
      } else {
        LogKeeps(db, log);
      }
    }
  }

  /** The limit the worker passes is that of the event's endpoint, if the event is delivering. */
  predicate LimitPassed(db: Db, e: EventId, failure: Failure) {
    IsDelivering(db, e) && db.events[e].endpointId in db.endpoints ==>
      failure.maxAttempts == db.endpoints[db.events[e].endpointId].maxAttempts
  }

  lemma RecordFailureKeeps(backend: Circuit.Backend, db: Db, e: EventId, failure: Failure, now: int, draw: nat)
    requires Bounded(db) && LimitPassed(db, e, failure)
    ensures Bounded(RecordFailure(backend, db, e, failure, now, draw))
  {
    if FailureCommits(backend, db, e, failure, now) {
      var ev := EventAfterFailure(db.events[e], failure.maxAttempts, failure.initialDelayMs, now, draw);
      Integrity.EventAfterFailureShape(db.events[e], failure.maxAttempts, failure.initialDelayMs, now, draw);
      assert BoundedAt(db, e);
      SetEventKeeps(db, e, ev, Append(db, e, failure.row).log);
      if failure.endpointId in db.endpoints {
        SetEndpointKeeps(SetEvent(Append(db, e, failure.row), e, ev), failure.endpointId,
          EndpointAfterFailure(backend, db.endpoints[failure.endpointId], now).value);
      }
    }
  }

  /** The endpoint-missing path keeps the bounds because it never meets a delivering event. */
  lemma RecordEndpointDeletedKeeps(db: Db, e: EventId, row: Attempt)
    requires Bounded(db) && !IsDelivering(db, e)
    ensures Bounded(RecordEndpointDeleted(db, e, row))
  {
    if e in db.events {
      LogKeeps(db, Append(db, e, row).log);
    }
  }

  // ---- Dead letters ----

  lemma RetryDeadKeeps(db: Db, e: EventId, id: Option<EndpointId>, now: int)
    requires Consistent(db) && Bounded(db)
    ensures Bounded(RetryDead(db, e, id, now))
  {
    if e in db.events && db.events[e].status == Dead {
      assert EventOk(db, e);
      SetEventKeeps(db, e, MarkRequeued(db.events[e], now), db.log);
      if id.Some? {
        ResetCircuitKeeps(SetEvent(db, e, MarkRequeued(db.events[e], now)), id.value);
      }
    }
  }

  lemma RetryAllDeadKeeps(db: Db, id: EndpointId, now: int)
    requires Consistent(db) && Bounded(db)
    ensures Bounded(RetryAllDead(db, id, now))
  {
    RequeueAllKeeps(db, DeadOf(db, id), now);
    ResetCircuitKeeps(RequeueAll(db, DeadOf(db, id), now), id);
  }
}
