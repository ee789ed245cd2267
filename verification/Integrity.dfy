/** Every storage operation of either backend keeps the tables consistent. */
module Integrity {
  import opened Common
  import opened Schema
  import opened Queue
  import Circuit
  import Retry

  /** What validation accepts; the invariants of an endpoint row rest on it. */
  predicate LimitsOk(maxAttempts: Option<i32>, initialDelayMs: Option<i32>) {
    && (maxAttempts.Some? ==> maxAttempts.value >= 1)
    && (initialDelayMs.Some? ==> initialDelayMs.value >= 1)
  }

  /** Adding or replacing a well-formed endpoint row. */
  lemma SetEndpointKeeps(db: Db, id: EndpointId, ep: Endpoint)
    requires Consistent(db) && EndpointOk(ep)
    ensures Consistent(db.(endpoints := db.endpoints[id := ep]))
  {
    var next := db.(endpoints := db.endpoints[id := ep]);
    assert forall e :: e in next.events ==> EventOk(db, e) && EventOk(next, e);
  }

  lemma CreateKeeps(db: Db, id: EndpointId, config: NewEndpoint)
    requires Consistent(db) && LimitsOk(config.maxAttempts, config.initialDelayMs)
    ensures Consistent(Create(db, id, config))
  {
    SetEndpointKeeps(db, id, Create(db, id, config).endpoints[id]);
  }

  lemma UpdateKeeps(db: Db, id: EndpointId, update: UpdateEndpoint)
    requires Consistent(db) && LimitsOk(update.maxAttempts, update.initialDelayMs)
    ensures Consistent(Update(db, id, update))
  {
    if id in db.endpoints {
      SetEndpointKeeps(db, id, Updated(db.endpoints[id], update));
    }
  }

  /** Removing events with their log rows breaks nothing. */
  lemma WithoutKeeps(db: Db, gone: set<EventId>)
    requires Consistent(db)
    ensures Consistent(Without(db, gone))
  {
    var next := Without(db, gone);
    assert forall e :: e in next.events ==> EventOk(db, e) && EventOk(next, e);
  }

  lemma DeleteKeeps(db: Db, id: EndpointId)
    requires Consistent(db)
    ensures Consistent(Delete(db, id))
  {
    var next := Delete(db, id);
    forall e | e in next.events ensures EventOk(next, e) {
      assert EventOk(db, e) && e !in EventsOf(db, id);
    }
  }

  lemma ResetCircuitKeeps(db: Db, id: EndpointId)
    requires Consistent(db)
    ensures Consistent(ResetCircuit(db, id))
  {
    if id in db.endpoints {
      SetEndpointKeeps(db, id, db.endpoints[id].(consecutiveFailures := 0, circuitOpenUntil := None));
    }
  }

  lemma EnqueueKeeps(db: Db, e: EventId, id: EndpointId, eventType: string, payload: string, key: Option<string>, now: int)
    requires Consistent(db) && e !in db.events
    ensures Consistent(Enqueue(db, e, id, eventType, payload, key, now))
  {
    var next := Enqueue(db, e, id, eventType, payload, key, now);
    forall f | f in next.events ensures EventOk(next, f) {
      if f in db.events {
        assert EventOk(db, f);
      }
    }
  }

  lemma BroadcastKeeps(backend: Circuit.Backend, db: Db, targets: map<EventId, EndpointId>, eventType: string,
      payload: string, key: Option<string>, now: int)
    requires Consistent(db) && FreshFor(db, targets, Targets(backend, db, eventType))
    ensures Consistent(Broadcast(db, targets, eventType, payload, key, now))
  {
    var next := Broadcast(db, targets, eventType, payload, key, now);
    forall f | f in next.events ensures EventOk(next, f) {
      if f in db.events {
        assert EventOk(db, f);
      } else {
        assert targets[f] in targets.Values;
      }
    }
  }

  lemma ClaimKeeps(db: Db, chosen: set<EventId>, now: int)
    requires Consistent(db) && chosen <= DueEvents(db, now)
    ensures Consistent(Claim(db, chosen, now))
  {
    var next := Claim(db, chosen, now);
    forall e | e in next.events ensures EventOk(next, e) {
      assert EventOk(db, e);
    }
  }

  lemma RecoverKeeps(db: Db, cutoff: int)
    requires Consistent(db)
    ensures Consistent(Recover(db, cutoff))
  {
    var next := Recover(db, cutoff);
    forall e | e in next.events ensures EventOk(next, e) {
      assert EventOk(db, e);
    }
  }

  lemma ResetToPendingKeeps(db: Db, e: EventId, now: int)
    requires Consistent(db)
    ensures Consistent(ResetToPending(db, e, now))
  {
    var next := ResetToPending(db, e, now);
    assert forall f :: f in next.events ==> EventOk(db, f) && EventOk(next, f);
  }

  /** A log row for an existing event, together with any acceptable new version of it. */
  lemma CloseKeeps(db: Db, e: EventId, row: Attempt, ev: Event)
    requires Consistent(db) && e in db.events
    requires ev.endpointId == db.events[e].endpointId && ev.idempotencyKey == db.events[e].idempotencyKey
    requires ev.status == Delivering <==> ev.deliveringSince.Some?
    requires 0 <= ev.attempts <= db.events[e].attempts + 1
    requires if ev.status == Delivered || ev.status == Dead then ev.attempts <= I32_MAX else ev.attempts < I32_MAX
    requires ev.status == Delivered ==>
      ev.attempts >= 1 && (row.success || db.events[e].status == Delivered)
    ensures Consistent(SetEvent(Append(db, e, row), e, ev))
  {
    var next := SetEvent(Append(db, e, row), e, ev);
    forall f | f in next.events ensures EventOk(next, f) {
      assert EventOk(db, f);
      if f == e && ev.status == Delivered {
        var rows := db.log[e];
        if row.success {
          assert next.log[e][|rows|].success;
        } else {
          var i :| 0 <= i < |rows| && rows[i].success;
          assert next.log[e][i].success;
        }
      }
    }
  }

  lemma AppendKeeps(db: Db, e: EventId, row: Attempt)
    requires Consistent(db) && e in db.events
    ensures Consistent(Append(db, e, row))
  {
    assert EventOk(db, e);
    CloseKeeps(db, e, row, db.events[e]);
    assert SetEvent(Append(db, e, row), e, db.events[e]) == Append(db, e, row);
  }

  lemma RecordSuccessKeeps(db: Db, e: EventId, row: Attempt)
    requires Consistent(db) && row.success
    ensures Consistent(RecordSuccess(db, e, row))
  {
    if e in db.events {
      if db.events[e].status == Delivering {
        assert EventOk(db, e);
        CloseKeeps(db, e, row, MarkDelivered(db.events[e]));
        ResetCircuitKeeps(SetEvent(Append(db, e, row), e, MarkDelivered(db.events[e])), db.events[e].endpointId);
      } else {
        AppendKeeps(db, e, row);
      }
    }
  }

  lemma EventAfterFailureShape(ev: Event, maxAttempts: i32, initialDelayMs: i32, now: int, draw: nat)
    ensures var next := EventAfterFailure(ev, maxAttempts, initialDelayMs, now, draw);
      && (ev.status != Delivering ==> next == ev)
      && (ev.status == Delivering ==>
          next.status == (if ev.attempts + 1 >= maxAttempts then Dead else Failed)
          && next == ev.(status := next.status, attempts := ev.attempts + 1, scheduledAt := next.scheduledAt, deliveringSince := None))
  {
  }

  lemma RecordFailureKeeps(backend: Circuit.Backend, db: Db, e: EventId, failure: Failure, now: int, draw: nat)
    requires Consistent(db)
    ensures Consistent(RecordFailure(backend, db, e, failure, now, draw))
  {
    if FailureCommits(backend, db, e, failure, now) {
      var ev := EventAfterFailure(db.events[e], failure.maxAttempts, failure.initialDelayMs, now, draw);
      EventAfterFailureShape(db.events[e], failure.maxAttempts, failure.initialDelayMs, now, draw);
      assert EventOk(db, e);
      CloseKeeps(db, e, failure.row, ev);
      if failure.endpointId in db.endpoints {
        SetEndpointKeeps(SetEvent(Append(db, e, failure.row), e, ev), failure.endpointId,
          EndpointAfterFailure(backend, db.endpoints[failure.endpointId], now).value);
      }
    }
  }

  lemma RecordEndpointDeletedKeeps(db: Db, e: EventId, row: Attempt)
    requires Consistent(db)
    ensures Consistent(RecordEndpointDeleted(db, e, row))
  {
    if e in db.events {
      assert EventOk(db, e);
      AppendKeeps(db, e, row);
      CloseKeeps(db, e, row, db.events[e].(status := Dead, deliveringSince := None));
    }
  }

  lemma RequeueAllKeeps(db: Db, ids: set<EventId>, now: int)
    requires Consistent(db)
    ensures Consistent(RequeueAll(db, ids, now))
  {
    var next := RequeueAll(db, ids, now);
    forall e | e in next.events ensures EventOk(next, e) {
      assert EventOk(db, e);
    }
  }

  lemma RetryDeadKeeps(db: Db, e: EventId, id: Option<EndpointId>, now: int)
    requires Consistent(db)
    ensures Consistent(RetryDead(db, e, id, now))
  {
    if e in db.events && db.events[e].status == Dead {
      var requeued := SetEvent(db, e, MarkRequeued(db.events[e], now));
      assert requeued.events == RequeueAll(db, {e}, now).events;
      RequeueAllKeeps(db, {e}, now);
      if id.Some? {
        ResetCircuitKeeps(requeued, id.value);
      }
    }
  }

  lemma RetryAllDeadKeeps(db: Db, id: EndpointId, now: int)
    requires Consistent(db)
    ensures Consistent(RetryAllDead(db, id, now))
  {
    RequeueAllKeeps(db, DeadOf(db, id), now);
    ResetCircuitKeeps(RequeueAll(db, DeadOf(db, id), now), id);
  }

  // ---- When a failed event is retried ----

  lemma DelayWithinHour(attempt: u32, initialDelayMs: u32, draw: nat)
    ensures Min(initialDelayMs, RETRY_CAP_MS)
         <= Retry.NextDelay(attempt, initialDelayMs, RETRY_CAP_MS, draw) <= RETRY_CAP_MS
  {
    Retry.DelayRange(attempt, initialDelayMs, RETRY_CAP_MS, Retry.NextDelay(attempt, initialDelayMs, RETRY_CAP_MS, draw));
  }

  /** Between min(initial delay, one hour) and one hour after the failure. */
  lemma RetriedRow(ev: Event, maxAttempts: i32, initialDelayMs: i32, now: int, draw: nat)
    requires ev.status == Delivering && 0 <= ev.attempts < I32_MAX && ev.attempts + 1 < maxAttempts && initialDelayMs >= 1
    ensures var at := EventAfterFailure(ev, maxAttempts, initialDelayMs, now, draw).scheduledAt;
      now < now + Min(initialDelayMs, RETRY_CAP_MS) * MILLISECOND <= at <= now + RETRY_CAP_MS * MILLISECOND
  {
    AsU32Exact(initialDelayMs);
    DelayWithinHour(AsU32(ev.attempts + 1), initialDelayMs, draw);
    var delay := Retry.NextDelay(AsU32(ev.attempts + 1), AsU32(initialDelayMs), RETRY_CAP_MS, draw);
    assert EventAfterFailure(ev, maxAttempts, initialDelayMs, now, draw).scheduledAt == now + delay * MILLISECOND;
  }
}
