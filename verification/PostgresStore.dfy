/** The Postgres backend's operations, statement by statement, on mutable tables. */
module PostgresStore {
  import opened Common
  import opened Schema
  import opened Queue
  import Circuit
  import Effects
  import Filter
  import Routing
  import Select
  import opened Validation

  class Store {
    var endpoints: map<EndpointId, Endpoint>
    var events: map<EventId, Event>
    var log: map<EventId, seq<Attempt>>

    function Contents(): Db
      reads this
    {
      Db(endpoints, events, log)
    }

    constructor ()
      ensures Contents() == EmptyDb
    {
      endpoints, events, log := map[], map[], map[];
    }

    method CreateEndpoint(id: EndpointId, config: NewEndpoint, accepts: string -> bool) returns (r: Result<Endpoint, StoreError>)
      requires id !in endpoints
      modifies this
      ensures r.Ok? <==> accepts(config.url) && FieldsOk(config)
      ensures r.Ok? ==> Contents() == Create(old(Contents()), id, config) && id in endpoints && r.value == endpoints[id]
      ensures r.Ok? ==> Effects.EndpointCreated(old(Contents()), Contents(), id, config)
      ensures r.Err? ==> Contents() == old(Contents())
    {
      var valid := Validate(config, accepts);
      if valid.Err? {
        return Err(InvalidConfig(valid.error));
      }
      endpoints := endpoints[id := Endpoint(
        true, GetOr(config.maxAttempts, 10), GetOr(config.initialDelayMs, 1000), config.filter, 0, None)];
      return Ok(endpoints[id]);
    }

    /** Only provided fields are changed. */
    method UpdateEndpoint(id: EndpointId, update: UpdateEndpoint, accepts: string -> bool)
      returns (r: Result<Endpoint, StoreError>)
      modifies this
      ensures Contents() == if UpdateOk(update, accepts) then Update(old(Contents()), id, update) else old(Contents())
      ensures r.Ok? <==> UpdateOk(update, accepts) && id in endpoints
      ensures r.Ok? ==> r.value == endpoints[id]
      ensures r.Err? ==> (r.error == NotFound <==> UpdateOk(update, accepts))
      ensures if r.Ok? then Effects.EndpointUpdated(old(Contents()), Contents(), id, update) else Contents() == old(Contents())
    {
      var valid := ValidateUpdate(update, accepts);
      if valid.Err? {
        return Err(InvalidConfig(valid.error));
      }
      if id !in endpoints {
        return Err(NotFound);
      }
      Effects.UpdateDoes(Contents(), id, update);
      endpoints := endpoints[id := Updated(endpoints[id], update)];
      return Ok(endpoints[id]);
    }

    /** Deletes the endpoint; the foreign keys delete its events and their log rows. */
    method DeleteEndpoint(id: EndpointId) returns (found: bool)
      modifies this
      ensures Contents() == Delete(old(Contents()), id)
      ensures found <==> id in old(endpoints)
      ensures Effects.EndpointDeleted(old(Contents()), Contents(), id)
    {
      Effects.DeleteDoes(Contents(), id);
      found := id in endpoints;
      if found {
        var cascade := EventsOf(Contents(), id);
        endpoints := endpoints - {id};
        events := events - cascade;
        log := log - cascade;
      }
    }

    /** Insert, or on a conflicting key return the row that is there. */
    method Enqueue(e: EventId, id: EndpointId, eventType: string, payload: string, key: Option<string>, now: int)
      returns (r: Result<EventId, StoreError>)
      requires e !in events
      modifies this
      ensures Contents() == Queue.Enqueue(old(Contents()), e, id, eventType, payload, key, now)
      ensures r.Ok? <==> id in endpoints
      ensures r.Ok? ==> r.value in events && events[r.value].endpointId == id && events[r.value].idempotencyKey == key
      ensures r.Ok? ==> (r.value == e <==> !Effects.KeyInUse(old(Contents()), id, key))
      ensures Effects.EventEnqueued(old(Contents()), Contents(), e, id, eventType, payload, key, now)
    {
      Effects.EnqueueDoes(Contents(), e, id, eventType, payload, key, now);
      if id !in endpoints {
        return Err(Rejected);
      }
      if Taken(Contents(), id, key) {
        var existing :| existing in events && events[existing].endpointId == id && events[existing].idempotencyKey == key;
        return Ok(existing);
      }
      events := events[e := NewEvent(id, eventType, payload, key, now)];
      log := log[e := []];
      return Ok(e);
    }

    /**
     * One statement: a row for every enabled endpoint whose filter matches, unless its
     * key conflicts. `targets` holds the ids the database draws for the rows.
     */
    method BroadcastEvent(targets: map<EventId, EndpointId>, eventType: string, payload: string, key: Option<string>, now: int)
      requires FreshFor(Contents(), targets, Targets(Circuit.Postgres, Contents(), eventType))
      modifies this
      ensures Contents() == Broadcast(old(Contents()), targets, eventType, payload, key, now)
      ensures Routing.Extends(old(Contents()), Contents())
      ensures forall p: EndpointId :: Routing.Reached(old(Contents()), Contents(), p,
        p in old(endpoints) && old(endpoints)[p].enabled && Filter.SqlMatches(eventType, old(endpoints)[p].filter)
        && !Effects.KeyInUse(old(Contents()), p, key), eventType, payload, key, now)
    {
      ghost var before := Contents();
      var inserted := Inserted(Contents(), targets, key);
      events := events + NewRows(targets, inserted, eventType, payload, key, now);
      log := log + EmptyLogs(inserted);
      Routing.BroadcastExtends(before, targets, eventType, payload, key, now);
      forall p: EndpointId ensures Routing.Reached(before, Contents(), p,
          p in before.endpoints && before.endpoints[p].enabled && Filter.SqlMatches(eventType, before.endpoints[p].filter)
          && !Effects.KeyInUse(before, p, key), eventType, payload, key, now)
      {
        Routing.BroadcastReachesEach(before, targets, Targets(Circuit.Postgres, before, eventType), eventType, payload, key, now, p);
      }
    }

    /**
     * Claims the earliest due events that nobody has locked, at most `limit` of them;
     * a negative limit is an error.
     */
    method ClaimDueEvents(limit: int, locked: set<EventId>, now: int) returns (r: Result<seq<EventId>, StoreError>)
      modifies this
      ensures r.Ok? <==> limit >= 0
      ensures r.Ok? ==>
        && Select.Distinct(r.value)
        && Earliest(old(Contents()), DueEvents(old(Contents()), now) - locked, limit, Select.Elements(r.value))
        && Contents() == Claim(old(Contents()), Select.Elements(r.value), now)
      ensures r.Ok? ==>
        && Effects.RightlyChosen(old(Contents()), Select.Elements(r.value), locked, limit, now)
        && Effects.OnlyClaimed(old(Contents()), Contents(), Select.Elements(r.value), now)
      ensures r.Err? ==> Contents() == old(Contents())
    {
      if limit < 0 {
        return Err(Rejected);
      }
      var claimed := Select.SelectEarliest(Contents(), DueEvents(Contents(), now) - locked, limit);
      events := map e | e in events :: if e in claimed then MarkClaimed(events[e], now) else events[e];
      assert Contents().events == Claim(old(Contents()), Select.Elements(claimed), now).events;
      Effects.EarliestIsRight(old(Contents()), Select.Elements(claimed), locked, limit, now);
      Effects.ClaimDoes(old(Contents()), Select.Elements(claimed), now);
      return Ok(claimed);
    }

    method RecoverStuckDeliveries(stuckAfterSecs: int, now: int) returns (count: nat)
      modifies this
      ensures Contents() == Recover(old(Contents()), Ago(now, stuckAfterSecs))
      ensures Effects.StuckReleased(old(Contents()), Contents(), now - stuckAfterSecs * 1_000_000)
      ensures count == |set e | e in old(events) && Stuck(old(events)[e], Ago(now, stuckAfterSecs))|
    {
      var cutoff := Ago(now, stuckAfterSecs);
      Effects.RecoverDoes(Contents(), cutoff);
      var stuck := set e | e in events && Stuck(events[e], cutoff);
      events := map e | e in events :: if e in stuck then Released(events[e]) else events[e];
      assert events == Recover(old(Contents()), cutoff).events;
      return |stuck|;
    }

    /** One transaction: log row, guarded update of the event, circuit reset if the update matched. */
    method RecordSuccess(e: EventId, response: int, body: Option<string>, now: int) returns (ok: bool)
      modifies this
      ensures ok <==> e in old(events)
      ensures Contents() == Queue.RecordSuccess(old(Contents()), e, SuccessRow(response, body, now))
      ensures if ok then Effects.SuccessWritten(old(Contents()), Contents(), e, response, body, now)
              else Contents() == old(Contents())
    {
      if e !in events {
        return false;
      }
      Effects.SuccessIsWritten(Contents(), e, response, body, now);
      log := log[e := (if e in log then log[e] else []) + [SuccessRow(response, body, now)]];
      if events[e].status == Delivering {
        var id := events[e].endpointId;
        events := events[e := events[e].(status := Delivered, attempts := events[e].attempts + 1, deliveringSince := None)];
        if id in endpoints {
          endpoints := endpoints[id := endpoints[id].(consecutiveFailures := 0, circuitOpenUntil := None)];
        }
      }
      return true;
    }

    /**
     * One transaction: log row, guarded update of the event by its stored attempt count,
     * failure counter and circuit of the endpoint.
     */
    method RecordFailure(e: EventId, failure: Failure, now: int, draw: nat) returns (ok: bool)
      modifies this
      ensures ok <==> Effects.FailureWritten(Circuit.Postgres, old(Contents()), e, failure.endpointId)
      ensures Contents() == Queue.RecordFailure(Circuit.Postgres, old(Contents()), e, failure, now, draw)
      ensures if ok then Effects.FailureRecorded(Circuit.Postgres, old(Contents()), Contents(), e, failure, now)
              else Contents() == old(Contents())
    {
      Effects.FailureCommitsMeans(Circuit.Postgres, Contents(), e, failure, now);
      if e !in events {
        return false;
      }
      var id := failure.endpointId;
      var counted := if id in endpoints then EndpointAfterFailure(Circuit.Postgres, endpoints[id], now) else None;
      if id in endpoints && counted.None? {
        return false;
      }
      log := log[e := (if e in log then log[e] else []) + [failure.row]];
      var closed := FailEvent(events[e], failure, now, draw);
      events := events[e := closed];
      if id in endpoints {
        endpoints := endpoints[id := counted.value];
      }
      Effects.RecordFailureDoes(Circuit.Postgres, old(Contents()), e, failure, now, draw);
      return true;
    }

    method ResetToPending(e: EventId, now: int)
      modifies this
      ensures Contents() == Queue.ResetToPending(old(Contents()), e, now)
      ensures Effects.HandedBack(old(Contents()), Contents(), e, now)
    {
      Effects.ResetToPendingDoes(Contents(), e, now);
      if e in events && events[e].status == Delivering {
        events := events[e := events[e].(status := Pending, deliveringSince := None, scheduledAt := now)];
      }
    }

    /** If the log row violates its foreign key, the transaction is rolled back. */
    method RecordEndpointDeleted(e: EventId, now: int)
      modifies this
      ensures Contents() == Queue.RecordEndpointDeleted(old(Contents()), e, Attempt(false, now, None, None))
      ensures if e in old(events) then Effects.ClosedAsMissing(old(Contents()), Contents(), e, Attempt(false, now, None, None))
              else Contents() == old(Contents())
    {
      Effects.RecordEndpointDeletedDoes(Contents(), e, Attempt(false, now, None, None));
      if e in events {
        log := log[e := (if e in log then log[e] else []) + [Attempt(false, now, None, None)]];
        if events[e].status == Delivering {
          events := events[e := events[e].(status := Dead, deliveringSince := None)];
        }
      }
    }

    /** The transaction of a retry: the guarded update and, only if it matched, the circuit of the given endpoint. */
    method RequeueDead(e: EventId, id: Option<EndpointId>, now: int) returns (rows: nat)
      modifies this
      ensures rows == if e in old(events) && old(events)[e].status == Dead then 1 else 0
      ensures Contents() == RetryDead(old(Contents()), e, id, now)
      ensures rows == 1 && id.Some? ==> Effects.DeadRetried(old(Contents()), Contents(), e, id.value, now)
      ensures rows == 0 ==> Contents() == old(Contents())
    {
      if id.Some? {
        Effects.RetryDeadDoes(Contents(), e, id.value, now);
      }
      if e !in events || events[e].status != Dead {
        return 0;
      }
      events := events[e := events[e].(status := Pending, attempts := 0, scheduledAt := now, deliveringSince := None)];
      if id.Some? && id.value in endpoints {
        endpoints := endpoints[id.value := endpoints[id.value].(consecutiveFailures := 0, circuitOpenUntil := None)];
      }
      return 1;
    }

    /** The three accesses of a retry without anything in between. */
    method RetryDeadEvent(e: EventId, now: int) returns (r: Result<(), StoreError>)
      modifies this
      ensures r == (if e !in old(events) then Err(NotFound)
                    else if old(events)[e].status != Dead then Err(InvalidState) else Ok(()))
      ensures Contents() == RetryDead(old(Contents()), e,
        if e in old(events) then Some(old(events)[e].endpointId) else None, now)
      ensures if r.Ok? then Effects.DeadRetried(old(Contents()), Contents(), e, old(events)[e].endpointId, now)
              else Contents() == old(Contents())
    {
      if e !in events {
        return Err(NotFound);
      }
      if events[e].status != Dead {
        return Err(InvalidState);
      }
      Effects.RetryDeadDoes(Contents(), e, events[e].endpointId, now);
      var _ := RequeueDead(e, Some(events[e].endpointId), now);
      return Ok(());
    }

    method RetryAllDead(id: EndpointId, now: int) returns (count: nat)
      modifies this
      ensures Contents() == Queue.RetryAllDead(old(Contents()), id, now)
      ensures Effects.AllDeadRetried(old(Contents()), Contents(), id, now)
      ensures count == |DeadOf(old(Contents()), id)|
    {
      Effects.RetryAllDeadDoes(Contents(), id, now);
      var dead := DeadOf(Contents(), id);
      events := map e | e in events :: if e in dead then MarkRequeued(events[e], now) else events[e];
      assert events == Queue.RetryAllDead(old(Contents()), id, now).events;
      if id in endpoints {
        endpoints := endpoints[id := endpoints[id].(consecutiveFailures := 0, circuitOpenUntil := None)];
      }
      return |dead|;
    }

    method CleanupEvents(status: Status, olderThanSecs: int, now: int) returns (count: nat)
      modifies this
      ensures Contents() == Cleanup(old(Contents()), status, Ago(now, olderThanSecs))
      ensures Effects.CleanedUp(old(Contents()), Contents(), status, now, olderThanSecs)
      ensures count == |old(events)| - |events|
    {
      Effects.CleanupDoes(Contents(), status, now, olderThanSecs);
      var expired := Expired(Contents(), status, Ago(now, olderThanSecs));
      Effects.WithoutDoes(Contents(), expired);
      events := events - expired;
      log := log - expired;
      return |expired|;
    }
  }
}
