/**
 * The SQLite backend: the same operations as sequences of statements on one
 * connection. Nothing runs between the statements of one call.
 */
module SqliteStore {
  import opened Common
  import opened Schema
  import opened Queue
  import Circuit
  import Effects
  import Filter
  import Routing
  import Select
  import opened Validation

  // ---- Updating an endpoint ----

  /** The update as it reaches the store: the filter is not passed on. */
  function Forwarded(update: UpdateEndpoint): UpdateEndpoint {
    update.(filter := None)
  }

  /**
   * An update has the same effect on both backends exactly if it leaves the filter out
   * or sets the one that is there: the SQLite engine drops the filter of an update.
   */
  lemma UpdatesAgreeExactly(db: Db, id: EndpointId, update: UpdateEndpoint)
    ensures Update(db, id, Forwarded(update)) == Update(db, id, update)
       <==> (id in db.endpoints && update.filter.Some? ==> update.filter.value == db.endpoints[id].filter)
  {
    if id in db.endpoints {
      assert Update(db, id, update).endpoints[id].filter == GetOr(update.filter, db.endpoints[id].filter);
      assert Update(db, id, Forwarded(update)).endpoints[id].filter == db.endpoints[id].filter;
    }
  }

  // ---- Fan-out, one endpoint at a time ----

  lemma TakenElsewhere(db: Db, targets: map<EventId, EndpointId>, eventType: string, payload: string, key: Option<string>,
      now: int, id: EndpointId)
    requires targets.Keys !! db.events.Keys && id !in targets.Values
    ensures Taken(Broadcast(db, targets, eventType, payload, key, now), id, key) <==> Taken(db, id, key)
  {
    var next := Broadcast(db, targets, eventType, payload, key, now);
    if Taken(db, id, key) {
      var e :| e in db.events && db.events[e].endpointId == id && db.events[e].idempotencyKey == key;
      assert next.events[e] == db.events[e];
    }
    assert forall e :: e in targets ==> targets[e] != id;
  }

  lemma InsertedGrows(db: Db, targets: map<EventId, EndpointId>, e: EventId, id: EndpointId, key: Option<string>)
    requires e !in targets
    ensures Inserted(db, targets[e := id], key) == Inserted(db, targets, key) + (if Taken(db, id, key) then {} else {e})
  {
  }

  lemma NewRowsGrow(targets: map<EventId, EndpointId>, inserted: set<EventId>, e: EventId, id: EndpointId,
      eventType: string, payload: string, key: Option<string>, now: int)
    requires inserted <= targets.Keys && e !in targets
    ensures NewRows(targets[e := id], inserted, eventType, payload, key, now)
         == NewRows(targets, inserted, eventType, payload, key, now)
    ensures NewRows(targets[e := id], inserted + {e}, eventType, payload, key, now)
         == NewRows(targets, inserted, eventType, payload, key, now)[e := NewEvent(id, eventType, payload, key, now)]
  {
  }

  lemma UpdateSum<T>(m: map<EventId, T>, n: map<EventId, T>, e: EventId, v: T)
    ensures m + n[e := v] == (m + n)[e := v]
  {
  }

  lemma EmptyLogsGrow(inserted: set<EventId>, e: EventId)
    ensures EmptyLogs(inserted + {e}) == EmptyLogs(inserted)[e := []]
  {
  }

  /** Enqueueing for one more endpoint extends the fan-out by that endpoint. */
  lemma BroadcastGrows(db: Db, targets: map<EventId, EndpointId>, e: EventId, id: EndpointId, eventType: string,
      payload: string, key: Option<string>, now: int)
    requires targets.Keys !! db.events.Keys && id !in targets.Values && e !in targets
    requires id in db.endpoints
    ensures Queue.Enqueue(Broadcast(db, targets, eventType, payload, key, now), e, id, eventType, payload, key, now)
         == Broadcast(db, targets[e := id], eventType, payload, key, now)
  {
    TakenElsewhere(db, targets, eventType, payload, key, now, id);
    InsertedGrows(db, targets, e, id, key);
    var inserted := Inserted(db, targets, key);
    NewRowsGrow(targets, inserted, e, id, eventType, payload, key, now);
    EmptyLogsGrow(inserted, e);
    UpdateSum(db.events, NewRows(targets, inserted, eventType, payload, key, now), e, NewEvent(id, eventType, payload, key, now));
    UpdateSum(db.log, EmptyLogs(inserted), e, []);
    assert inserted + {} == inserted;
  }

  /** What is known of the fan-out once the endpoints `ids` have been visited. */
  predicate Visited(db: Db, eventType: string, ids: seq<EndpointId>, uuids: seq<EventId>, targets: map<EventId, EndpointId>) {
    && (forall e :: e in targets ==> e in uuids && targets[e] in ids)
    && (forall e, f :: e in targets && f in targets && e != f ==> targets[e] != targets[f])
    && (forall p :: p in ids && p in Targets(Circuit.Sqlite, db, eventType) ==> p in targets.Values)
    && targets.Values <= Targets(Circuit.Sqlite, db, eventType)
  }

  lemma VisitNext(db: Db, eventType: string, ids: seq<EndpointId>, uuids: seq<EventId>, i: nat,
      targets: map<EventId, EndpointId>, longer: map<EventId, EndpointId>)
    requires i < |ids| && i < |uuids| && Visited(db, eventType, ids[..i], uuids[..i], targets)
    requires ids[i] !in ids[..i] && uuids[i] !in uuids[..i]
    requires longer == if ids[i] in Targets(Circuit.Sqlite, db, eventType) then targets[uuids[i] := ids[i]] else targets
    ensures ids[i] !in targets.Values && uuids[i] !in targets
    ensures Visited(db, eventType, ids[..i + 1], uuids[..i + 1], longer)
  {
    assert ids[..i + 1] == ids[..i] + [ids[i]] && uuids[..i + 1] == uuids[..i] + [uuids[i]];
    if ids[i] in Targets(Circuit.Sqlite, db, eventType) {
      assert longer[uuids[i]] == ids[i];
      assert forall e :: e in targets ==> longer[e] == targets[e];
    }
  }

  /** Marking one more event extends the claim by it. */
  lemma MarkNext(db: Db, ids: seq<EventId>, i: nat, now: int)
    requires i < |ids| && Select.Elements(ids) <= db.events.Keys
    ensures var marked := Claim(db, Select.Elements(ids[..i]), now);
      && ids[i] in marked.events
      && SetEvent(marked, ids[i], MarkClaimed(marked.events[ids[i]], now)) == Claim(db, Select.Elements(ids[..i + 1]), now)
  {
    assert ids[i] in Select.Elements(ids);
    assert Select.Elements(ids[..i + 1]) == Select.Elements(ids[..i]) + {ids[i]};
    var marked := Claim(db, Select.Elements(ids[..i]), now);
    assert SetEvent(marked, ids[i], MarkClaimed(marked.events[ids[i]], now)).events
        == Claim(db, Select.Elements(ids[..i + 1]), now).events;
  }

  /** A negative limit is no limit. */
  lemma ClaimIsRight(db: Db, chosen: set<EventId>, limit: int, count: nat, now: int)
    requires count == |chosen|
    requires Earliest(db, DueEvents(db, now), if limit < 0 then |DueEvents(db, now)| else limit, chosen)
    ensures Effects.RightlyChosen(db, chosen, {}, if limit < 0 then count + 1 else limit, now)
    ensures Effects.OnlyClaimed(db, Claim(db, chosen, now), chosen, now)
  {
    if limit < 0 {
      Effects.AllAreChosen(db, chosen, now);
    } else {
      assert DueEvents(db, now) - {} == DueEvents(db, now);
      Effects.EarliestIsRight(db, chosen, {}, limit, now);
    }
    Effects.ClaimDoes(db, chosen, now);
  }

  /** A fan-out of one event to every endpoint that wants it. */
  datatype FanOut = FanOut(before: Db, eventType: string, payload: string, key: Option<string>, now: int)

  /** Distinct endpoints to visit, and a fresh id for each. */
  predicate Plan(fan: FanOut, ids: seq<EndpointId>, uuids: seq<EventId>) {
    && |ids| <= |uuids| && Select.Distinct(ids) && Select.Distinct(uuids)
    && Select.Elements(ids) == fan.before.endpoints.Keys
    && Select.Elements(uuids) !! fan.before.events.Keys
  }

  lemma PlanFits(fan: FanOut, ids: seq<EndpointId>, uuids: seq<EventId>)
    requires Select.Distinct(ids) && Select.Elements(ids) == fan.before.endpoints.Keys
    requires |uuids| >= |fan.before.endpoints| && Select.Distinct(uuids)
    requires Select.Elements(uuids) !! fan.before.events.Keys
    ensures Plan(fan, ids, uuids)
  {
    Select.DistinctSize(ids);
  }

  lemma PlanAt(fan: FanOut, ids: seq<EndpointId>, uuids: seq<EventId>, i: nat)
    requires Plan(fan, ids, uuids) && i < |ids|
    ensures ids[i] in fan.before.endpoints && ids[i] !in ids[..i]
    ensures uuids[i] !in uuids[..i] && uuids[i] !in fan.before.events
  {
    assert ids[i] in Select.Elements(ids) && uuids[i] in Select.Elements(uuids);
  }

  /** The fan-out, sent as far as the endpoints `ids`. */
  predicate Sent(fan: FanOut, current: Db, ids: seq<EndpointId>, uuids: seq<EventId>, targets: map<EventId, EndpointId>) {
    && Visited(fan.before, fan.eventType, ids, uuids, targets)
    && current == Broadcast(fan.before, targets, fan.eventType, fan.payload, fan.key, fan.now)
  }

  lemma SendNext(fan: FanOut, current: Db, ids: seq<EndpointId>, uuids: seq<EventId>, i: nat, targets: map<EventId, EndpointId>)
    requires Plan(fan, ids, uuids) && i < |ids| && Sent(fan, current, ids[..i], uuids[..i], targets)
    ensures current.endpoints == fan.before.endpoints && uuids[i] !in current.events
    ensures if ids[i] in Targets(Circuit.Sqlite, fan.before, fan.eventType)
      then Sent(fan, Queue.Enqueue(current, uuids[i], ids[i], fan.eventType, fan.payload, fan.key, fan.now),
             ids[..i + 1], uuids[..i + 1], targets[uuids[i] := ids[i]])
      else Sent(fan, current, ids[..i + 1], uuids[..i + 1], targets)
  {
    PlanAt(fan, ids, uuids, i);
    forall e | e in targets ensures e !in fan.before.events {
      assert e in Select.Elements(uuids);
    }
    var reached := ids[i] in Targets(Circuit.Sqlite, fan.before, fan.eventType);
    VisitNext(fan.before, fan.eventType, ids, uuids, i, targets,
      if reached then targets[uuids[i] := ids[i]] else targets);
    if reached {
      BroadcastGrows(fan.before, targets, uuids[i], ids[i], fan.eventType, fan.payload, fan.key, fan.now);
    }
  }

  /** Which new row went to which endpoint, and the tables, once the endpoints `ids` were visited in this order. */
  function Reached(fan: FanOut, ids: seq<EndpointId>, uuids: seq<EventId>): map<EventId, EndpointId>
    requires |ids| <= |uuids|
  {
    if ids == [] then map[]
    else
      var last := |ids| - 1;
      var earlier := Reached(fan, ids[..last], uuids);
      if ids[last] in Targets(Circuit.Sqlite, fan.before, fan.eventType) then earlier[uuids[last] := ids[last]] else earlier
  }

  function AfterSends(fan: FanOut, ids: seq<EndpointId>, uuids: seq<EventId>): Db
    requires |ids| <= |uuids|
  {
    if ids == [] then fan.before
    else
      var last := |ids| - 1;
      var earlier := AfterSends(fan, ids[..last], uuids);
      if ids[last] in Targets(Circuit.Sqlite, fan.before, fan.eventType)
      then Queue.Enqueue(earlier, uuids[last], ids[last], fan.eventType, fan.payload, fan.key, fan.now) else earlier
  }

  /** Enqueueing one by one builds up the broadcast. */
  lemma {:induction false} SendsAreBroadcast(fan: FanOut, ids: seq<EndpointId>, uuids: seq<EventId>, i: nat)
    requires Plan(fan, ids, uuids) && i <= |ids|
    ensures Sent(fan, AfterSends(fan, ids[..i], uuids), ids[..i], uuids[..i], Reached(fan, ids[..i], uuids))
    ensures AfterSends(fan, ids[..i], uuids).endpoints == fan.before.endpoints
    ensures i < |ids| ==> uuids[i] !in AfterSends(fan, ids[..i], uuids).events
  {
    if i == 0 {
      assert fan.before == Broadcast(fan.before, map[], fan.eventType, fan.payload, fan.key, fan.now);
    } else {
      SendsAreBroadcast(fan, ids, uuids, i - 1);
      assert ids[..i][..i - 1] == ids[..i - 1];
      SendNext(fan, AfterSends(fan, ids[..i - 1], uuids), ids, uuids, i - 1, Reached(fan, ids[..i - 1], uuids));
    }
    if i < |ids| {
      SendNext(fan, AfterSends(fan, ids[..i], uuids), ids, uuids, i, Reached(fan, ids[..i], uuids));
    }
  }

  lemma NextSend(fan: FanOut, ids: seq<EndpointId>, uuids: seq<EventId>, i: nat)
    requires Plan(fan, ids, uuids) && i < |ids|
    ensures ids[i] in fan.before.endpoints
    ensures var current, ep := AfterSends(fan, ids[..i], uuids), fan.before.endpoints[ids[i]];
      && current.endpoints == fan.before.endpoints && uuids[i] !in current.events
      && if ep.enabled && Filter.RustMatches(fan.eventType, ep.filter) then
           AfterSends(fan, ids[..i + 1], uuids) ==
             Queue.Enqueue(current, uuids[i], ids[i], fan.eventType, fan.payload, fan.key, fan.now)
           && Reached(fan, ids[..i + 1], uuids) == Reached(fan, ids[..i], uuids)[uuids[i] := ids[i]]
         else
           AfterSends(fan, ids[..i + 1], uuids) == current && Reached(fan, ids[..i + 1], uuids) == Reached(fan, ids[..i], uuids)
  {
    PlanAt(fan, ids, uuids, i);
    SendsAreBroadcast(fan, ids, uuids, i);
    assert ids[..i + 1][..i] == ids[..i];
  }

  lemma AllSent(fan: FanOut, ids: seq<EndpointId>, uuids: seq<EventId>)
    requires Plan(fan, ids, uuids)
    ensures var targets := Reached(fan, ids, uuids);
      && FreshFor(fan.before, targets, Targets(Circuit.Sqlite, fan.before, fan.eventType))
      && AfterSends(fan, ids, uuids) == Broadcast(fan.before, targets, fan.eventType, fan.payload, fan.key, fan.now)
  {
    SendsAreBroadcast(fan, ids, uuids, |ids|);
    assert ids[..|ids|] == ids;
    var targets := Reached(fan, ids, uuids);
    forall e | e in targets ensures e !in fan.before.events {
      assert e in Select.Elements(uuids);
    }
    forall p | p in fan.before.endpoints ensures p in ids {
      assert p in Select.Elements(ids);
    }
    assert targets.Values == Targets(Circuit.Sqlite, fan.before, fan.eventType);
  }

  class Store {
    var endpoints: map<EndpointId, Endpoint>
    var events: map<EventId, Event>
    var log: map<EventId, seq<Attempt>>
    var now: int

    function Contents(): Db
      reads this
    {
      Db(endpoints, events, log)
    }

    /** One statement for each field that is given. */
    method UpdateEndpoint(id: EndpointId, update: UpdateEndpoint, accepts: string -> bool)
      returns (r: Result<Endpoint, StoreError>)
      modifies this`endpoints
      ensures Contents() ==
        if UpdateOk(update, accepts) then Update(old(Contents()), id, Forwarded(update)) else old(Contents())
      ensures r.Ok? <==> UpdateOk(update, accepts) && id in endpoints
      ensures r.Ok? ==> r.value == endpoints[id]
      ensures r.Err? ==> (r.error == NotFound <==> UpdateOk(update, accepts))
      ensures if r.Ok? then Effects.EndpointUpdated(old(Contents()), Contents(), id, update.(filter := None))
              else Contents() == old(Contents())
    {
      Effects.UpdateDoes(Contents(), id, Forwarded(update));
      var valid := ValidateUpdate(update, accepts);
      if valid.Err? {
        return Err(InvalidConfig(valid.error));
      }
      if id !in endpoints {
        return Err(NotFound);
      }
      SetFields(id, update);
      return Ok(endpoints[id]);
    }

    method SetFields(id: EndpointId, update: UpdateEndpoint)
      requires id in endpoints
      modifies this`endpoints
      ensures endpoints == old(endpoints)[id := Updated(old(endpoints)[id], Forwarded(update))]
    {
      if update.enabled.Some? {
        endpoints := endpoints[id := endpoints[id].(enabled := update.enabled.value)];
      }
      if update.maxAttempts.Some? {
        endpoints := endpoints[id := endpoints[id].(maxAttempts := update.maxAttempts.value)];
      }
      if update.initialDelayMs.Some? {
        endpoints := endpoints[id := endpoints[id].(initialDelayMs := update.initialDelayMs.value)];
      }
    }

    /** Select, and if there is no such row insert-or-ignore and select again. */
    method Enqueue(uuid: EventId, id: EndpointId, eventType: string, payload: string, key: Option<string>)
      returns (r: Result<EventId, StoreError>)
      requires uuid !in events
      modifies this`events, this`log
      ensures Contents() == Queue.Enqueue(old(Contents()), uuid, id, eventType, payload, key, now)
      ensures r.Ok? <==> id in endpoints || Taken(old(Contents()), id, key)
      ensures r.Ok? ==> r.value in events && events[r.value].endpointId == id && events[r.value].idempotencyKey == key
      ensures r.Ok? ==> (r.value == uuid <==> !Effects.KeyInUse(old(Contents()), id, key))
      ensures Effects.EventEnqueued(old(Contents()), Contents(), uuid, id, eventType, payload, key, now)
    {
      Effects.EnqueueDoes(Contents(), uuid, id, eventType, payload, key, now);
      if Taken(Contents(), id, key) {
        var existing :| existing in events && events[existing].endpointId == id && events[existing].idempotencyKey == key;
        return Ok(existing);
      }
      if id !in endpoints {
        return Err(Rejected);
      }
      events := events[uuid := NewEvent(id, eventType, payload, key, now)];
      log := log[uuid := []];
      return Ok(uuid);
    }

    /** Every endpoint once, in some order. */
    method ListEndpoints() returns (ids: seq<EndpointId>)
      ensures Select.Distinct(ids) && Select.Elements(ids) == endpoints.Keys
    {
      ids := [];
      var rest := endpoints.Keys;
      while rest != {}
        invariant rest <= endpoints.Keys
        invariant Select.Distinct(ids) && Select.Elements(ids) == endpoints.Keys - rest
        decreases rest
      {
        var p :| p in rest;
        Select.DistinctGrows(ids, p);
        ids := ids + [p];
        rest := rest - {p};
      }
    }

    /**
     * One row per enabled endpoint whose filter matches, enqueued one by one; together
     * they are the rows a single fan-out statement would insert.
     */
    method BroadcastEvent(uuids: seq<EventId>, eventType: string, payload: string, key: Option<string>)
      returns (targets: map<EventId, EndpointId>)
      requires |uuids| >= |endpoints| && Select.Distinct(uuids) && Select.Elements(uuids) !! events.Keys
      modifies this`events, this`log
      ensures FreshFor(old(Contents()), targets, Targets(Circuit.Sqlite, old(Contents()), eventType))
      ensures Contents() == Broadcast(old(Contents()), targets, eventType, payload, key, now)
      ensures Routing.Extends(old(Contents()), Contents())
      ensures forall p: EndpointId :: Routing.Reached(old(Contents()), Contents(), p,
        p in old(endpoints) && old(endpoints)[p].enabled && Filter.RustMatches(eventType, old(endpoints)[p].filter)
        && !Effects.KeyInUse(old(Contents()), p, key), eventType, payload, key, now)
    {
      var ids := ListEndpoints();
      targets := map[];
      ghost var fan := FanOut(Contents(), eventType, payload, key, now);
      PlanFits(fan, ids, uuids);
      for i := 0 to |ids|
        invariant targets == Reached(fan, ids[..i], uuids)
        invariant Contents() == AfterSends(fan, ids[..i], uuids)
      {
        NextSend(fan, ids, uuids, i);
        var ep := endpoints[ids[i]];
        if ep.enabled && Filter.RustMatches(eventType, ep.filter) {
          var _ := Enqueue(uuids[i], ids[i], eventType, payload, key);
          targets := targets[uuids[i] := ids[i]];
        }
      }
      assert ids[..|ids|] == ids;
      AllSent(fan, ids, uuids);
      Routing.BroadcastExtends(fan.before, targets, eventType, payload, key, now);
      forall p: EndpointId ensures Routing.Reached(fan.before, Contents(), p,
          p in fan.before.endpoints && fan.before.endpoints[p].enabled && Filter.RustMatches(eventType, fan.before.endpoints[p].filter)
          && !Effects.KeyInUse(fan.before, p, key), eventType, payload, key, now)
      {
        Routing.BroadcastReachesEach(fan.before, targets, Targets(Circuit.Sqlite, fan.before, eventType), eventType, payload, key,
          now, p);
      }
    }

    /** Marks the events as delivering, one statement each. */
    method MarkDelivering(ids: seq<EventId>)
      requires Select.Elements(ids) <= events.Keys
      modifies this`events
      ensures Contents() == Claim(old(Contents()), Select.Elements(ids), now)
    {
      ghost var before := Contents();
      for i := 0 to |ids|
        invariant Contents() == Claim(before, Select.Elements(ids[..i]), now)
      {
        MarkNext(before, ids, i, now);
        events := events[ids[i] := events[ids[i]].(status := Delivering, deliveringSince := Some(now))];
      }
      assert ids[..|ids|] == ids;
    }

    /** Reads the events back, one statement each. */
    method FetchRows(ids: seq<EventId>) returns (rows: seq<Event>)
      requires Select.Elements(ids) <= events.Keys
      ensures |rows| == |ids| && forall i :: 0 <= i < |rows| ==> ids[i] in events && rows[i] == events[ids[i]]
    {
      rows := [];
      for i := 0 to |ids|
        invariant |rows| == i && forall j :: 0 <= j < i ==> ids[j] in events && rows[j] == events[ids[j]]
      {
        assert ids[i] in Select.Elements(ids);
        rows := rows + [events[ids[i]]];
      }
    }

    /** Select the due rows, mark them, then fetch them. A negative limit is no limit. */
    method ClaimDueEvents(limit: int) returns (claimed: seq<EventId>, rows: seq<Event>)
      modifies this`events
      ensures Select.Distinct(claimed) && Select.Elements(claimed) <= events.Keys
      ensures Earliest(old(Contents()), DueEvents(old(Contents()), now),
        if limit < 0 then |DueEvents(old(Contents()), now)| else limit, Select.Elements(claimed))
      ensures |claimed| == |Select.Elements(claimed)|
      ensures Contents() == Claim(old(Contents()), Select.Elements(claimed), now)
      ensures |rows| == |claimed| && forall i :: 0 <= i < |rows| ==> claimed[i] in events && rows[i] == events[claimed[i]]
      ensures Effects.RightlyChosen(old(Contents()), Select.Elements(claimed), {}, if limit < 0 then |claimed| + 1 else limit, now)
      ensures Effects.OnlyClaimed(old(Contents()), Contents(), Select.Elements(claimed), now)
      ensures forall i, j :: 0 <= i < j < |claimed| ==>
        claimed[i] in old(events) && claimed[j] in old(events)
        && old(events)[claimed[i]].scheduledAt <= old(events)[claimed[j]].scheduledAt
    {
      ghost var before := Contents();
      var due := DueEvents(Contents(), now);
      claimed := Select.SelectEarliest(Contents(), due, if limit < 0 then |due| else limit);
      ClaimIsRight(before, Select.Elements(claimed), limit, |claimed|, now);
      MarkDelivering(claimed);
      rows := FetchRows(claimed);
    }

    method RecoverStuckDeliveries(stuckAfterSecs: int) returns (count: nat)
      modifies this`events
      ensures Contents() == Recover(old(Contents()), Ago(now, stuckAfterSecs))
      ensures Effects.StuckReleased(old(Contents()), Contents(), now - stuckAfterSecs * 1_000_000)
      ensures count == |set e | e in old(events) && Stuck(old(events)[e], Ago(now, stuckAfterSecs))|
    {
      var cutoff := Ago(now, stuckAfterSecs);
      Effects.RecoverDoes(Contents(), cutoff);
      var stuck := set e | e in events && Stuck(events[e], cutoff);
      events := map e | e in events :: if e in stuck then Released(events[e]) else events[e];
      assert events == Recover(old(Contents()), cutoff).events;
      return |stuck|;
    }

    method RecordSuccess(e: EventId, response: int, body: Option<string>) returns (ok: bool)
      modifies this`endpoints, this`events, this`log
      ensures ok <==> e in old(events)
      ensures Contents() == Queue.RecordSuccess(old(Contents()), e, SuccessRow(response, body, now))
      ensures if ok then Effects.SuccessWritten(old(Contents()), Contents(), e, response, body, now)
              else Contents() == old(Contents())
    {
      if e !in events {
        return false;
      }
      Effects.SuccessIsWritten(Contents(), e, response, body, now);
      log := log[e := (if e in log then log[e] else []) + [SuccessRow(response, body, now)]];
      if events[e].status == Delivering {
        var id := events[e].endpointId;
        events := events[e := events[e].(status := Delivered, attempts := events[e].attempts + 1, deliveringSince := None)];
        if id in endpoints {
          endpoints := endpoints[id := endpoints[id].(consecutiveFailures := 0, circuitOpenUntil := None)];
        }
      }
      return true;
    }

    /** Reads attempts and failure counter back, and computes the circuit window in the program. */
    method RecordFailure(e: EventId, failure: Failure, draw: nat) returns (ok: bool)
      modifies this`endpoints, this`events, this`log
      ensures ok <==> Effects.FailureWritten(Circuit.Sqlite, old(Contents()), e, failure.endpointId)
      ensures Contents() == Queue.RecordFailure(Circuit.Sqlite, old(Contents()), e, failure, now, draw)
      ensures if ok then Effects.FailureRecorded(Circuit.Sqlite, old(Contents()), Contents(), e, failure, now)
              else Contents() == old(Contents())
    {
      Effects.RecordFailureDoes(Circuit.Sqlite, Contents(), e, failure, now, draw);
      if e !in events {
        return false;
      }
      log := log[e := (if e in log then log[e] else []) + [failure.row]];
      var closed := FailEvent(events[e], failure, now, draw);
      events := events[e := closed];
      CountFailure(failure.endpointId);
      return true;
    }

    /** The counter read back, the window computed in the program, and both written. */
    method CountFailure(id: EndpointId)
      modifies this`endpoints
      ensures endpoints == if id in old(endpoints)
        then old(endpoints)[id := EndpointAfterFailure(Circuit.Sqlite, old(endpoints)[id], now).value]
        else old(endpoints)
    {
      var failures := (if id in endpoints then endpoints[id].consecutiveFailures else 0) + 1;
      var openUntil := if failures >= 5 then Some(now + Circuit.SqliteWindow(failures) * MINUTE) else None;
      if id in endpoints {
        endpoints := endpoints[id := endpoints[id].(consecutiveFailures := failures, circuitOpenUntil := openUntil)];
      }
    }

    method ResetToPending(e: EventId)
      modifies this`events
      ensures Contents() == Queue.ResetToPending(old(Contents()), e, now)
      ensures Effects.HandedBack(old(Contents()), Contents(), e, now)
    {
      Effects.ResetToPendingDoes(Contents(), e, now);
      if e in events && events[e].status == Delivering {
        events := events[e := events[e].(status := Pending, deliveringSince := None, scheduledAt := now)];
      }
    }

    /** Two statements outside a transaction; the second one matches only if the first did. */
    method RecordEndpointDeleted(e: EventId)
      modifies this`events, this`log
      ensures Contents() == Queue.RecordEndpointDeleted(old(Contents()), e, Attempt(false, now, None, None))
      ensures if e in old(events) then Effects.ClosedAsMissing(old(Contents()), Contents(), e, Attempt(false, now, None, None))
              else Contents() == old(Contents())
    {
      Effects.RecordEndpointDeletedDoes(Contents(), e, Attempt(false, now, None, None));
      if e in events {
        log := log[e := (if e in log then log[e] else []) + [Attempt(false, now, None, None)]];
      }
      if e in events && events[e].status == Delivering {
        events := events[e := events[e].(status := Dead, deliveringSince := None)];
      }
    }

    /** The update has no guard on the status; the check before it is what protects other events. */
    method RetryDeadEvent(e: EventId) returns (r: Result<(), StoreError>)
      modifies this`endpoints, this`events
      ensures r == (if e !in old(events) then Err(NotFound)
                    else if old(events)[e].status != Dead then Err(InvalidState) else Ok(()))
      ensures Contents() == RetryDead(old(Contents()), e,
        if e in old(events) then Some(old(events)[e].endpointId) else None, now)
      ensures if r.Ok? then Effects.DeadRetried(old(Contents()), Contents(), e, old(events)[e].endpointId, now)
              else Contents() == old(Contents())
    {
      if e !in events {
        return Err(NotFound);
      }
      if events[e].status != Dead {
        return Err(InvalidState);
      }
      var id := events[e].endpointId;
      Effects.RetryDeadDoes(Contents(), e, id, now);
      events := events[e := events[e].(status := Pending, attempts := 0, scheduledAt := now, deliveringSince := None)];
      if id in endpoints {
        endpoints := endpoints[id := endpoints[id].(consecutiveFailures := 0, circuitOpenUntil := None)];
      }
      return Ok(());
    }

    method RetryAllDead(id: EndpointId) returns (count: nat)
      modifies this`endpoints, this`events
      ensures Contents() == Queue.RetryAllDead(old(Contents()), id, now)
      ensures Effects.AllDeadRetried(old(Contents()), Contents(), id, now)
      ensures count == |DeadOf(old(Contents()), id)|
    {
      Effects.RetryAllDeadDoes(Contents(), id, now);
      var dead := DeadOf(Contents(), id);
      events := map e | e in events :: if e in dead then MarkRequeued(events[e], now) else events[e];
      assert events == Queue.RetryAllDead(old(Contents()), id, now).events;
      if id in endpoints {
        endpoints := endpoints[id := endpoints[id].(consecutiveFailures := 0, circuitOpenUntil := None)];
      }
      return |dead|;
    }
  }
}
