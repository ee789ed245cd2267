/** Which endpoints a broadcast reaches, and that it gives each of them one event. */
module Routing {
  import opened Common
  import opened Schema
  import opened Queue
  import Circuit
  import Effects
  import Filter

  /** Both backends send a broadcast to the same endpoints if all filters are portable. */
  lemma BackendsRouteAlike(db: Db, eventType: string)
    requires forall p :: p in db.endpoints && db.endpoints[p].enabled ==> Filter.Portable(db.endpoints[p].filter)
    ensures Targets(Circuit.Postgres, db, eventType) == Targets(Circuit.Sqlite, db, eventType)
  {
    forall p | p in db.endpoints && db.endpoints[p].enabled
      ensures p in Targets(Circuit.Postgres, db, eventType) <==> p in Targets(Circuit.Sqlite, db, eventType)
    {
      Filter.FiltersAgree(eventType, db.endpoints[p].filter);
    }
  }

  /** Nothing happens to events that exist. */
  predicate Extends(before: Db, after: Db) {
    && after.endpoints == before.endpoints
    && forall e :: e in before.events ==> e in after.events && after.events[e] == before.events[e]
  }

  lemma BroadcastExtends(db: Db, targets: map<EventId, EndpointId>, eventType: string, payload: string, key: Option<string>, now: int)
    requires targets.Keys !! db.events.Keys
    ensures Extends(db, Broadcast(db, targets, eventType, payload, key, now))
  {
  }

  /** If it is meant to, the endpoint has one event more, new and with this content; otherwise it has the events it had. */
  predicate Reached(before: Db, after: Db, p: EndpointId, meant: bool, eventType: string, payload: string, key: Option<string>,
      now: int) {
    if meant then
      exists e :: e in after.events && e !in before.events && EventsOf(after, p) == EventsOf(before, p) + {e}
        && Effects.IsNew(after.events[e], p, eventType, payload, key, now)
    else EventsOf(after, p) == EventsOf(before, p)
  }

  /** The rows of an endpoint afterwards: those it had, and those inserted for it. */
  lemma RowsAfterwards(db: Db, targets: map<EventId, EndpointId>, eventType: string, payload: string, key: Option<string>,
      now: int, p: EndpointId)
    requires targets.Keys !! db.events.Keys
    ensures EventsOf(Broadcast(db, targets, eventType, payload, key, now), p)
         == EventsOf(db, p) + set e | e in Inserted(db, targets, key) && targets[e] == p
  {
  }

  /** The row meant for an endpoint is the only one inserted for it, if any is. */
  lemma OneRowEach(db: Db, targets: map<EventId, EndpointId>, ids: set<EndpointId>, key: Option<string>, p: EndpointId)
      returns (row: EventId)
    requires FreshFor(db, targets, ids) && p in ids
    ensures row in targets && targets[row] == p && row !in db.events
    ensures (set e | e in Inserted(db, targets, key) && targets[e] == p) == if Taken(db, p, key) then {} else {row}
  {
    row :| row in targets && targets[row] == p;
  }

  lemma NewRow(db: Db, targets: map<EventId, EndpointId>, row: EventId, eventType: string, payload: string,
      key: Option<string>, now: int)
    requires row in targets && row !in db.events && !Taken(db, targets[row], key)
    ensures var next := Broadcast(db, targets, eventType, payload, key, now);
      row in next.events && next.events[row] == NewEvent(targets[row], eventType, payload, key, now)
  {
  }

  /**
   * A broadcast gives every endpoint it is meant for one new pending event, unless an
   * event with the key is there already, and no other endpoint gets any.
   */
  lemma BroadcastReachesEach(db: Db, targets: map<EventId, EndpointId>, ids: set<EndpointId>, eventType: string,
      payload: string, key: Option<string>, now: int, p: EndpointId)
    requires FreshFor(db, targets, ids)
    ensures Reached(db, Broadcast(db, targets, eventType, payload, key, now), p,
      p in ids && !Taken(db, p, key), eventType, payload, key, now)
  {
    RowsAfterwards(db, targets, eventType, payload, key, now, p);
    if p in ids {
      var row := OneRowEach(db, targets, ids, key, p);
      if !Taken(db, p, key) {
        NewRow(db, targets, row, eventType, payload, key, now);
      }
    } else {
      assert forall e :: e in targets ==> targets[e] in targets.Values;
    }
  }

  lemma TakenAfterwards(db: Db, targets: map<EventId, EndpointId>, ids: set<EndpointId>, eventType: string,
      payload: string, key: Option<string>, now: int, p: EndpointId)
    requires FreshFor(db, targets, ids) && key.Some? && p in ids
    ensures Taken(Broadcast(db, targets, eventType, payload, key, now), p, key)
  {
    var next := Broadcast(db, targets, eventType, payload, key, now);
    BroadcastExtends(db, targets, eventType, payload, key, now);
    if Taken(db, p, key) {
      var e :| e in db.events && db.events[e].endpointId == p && db.events[e].idempotencyKey == key;
      assert next.events[e] == db.events[e];
    } else {
      var row := OneRowEach(db, targets, ids, key, p);
      NewRow(db, targets, row, eventType, payload, key, now);
    }
  }

  lemma NothingInserted(db: Db, targets: map<EventId, EndpointId>, eventType: string, payload: string, key: Option<string>, now: int)
    requires forall e :: e in targets ==> Taken(db, targets[e], key)
    ensures Broadcast(db, targets, eventType, payload, key, now) == db
  {
    assert Inserted(db, targets, key) == {};
    assert db.events + NewRows(targets, {}, eventType, payload, key, now) == db.events;
    assert db.log + EmptyLogs({}) == db.log;
  }

  /** Sending a broadcast again under the same key, whatever it carries now, changes nothing. */
  lemma BroadcastIsIdempotent(backend: Circuit.Backend, db: Db, first: map<EventId, EndpointId>, again: map<EventId, EndpointId>,
      eventType: string, payload: string, payload': string, key: Option<string>, now: int, now': int)
    requires key.Some? && FreshFor(db, first, Targets(backend, db, eventType))
    requires var next := Broadcast(db, first, eventType, payload, key, now);
      FreshFor(next, again, Targets(backend, next, eventType))
    ensures var next := Broadcast(db, first, eventType, payload, key, now);
      Broadcast(next, again, eventType, payload', key, now') == next
  {
    var next := Broadcast(db, first, eventType, payload, key, now);
    forall e | e in again ensures Taken(next, again[e], key) {
      assert again[e] in again.Values;
      TakenAfterwards(db, first, Targets(backend, db, eventType), eventType, payload, key, now, again[e]);
    }
    NothingInserted(next, again, eventType, payload', key, now');
  }
}
