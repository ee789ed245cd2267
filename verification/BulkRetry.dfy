/** Requeueing all dead events of an endpoint at once, against requeueing them one by one. */
module BulkRetry {
  import opened Common
  import opened Schema
  import opened Queue
  import Select

  /** One retry of a dead event with nothing in between its reads and its update. */
  function RetryOne(db: Db, e: EventId, now: int): Db {
    RetryDead(db, e, if e in db.events then Some(db.events[e].endpointId) else None, now)
  }

  /** A list of events retried one after the other. */
  function RetryEach(db: Db, ids: seq<EventId>, now: int): Db {
    if ids == [] then db else RetryOne(RetryEach(db, ids[..|ids| - 1], now), ids[|ids| - 1], now)
  }

  predicate CircuitIsReset(db: Db, id: EndpointId) {
    id in db.endpoints ==> db.endpoints[id].consecutiveFailures == 0 && db.endpoints[id].circuitOpenUntil == None
  }

  lemma RetryNext(db: Db, done: set<EventId>, e: EventId, id: EndpointId, now: int)
    requires done <= DeadOf(db, id) && e in DeadOf(db, id)
    ensures RetryOne(RequeueAll(db, done, now), e, now) ==
      if e in done then RequeueAll(db, done, now) else ResetCircuit(RequeueAll(db, done + {e}, now), id)
    ensures RetryOne(ResetCircuit(RequeueAll(db, done, now), id), e, now) ==
      ResetCircuit(RequeueAll(db, done + {e}, now), id)
  {
    var requeued, next := RequeueAll(db, done, now), RequeueAll(db, done + {e}, now);
    if e in done {
      assert done + {e} == done;
    } else {
      assert SetEvent(requeued, e, MarkRequeued(db.events[e], now)).events == next.events;
      ResetTwice(next, id);
    }
  }

  lemma ResetTwice(db: Db, id: EndpointId)
    ensures ResetCircuit(ResetCircuit(db, id), id) == ResetCircuit(db, id)
  {
  }

  /** In any order, with or without repetition, single retries requeue their events and reset the circuit. */
  lemma {:induction false} RetryEachExactly(db: Db, ids: seq<EventId>, id: EndpointId, now: int)
    requires Select.Elements(ids) <= DeadOf(db, id)
    ensures RetryEach(db, ids, now) ==
      if ids == [] then db else ResetCircuit(RequeueAll(db, Select.Elements(ids), now), id)
  {
    if ids != [] {
      var last := |ids| - 1;
      assert ids[last] in Select.Elements(ids);
      assert Select.Elements(ids) == Select.Elements(ids[..last]) + {ids[last]};
      RetryEachExactly(db, ids[..last], id, now);
      RetryNext(db, Select.Elements(ids[..last]), ids[last], id, now);
      if last == 0 {
        assert RequeueAll(db, {}, now).events == db.events;
      }
    }
  }

  /**
   * Retrying every dead event of an endpoint one by one does what the bulk retry does,
   * except in one case: with no dead event only the bulk retry touches the circuit.
   */
  lemma BulkIsIteratedSingle(db: Db, ids: seq<EventId>, id: EndpointId, now: int)
    requires Select.Elements(ids) == DeadOf(db, id)
    ensures RetryEach(db, ids, now) == RetryAllDead(db, id, now)
       <==> DeadOf(db, id) != {} || CircuitIsReset(db, id)
  {
    RetryEachExactly(db, ids, id, now);
    if ids == [] {
      assert RequeueAll(db, {}, now).events == db.events;
      if id in db.endpoints && RetryAllDead(db, id, now) == db {
        assert RetryAllDead(db, id, now).endpoints[id] == db.endpoints[id];
      }
    } else {
      assert ids[0] in Select.Elements(ids);
    }
  }

  lemma RequeueRest(db: Db, done: set<EventId>, id: EndpointId, now: int)
    requires done <= DeadOf(db, id)
    ensures var some := ResetCircuit(RequeueAll(db, done, now), id);
      RequeueAll(some, DeadOf(some, id), now) == ResetCircuit(RequeueAll(db, DeadOf(db, id), now), id)
  {
    var some := ResetCircuit(RequeueAll(db, done, now), id);
    assert RequeueAll(some, DeadOf(some, id), now).events == RequeueAll(db, DeadOf(db, id), now).events;
  }

  /** Events retried singly just before a bulk retry make no difference to it. */
  lemma BulkAbsorbsSingles(db: Db, ids: seq<EventId>, id: EndpointId, now: int)
    requires Select.Elements(ids) <= DeadOf(db, id)
    ensures RetryAllDead(RetryEach(db, ids, now), id, now) == RetryAllDead(db, id, now)
    ensures DeadOf(RetryAllDead(db, id, now), id) == {}
  {
    RetryEachExactly(db, ids, id, now);
    if ids != [] {
      RequeueRest(db, Select.Elements(ids), id, now);
      ResetTwice(RequeueAll(db, DeadOf(db, id), now), id);
    }
  }

  predicate StillDead(db: Db, e: EventId) {
    e in db.events && db.events[e].status == Dead
  }

  predicate AlreadyRequeued(db: Db, e: EventId, now: int) {
    e in db.events ==> db.events[e] == MarkRequeued(db.events[e], now)
  }

  /** The SQLite update without a guard on the status; the circuit is reset in any case. */
  function UnguardedRetry(db: Db, e: EventId, id: EndpointId, now: int): Db {
    ResetCircuit(if e in db.events then SetEvent(db, e, MarkRequeued(db.events[e], now)) else db, id)
  }

  /**
   * Without the guard a retry does what the guarded one does exactly if, when the update
   * runs, the event is still dead, or is gone or requeued already and its circuit is reset.
   */
  lemma UnguardedRetryExactly(db: Db, e: EventId, id: EndpointId, now: int)
    ensures UnguardedRetry(db, e, id, now) == RetryDead(db, e, Some(id), now)
       <==> StillDead(db, e) || (AlreadyRequeued(db, e, now) && CircuitIsReset(db, id))
  {
    var unguarded := UnguardedRetry(db, e, id, now);
    if e in db.events && db.events[e].status != Dead && unguarded == db {
      assert unguarded.events[e] == MarkRequeued(db.events[e], now);
    }
    if unguarded == db && id in db.endpoints {
      assert unguarded.endpoints[id] == db.endpoints[id];
    }
    if e in db.events && db.events[e] == MarkRequeued(db.events[e], now) {
      assert SetEvent(db, e, db.events[e]) == db;
    }
    if id in db.endpoints && CircuitIsReset(db, id) {
      assert db.endpoints[id := db.endpoints[id]] == db.endpoints;
    }
  }
}
