/**
 * What each storage operation does to the tables, as functions. A statement or
 * transaction that fails leaves the tables as they were.
 */
module Queue {
  import opened Common
  import opened Schema
  import Body
  import Circuit
  import Filter
  import Retry

  const RETRY_CAP_MS := 3_600_000

  // ---- Endpoints ----

  datatype NewEndpoint = NewEndpoint(
    url: string,
    signingSecret: string,
    maxAttempts: Option<i32>,
    initialDelayMs: Option<i32>,
    filter: Option<seq<string>>)

  datatype UpdateEndpoint = UpdateEndpoint(
    url: Option<string>,
    signingSecret: Option<string>,
    enabled: Option<bool>,
    maxAttempts: Option<i32>,
    initialDelayMs: Option<i32>,
    filter: Option<Option<seq<string>>>)

  function GetOr<T>(o: Option<T>, default: T): T {
    if o.Some? then o.value else default
  }

  function Create(db: Db, id: EndpointId, config: NewEndpoint): Db {
    db.(endpoints := db.endpoints[id := Endpoint(
      true, GetOr(config.maxAttempts, 10), GetOr(config.initialDelayMs, 1000), config.filter, 0, None)])
  }

  function Updated(ep: Endpoint, update: UpdateEndpoint): Endpoint {
    ep.(enabled := GetOr(update.enabled, ep.enabled),
        maxAttempts := GetOr(update.maxAttempts, ep.maxAttempts),
        initialDelayMs := GetOr(update.initialDelayMs, ep.initialDelayMs),
        filter := GetOr(update.filter, ep.filter))
  }

  function Update(db: Db, id: EndpointId, update: UpdateEndpoint): Db {
    if id in db.endpoints then db.(endpoints := db.endpoints[id := Updated(db.endpoints[id], update)]) else db
  }

  /** Without some events, and without the log rows that refer to them. */
  function Without(db: Db, gone: set<EventId>): Db {
    db.(events := db.events - gone, log := db.log - gone)
  }

  function EventsOf(db: Db, id: EndpointId): set<EventId> {
    set e | e in db.events && db.events[e].endpointId == id
  }

  /** Deleting an endpoint deletes its events and their log rows. */
  function Delete(db: Db, id: EndpointId): Db {
    if id in db.endpoints then Without(db, EventsOf(db, id)).(endpoints := db.endpoints - {id}) else db
  }

  function ResetCircuit(db: Db, id: EndpointId): Db {
    if id in db.endpoints
    then db.(endpoints := db.endpoints[id := db.endpoints[id].(consecutiveFailures := 0, circuitOpenUntil := None)])
    else db
  }

  predicate SameCircuit(before: Endpoint, after: Endpoint) {
    after.consecutiveFailures == before.consecutiveFailures && after.circuitOpenUntil == before.circuitOpenUntil
  }

  // ---- Enqueueing ----

  function NewEvent(id: EndpointId, eventType: string, payload: string, key: Option<string>, now: int): Event {
    Event(id, eventType, payload, key, now, Pending, 0, now, None)
  }

  /** Some event of the endpoint already uses the key. */
  predicate Taken(db: Db, id: EndpointId, key: Option<string>) {
    key.Some? && exists e :: e in db.events && db.events[e].endpointId == id && db.events[e].idempotencyKey == key
  }

  function Insert(db: Db, e: EventId, ev: Event): Db {
    db.(events := db.events[e := ev], log := db.log[e := []])
  }

  /** Insert unless the key is taken; a missing endpoint is a foreign-key error. */
  function Enqueue(db: Db, e: EventId, id: EndpointId, eventType: string, payload: string, key: Option<string>, now: int): Db {
    if id !in db.endpoints || Taken(db, id, key) then db
    else Insert(db, e, NewEvent(id, eventType, payload, key, now))
  }

  predicate Matches(backend: Circuit.Backend, eventType: string, filter: Option<seq<string>>) {
    match backend
    case Postgres => Filter.SqlMatches(eventType, filter)
    case Sqlite => Filter.RustMatches(eventType, filter)
  }

  /** The endpoints a broadcast reaches. */
  function Targets(backend: Circuit.Backend, db: Db, eventType: string): set<EndpointId> {
    set p | p in db.endpoints && db.endpoints[p].enabled && Matches(backend, eventType, db.endpoints[p].filter)
  }

  /** The targets that get a new row: those whose key is not taken. */
  function Inserted(db: Db, targets: map<EventId, EndpointId>, key: Option<string>): set<EventId> {
    set e | e in targets && !Taken(db, targets[e], key)
  }

  function NewRows(targets: map<EventId, EndpointId>, inserted: set<EventId>, eventType: string, payload: string,
      key: Option<string>, now: int): map<EventId, Event>
    requires inserted <= targets.Keys
  {
    map e | e in inserted :: NewEvent(targets[e], eventType, payload, key, now)
  }

  function EmptyLogs(inserted: set<EventId>): map<EventId, seq<Attempt>> {
    map e | e in inserted :: []
  }

  /** One new event per target whose key is not taken; `targets` gives the ids of the rows. */
  function Broadcast(db: Db, targets: map<EventId, EndpointId>, eventType: string, payload: string, key: Option<string>,
      now: int): Db
  {
    var inserted := Inserted(db, targets, key);
    db.(events := db.events + NewRows(targets, inserted, eventType, payload, key, now),
        log := db.log + EmptyLogs(inserted))
  }

  /** The ids are new and name each endpoint of the set exactly once. */
  predicate FreshFor(db: Db, targets: map<EventId, EndpointId>, ids: set<EndpointId>) {
    && targets.Keys !! db.events.Keys
    && targets.Values == ids
    && forall e, f :: e in targets && f in targets && e != f ==> targets[e] != targets[f]
  }

  // ---- Claiming and releasing ----

  predicate CircuitClosed(ep: Endpoint, now: int) {
    ep.circuitOpenUntil.None? || ep.circuitOpenUntil.value <= now
  }

  predicate Due(db: Db, e: EventId, now: int) {
    && e in db.events
    && var ev := db.events[e];
      && (ev.status == Pending || ev.status == Failed)
      && ev.scheduledAt <= now
      && ev.endpointId in db.endpoints
      && db.endpoints[ev.endpointId].enabled
      && CircuitClosed(db.endpoints[ev.endpointId], now)
  }

  function DueEvents(db: Db, now: int): set<EventId> {
    set e | e in db.events && Due(db, e, now)
  }

  predicate NoneLater(events: map<EventId, Event>, chosen: set<EventId>, left: set<EventId>) {
    forall e, f :: e in chosen && f in left && e in events && f in events ==> events[e].scheduledAt <= events[f].scheduledAt
  }

  /**
   * `chosen` are the `limit` earliest of the candidates: all of them if there are
   * not more, and never one that is scheduled later than a candidate left behind.
   */
  predicate Earliest(db: Db, candidates: set<EventId>, limit: nat, chosen: set<EventId>)
    requires candidates <= db.events.Keys
  {
    && chosen <= candidates
    && |chosen| == Min(limit, |candidates|)
    && NoneLater(db.events, chosen, candidates - chosen)
  }

  function MarkClaimed(ev: Event, now: int): Event {
    ev.(status := Delivering, deliveringSince := Some(now))
  }

  function Claim(db: Db, chosen: set<EventId>, now: int): Db {
    db.(events := map e | e in db.events :: if e in chosen then MarkClaimed(db.events[e], now) else db.events[e])
  }

  /** So many seconds ago. */
  function Ago(now: int, seconds: int): int {
    now - seconds * SECOND
  }

  predicate Stuck(ev: Event, cutoff: int) {
    ev.status == Delivering && ev.deliveringSince.Some? && ev.deliveringSince.value < cutoff
  }

  function Released(ev: Event): Event {
    ev.(status := Pending, deliveringSince := None)
  }

  function Recover(db: Db, cutoff: int): Db {
    db.(events := map e | e in db.events :: if Stuck(db.events[e], cutoff) then Released(db.events[e]) else db.events[e])
  }

  function SetEvent(db: Db, e: EventId, ev: Event): Db {
    db.(events := db.events[e := ev])
  }

  predicate IsDelivering(db: Db, e: EventId) {
    e in db.events && db.events[e].status == Delivering
  }

  function ResetToPending(db: Db, e: EventId, now: int): Db {
    if IsDelivering(db, e)
    then SetEvent(db, e, Released(db.events[e]).(scheduledAt := now))
    else db
  }

  // ---- Recording results ----

  function RowsOf(db: Db, e: EventId): seq<Attempt> {
    if e in db.log then db.log[e] else []
  }

  function Append(db: Db, e: EventId, row: Attempt): Db {
    db.(log := db.log[e := RowsOf(db, e) + [row]])
  }

  /** The log row of a success; the body is cut to the stored size. */
  function SuccessRow(response: int, body: Option<string>, now: int): Attempt {
    Attempt(true, now, Some(response),
      if body.None? then None else Some(Body.TruncateUtf8(body.value, Body.MAX_RESPONSE_BODY_BYTES)))
  }

  function MarkDelivered(ev: Event): Event {
    ev.(status := Delivered, attempts := ev.attempts + 1, deliveringSince := None)
  }

  /** A log row always; the event and its endpoint's circuit only if the event is delivering. */
  function RecordSuccess(db: Db, e: EventId, row: Attempt): Db {
    if e !in db.events then db
    else if db.events[e].status != Delivering then Append(db, e, row)
    else
      ResetCircuit(SetEvent(Append(db, e, row), e, MarkDelivered(db.events[e])), db.events[e].endpointId)
  }

  function EventAfterFailure(ev: Event, maxAttempts: i32, initialDelayMs: i32, now: int, draw: nat): Event {
    if ev.status != Delivering then ev
    else if ev.attempts + 1 >= maxAttempts then
      ev.(status := Dead, attempts := ev.attempts + 1, deliveringSince := None)
    else
      var delay := Retry.NextDelay(AsU32(ev.attempts + 1), AsU32(initialDelayMs), RETRY_CAP_MS, draw);
      ev.(status := Failed, attempts := ev.attempts + 1, scheduledAt := now + delay * MILLISECOND, deliveringSince := None)
  }

  /** The row a failure leaves behind: read, count, and either give up or draw a retry time. */
  method FailEvent(ev: Event, failure: Failure, now: int, draw: nat) returns (closed: Event)
    ensures closed == EventAfterFailure(ev, failure.maxAttempts, failure.initialDelayMs, now, draw)
  {
    closed := ev;
    var next := ev.attempts + 1;
    if ev.status == Delivering {
      if next >= failure.maxAttempts {
        closed := ev.(status := Dead, attempts := next, deliveringSince := None);
      } else {
        var delay := Retry.NextDelay(AsU32(next), AsU32(failure.initialDelayMs), RETRY_CAP_MS, draw);
        closed := ev.(status := Failed, attempts := next, scheduledAt := now + delay * MILLISECOND, deliveringSince := None);
      }
    }
  }

  /** Counts a failure and opens the circuit from the fifth on; None if the window overflows. */
  function EndpointAfterFailure(backend: Circuit.Backend, ep: Endpoint, now: int): Option<Endpoint> {
    var failures := ep.consecutiveFailures + 1;
    if failures < Circuit.THRESHOLD then
      Some(ep.(consecutiveFailures := failures, circuitOpenUntil := None))
    else
      match Circuit.Window(backend, failures)
      case None => None
      case Some(minutes) =>
        Some(ep.(consecutiveFailures := failures, circuitOpenUntil := Some(now + minutes * MINUTE)))
  }

  /** The arguments of a failure report, as the worker read them earlier. */
  datatype Failure = Failure(endpointId: EndpointId, maxAttempts: i32, initialDelayMs: i32, row: Attempt)

  predicate FailureCommits(backend: Circuit.Backend, db: Db, e: EventId, failure: Failure, now: int) {
    && e in db.events
    && (failure.endpointId in db.endpoints ==>
        EndpointAfterFailure(backend, db.endpoints[failure.endpointId], now).Some?)
  }

  /**
   * A log row and a counted failure always; the event only if it is delivering.
   * A missing event or an overflowing window rolls everything back.
   */
  function RecordFailure(backend: Circuit.Backend, db: Db, e: EventId, failure: Failure, now: int, draw: nat): Db {
    if !FailureCommits(backend, db, e, failure, now) then db
    else
      var closed := SetEvent(Append(db, e, failure.row), e,
        EventAfterFailure(db.events[e], failure.maxAttempts, failure.initialDelayMs, now, draw));
      var id := failure.endpointId;
      if id in db.endpoints
      then closed.(endpoints := db.endpoints[id := EndpointAfterFailure(backend, db.endpoints[id], now).value])
      else closed
  }

  /** The endpoint was gone when the worker looked for it. */
  function RecordEndpointDeleted(db: Db, e: EventId, row: Attempt): Db {
    if e !in db.events then db
    else if db.events[e].status != Delivering then Append(db, e, row)
    else SetEvent(Append(db, e, row), e, db.events[e].(status := Dead, deliveringSince := None))
  }

  // ---- Dead letters and cleanup ----

  function MarkRequeued(ev: Event, now: int): Event {
    ev.(status := Pending, attempts := 0, scheduledAt := now, deliveringSince := None)
  }

  /** Requeue one dead event and, only then, reset the given endpoint's circuit. */
  function RetryDead(db: Db, e: EventId, id: Option<EndpointId>, now: int): Db {
    if e !in db.events || db.events[e].status != Dead then db
    else
      var requeued := SetEvent(db, e, MarkRequeued(db.events[e], now));
      if id.Some? then ResetCircuit(requeued, id.value) else requeued
  }

  function DeadOf(db: Db, id: EndpointId): set<EventId> {
    set e | e in db.events && db.events[e].endpointId == id && db.events[e].status == Dead
  }

  function RequeueAll(db: Db, ids: set<EventId>, now: int): Db {
    db.(events := map e | e in db.events :: if e in ids then MarkRequeued(db.events[e], now) else db.events[e])
  }

  function RetryAllDead(db: Db, id: EndpointId, now: int): Db {
    ResetCircuit(RequeueAll(db, DeadOf(db, id), now), id)
  }

  function Expired(db: Db, status: Status, cutoff: int): set<EventId> {
    set e | e in db.events && db.events[e].status == status && db.events[e].createdAt < cutoff
  }

  function Cleanup(db: Db, status: Status, cutoff: int): Db {
    Without(db, Expired(db, status, cutoff))
  }
}
