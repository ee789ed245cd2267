/** The three tables. Instants and durations are whole microseconds. */
module Schema {
  import opened Common
  import Body

  type EndpointId = nat
  type EventId = nat

  const MILLISECOND := 1_000
  const SECOND := 1_000_000
  const MINUTE := 60_000_000

  datatype Status = Pending | Delivering | Delivered | Failed | Dead

  datatype Endpoint = Endpoint(
    enabled: bool,
    maxAttempts: i32,
    initialDelayMs: i32,
    filter: Option<seq<string>>,
    consecutiveFailures: nat,
    circuitOpenUntil: Option<int>)

  datatype Event = Event(
    endpointId: EndpointId,
    eventType: string,
    payload: string,
    idempotencyKey: Option<string>,
    createdAt: int,
    status: Status,
    attempts: int,
    scheduledAt: int,
    deliveringSince: Option<int>)

  /** The parts of an event no operation changes. */
  predicate SameContent(was: Event, ev: Event) {
    && ev.endpointId == was.endpointId && ev.eventType == was.eventType && ev.payload == was.payload
    && ev.idempotencyKey == was.idempotencyKey && ev.createdAt == was.createdAt
  }

  /** One row of the delivery log. */
  datatype Attempt = Attempt(success: bool, attemptedAt: int, responseStatus: Option<int>, responseBody: Option<seq<Body.byte>>)

  /** The log is kept grouped by the event its rows refer to. */
  datatype Db = Db(
    endpoints: map<EndpointId, Endpoint>,
    events: map<EventId, Event>,
    log: map<EventId, seq<Attempt>>)

  const EmptyDb := Db(map[], map[], map[])

  // ---- What every state of the tables keeps ----

  predicate EndpointOk(ep: Endpoint) {
    && ep.maxAttempts >= 1 && ep.initialDelayMs >= 1
    && (ep.circuitOpenUntil.Some? <==> ep.consecutiveFailures >= 5)
  }

  predicate HasSuccess(rows: seq<Attempt>) {
    exists i :: 0 <= i < |rows| && rows[i].success
  }

  predicate EventOk(db: Db, e: EventId)
    requires e in db.events
  {
    var ev := db.events[e];
    && ev.endpointId in db.endpoints
    && e in db.log
    && (ev.status == Delivering <==> ev.deliveringSince.Some?)
    && 0 <= ev.attempts <= |db.log[e]|
    && (if ev.status == Delivered || ev.status == Dead then ev.attempts <= I32_MAX else ev.attempts < I32_MAX)
    && (ev.status == Delivered ==> ev.attempts >= 1 && HasSuccess(db.log[e]))
  }

  /** No two events of an endpoint share an idempotency key. */
  predicate KeysUnique(events: map<EventId, Event>) {
    forall e, f :: e in events && f in events && e != f
      && events[e].endpointId == events[f].endpointId && events[e].idempotencyKey.Some?
      ==> events[e].idempotencyKey != events[f].idempotencyKey
  }

  /** Every row is well formed, references hold, and idempotency keys are unique. */
  predicate Consistent(db: Db) {
    && (forall e :: e in db.events ==> EventOk(db, e))
    && (forall p :: p in db.endpoints ==> EndpointOk(db.endpoints[p]))
    && db.log.Keys == db.events.Keys
    && KeysUnique(db.events)
  }
}
