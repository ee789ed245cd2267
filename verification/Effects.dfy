/**
 * What the storage operations are seen to do, row by row: which rows change and to what,
 * that all other rows stay, and how the log grows. Both backends promise the same.
 */
module Effects {
  import opened Common
  import opened Schema
  import opened Queue
  import Body
  import Circuit
  import Integrity
  import Retry

  // ---- Which rows change ----

  /** No event row but that of `e` changes, and none appears or vanishes. */
  predicate OnlyEvent(before: Db, after: Db, e: EventId) {
    && after.events.Keys == before.events.Keys
    && forall f :: f in before.events && f != e ==> after.events[f] == before.events[f]
  }

  /** No endpoint row but that of `id` changes, and none appears or vanishes. */
  predicate OnlyEndpoint(before: Db, after: Db, id: EndpointId) {
    && after.endpoints.Keys == before.endpoints.Keys
    && forall p :: p in before.endpoints && p != id ==> after.endpoints[p] == before.endpoints[p]
  }

  /** The log grows by exactly one row. */
  predicate LogGrows(before: Db, after: Db, e: EventId, row: Attempt) {
    after.log == before.log[e := (if e in before.log then before.log[e] else []) + [row]]
  }

  predicate SameSettings(before: Endpoint, after: Endpoint) {
    && after.enabled == before.enabled && after.maxAttempts == before.maxAttempts
    && after.initialDelayMs == before.initialDelayMs && after.filter == before.filter
  }

  /** The circuit of `id` is reset, and nothing else happens to endpoints. */
  predicate CircuitReset(before: Db, after: Db, id: EndpointId) {
    && OnlyEndpoint(before, after, id)
    && (id in before.endpoints ==>
        && SameSettings(before.endpoints[id], after.endpoints[id])
        && after.endpoints[id].consecutiveFailures == 0 && after.endpoints[id].circuitOpenUntil.None?)
  }

  // ---- Results ----

  /** A log row; a delivering event is delivered by one more attempt, and its endpoint's circuit reset. */
  predicate SuccessRecorded(before: Db, after: Db, e: EventId, row: Attempt)
    requires e in before.events
  {
    && LogGrows(before, after, e, row) && OnlyEvent(before, after, e)
    && var was, ev := before.events[e], after.events[e];
      if was.status == Delivering then
        && ev.status == Delivered && ev.attempts == was.attempts + 1 && ev.deliveringSince.None?
        && ev.scheduledAt == was.scheduledAt && SameContent(was, ev)
        && CircuitReset(before, after, was.endpointId)
      else ev == was && after.endpoints == before.endpoints
  }

  lemma RecordSuccessDoes(db: Db, e: EventId, row: Attempt)
    ensures e in db.events ==> SuccessRecorded(db, RecordSuccess(db, e, row), e, row)
    ensures e !in db.events ==> RecordSuccess(db, e, row) == db
  {
  }

  /** What an endpoint may have been configured with, and an attempt count below the largest. */
  predicate Ordinary(was: Event, failure: Failure) {
    failure.initialDelayMs >= 1 && 0 <= was.attempts < 0x7FFF_FFFF
  }

  /** The longest wait after the attempt that failed now: doubled with every attempt, at most an hour. */
  function LongestWaitMs(was: Event, failure: Failure): int
    requires Ordinary(was, failure)
  {
    Min(3_600_000, failure.initialDelayMs * Pow2(was.attempts + 1))
  }

  /**
   * A delivering event is dead, or waits for a retry: at least the initial delay, or an hour if
   * that is less, and at most the initial delay doubled with every attempt, or an hour.
   */
  predicate FailedOnce(was: Event, ev: Event, failure: Failure, now: int) {
    && ev.attempts == was.attempts + 1 && ev.deliveringSince.None? && SameContent(was, ev)
    && if ev.attempts >= failure.maxAttempts then ev.status == Dead && ev.scheduledAt == was.scheduledAt
       else
         && ev.status == Failed && now <= ev.scheduledAt <= now + 3_600_000_000
         && (Ordinary(was, failure) ==>
             now + Min(failure.initialDelayMs, 3_600_000) * 1000 <= ev.scheduledAt <= now + LongestWaitMs(was, failure) * 1000)
  }

  /** Minutes a circuit stays open after its f-th failure in a row: 5, doubled with each one more, at most 320. */
  function OpenMinutes(backend: Circuit.Backend, failures: int): int
    requires failures >= 5
  {
    if backend == Circuit.Sqlite && failures > 68 then 0 else Min(5 * Pow2(failures - 5), 320)
  }

  /** One failure more; from the fifth on the circuit is open. */
  predicate FailureCounted(backend: Circuit.Backend, before: Endpoint, after: Endpoint, now: int) {
    && SameSettings(before, after) && after.consecutiveFailures == before.consecutiveFailures + 1
    && after.circuitOpenUntil ==
       if after.consecutiveFailures < 5 then None
       else Some(now + OpenMinutes(backend, after.consecutiveFailures) * 60_000_000)
  }

  /** A log row and a counted failure; a delivering event fails; all other rows stay. */
  predicate FailureRecorded(backend: Circuit.Backend, before: Db, after: Db, e: EventId, failure: Failure, now: int)
    requires e in before.events
  {
    && LogGrows(before, after, e, failure.row) && OnlyEvent(before, after, e)
    && OnlyEndpoint(before, after, failure.endpointId)
    && (if before.events[e].status == Delivering then FailedOnce(before.events[e], after.events[e], failure, now)
        else after.events[e] == before.events[e])
    && (failure.endpointId in before.endpoints ==>
        FailureCounted(backend, before.endpoints[failure.endpointId], after.endpoints[failure.endpointId], now))
  }

  lemma EventFails(ev: Event, failure: Failure, now: int, draw: nat)
    requires ev.status == Delivering
    ensures FailedOnce(ev, EventAfterFailure(ev, failure.maxAttempts, failure.initialDelayMs, now, draw), failure, now)
  {
    if ev.attempts + 1 < failure.maxAttempts {
      Integrity.DelayWithinHour(AsU32(ev.attempts + 1), AsU32(failure.initialDelayMs), draw);
      if Ordinary(ev, failure) {
        AsU32Exact(ev.attempts + 1);
        AsU32Exact(failure.initialDelayMs);
        Retry.DelayRange(ev.attempts + 1, failure.initialDelayMs, RETRY_CAP_MS,
          Retry.NextDelay(ev.attempts + 1, failure.initialDelayMs, RETRY_CAP_MS, draw));
      }
    }
  }

  lemma ScheduledAfter(ev: Event, failure: Failure, now: int, draw: nat)
    requires ev.status == Delivering && Ordinary(ev, failure) && ev.attempts + 1 < failure.maxAttempts
    ensures EventAfterFailure(ev, failure.maxAttempts, failure.initialDelayMs, now, draw).scheduledAt
         == now + Retry.NextDelay(ev.attempts + 1, failure.initialDelayMs, RETRY_CAP_MS, draw) * 1000
  {
    AsU32Exact(ev.attempts + 1);
    AsU32Exact(failure.initialDelayMs);
  }

  /** With the right draw the retry time is any whole number of milliseconds in that range, and never another. */
  lemma RetryTimesExactly(ev: Event, failure: Failure, now: int, waitMs: nat)
    requires ev.status == Delivering && Ordinary(ev, failure) && ev.attempts + 1 < failure.maxAttempts
    ensures (exists draw: nat ::
        EventAfterFailure(ev, failure.maxAttempts, failure.initialDelayMs, now, draw).scheduledAt == now + waitMs * 1000)
      <==> Min(failure.initialDelayMs, 3_600_000) <= waitMs <= LongestWaitMs(ev, failure)
  {
    var attempt := ev.attempts + 1;
    Retry.DelayRange(attempt, failure.initialDelayMs, RETRY_CAP_MS, waitMs);
    if draw: nat :|
        EventAfterFailure(ev, failure.maxAttempts, failure.initialDelayMs, now, draw).scheduledAt == now + waitMs * 1000 {
      ScheduledAfter(ev, failure, now, draw);
      assert Retry.NextDelay(attempt, failure.initialDelayMs, RETRY_CAP_MS, draw) == waitMs;
    }
    if draw: nat :| Retry.NextDelay(attempt, failure.initialDelayMs, RETRY_CAP_MS, draw) == waitMs {
      ScheduledAfter(ev, failure, now, draw);
    }
  }

  lemma EndpointCounts(backend: Circuit.Backend, ep: Endpoint, now: int)
    requires EndpointAfterFailure(backend, ep, now).Some?
    ensures FailureCounted(backend, ep, EndpointAfterFailure(backend, ep, now).value, now)
  {
    var failures := ep.consecutiveFailures + 1;
    if failures >= 5 {
      Circuit.PostgresFollowsSchedule(failures);
      Circuit.SqliteFollowsSchedule(failures);
    }
  }

  /** When a report of failure is written. */
  predicate FailureWritten(backend: Circuit.Backend, before: Db, e: EventId, id: EndpointId) {
    && e in before.events
    && (backend == Circuit.Postgres && id in before.endpoints ==> before.endpoints[id].consecutiveFailures < 1028)
  }

  lemma FailureCommitsMeans(backend: Circuit.Backend, db: Db, e: EventId, failure: Failure, now: int)
    ensures FailureCommits(backend, db, e, failure, now) <==> FailureWritten(backend, db, e, failure.endpointId)
  {
  }

  lemma RecordFailureDoes(backend: Circuit.Backend, db: Db, e: EventId, failure: Failure, now: int, draw: nat)
    ensures var after := RecordFailure(backend, db, e, failure, now, draw);
      if FailureWritten(backend, db, e, failure.endpointId) then FailureRecorded(backend, db, after, e, failure, now)
      else after == db
  {
    FailureCommitsMeans(backend, db, e, failure, now);
    if FailureCommits(backend, db, e, failure, now) {
      if db.events[e].status == Delivering {
        EventFails(db.events[e], failure, now, draw);
      }
      if failure.endpointId in db.endpoints {
        EndpointCounts(backend, db.endpoints[failure.endpointId], now);
      }
    }
  }

  /** A delivering event waits again, due now and with no attempt counted. */
  predicate HandedBack(before: Db, after: Db, e: EventId, now: int) {
    && OnlyEvent(before, after, e) && after.log == before.log && after.endpoints == before.endpoints
    && (e in before.events ==>
        var was, ev := before.events[e], after.events[e];
        if was.status == Delivering then
          && ev.status == Pending && ev.deliveringSince.None? && ev.scheduledAt == now
          && ev.attempts == was.attempts && SameContent(was, ev)
        else ev == was)
  }

  lemma ResetToPendingDoes(db: Db, e: EventId, now: int)
    ensures HandedBack(db, ResetToPending(db, e, now), e, now)
  {
  }

  /** A log row; a delivering event is dead, with no attempt counted. */
  predicate ClosedAsMissing(before: Db, after: Db, e: EventId, row: Attempt)
    requires e in before.events
  {
    && OnlyEvent(before, after, e) && LogGrows(before, after, e, row) && after.endpoints == before.endpoints
    && var was, ev := before.events[e], after.events[e];
      if was.status == Delivering then
        && ev.status == Dead && ev.deliveringSince.None? && ev.attempts == was.attempts
        && ev.scheduledAt == was.scheduledAt && SameContent(was, ev)
      else ev == was
  }

  lemma RecordEndpointDeletedDoes(db: Db, e: EventId, row: Attempt)
    ensures e in db.events ==> ClosedAsMissing(db, RecordEndpointDeleted(db, e, row), e, row)
    ensures e !in db.events ==> RecordEndpointDeleted(db, e, row) == db
  {
  }

  // ---- The answer to a request ----

  /** A stored body is the longest run of whole characters of the text that fits into 4096 bytes. */
  predicate StoredBody(text: string, stored: Option<seq<Body.byte>>) {
    exists k :: 0 <= k <= |text| && Body.LongestFit(text, 4096, k) && stored == Some(Body.Encode(text[..k]))
  }

  /** The log row of a success. */
  predicate SuccessLogged(row: Attempt, response: int, body: Option<string>, now: int) {
    && row.success && row.attemptedAt == now && row.responseStatus == Some(response)
    && if body.None? then row.responseBody.None? else StoredBody(body.value, row.responseBody)
  }

  /** A success recorded with this log row. */
  predicate SuccessWritten(before: Db, after: Db, e: EventId, response: int, body: Option<string>, now: int)
    requires e in before.events
  {
    && e in after.log && after.log[e] != []
    && var row := after.log[e][|after.log[e]| - 1];
      SuccessLogged(row, response, body, now) && SuccessRecorded(before, after, e, row)
  }

  lemma SuccessRowDoes(response: int, body: Option<string>, now: int)
    ensures SuccessLogged(SuccessRow(response, body, now), response, body, now)
  {
    if body.Some? {
      var k := Body.TruncateKeepsLongestPrefix(body.value, 4096);
    }
  }

  lemma SuccessIsWritten(db: Db, e: EventId, response: int, body: Option<string>, now: int)
    requires e in db.events
    ensures SuccessWritten(db, RecordSuccess(db, e, SuccessRow(response, body, now)), e, response, body, now)
  {
    RecordSuccessDoes(db, e, SuccessRow(response, body, now));
    SuccessRowDoes(response, body, now);
  }

  /** The status codes that count as success. */
  predicate Accepted(response: Body.Response) {
    response.Answer? && 200 <= response.code < 300
  }

  /** The text the first 4096 of the bytes that arrived decode to; none if none arrived. */
  function ArrivedText(arrived: seq<Body.byte>, decode: seq<Body.byte> -> string): Option<string> {
    if arrived == [] then None else Some(decode(if |arrived| <= 4096 then arrived else arrived[..4096]))
  }

  lemma ArrivedTextMeans(arrived: seq<Body.byte>, decode: seq<Body.byte> -> string)
    ensures var buf := Body.Take(arrived, Body.MAX_RESPONSE_BODY_BYTES);
      ArrivedText(arrived, decode) == if buf == [] then None else Some(decode(buf))
  {
    if |arrived| == 4096 {
      assert arrived[..4096] == arrived;
    }
  }

  /**
   * The answer is recorded: a log row says whether its status was in 200..300; a delivering event
   * is delivered exactly then, and otherwise failed or dead; all the rest is as for success or failure.
   */
  predicate AnswerRecorded(backend: Circuit.Backend, before: Db, after: Db, e: EventId, id: EndpointId, endpoint: Endpoint,
      response: Body.Response, text: Option<string>, now: int)
    requires e in before.events
  {
    && e in after.events && e in after.log && after.log[e] != []
    && var row := after.log[e][|after.log[e]| - 1];
    && row.success == (response.Answer? && 200 <= response.code < 300)
    && row.attemptedAt == now && row.responseStatus == (if response.Answer? then Some(response.code) else None)
    && (if response.Answer? && 200 <= response.code < 300 then
          SuccessLogged(row, response.code, text, now) && SuccessRecorded(before, after, e, row)
        else
          row.responseBody.None? && FailureRecorded(backend, before, after, e,
            Failure(id, endpoint.maxAttempts, endpoint.initialDelayMs, row), now))
    && (before.events[e].status == Delivering ==>
        && (after.events[e].status == Delivered <==> response.Answer? && 200 <= response.code < 300)
        && after.events[e].status in {Delivered, Failed, Dead})
  }

  /** The answer is recorded, unless the event is gone or the failure cannot be written. */
  predicate Answered(backend: Circuit.Backend, before: Db, after: Db, e: EventId, id: EndpointId, endpoint: Endpoint,
      response: Body.Response, text: Option<string>, now: int) {
    if e in before.events && (Accepted(response) || FailureWritten(backend, before, e, id))
    then AnswerRecorded(backend, before, after, e, id, endpoint, response, text, now)
    else after == before
  }

  lemma SuccessAnswers(backend: Circuit.Backend, db: Db, e: EventId, id: EndpointId, endpoint: Endpoint,
      response: Body.Response, text: Option<string>, now: int)
    requires response.Answer? && 200 <= response.code < 300
    ensures Answered(backend, db, RecordSuccess(db, e, SuccessRow(response.code, text, now)), e, id, endpoint, response, text, now)
  {
    RecordSuccessDoes(db, e, SuccessRow(response.code, text, now));
    SuccessRowDoes(response.code, text, now);
  }

  lemma FailureAnswers(backend: Circuit.Backend, db: Db, e: EventId, id: EndpointId, endpoint: Endpoint,
      response: Body.Response, text: Option<string>, now: int, draw: nat)
    requires response.Answer? ==> !(200 <= response.code < 300)
    ensures var row := Attempt(false, now, if response.Answer? then Some(response.code) else None, None);
      Answered(backend, db, RecordFailure(backend, db, e, Failure(id, endpoint.maxAttempts, endpoint.initialDelayMs, row), now, draw),
        e, id, endpoint, response, text, now)
  {
    var row := Attempt(false, now, if response.Answer? then Some(response.code) else None, None);
    RecordFailureDoes(backend, db, e, Failure(id, endpoint.maxAttempts, endpoint.initialDelayMs, row), now, draw);
  }

  // ---- Claims ----

  /** A waiting event whose time has come, of an enabled endpoint whose circuit is closed or was open long enough. */
  predicate MayBeClaimed(db: Db, e: EventId, now: int) {
    && e in db.events
    && var ev := db.events[e];
      && (ev.status == Pending || ev.status == Failed) && ev.scheduledAt <= now
      && ev.endpointId in db.endpoints
      && var ep := db.endpoints[ev.endpointId];
        ep.enabled && (ep.circuitOpenUntil.None? || ep.circuitOpenUntil.value <= now)
  }

  lemma DueMeans(db: Db, e: EventId, now: int)
    ensures e in DueEvents(db, now) <==> MayBeClaimed(db, e, now)
  {
  }

  /** The chosen events may be claimed, and a batch that is not full leaves none behind that may be. */
  predicate RightlyChosen(db: Db, chosen: set<EventId>, locked: set<EventId>, limit: nat, now: int) {
    && (forall e :: e in chosen ==> MayBeClaimed(db, e, now) && e !in locked)
    && |chosen| <= limit
    && (|chosen| < limit ==> forall e :: e in db.events && MayBeClaimed(db, e, now) && e !in locked ==> e in chosen)
    && (forall e, f :: e in chosen && f in db.events && MayBeClaimed(db, f, now) && f !in locked && f !in chosen ==>
        e in db.events && db.events[e].scheduledAt <= db.events[f].scheduledAt)
  }

  /** Exactly the chosen events are delivering now, with schedule and attempts kept; nothing else changes. */
  predicate OnlyClaimed(before: Db, after: Db, chosen: set<EventId>, now: int) {
    && after.events.Keys == before.events.Keys && after.log == before.log && after.endpoints == before.endpoints
    && forall e :: e in before.events ==>
        var was, ev := before.events[e], after.events[e];
        if e in chosen then
          && ev.status == Delivering && ev.deliveringSince == Some(now) && ev.attempts == was.attempts
          && ev.scheduledAt == was.scheduledAt && SameContent(was, ev)
        else ev == was
  }

  lemma WholeSet(chosen: set<EventId>, candidates: set<EventId>)
    requires chosen <= candidates && |chosen| == |candidates|
    ensures chosen == candidates
  {
    assert candidates == chosen + (candidates - chosen);
  }

  lemma EarliestIsRight(db: Db, chosen: set<EventId>, locked: set<EventId>, limit: nat, now: int)
    requires Earliest(db, DueEvents(db, now) - locked, limit, chosen)
    ensures RightlyChosen(db, chosen, locked, limit, now)
  {
    var candidates := DueEvents(db, now) - locked;
    forall e ensures e in candidates <==> MayBeClaimed(db, e, now) && e !in locked {
      DueMeans(db, e, now);
    }
    if |chosen| < limit {
      WholeSet(chosen, candidates);
    }
  }

  /** Without a limit every event that may be claimed is. */
  lemma AllAreChosen(db: Db, chosen: set<EventId>, now: int)
    requires Earliest(db, DueEvents(db, now), |DueEvents(db, now)|, chosen)
    ensures RightlyChosen(db, chosen, {}, |chosen| + 1, now)
  {
    WholeSet(chosen, DueEvents(db, now));
    forall e ensures e in chosen <==> MayBeClaimed(db, e, now) {
      DueMeans(db, e, now);
    }
  }

  lemma ClaimDoes(db: Db, chosen: set<EventId>, now: int)
    ensures OnlyClaimed(db, Claim(db, chosen, now), chosen, now)
  {
  }

  // ---- Endpoints ----

  function Given<T>(o: Option<T>, otherwise: T): T {
    match o
    case None => otherwise
    case Some(value) => value
  }

  /** A new row with the given settings or the defaults, enabled and with its circuit closed; nothing else changes. */
  predicate EndpointCreated(before: Db, after: Db, id: EndpointId, config: NewEndpoint) {
    && after.events == before.events && after.log == before.log
    && id in after.endpoints && after.endpoints.Keys == before.endpoints.Keys + {id}
    && (forall p :: p in before.endpoints && p != id ==> after.endpoints[p] == before.endpoints[p])
    && var ep := after.endpoints[id];
      && ep.enabled && ep.maxAttempts == Given(config.maxAttempts, 10) && ep.initialDelayMs == Given(config.initialDelayMs, 1000)
      && ep.filter == config.filter && ep.consecutiveFailures == 0 && ep.circuitOpenUntil.None?
  }

  lemma CreateDoes(db: Db, id: EndpointId, config: NewEndpoint)
    ensures EndpointCreated(db, Create(db, id, config), id, config)
  {
  }

  /** The given settings replace the stored ones, the circuit stays, nothing else changes. */
  predicate EndpointUpdated(before: Db, after: Db, id: EndpointId, update: UpdateEndpoint) {
    && after.events == before.events && after.log == before.log && OnlyEndpoint(before, after, id)
    && (id in before.endpoints ==>
        var was, ep := before.endpoints[id], after.endpoints[id];
        && ep.enabled == Given(update.enabled, was.enabled) && ep.maxAttempts == Given(update.maxAttempts, was.maxAttempts)
        && ep.initialDelayMs == Given(update.initialDelayMs, was.initialDelayMs)
        && ep.filter == Given(update.filter, was.filter)
        && ep.consecutiveFailures == was.consecutiveFailures && ep.circuitOpenUntil == was.circuitOpenUntil)
  }

  lemma UpdateDoes(db: Db, id: EndpointId, update: UpdateEndpoint)
    ensures EndpointUpdated(db, Update(db, id, update), id, update)
  {
  }

  /** Exactly the events of `stays` are there, with the rows they had. */
  predicate RowsKept(before: Db, after: Db, stays: set<EventId>) {
    && after.events.Keys == stays <= before.events.Keys
    && forall e :: e in stays ==> after.events[e] == before.events[e]
  }

  /** Their log is as it was, and the log of the others is gone. */
  predicate LogsKept(before: Db, after: Db, stays: set<EventId>) {
    && (forall e :: e in before.log && (e in stays || e !in before.events) ==> e in after.log && after.log[e] == before.log[e])
    && (forall e :: e in after.log ==> e in before.log && (e in stays || e !in before.events))
  }

  predicate Kept(before: Db, after: Db, stays: set<EventId>) {
    RowsKept(before, after, stays) && LogsKept(before, after, stays)
  }

  function Elsewhere(db: Db, id: EndpointId): set<EventId> {
    set e | e in db.events && db.events[e].endpointId != id
  }

  lemma ElsewhereAfter(db: Db, id: EndpointId)
    ensures Elsewhere(db, id) == db.events.Keys - EventsOf(db, id)
    ensures EventsOf(db, id) <= db.events.Keys
  {
  }

  /** The endpoint vanishes with exactly the events that belong to it. */
  predicate EndpointDeleted(before: Db, after: Db, id: EndpointId) {
    if id in before.endpoints then
      && after.endpoints == before.endpoints - {id}
      && Kept(before, after, Elsewhere(before, id))
    else after == before
  }

  lemma DeleteDoes(db: Db, id: EndpointId)
    ensures EndpointDeleted(db, Delete(db, id), id)
  {
    if id in db.endpoints {
      ElsewhereAfter(db, id);
      WithoutDoes(db, EventsOf(db, id));
    }
  }

  // ---- New events and old ones ----

  /** A pending event with this content, created and due now. */
  predicate IsNew(ev: Event, id: EndpointId, eventType: string, payload: string, key: Option<string>, now: int) {
    && ev.endpointId == id && ev.eventType == eventType && ev.payload == payload && ev.idempotencyKey == key
    && ev.createdAt == now && ev.scheduledAt == now && ev.status == Pending && ev.attempts == 0 && ev.deliveringSince.None?
  }

  /** An event of the endpoint has this key. */
  predicate KeyInUse(db: Db, id: EndpointId, key: Option<string>) {
    key.Some? && exists e :: e in db.events && db.events[e].endpointId == id && db.events[e].idempotencyKey == key
  }

  /** One event more, without log rows, if the endpoint exists and the key is not in use; nothing else changes. */
  predicate EventEnqueued(before: Db, after: Db, e: EventId, id: EndpointId, eventType: string, payload: string,
      key: Option<string>, now: int) {
    if id in before.endpoints && !KeyInUse(before, id, key) then
      && after.endpoints == before.endpoints
      && e in after.events && after.events == before.events[e := after.events[e]] && after.log == before.log[e := []]
      && IsNew(after.events[e], id, eventType, payload, key, now)
    else after == before
  }

  lemma EnqueueDoes(db: Db, e: EventId, id: EndpointId, eventType: string, payload: string, key: Option<string>, now: int)
    ensures EventEnqueued(db, Enqueue(db, e, id, eventType, payload, key, now), e, id, eventType, payload, key, now)
  {
  }

  /** Not of the status, or created no longer ago than that. */
  predicate Remains(ev: Event, status: Status, now: int, olderThanSecs: int) {
    ev.status != status || ev.createdAt >= now - olderThanSecs * 1_000_000
  }

  /** An event that remains keeps row and log; any other is gone with its log, and none is new. */
  predicate RowCleaned(before: Db, after: Db, status: Status, now: int, olderThanSecs: int, e: EventId) {
    if e in before.events && Remains(before.events[e], status, now, olderThanSecs) then
      && e in after.events && after.events[e] == before.events[e]
      && (e in after.log <==> e in before.log) && (e in before.log ==> after.log[e] == before.log[e])
    else e !in after.events && (e in before.events ==> e !in after.log)
  }

  /** Exactly the events of the status that are older than that vanish, with their log; nothing else changes. */
  ghost predicate CleanedUp(before: Db, after: Db, status: Status, now: int, olderThanSecs: int) {
    after.endpoints == before.endpoints && forall e :: RowCleaned(before, after, status, now, olderThanSecs, e)
  }

  lemma Parts(whole: set<EventId>, a: set<EventId>, b: set<EventId>)
    requires whole == a + b && a !! b
    ensures |whole| == |a| + |b|
  {
  }

  lemma WithoutRows(db: Db, gone: set<EventId>)
    ensures RowsKept(db, Without(db, gone), db.events.Keys - gone)
  {
  }

  lemma WithoutLogs(db: Db, gone: set<EventId>)
    requires gone <= db.events.Keys
    ensures LogsKept(db, Without(db, gone), db.events.Keys - gone)
  {
  }

  lemma WithoutDoes(db: Db, gone: set<EventId>)
    requires gone <= db.events.Keys
    ensures Kept(db, Without(db, gone), db.events.Keys - gone)
    ensures |gone| == |db.events| - |Without(db, gone).events|
  {
    WithoutRows(db, gone);
    WithoutLogs(db, gone);
    Parts(db.events.Keys, Without(db, gone).events.Keys, gone);
  }

  lemma CleanupDoes(db: Db, status: Status, now: int, olderThanSecs: int)
    ensures CleanedUp(db, Cleanup(db, status, Ago(now, olderThanSecs)), status, now, olderThanSecs)
  {
    var after := Cleanup(db, status, Ago(now, olderThanSecs));
    forall e ensures RowCleaned(db, after, status, now, olderThanSecs, e) {
    }
  }

  // ---- The reaper and the dead letters ----

  /** Every stuck event waits again, with its schedule and attempts; nothing else changes. */
  predicate StuckReleased(before: Db, after: Db, cutoff: int) {
    && after.events.Keys == before.events.Keys && after.log == before.log && after.endpoints == before.endpoints
    && forall e :: e in before.events ==>
        var was, ev := before.events[e], after.events[e];
        if was.status == Delivering && was.deliveringSince.Some? && was.deliveringSince.value < cutoff then
          && ev.status == Pending && ev.deliveringSince.None? && ev.attempts == was.attempts
          && ev.scheduledAt == was.scheduledAt && SameContent(was, ev)
        else ev == was
  }

  lemma RecoverDoes(db: Db, cutoff: int)
    ensures StuckReleased(db, Recover(db, cutoff), cutoff)
  {
  }

  /** The event waits again as if new. */
  predicate Afresh(was: Event, ev: Event, now: int) {
    && ev.status == Pending && ev.attempts == 0 && ev.scheduledAt == now && ev.deliveringSince.None?
    && SameContent(was, ev)
  }

  /** The dead event waits afresh, the circuit of the endpoint is reset; nothing else changes. */
  predicate DeadRetried(before: Db, after: Db, e: EventId, id: EndpointId, now: int)
    requires e in before.events
  {
    && OnlyEvent(before, after, e) && after.log == before.log
    && Afresh(before.events[e], after.events[e], now) && CircuitReset(before, after, id)
  }

  lemma RetryDeadDoes(db: Db, e: EventId, id: EndpointId, now: int)
    ensures var after := RetryDead(db, e, Some(id), now);
      if e in db.events && db.events[e].status == Dead then DeadRetried(db, after, e, id, now) else after == db
  {
  }

  /** Exactly the dead events of the endpoint wait afresh, and its circuit is reset. */
  predicate AllDeadRetried(before: Db, after: Db, id: EndpointId, now: int) {
    && after.events.Keys == before.events.Keys && after.log == before.log && CircuitReset(before, after, id)
    && forall e :: e in before.events ==>
        if before.events[e].endpointId == id && before.events[e].status == Dead
        then Afresh(before.events[e], after.events[e], now) else after.events[e] == before.events[e]
  }

  lemma RetryAllDeadDoes(db: Db, id: EndpointId, now: int)
    ensures AllDeadRetried(db, RetryAllDead(db, id, now), id, now)
  {
  }
}
