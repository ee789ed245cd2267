/**
 * The SQLite delivery worker: one cycle recovers stuck events, claims a batch and
 * delivers it one event after the other; the graceful loop runs cycles until told to stop.
 */
module SqliteWorker {
  import opened Bounds
  import opened Common
  import opened Interference
  import opened Queue
  import opened Schema
  import opened SqliteStore
  import Body
  import Circuit
  import Effects
  import Integrity
  import Select

  const BATCH_SIZE := 50
  const STUCK_TIMEOUT_SECS := 120

  /**
   * Everything one cycle does not decide itself: the answer, the random draw and the time
   * passing for each event, and what others do to the tables before its delivery and while
   * its request is out.
   */
  datatype Env = Env(
    respond: EventId -> Body.Response,
    draw: EventId -> nat,
    elapsed: EventId -> nat,
    others: Others,
    meanwhile: Others,
    decode: seq<Body.byte> -> string)

  ghost predicate LawfulEnv(env: Env) {
    AllLawful(env.others) && AllLawful(env.meanwhile)
  }

  /** Others keep attempts within limits, and leave the limits alone. */
  ghost predicate LimitsRespected(env: Env) {
    AllKeepBounds(env.others) && AllKeepBounds(env.meanwhile)
  }

  /** Others do nothing but disable endpoints. */
  ghost predicate Quiet(env: Env) {
    AllOnlyDisable(env.others) && AllOnlyDisable(env.meanwhile)
  }

  lemma QuietIsLawful(env: Env)
    requires Quiet(env)
    ensures LawfulEnv(env) && LimitsRespected(env)
  {
    DisablersAreLawful(env.others);
    DisablersAreLawful(env.meanwhile);
  }

  // ---- One delivery, as a function on the tables ----

  function BodyText(response: Body.Response, decode: seq<Body.byte> -> string): Option<string>
    requires response.Answer?
  {
    var buf := Body.Take(Body.SkippingErrors(response.chunks), Body.MAX_RESPONSE_BODY_BYTES);
    if buf == [] then None else Some(decode(buf))
  }

  /** The bytes of an answer that arrive. */
  function Arrived(response: Body.Response): seq<Body.byte> {
    if response.Answer? then Body.SkippingErrors(response.chunks) else []
  }

  /** The report about a failed delivery, with the endpoint as it was read. */
  function FailureReport(id: EndpointId, endpoint: Endpoint, response: Body.Response, now: int): Failure {
    Failure(id, endpoint.maxAttempts, endpoint.initialDelayMs,
      Attempt(false, now, if response.Answer? then Some(response.code) else None, None))
  }

  /** The answer for an event is recorded. */
  function Report(db: Db, e: EventId, id: EndpointId, endpoint: Endpoint, response: Body.Response,
      decode: seq<Body.byte> -> string, draw: nat, now: int): Db
  {
    if Body.Success(response) then
      RecordSuccess(db, e, SuccessRow(response.code, BodyText(response, decode), now))
    else
      RecordFailure(Circuit.Sqlite, db, e, FailureReport(id, endpoint, response, now), now, draw)
  }

  /** An event claimed for endpoint `id` is delivered: the endpoint is read, others act, the answer is recorded. */
  function Deliver(db: Db, e: EventId, id: EndpointId, env: Env, now: int): Db {
    if id !in db.endpoints then RecordEndpointDeleted(db, e, Attempt(false, now, None, None))
    else if !db.endpoints[id].enabled then ResetToPending(db, e, now)
    else Report(Act(env.meanwhile, e, db), e, id, db.endpoints[id], env.respond(e), env.decode, env.draw(e), now)
  }

  /** One turn of a batch: others may have acted, then the event is delivered. */
  function Turn(db: Db, e: EventId, id: EndpointId, env: Env, now: int): Db {
    Deliver(Act(env.others, e, db), e, id, env, now)
  }

  function TimeAfter(ids: seq<EventId>, env: Env, start: int): (now: int)
    ensures now >= start
  {
    if ids == [] then start else TimeAfter(ids[..|ids| - 1], env, start) + env.elapsed(ids[|ids| - 1])
  }

  function HomeOf(base: Db, e: EventId): EndpointId {
    if e in base.events then base.events[e].endpointId else 0
  }

  /** The tables after a claimed batch was delivered, one event after the other. */
  function AfterBatch(base: Db, ids: seq<EventId>, env: Env, start: int): Db {
    if ids == [] then base
    else
      var last := |ids| - 1;
      Turn(AfterBatch(base, ids[..last], env, start), ids[last], HomeOf(base, ids[last]), env, TimeAfter(ids, env, start))
  }

  function Recovered(db: Db, start: int): Db {
    Recover(db, Ago(start, STUCK_TIMEOUT_SECS))
  }

  /** The tables after a cycle that claimed `ids`. */
  function AfterCycle(before: Db, ids: seq<EventId>, env: Env, start: int): Db {
    AfterBatch(Claim(Recovered(before, start), Select.Elements(ids), start), ids, env, start)
  }

  /** A cycle claims the earliest due events, once stuck events were recovered. */
  predicate Claims(before: Db, ids: seq<EventId>, start: int) {
    && Select.Distinct(ids)
    && Earliest(Recovered(before, start), DueEvents(Recovered(before, start), start), BATCH_SIZE, Select.Elements(ids))
  }

  // ---- What a delivery and a cycle achieve ----

  /**
   * How a claimed event stands after its delivery: delivered, failed with a later retry
   * time, dead, or handed back because its endpoint is disabled; never delivering.
   */
  predicate Settled(prior: Event, after: Db, e: EventId, start: int)
    requires e in after.events
  {
    var ev := after.events[e];
    && ev.endpointId == prior.endpointId && ev.idempotencyKey == prior.idempotencyKey && ev.createdAt == prior.createdAt
    && ev.eventType == prior.eventType && ev.payload == prior.payload && ev.deliveringSince == None
    && match ev.status
       case Delivered => ev.attempts == prior.attempts + 1
       case Dead => ev.attempts == prior.attempts + 1
       case Failed => ev.attempts == prior.attempts + 1 && ev.scheduledAt > start
       case Pending => ev.attempts == prior.attempts && ev.endpointId in after.endpoints && !after.endpoints[ev.endpointId].enabled
       case Delivering => false
  }

  /** The endpoints that none of the events belongs to. */
  function Idle(db: Db, ids: set<EventId>): set<EndpointId> {
    set p | p in db.endpoints && EventsOf(db, p) !! ids
  }

  predicate SameCircuits(before: Db, after: Db, ids: set<EndpointId>) {
    forall p {:trigger p in ids} :: p in ids ==>
      p in before.endpoints && p in after.endpoints && SameCircuit(before.endpoints[p], after.endpoints[p])
  }

  /** The delivery of `e` settles it, and touches no other event and no other endpoint's circuit. */
  predicate DeliversOne(before: Db, after: Db, e: EventId, start: int) {
    && after.events.Keys == before.events.Keys && after.endpoints.Keys == before.endpoints.Keys
    && e in before.events && Settled(before.events[e], after, e, start)
    && (forall f :: f in before.events && f != e ==> after.events[f] == before.events[f])
    && (forall p :: p in before.endpoints && after.endpoints[p].enabled ==> before.endpoints[p].enabled)
    && (forall p :: p in before.endpoints && p != before.events[e].endpointId ==>
        SameCircuit(before.endpoints[p], after.endpoints[p]))
  }

  lemma FailureDelivers(db: Db, e: EventId, failure: Failure, draw: nat, now: int)
    requires Consistent(db) && IsDelivering(db, e)
    requires failure.endpointId == db.events[e].endpointId && failure.initialDelayMs >= 1
    ensures DeliversOne(db, RecordFailure(Circuit.Sqlite, db, e, failure, now, draw), e, now)
  {
    assert EventOk(db, e);
    Integrity.EventAfterFailureShape(db.events[e], failure.maxAttempts, failure.initialDelayMs, now, draw);
    if db.events[e].attempts + 1 < failure.maxAttempts {
      Integrity.RetriedRow(db.events[e], failure.maxAttempts, failure.initialDelayMs, now, draw);
    }
  }

  lemma SuccessDelivers(db: Db, e: EventId, row: Attempt, now: int)
    requires Consistent(db) && IsDelivering(db, e)
    ensures DeliversOne(db, RecordSuccess(db, e, row), e, now)
  {
  }

  lemma DisabledDelivers(db: Db, e: EventId, now: int)
    requires Consistent(db) && IsDelivering(db, e)
    requires db.events[e].endpointId in db.endpoints && !db.endpoints[db.events[e].endpointId].enabled
    ensures DeliversOne(db, ResetToPending(db, e, now), e, now)
  {
  }

  /** Disabling endpoints first does not change what a delivery achieves. */
  lemma DisabledThenDelivered(before: Db, middle: Db, after: Db, e: EventId, now: int)
    requires OnlyDisables(before, middle) && DeliversOne(middle, after, e, now)
    ensures DeliversOne(before, after, e, now)
  {
  }

  lemma ReportDelivers(db: Db, e: EventId, endpoint: Endpoint, env: Env, now: int)
    requires Consistent(db) && IsDelivering(db, e) && endpoint.initialDelayMs >= 1
    ensures DeliversOne(db, Report(db, e, db.events[e].endpointId, endpoint, env.respond(e), env.decode, env.draw(e), now), e, now)
  {
    var response := env.respond(e);
    if Body.Success(response) {
      SuccessDelivers(db, e, SuccessRow(response.code, BodyText(response, env.decode), now), now);
    } else {
      FailureDelivers(db, e, FailureReport(db.events[e].endpointId, endpoint, response, now), env.draw(e), now);
    }
  }

  /** Whatever the network answers, a delivery settles its event, even if endpoints are disabled meanwhile. */
  lemma DeliverSettles(db: Db, e: EventId, env: Env, now: int)
    requires Consistent(db) && IsDelivering(db, e) && Quiet(env)
    ensures DeliversOne(db, Deliver(db, e, db.events[e].endpointId, env, now), e, now)
  {
    assert EventOk(db, e);
    var id := db.events[e].endpointId;
    if db.endpoints[id].enabled {
      var middle := Act(env.meanwhile, e, db);
      assert OnlyDisables(db, middle);
      DisablingIsLawful(db, middle);
      ReportDelivers(middle, e, db.endpoints[id], env, now);
      DisabledThenDelivered(db, middle, Report(middle, e, id, db.endpoints[id], env.respond(e), env.decode, env.draw(e), now), e, now);
    } else {
      DisabledDelivers(db, e, now);
    }
  }

  // ---- A delivery among others ----

  /** Afterwards `e` is not delivering, nor anything else that was not so before. */
  predicate Ends(before: Db, after: Db, e: EventId) {
    Lawful(before, after) && !IsDelivering(after, e)
  }

  lemma SuccessEnds(db: Db, e: EventId, row: Attempt)
    ensures StartsNothing(db, RecordSuccess(db, e, row)) && !IsDelivering(RecordSuccess(db, e, row), e)
  {
  }

  lemma FailureEnds(db: Db, e: EventId, failure: Failure, now: int, draw: nat)
    ensures var after := RecordFailure(Circuit.Sqlite, db, e, failure, now, draw);
      StartsNothing(db, after) && !IsDelivering(after, e)
  {
    if e in db.events {
      Integrity.EventAfterFailureShape(db.events[e], failure.maxAttempts, failure.initialDelayMs, now, draw);
      var after := RecordFailure(Circuit.Sqlite, db, e, failure, now, draw);
      assert after.events == db.events[e := after.events[e]];
    }
  }

  lemma ResetEnds(db: Db, e: EventId, now: int)
    ensures StartsNothing(db, ResetToPending(db, e, now)) && !IsDelivering(ResetToPending(db, e, now), e)
  {
  }

  lemma ReportEnds(db: Db, e: EventId, id: EndpointId, endpoint: Endpoint, env: Env, now: int)
    requires Consistent(db)
    ensures Ends(db, Report(db, e, id, endpoint, env.respond(e), env.decode, env.draw(e), now), e)
  {
    var response := env.respond(e);
    if Body.Success(response) {
      var row := SuccessRow(response.code, BodyText(response, env.decode), now);
      Integrity.RecordSuccessKeeps(db, e, row);
      SuccessEnds(db, e, row);
    } else {
      var failure := FailureReport(id, endpoint, response, now);
      Integrity.RecordFailureKeeps(Circuit.Sqlite, db, e, failure, now, env.draw(e));
      FailureEnds(db, e, failure, now, env.draw(e));
    }
  }

  /** Whatever others do meanwhile, a delivery ends with its event not delivering and the tables consistent. */
  lemma DeliverEnds(db: Db, e: EventId, id: EndpointId, env: Env, now: int)
    requires Consistent(db) && LawfulEnv(env)
    ensures Ends(db, Deliver(db, e, id, env, now), e)
  {
    if id !in db.endpoints {
      Integrity.RecordEndpointDeletedKeeps(db, e, Attempt(false, now, None, None));
    } else if !db.endpoints[id].enabled {
      Integrity.ResetToPendingKeeps(db, e, now);
      ResetEnds(db, e, now);
    } else {
      var middle := Act(env.meanwhile, e, db);
      assert Lawful(db, middle);
      ReportEnds(middle, e, id, db.endpoints[id], env, now);
      StartsNothingTwice(db, middle, Report(middle, e, id, db.endpoints[id], env.respond(e), env.decode, env.draw(e), now));
    }
  }

  lemma TurnEnds(db: Db, e: EventId, id: EndpointId, env: Env, now: int)
    requires Consistent(db) && LawfulEnv(env)
    ensures Ends(db, Turn(db, e, id, env, now), e)
  {
    var ready := Act(env.others, e, db);
    assert Lawful(db, ready);
    DeliverEnds(ready, e, id, env, now);
    StartsNothingTwice(db, ready, Turn(db, e, id, env, now));
  }

  // ---- A delivery and the attempt limit ----

  /** If the event is still delivering, it belongs to the given endpoint. */
  predicate HomeIs(db: Db, e: EventId, id: EndpointId) {
    IsDelivering(db, e) ==> db.events[e].endpointId == id
  }

  lemma ReportKeepsBounds(db: Db, e: EventId, id: EndpointId, endpoint: Endpoint, env: Env, now: int)
    requires Consistent(db) && Bounded(db) && HomeIs(db, e, id)
    requires id in db.endpoints ==> endpoint.maxAttempts == db.endpoints[id].maxAttempts
    ensures Bounded(Report(db, e, id, endpoint, env.respond(e), env.decode, env.draw(e), now))
  {
    var response := env.respond(e);
    if Body.Success(response) {
      Bounds.RecordSuccessKeeps(db, e, SuccessRow(response.code, BodyText(response, env.decode), now));
    } else {
      Bounds.RecordFailureKeeps(Circuit.Sqlite, db, e, FailureReport(id, endpoint, response, now), now, env.draw(e));
    }
  }

  /** A delivery keeps every event within its attempt limit, though it works with the endpoint as it was read. */
  lemma DeliverKeepsBounds(db: Db, e: EventId, id: EndpointId, env: Env, now: int)
    requires Consistent(db) && Bounded(db) && HomeIs(db, e, id) && LawfulEnv(env) && LimitsRespected(env)
    ensures Bounded(Deliver(db, e, id, env, now))
  {
    if id !in db.endpoints {
      assert e in db.events ==> EventOk(db, e);
      Bounds.RecordEndpointDeletedKeeps(db, e, Attempt(false, now, None, None));
    } else if !db.endpoints[id].enabled {
      Bounds.ResetToPendingKeeps(db, e, now);
    } else {
      var middle := Act(env.meanwhile, e, db);
      assert Lawful(db, middle) && KeepsBounds(db, middle);
      ReportKeepsBounds(middle, e, id, db.endpoints[id], env, now);
    }
  }

  lemma TurnKeepsBounds(db: Db, e: EventId, id: EndpointId, env: Env, now: int)
    requires Consistent(db) && Bounded(db) && HomeIs(db, e, id) && LawfulEnv(env) && LimitsRespected(env)
    ensures Bounded(Turn(db, e, id, env, now))
  {
    var ready := Act(env.others, e, db);
    assert Lawful(db, ready) && KeepsBounds(db, ready);
    DeliverKeepsBounds(ready, e, id, env, now);
  }

  // ---- A batch ----

  /** The first `i` events of a claimed batch are settled, everything else is as it was. */
  predicate Progress(base: Db, current: Db, ids: seq<EventId>, i: nat, start: int)
    requires i <= |ids|
  {
    && current.events.Keys == base.events.Keys && current.endpoints.Keys == base.endpoints.Keys
    && (forall j :: 0 <= j < i ==> ids[j] in base.events && Settled(base.events[ids[j]], current, ids[j], start))
    && (forall f :: f in base.events && f !in ids[..i] ==> current.events[f] == base.events[f])
    && (forall p :: p in base.endpoints && current.endpoints[p].enabled ==> base.endpoints[p].enabled)
    && SameCircuits(base, current, Idle(base, Select.Elements(ids[..i])))
  }

  lemma ProgressDisable(base: Db, current: Db, ready: Db, ids: seq<EventId>, i: nat, start: int)
    requires i <= |ids| && Progress(base, current, ids, i, start) && OnlyDisables(current, ready)
    ensures Progress(base, ready, ids, i, start)
  {
    forall j | 0 <= j < i ensures Settled(base.events[ids[j]], ready, ids[j], start) {
      assert Settled(base.events[ids[j]], current, ids[j], start);
    }
  }

  /** An endpoint that stays idle when one more event is delivered. */
  lemma IdleShrinks(base: Db, ids: set<EventId>, e: EventId, p: EndpointId)
    requires e in base.events && p in Idle(base, ids + {e})
    ensures p in Idle(base, ids) && p != base.events[e].endpointId
  {
    assert e in EventsOf(base, base.events[e].endpointId);
  }

  lemma CircuitsDeliver(base: Db, current: Db, after: Db, ids: set<EventId>, e: EventId, start: int)
    requires e in base.events && current.events.Keys == base.events.Keys && current.events[e] == base.events[e]
    requires SameCircuits(base, current, Idle(base, ids)) && DeliversOne(current, after, e, start)
    ensures SameCircuits(base, after, Idle(base, ids + {e}))
  {
    forall p | p in Idle(base, ids + {e})
      ensures p in base.endpoints && p in after.endpoints && SameCircuit(base.endpoints[p], after.endpoints[p])
    {
      IdleShrinks(base, ids, e, p);
      assert SameCircuit(base.endpoints[p], current.endpoints[p]);
    }
  }

  lemma ProgressDeliver(base: Db, current: Db, after: Db, ids: seq<EventId>, i: nat, start: int, now: int)
    requires i < |ids| && Select.Distinct(ids) && Progress(base, current, ids, i, start)
    requires start <= now && DeliversOne(current, after, ids[i], now)
    ensures Progress(base, after, ids, i + 1, start)
  {
    assert ids[..i + 1] == ids[..i] + [ids[i]];
    assert ids[i] !in ids[..i];
    assert current.events[ids[i]] == base.events[ids[i]];
    assert Select.Elements(ids[..i + 1]) == Select.Elements(ids[..i]) + {ids[i]};
    CircuitsDeliver(base, current, after, Select.Elements(ids[..i]), ids[i], now);
  }

  lemma TurnProgress(base: Db, current: Db, ids: seq<EventId>, i: nat, start: int, env: Env, now: int)
    requires i < |ids| && Select.Distinct(ids) && Progress(base, current, ids, i, start) && Consistent(current)
    requires start <= now && IsDelivering(base, ids[i]) && Quiet(env)
    ensures Progress(base, Turn(current, ids[i], base.events[ids[i]].endpointId, env, now), ids, i + 1, start)
  {
    var e := ids[i];
    var ready := Act(env.others, e, current);
    assert OnlyDisables(current, ready);
    ProgressDisable(base, current, ready, ids, i, start);
    DisablingIsLawful(current, ready);
    assert e !in ids[..i];
    assert ready.events[e] == base.events[e];
    DeliverSettles(ready, e, env, now);
    ProgressDeliver(base, ready, Deliver(ready, e, base.events[e].endpointId, env, now), ids, i, start, now);
  }

  predicate AllDelivering(base: Db, ids: seq<EventId>) {
    forall i :: 0 <= i < |ids| ==> IsDelivering(base, ids[i])
  }

  lemma AfterBatchStep(base: Db, ids: seq<EventId>, i: nat, env: Env, start: int)
    requires i < |ids|
    ensures AfterBatch(base, ids[..i + 1], env, start) ==
      Turn(AfterBatch(base, ids[..i], env, start), ids[i], HomeOf(base, ids[i]), env, TimeAfter(ids[..i + 1], env, start))
  {
    assert ids[..i + 1][..i] == ids[..i];
  }

  /** What a batch has done so far, whatever others did: its first `i` events are not delivering any more. */
  predicate Ended(base: Db, current: Db, ids: seq<EventId>, i: nat)
    requires i <= |ids|
  {
    Lawful(base, current) && forall j :: 0 <= j < i ==> !IsDelivering(current, ids[j])
  }

  lemma EndedAtStart(base: Db, ids: seq<EventId>)
    requires Consistent(base)
    ensures Ended(base, base, ids, 0)
  {
  }

  lemma EndedNext(base: Db, current: Db, after: Db, ids: seq<EventId>, i: nat)
    requires i < |ids| && Ended(base, current, ids, i) && Ends(current, after, ids[i])
    ensures Ended(base, after, ids, i + 1)
  {
    StartsNothingTwice(base, current, after);
    forall j | 0 <= j < i + 1 ensures !IsDelivering(after, ids[j]) {
      if j < i {
        assert !IsDelivering(current, ids[j]);
      }
    }
  }

  lemma TurnOfBatchEnds(base: Db, ids: seq<EventId>, i: nat, env: Env, start: int)
    requires i < |ids| && LawfulEnv(env) && Ended(base, AfterBatch(base, ids[..i], env, start), ids, i)
    ensures Ended(base, AfterBatch(base, ids[..i + 1], env, start), ids, i + 1)
  {
    AfterBatchStep(base, ids, i, env, start);
    var current, e, now := AfterBatch(base, ids[..i], env, start), ids[i], TimeAfter(ids[..i + 1], env, start);
    TurnEnds(current, e, HomeOf(base, e), env, now);
    EndedNext(base, current, Turn(current, e, HomeOf(base, e), env, now), ids, i);
  }

  lemma {:induction false} BatchEnds(base: Db, ids: seq<EventId>, i: nat, env: Env, start: int)
    requires i <= |ids| && Consistent(base) && LawfulEnv(env)
    ensures Ended(base, AfterBatch(base, ids[..i], env, start), ids, i)
  {
    if i == 0 {
      EndedAtStart(base, ids);
    } else {
      BatchEnds(base, ids, i - 1, env, start);
      TurnOfBatchEnds(base, ids, i - 1, env, start);
    }
  }

  lemma {:induction false} BatchKeepsBounds(base: Db, ids: seq<EventId>, i: nat, env: Env, start: int)
    requires i <= |ids| && Consistent(base) && Bounded(base) && LawfulEnv(env) && LimitsRespected(env)
    ensures Bounded(AfterBatch(base, ids[..i], env, start))
  {
    if i > 0 {
      BatchKeepsBounds(base, ids, i - 1, env, start);
      BatchEnds(base, ids, i - 1, env, start);
      AfterBatchStep(base, ids, i - 1, env, start);
      var current, e := AfterBatch(base, ids[..i - 1], env, start), ids[i - 1];
      assert HomeIs(current, e, HomeOf(base, e));
      TurnKeepsBounds(current, e, HomeOf(base, e), env, TimeAfter(ids[..i], env, start));
    }
  }

  lemma BatchProgressNext(base: Db, ids: seq<EventId>, i: nat, env: Env, start: int)
    requires i < |ids| && Consistent(base) && Select.Distinct(ids) && AllDelivering(base, ids) && Quiet(env)
    requires Progress(base, AfterBatch(base, ids[..i], env, start), ids, i, start)
    ensures Progress(base, AfterBatch(base, ids[..i + 1], env, start), ids, i + 1, start)
  {
    QuietIsLawful(env);
    BatchEnds(base, ids, i, env, start);
    AfterBatchStep(base, ids, i, env, start);
    TurnProgress(base, AfterBatch(base, ids[..i], env, start), ids, i, start, env, TimeAfter(ids[..i + 1], env, start));
  }

  lemma {:induction false} BatchProgress(base: Db, ids: seq<EventId>, i: nat, env: Env, start: int)
    requires i <= |ids| && Consistent(base) && Select.Distinct(ids) && AllDelivering(base, ids) && Quiet(env)
    ensures Progress(base, AfterBatch(base, ids[..i], env, start), ids, i, start)
  {
    if i == 0 {
      assert Select.Elements(ids[..0]) == {};
    } else {
      BatchProgress(base, ids, i - 1, env, start);
      BatchProgressNext(base, ids, i - 1, env, start);
    }
  }

  // ---- A cycle ----

  /** What a cycle does to the tables after stuck events were recovered. */
  predicate CycleDone(recovered: Db, after: Db, claimed: set<EventId>, start: int) {
    && after.events.Keys == recovered.events.Keys && after.endpoints.Keys == recovered.endpoints.Keys
    && claimed <= recovered.events.Keys
    && (forall e :: e in claimed ==> Settled(recovered.events[e], after, e, start))
    && (forall e :: e in recovered.events && e !in claimed ==> after.events[e] == recovered.events[e])
    && (forall p :: p in recovered.endpoints && after.endpoints[p].enabled ==> recovered.endpoints[p].enabled)
    && SameCircuits(recovered, after, Idle(recovered, claimed))
  }

  /** One cycle that began at time `start`: the earliest due events, all of them settled. */
  predicate Cycle(before: Db, after: Db, claimed: set<EventId>, start: int) {
    && Earliest(Recovered(before, start), DueEvents(Recovered(before, start), start), BATCH_SIZE, claimed)
    && CycleDone(Recovered(before, start), after, claimed, start)
  }

  lemma BatchIsDone(recovered: Db, after: Db, ids: seq<EventId>, start: int)
    requires Select.Elements(ids) <= recovered.events.Keys
    requires Progress(Claim(recovered, Select.Elements(ids), start), after, ids, |ids|, start)
    ensures CycleDone(recovered, after, Select.Elements(ids), start)
  {
    var base := Claim(recovered, Select.Elements(ids), start);
    forall e | e in Select.Elements(ids) ensures Settled(recovered.events[e], after, e, start) {
      var j :| 0 <= j < |ids| && ids[j] == e;
      assert Settled(base.events[e], after, e, start);
    }
    assert forall e :: e in recovered.events && e !in Select.Elements(ids) ==> e !in ids[..|ids|];
    assert ids[..|ids|] == ids;
    forall p | p in Idle(recovered, Select.Elements(ids)) ensures p in Idle(base, Select.Elements(ids)) {
      assert EventsOf(base, p) == EventsOf(recovered, p);
    }
  }

  /** The tables between claim and delivery are consistent, and nothing is delivering but the batch and what was so before. */
  lemma ClaimedIsConsistent(before: Db, ids: seq<EventId>, start: int)
    requires Consistent(before) && Claims(before, ids, start)
    ensures var base := Claim(Recovered(before, start), Select.Elements(ids), start);
      Consistent(base) && AllDelivering(base, ids) && (Bounded(before) ==> Bounded(base))
  {
    var recovered, claimed := Recovered(before, start), Select.Elements(ids);
    Integrity.RecoverKeeps(before, Ago(start, STUCK_TIMEOUT_SECS));
    Integrity.ClaimKeeps(recovered, claimed, start);
    assert forall i :: 0 <= i < |ids| ==> ids[i] in claimed;
    if Bounded(before) {
      Bounds.RecoverKeeps(before, Ago(start, STUCK_TIMEOUT_SECS));
      Bounds.ClaimKeeps(recovered, claimed, start);
    }
  }

  /**
   * While others only disable endpoints, what the worker does in one cycle is a cycle in
   * this sense; it keeps the tables consistent and every event within its attempt limit.
   */
  lemma WorkerCycles(before: Db, ids: seq<EventId>, env: Env, start: int)
    requires Consistent(before) && Claims(before, ids, start) && Quiet(env)
    ensures Cycle(before, AfterCycle(before, ids, env, start), Select.Elements(ids), start)
    ensures Consistent(AfterCycle(before, ids, env, start))
    ensures Bounded(before) ==> Bounded(AfterCycle(before, ids, env, start))
  {
    QuietIsLawful(env);
    CycleEnds(before, ids, env, start);
    var recovered := Recovered(before, start);
    var base := Claim(recovered, Select.Elements(ids), start);
    ClaimedIsConsistent(before, ids, start);
    BatchProgress(base, ids, |ids|, env, start);
    assert ids[..|ids|] == ids;
    BatchIsDone(recovered, AfterBatch(base, ids, env, start), ids, start);
  }

  /** The event has been delivering for at most two minutes. */
  predicate DeliveringLately(db: Db, e: EventId, now: int) {
    && e in db.events && db.events[e].status == Delivering
    && db.events[e].deliveringSince.Some? && db.events[e].deliveringSince.value >= now - 120_000_000
  }

  lemma EndedBatchLeavesNothing(before: Db, after: Db, ids: seq<EventId>, start: int)
    requires Consistent(before) && Claims(before, ids, start)
    requires Ended(Claim(Recovered(before, start), Select.Elements(ids), start), after, ids, |ids|)
    ensures Lawful(before, after)
    ensures forall e :: e in after.events && IsDelivering(after, e) ==> DeliveringLately(before, e, start)
  {
    var recovered := Recovered(before, start);
    forall e | e in after.events && IsDelivering(after, e)
      ensures DeliveringLately(before, e, start) && after.events[e] == before.events[e]
    {
      assert EventOk(before, e);
      assert after.events[e] == recovered.events[e];
    }
  }

  /**
   * Whatever others do during a cycle, short of claiming: afterwards nothing is delivering
   * that was not so before and untouched, nor anything that was stuck, and the tables are
   * consistent. If others leave attempt limits alone, every event stays within its limit.
   */
  lemma CycleEnds(before: Db, ids: seq<EventId>, env: Env, start: int)
    requires Consistent(before) && Claims(before, ids, start) && LawfulEnv(env)
    ensures Lawful(before, AfterCycle(before, ids, env, start))
    ensures forall e :: e in AfterCycle(before, ids, env, start).events && IsDelivering(AfterCycle(before, ids, env, start), e) ==>
      DeliveringLately(before, e, start)
    ensures Bounded(before) && LimitsRespected(env) ==> Bounded(AfterCycle(before, ids, env, start))
  {
    var base := Claim(Recovered(before, start), Select.Elements(ids), start);
    ClaimedIsConsistent(before, ids, start);
    BatchEnds(base, ids, |ids|, env, start);
    assert ids[..|ids|] == ids;
    EndedBatchLeavesNothing(before, AfterBatch(base, ids, env, start), ids, start);
    if Bounded(before) && LimitsRespected(env) {
      BatchKeepsBounds(base, ids, |ids|, env, start);
    }
  }

  // ---- Any number of cycles ----

  /**
   * The tables are consistent, whatever is delivering was so before and is untouched, and
   * every event is within its attempt limit if all were before and limits were respected.
   */
  predicate Advanced(before: Db, after: Db, respected: bool) {
    Lawful(before, after) && (Bounded(before) && respected ==> Bounded(after))
  }

  lemma NotAdvanced(db: Db, respected: bool)
    requires Consistent(db)
    ensures Advanced(db, db, respected)
  {
  }

  lemma AdvancedIsConsistent(before: Db, after: Db, respected: bool)
    requires Advanced(before, after, respected)
    ensures Consistent(after)
  {
  }

  lemma AdvancedTwice(a: Db, b: Db, c: Db, respected: bool, stepRespected: bool)
    requires Advanced(a, b, respected) && Advanced(b, c, stepRespected) && (respected ==> stepRespected)
    ensures Advanced(a, c, respected)
  {
    StartsNothingTwice(a, b, c);
  }

  // ---- What a cycle conserves ----

  function WithStatus(db: Db, ids: set<EventId>, status: Status): set<EventId>
    requires ids <= db.events.Keys
  {
    set e | e in ids && db.events[e].status == status
  }

  lemma FourParts(whole: set<EventId>, a: set<EventId>, b: set<EventId>, c: set<EventId>, d: set<EventId>)
    requires whole == a + b + c + d && a !! b !! c !! d
    ensures |whole| == |a| + |b| + |c| + |d|
  {
  }

  lemma StatusParts(db: Db, ids: set<EventId>)
    requires ids <= db.events.Keys && WithStatus(db, ids, Delivering) == {}
    ensures |ids| == |WithStatus(db, ids, Delivered)| + |WithStatus(db, ids, Failed)|
      + |WithStatus(db, ids, Dead)| + |WithStatus(db, ids, Pending)|
  {
    var parts := WithStatus(db, ids, Delivered) + WithStatus(db, ids, Failed)
      + WithStatus(db, ids, Dead) + WithStatus(db, ids, Pending);
    forall e | e in ids ensures e in parts {
      assert e !in WithStatus(db, ids, Delivering);
    }
    assert parts == ids;
    FourParts(ids, WithStatus(db, ids, Delivered), WithStatus(db, ids, Failed),
      WithStatus(db, ids, Dead), WithStatus(db, ids, Pending));
  }

  lemma NoneDelivering(before: Db, after: Db, claimed: set<EventId>, start: int)
    requires Cycle(before, after, claimed, start)
    ensures after.events.Keys == before.events.Keys && claimed <= after.events.Keys
    ensures WithStatus(after, claimed, Delivering) == {}
  {
    forall e | e in claimed ensures after.events[e].status != Delivering {
      assert Settled(Recovered(before, start).events[e], after, e, start);
    }
  }

  /** A cycle claims exactly the events it newly delivered, failed, killed and handed back. */
  lemma CycleConserves(before: Db, after: Db, claimed: set<EventId>, start: int)
    requires Cycle(before, after, claimed, start)
    ensures after.events.Keys == before.events.Keys && claimed <= after.events.Keys
    ensures |claimed| == |WithStatus(after, claimed, Delivered)| + |WithStatus(after, claimed, Failed)|
      + |WithStatus(after, claimed, Dead)| + |WithStatus(after, claimed, Pending)|
  {
    NoneDelivering(before, after, claimed, start);
    StatusParts(after, claimed);
  }

  // ---- Draining with the clock standing still ----

  /** How many events a cycle starting now has to choose from. */
  function Backlog(db: Db, now: int): nat {
    |DueEvents(Recovered(db, now), now)|
  }

  /** With the clock standing still, what is due after a cycle was due before and not claimed. */
  lemma DueShrinks(before: Db, after: Db, claimed: set<EventId>, now: int)
    requires Cycle(before, after, claimed, now)
    ensures Recovered(after, now) == after
    ensures DueEvents(after, now) <= DueEvents(Recovered(before, now), now) - claimed
  {
    var recovered := Recovered(before, now);
    forall e | e in after.events ensures !Stuck(after.events[e], Ago(now, STUCK_TIMEOUT_SECS)) {
      assert e in claimed ==> Settled(recovered.events[e], after, e, now);
    }
    assert Recovered(after, now).events == after.events;
    forall e | e in DueEvents(after, now) ensures e in DueEvents(recovered, now) - claimed {
      assert e in claimed ==> Settled(recovered.events[e], after, e, now);
      var p := after.events[e].endpointId;
      if p !in Idle(recovered, claimed) {
        var f :| f in EventsOf(recovered, p) && f in claimed;
        assert f in DueEvents(recovered, now);
      }
    }
  }

  lemma SubsetSize(small: set<EventId>, large: set<EventId>)
    requires small <= large
    ensures |small| <= |large|
  {
    assert large == small + (large - small);
  }

  /** Every event a cycle claims leaves the backlog for good; an idle cycle finds it empty. */
  lemma CycleDrains(before: Db, after: Db, claimed: set<EventId>, now: int)
    requires Cycle(before, after, claimed, now)
    ensures |claimed| == Min(BATCH_SIZE, Backlog(before, now))
    ensures Backlog(after, now) + |claimed| <= Backlog(before, now)
  {
    DueShrinks(before, after, claimed, now);
    var due := DueEvents(Recovered(before, now), now);
    SubsetSize(DueEvents(after, now), due - claimed);
    assert |due| == |due - claimed| + |claimed| by {
      assert due == (due - claimed) + claimed;
    }
  }

  ghost predicate CycleAt(dbs: seq<Db>, claims: seq<set<EventId>>, now: int, i: nat)
    requires i + 1 < |dbs| && i < |claims|
  {
    Cycle(dbs[i], dbs[i + 1], claims[i], now)
  }

  function TotalSize(claims: seq<set<EventId>>): nat {
    if claims == [] then 0 else TotalSize(claims[..|claims| - 1]) + |claims[|claims| - 1]|
  }

  /**
   * Drain termination: with the clock standing still, a sequence of cycles claims no
   * more events in total than were due at its start, so at most that many cycles in
   * a row can find something to do, and one that finds nothing leaves nothing due.
   */
  lemma {:induction false} CyclesTerminate(dbs: seq<Db>, claims: seq<set<EventId>>, now: int)
    requires |dbs| == |claims| + 1
    requires forall i :: 0 <= i < |claims| ==> CycleAt(dbs, claims, now, i)
    ensures TotalSize(claims) + Backlog(dbs[|claims|], now) <= Backlog(dbs[0], now)
    ensures (forall i :: 0 <= i < |claims| ==> claims[i] != {}) ==> |claims| <= Backlog(dbs[0], now)
    ensures |claims| > 0 && claims[|claims| - 1] == {} ==> Backlog(dbs[|claims|], now) == 0
  {
    if claims != [] {
      var last := |claims| - 1;
      var dbs', claims' := dbs[..last + 1], claims[..last];
      forall i | 0 <= i < last ensures CycleAt(dbs', claims', now, i) {
        assert CycleAt(dbs, claims, now, i);
      }
      CyclesTerminate(dbs', claims', now);
      assert CycleAt(dbs, claims, now, last);
      CycleDrains(dbs[last], dbs[last + 1], claims[last], now);
      if forall i :: 0 <= i < |claims| ==> claims[i] != {} {
        SomeSize(claims);
      }
    }
  }

  lemma {:induction false} SomeSize(claims: seq<set<EventId>>)
    requires forall i :: 0 <= i < |claims| ==> claims[i] != {}
    ensures |claims| <= TotalSize(claims)
  {
    if claims != [] {
      SomeSize(claims[..|claims| - 1]);
      assert |claims[|claims| - 1]| > 0;
    }
  }

  /** A cycle that begins with no more events due than a batch holds claims them all and leaves nothing due. */
  lemma CycleClears(before: Db, ids: seq<EventId>, env: Env, now: int)
    requires Consistent(before) && Claims(before, ids, now) && Quiet(env) && Backlog(before, now) <= 50
    ensures forall e :: Effects.MayBeClaimed(Recovered(before, now), e, now) ==> e in ids
    ensures forall e :: !Effects.MayBeClaimed(AfterCycle(before, ids, env, now), e, now)
  {
    var recovered, after, claimed := Recovered(before, now), AfterCycle(before, ids, env, now), Select.Elements(ids);
    WorkerCycles(before, ids, env, now);
    CycleDrains(before, after, claimed, now);
    DueShrinks(before, after, claimed, now);
    Effects.WholeSet(claimed, DueEvents(recovered, now));
    forall e | Effects.MayBeClaimed(recovered, e, now) ensures e in ids {
      Effects.DueMeans(recovered, e, now);
      assert e in claimed;
    }
    forall e ensures !Effects.MayBeClaimed(after, e, now) {
      Effects.DueMeans(after, e, now);
      assert e !in DueEvents(after, now);
    }
  }

  // ---- The graceful loop ----

  /** One turn of the loop: the tables and the time it began with, what it claimed, the tables it left. */
  datatype CycleRecord = CycleRecord(before: Db, start: int, ids: seq<EventId>, after: Db)

  predicate IsCycle(record: CycleRecord, env: Env) {
    && Claims(record.before, record.ids, record.start)
    && record.after == AfterCycle(record.before, record.ids, env, record.start)
  }

  /** What the loop finds after a cycle: others have acted once more, and it slept if nothing was claimed. */
  predicate Follows(record: CycleRecord, env: Env, between: Others, i: nat, db: Db, now: int) {
    && db == Act(between, i, record.after)
    && now == TimeAfter(record.ids, env, record.start) + if record.ids == [] then 500_000 else 0
  }

  predicate CycleIsRun(cycles: seq<CycleRecord>, envs: seq<Env>, i: nat)
    requires i < |cycles| <= |envs|
  {
    IsCycle(cycles[i], envs[i])
  }

  predicate CyclesJoin(cycles: seq<CycleRecord>, envs: seq<Env>, between: Others, i: nat)
    requires i + 1 < |cycles| <= |envs|
  {
    Follows(cycles[i], envs[i], between, i, cycles[i + 1].before, cycles[i + 1].start)
  }

  /** Full cycles, one after the other. */
  predicate GracefulRun(cycles: seq<CycleRecord>, envs: seq<Env>, between: Others) {
    && |cycles| <= |envs|
    && (forall i :: 0 <= i < |cycles| ==> CycleIsRun(cycles, envs, i))
    && forall i :: 0 <= i < |cycles| - 1 ==> CyclesJoin(cycles, envs, between, i)
  }

  ghost predicate AllEnvsLawful(envs: seq<Env>) {
    forall i :: 0 <= i < |envs| ==> LawfulEnv(envs[i])
  }

  ghost predicate AllEnvsRespectLimits(envs: seq<Env>) {
    forall i :: 0 <= i < |envs| ==> LimitsRespected(envs[i])
  }

  lemma LawfulAt(envs: seq<Env>, i: nat)
    requires AllEnvsLawful(envs) && i < |envs|
    ensures LawfulEnv(envs[i])
  {
  }

  lemma LawfulAfter(between: Others, i: nat, db: Db)
    requires AllLawful(between) && Consistent(db)
    ensures Consistent(Act(between, i, db))
    ensures Advanced(db, Act(between, i, db), AllKeepBounds(between))
  {
    assert Lawful(db, Act(between, i, db));
    if AllKeepBounds(between) && Bounded(db) {
      assert KeepsBounds(db, Act(between, i, db));
    }
  }

  lemma ClaimsFew(before: Db, ids: seq<EventId>, start: int)
    requires Claims(before, ids, start)
    ensures |ids| <= 50
  {
    Select.DistinctSize(ids);
  }

  lemma RunGrows(cycles: seq<CycleRecord>, envs: seq<Env>, between: Others, record: CycleRecord)
    requires GracefulRun(cycles, envs, between) && |cycles| < |envs| && IsCycle(record, envs[|cycles|])
    requires cycles != [] ==>
      Follows(cycles[|cycles| - 1], envs[|cycles| - 1], between, |cycles| - 1, record.before, record.start)
    ensures GracefulRun(cycles + [record], envs, between)
  {
    var longer := cycles + [record];
    forall i | 0 <= i < |longer| ensures CycleIsRun(longer, envs, i) {
      if i < |cycles| {
        assert CycleIsRun(cycles, envs, i);
      }
    }
    forall i | 0 <= i < |longer| - 1 ensures CyclesJoin(longer, envs, between, i) {
      if i < |cycles| - 1 {
        assert CyclesJoin(cycles, envs, between, i);
      }
    }
  }

  /** Every cycle of the run begins with consistent tables, and all of the run up to it only advances. */
  lemma {:induction false} RunAdvances(cycles: seq<CycleRecord>, envs: seq<Env>, between: Others, i: nat)
    requires GracefulRun(cycles, envs, between) && i < |cycles|
    requires Consistent(cycles[0].before) && AllLawful(between) && AllEnvsLawful(envs)
    ensures Consistent(cycles[i].before)
    ensures Advanced(cycles[0].before, cycles[i].after, AllKeepBounds(between) && AllEnvsRespectLimits(envs))
  {
    var respected := AllKeepBounds(between) && AllEnvsRespectLimits(envs);
    if i == 0 {
      NotAdvanced(cycles[0].before, respected);
    } else {
      RunAdvances(cycles, envs, between, i - 1);
      assert CyclesJoin(cycles, envs, between, i - 1);
      AdvancedIsConsistent(cycles[0].before, cycles[i - 1].after, respected);
      LawfulAfter(between, i - 1, cycles[i - 1].after);
      AdvancedTwice(cycles[0].before, cycles[i - 1].after, cycles[i].before, respected, AllKeepBounds(between));
    }
    assert CycleIsRun(cycles, envs, i);
    LawfulAt(envs, i);
    CycleEnds(cycles[i].before, cycles[i].ids, envs[i], cycles[i].start);
    AdvancedTwice(cycles[0].before, cycles[i].before, cycles[i].after, respected, LimitsRespected(envs[i]));
  }

  /** None of these events is delivering, and every one is delivered, waits or is dead. */
  predicate AllSettled(db: Db, ids: seq<EventId>) {
    forall e :: e in ids ==> e in db.events && db.events[e].status in {Delivered, Failed, Dead, Pending}
  }

  lemma CycleSettles(recovered: Db, after: Db, ids: seq<EventId>, start: int)
    requires CycleDone(recovered, after, Select.Elements(ids), start)
    ensures AllSettled(after, ids)
  {
    forall e | e in ids ensures e in after.events && after.events[e].status in {Delivered, Failed, Dead, Pending} {
      assert e in Select.Elements(ids);
      assert Settled(recovered.events[e], after, e, start);
    }
  }

  /** The loop at the head of a turn: the cycles so far, the tables and the time. */
  predicate AtTurn(cycles: seq<CycleRecord>, envs: seq<Env>, between: Others, origin: CycleRecord, db: Db, now: int) {
    && GracefulRun(cycles, envs, between)
    && if cycles == [] then db == origin.before && now == origin.start
       else
         && cycles[0].before == origin.before && cycles[0].start == origin.start
         && Follows(cycles[|cycles| - 1], envs[|cycles| - 1], between, |cycles| - 1, db, now)
  }

  /** The loop after a cycle. */
  predicate AfterTurn(cycles: seq<CycleRecord>, envs: seq<Env>, between: Others, origin: CycleRecord, db: Db, now: int) {
    && cycles != [] && GracefulRun(cycles, envs, between)
    && cycles[0].before == origin.before && cycles[0].start == origin.start
    && var last := cycles[|cycles| - 1];
      db == last.after && now == TimeAfter(last.ids, envs[|cycles| - 1], last.start)
  }

  lemma TurnDone(cycles: seq<CycleRecord>, envs: seq<Env>, between: Others, origin: CycleRecord, record: CycleRecord)
    requires |cycles| < |envs| && AtTurn(cycles, envs, between, origin, record.before, record.start)
    requires IsCycle(record, envs[|cycles|])
    ensures AfterTurn(cycles + [record], envs, between, origin, record.after,
      TimeAfter(record.ids, envs[|cycles|], record.start))
  {
    RunGrows(cycles, envs, between, record);
  }

  lemma Paused(cycles: seq<CycleRecord>, envs: seq<Env>, between: Others, origin: CycleRecord, db: Db, now: int)
    requires AfterTurn(cycles, envs, between, origin, db, now)
    ensures AtTurn(cycles, envs, between, origin, Act(between, |cycles| - 1, db),
      now + if cycles[|cycles| - 1].ids == [] then 500_000 else 0)
  {
  }

  /** What holds when the loop returns. */
  lemma LoopDone(cycles: seq<CycleRecord>, envs: seq<Env>, between: Others, origin: CycleRecord, db: Db, now: int)
    requires AfterTurn(cycles, envs, between, origin, db, now)
    requires Consistent(origin.before) && AllLawful(between) && AllEnvsLawful(envs)
    ensures Advanced(origin.before, db, AllKeepBounds(between) && AllEnvsRespectLimits(envs))
  {
    RunAdvances(cycles, envs, between, |cycles| - 1);
  }

  /**
   * In every cycle of the loop during which others only disable endpoints, each claimed event
   * is settled, and nothing else has changed.
   */
  lemma GracefulSettles(cycles: seq<CycleRecord>, envs: seq<Env>, between: Others, i: nat)
    requires GracefulRun(cycles, envs, between) && i < |cycles| && Quiet(envs[i])
    requires Consistent(cycles[0].before) && AllLawful(between) && AllEnvsLawful(envs)
    ensures CycleDone(Recovered(cycles[i].before, cycles[i].start), cycles[i].after, Select.Elements(cycles[i].ids), cycles[i].start)
    ensures AllSettled(cycles[i].after, cycles[i].ids)
  {
    RunAdvances(cycles, envs, between, i);
    assert CycleIsRun(cycles, envs, i);
    WorkerCycles(cycles[i].before, cycles[i].ids, envs[i], cycles[i].start);
    CycleSettles(Recovered(cycles[i].before, cycles[i].start), cycles[i].after, cycles[i].ids, cycles[i].start);
  }

  /**
   * Such a cycle that begins with no more events due than a batch holds claims them all,
   * and leaves nothing due at the time it began.
   */
  lemma GracefulClears(cycles: seq<CycleRecord>, envs: seq<Env>, between: Others, i: nat)
    requires GracefulRun(cycles, envs, between) && i < |cycles| && Quiet(envs[i])
    requires Consistent(cycles[0].before) && AllLawful(between) && AllEnvsLawful(envs)
    requires Backlog(cycles[i].before, cycles[i].start) <= 50
    ensures forall e :: Effects.MayBeClaimed(Recovered(cycles[i].before, cycles[i].start), e, cycles[i].start) ==> e in cycles[i].ids
    ensures forall e :: !Effects.MayBeClaimed(cycles[i].after, e, cycles[i].start)
  {
    RunAdvances(cycles, envs, between, i);
    assert CycleIsRun(cycles, envs, i);
    CycleClears(cycles[i].before, cycles[i].ids, envs[i], cycles[i].start);
  }

  // ---- The worker itself ----

  class Worker {
    const store: Store

    constructor (store: Store)
      ensures this.store == store
    {
      this.store := store;
    }

    /** Others act on the tables. */
    method LetOthersAct(others: Others, k: nat)
      modifies store
      ensures store.now == old(store.now)
      ensures store.Contents() == Act(others, k, old(store.Contents()))
    {
      var db := others(k, store.Contents());
      store.endpoints, store.events, store.log := db.endpoints, db.events, db.log;
    }

    /** One delivery: look the endpoint up, send, read the body, record the result. */
    method DeliverEvent(e: EventId, id: EndpointId, env: Env)
      modifies store
      ensures store.now == old(store.now)
      ensures store.Contents() == Deliver(old(store.Contents()), e, id, env, store.now)
      ensures if id !in old(store.endpoints) then
          if e in old(store.events) then Effects.ClosedAsMissing(old(store.Contents()), store.Contents(), e,
            Attempt(false, store.now, None, None))
          else store.Contents() == old(store.Contents())
        else if !old(store.endpoints)[id].enabled then
          Effects.HandedBack(old(store.Contents()), store.Contents(), e, store.now)
        else
          Effects.Answered(Circuit.Sqlite, Act(env.meanwhile, e, old(store.Contents())), store.Contents(), e, id,
            old(store.endpoints)[id], env.respond(e), Effects.ArrivedText(Arrived(env.respond(e)), env.decode), store.now)
    {
      if id !in store.endpoints {
        store.RecordEndpointDeleted(e);
        return;
      }
      var endpoint := store.endpoints[id];
      if !endpoint.enabled {
        store.ResetToPending(e);
        return;
      }
      LetOthersAct(env.meanwhile, e);
      RecordAnswer(e, id, endpoint, env.respond(e), env.decode, env.draw(e));
    }

    /** The body is read up to its limit, then the answer is recorded. */
    method RecordAnswer(e: EventId, id: EndpointId, endpoint: Endpoint, response: Body.Response,
        decode: seq<Body.byte> -> string, draw: nat)
      modifies store
      ensures store.now == old(store.now)
      ensures store.Contents() == Report(old(store.Contents()), e, id, endpoint, response, decode, draw, store.now)
      ensures Effects.Answered(Circuit.Sqlite, old(store.Contents()), store.Contents(), e, id, endpoint, response,
        Effects.ArrivedText(Arrived(response), decode), store.now)
    {
      ghost var before, text := store.Contents(), Effects.ArrivedText(Arrived(response), decode);
      match response {
        case Answer(code, chunks) =>
          var buf := Body.ReadBodySkipping(chunks, Body.MAX_RESPONSE_BODY_BYTES);
          var body := if buf == [] then None else Some(decode(buf));
          Effects.ArrivedTextMeans(Arrived(response), decode);
          if 200 <= code < 300 {
            var _ := store.RecordSuccess(e, code, body);
            Effects.SuccessAnswers(Circuit.Sqlite, before, e, id, endpoint, response, text, store.now);
          } else {
            var row := Attempt(false, store.now, Some(code), None);
            var _ := store.RecordFailure(e, Failure(id, endpoint.maxAttempts, endpoint.initialDelayMs, row), draw);
            Effects.FailureAnswers(Circuit.Sqlite, before, e, id, endpoint, response, text, store.now, draw);
          }
        case NetworkError =>
          var row := Attempt(false, store.now, None, None);
          var _ := store.RecordFailure(e, Failure(id, endpoint.maxAttempts, endpoint.initialDelayMs, row), draw);
          Effects.FailureAnswers(Circuit.Sqlite, before, e, id, endpoint, response, text, store.now, draw);
      }
    }

    /** The batch, one event after the other; meanwhile time passes and others act. */
    method DeliverBatch(ids: seq<EventId>, rows: seq<Event>, env: Env)
      requires |rows| == |ids|
      requires forall i :: 0 <= i < |ids| ==> ids[i] in store.events && rows[i] == store.events[ids[i]]
      modifies store
      ensures store.now == TimeAfter(ids, env, old(store.now))
      ensures store.Contents() == AfterBatch(old(store.Contents()), ids, env, old(store.now))
    {
      ghost var base, start := store.Contents(), store.now;
      for i := 0 to |ids|
        invariant store.now == TimeAfter(ids[..i], env, start)
        invariant store.Contents() == AfterBatch(base, ids[..i], env, start)
      {
        assert ids[..i + 1][..i] == ids[..i];
        store.now := store.now + env.elapsed(ids[i]);
        LetOthersAct(env.others, ids[i]);
        DeliverEvent(ids[i], rows[i].endpointId, env);
      }
      assert ids[..|ids|] == ids;
    }

    /** One cycle: recover, claim, deliver the batch in order. */
    method RunOnce(env: Env) returns (count: nat, ghost ids: seq<EventId>)
      modifies store
      ensures Claims(old(store.Contents()), ids, old(store.now)) && count == |ids|
      ensures store.Contents() == AfterCycle(old(store.Contents()), ids, env, old(store.now))
      ensures store.now == TimeAfter(ids, env, old(store.now))
    {
      ghost var before, start := store.Contents(), store.now;
      var _ := store.RecoverStuckDeliveries(STUCK_TIMEOUT_SECS);
      assert store.Contents() == Recovered(before, start) && store.now == start;
      var claimed, rows := store.ClaimDueEvents(BATCH_SIZE);
      assert store.Contents() == Claim(Recovered(before, start), Select.Elements(claimed), start);
      DeliverBatch(claimed, rows, env);
      count, ids := |claimed|, claimed;
    }

    /** One cycle as the loop sees it: at most 50 events, and nothing left delivering for more than 120 seconds. */
    method RunCycle(env: Env) returns (count: nat, ghost ids: seq<EventId>)
      requires Consistent(store.Contents()) && LawfulEnv(env)
      modifies store
      ensures Claims(old(store.Contents()), ids, old(store.now)) && count == |ids| <= 50
      ensures store.Contents() == AfterCycle(old(store.Contents()), ids, env, old(store.now))
      ensures store.now == TimeAfter(ids, env, old(store.now))
      ensures Advanced(old(store.Contents()), store.Contents(), LimitsRespected(env))
      ensures forall e :: e in store.events && store.events[e].status == Delivering ==>
        DeliveringLately(old(store.Contents()), e, old(store.now))
    {
      ghost var before, start := store.Contents(), store.now;
      count, ids := RunOnce(env);
      ClaimsFew(before, ids, start);
      CycleEnds(before, ids, env, start);
    }

    /** Between two cycles: half a second of sleep if nothing was claimed, and others act. */
    method Pause(count: nat, between: Others, i: nat)
      modifies store
      ensures store.now == old(store.now) + (if count == 0 then 500_000 else 0)
      ensures store.Contents() == Act(between, i, old(store.Contents()))
    {
      if count == 0 {
        store.now := store.now + 500 * MILLISECOND;
      }
      LetOthersAct(between, i);
    }

    /**
     * Cycles until a shutdown is noticed, which happens after the last of `envs`, while others
     * enqueue, retry, clean up, delete and reconfigure. It is looked for only between batches.
     */
    method RunGraceful(envs: seq<Env>, between: Others) returns (ghost cycles: seq<CycleRecord>)
      requires envs != [] && Consistent(store.Contents()) && AllLawful(between) && AllEnvsLawful(envs)
      modifies store
      ensures |cycles| == |envs| && GracefulRun(cycles, envs, between)
      ensures cycles[0].before == old(store.Contents()) && cycles[0].start == old(store.now)
      ensures store.Contents() == cycles[|cycles| - 1].after
      ensures Advanced(old(store.Contents()), store.Contents(), AllKeepBounds(between) && AllEnvsRespectLimits(envs))
    {
      cycles := [];
      ghost var origin := CycleRecord(store.Contents(), store.now, [], store.Contents());
      var i := 0;
      while true
        invariant i < |envs| && |cycles| == i && Consistent(store.Contents())
        invariant AtTurn(cycles, envs, between, origin, store.Contents(), store.now)
        decreases |envs| - i
      {
        ghost var before, start := store.Contents(), store.now;
        LawfulAt(envs, i);
        ghost var ids;
        var count;
        count, ids := RunCycle(envs[i]);
        ghost var record := CycleRecord(before, start, ids, store.Contents());
        TurnDone(cycles, envs, between, origin, record);
        cycles := cycles + [record];
        i := i + 1;
        if i == |envs| {
          LoopDone(cycles, envs, between, origin, store.Contents(), store.now);
          return;
        }
        Paused(cycles, envs, between, origin, store.Contents(), store.now);
        LawfulAfter(between, i - 1, store.Contents());
        Pause(count, between, i - 1);
      }
    }
  }
}
