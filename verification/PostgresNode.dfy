/**
 * The Postgres engine over its store: every call and every database access of a delivery
 * or a retry is one step of the interleaved system, carried out by the store's operations.
 */
module PostgresNode {
  import opened Common
  import opened PostgresStore
  import opened Queue
  import opened Schema
  import opened System
  import opened Validation
  import Body
  import Circuit
  import Effects
  import Select

  class Node {
    const store: Store
    var now: int
    var workers: map<WorkerId, Worker>
    var calls: map<CallId, Call>
    ghost var issued: set<EventId>
    ghost var trail: seq<Entry>

    ghost function Current(): State
      reads this, store
    {
      State(store.Contents(), now, workers, calls, issued, trail)
    }

    constructor (now: int)
      ensures fresh(store) && Initial(Current()) && Current().now == now
    {
      store := new Store();
      this.now, workers, calls, issued, trail := now, map[], map[], {}, [];
    }

    /** Keeps the books of a step whose effect on the tables, workers and calls is done. */
    ghost method Note(before: State, step: Step)
      requires Enabled(before, step) && issued == before.issued && trail == before.trail
      modifies this`issued, this`trail
      ensures issued == Apply(before, step).issued && trail == Apply(before, step).trail
    {
      issued, trail := Apply(before, step).issued, Apply(before, step).trail;
    }

    // ---- Endpoints ----

    method CreateEndpoint(id: EndpointId, config: NewEndpoint, accepts: string -> bool) returns (r: Result<Endpoint, StoreError>)
      requires id !in store.endpoints
      modifies this, store
      ensures r.Ok? ==> Next(old(Current()), Register(id, config), Current())
      ensures r.Err? ==> Current() == old(Current())
    {
      ghost var before := Current();
      r := store.CreateEndpoint(id, config, accepts);
      if r.Ok? {
        Note(before, Register(id, config));
      }
    }

    method UpdateEndpoint(id: EndpointId, update: UpdateEndpoint, accepts: string -> bool)
      returns (r: Result<Endpoint, StoreError>)
      modifies this, store
      ensures r.Ok? ==> Next(old(Current()), Configure(id, update), Current())
      ensures r.Err? ==> Current() == old(Current())
    {
      ghost var before := Current();
      r := store.UpdateEndpoint(id, update, accepts);
      if r.Ok? {
        Note(before, Configure(id, update));
      }
    }

    method DeleteEndpoint(id: EndpointId) returns (found: bool)
      modifies this, store
      ensures Next(old(Current()), Unregister(id), Current())
    {
      ghost var before := Current();
      found := store.DeleteEndpoint(id);
      Note(before, Unregister(id));
    }

    // ---- Sending ----

    method Send(e: EventId, id: EndpointId, eventType: string, payload: string, key: Option<string>)
      returns (r: Result<EventId, StoreError>)
      requires e !in issued && e !in store.events
      modifies this, store
      ensures Next(old(Current()), Step.Send(e, id, eventType, payload, key), Current())
    {
      ghost var before := Current();
      r := store.Enqueue(e, id, eventType, payload, key, now);
      Note(before, Step.Send(e, id, eventType, payload, key));
    }

    method Broadcast(targets: map<EventId, EndpointId>, eventType: string, payload: string, key: Option<string>)
      requires targets.Keys !! issued
      requires FreshFor(store.Contents(), targets, Targets(Circuit.Postgres, store.Contents(), eventType))
      modifies this, store
      ensures Next(old(Current()), SendToAll(targets, eventType, payload, key), Current())
    {
      ghost var before := Current();
      store.BroadcastEvent(targets, eventType, payload, key, now);
      Note(before, SendToAll(targets, eventType, payload, key));
    }

    // ---- Deliveries ----

    /** The statement that claims, and the names of the deliveries it starts. */
    method TakeBatch(limit: nat, locked: set<EventId>, all: map<EventId, WorkerId>)
      returns (chosen: set<EventId>, names: map<EventId, WorkerId>, ghost step: Step)
      requires FreshNames(all, workers) && store.events.Keys <= all.Keys
      modifies store
      ensures step == Step.ClaimBatch(limit, locked, chosen, names) && Enabled(old(Current()), step)
      ensures FreshNames(names, workers) && names.Keys == chosen <= old(store.events).Keys
      ensures store.Contents() == Claim(old(store.Contents()), chosen, now)
    {
      ghost var before := Current();
      var claimed := store.ClaimDueEvents(limit, locked, now);
      chosen := Select.Elements(claimed.value);
      names := Names(all, chosen);
      step := Step.ClaimBatch(limit, locked, chosen, names);
      ClaimIsEnabled(before, limit, locked, chosen, all);
    }

    /** Claims a batch, and starts a delivery for each of its events, under the names given to all that may be claimed. */
    method ClaimBatch(limit: nat, locked: set<EventId>, all: map<EventId, WorkerId>) returns (ghost step: Step)
      requires FreshNames(all, workers) && store.events.Keys <= all.Keys
      modifies this, store
      ensures step.ClaimBatch? && step.limit == limit && step.locked == locked
      ensures Next(old(Current()), step, Current())
    {
      ghost var before := Current();
      var db := store.Contents();
      var chosen, names;
      chosen, names, step := TakeBatch(limit, locked, all);
      workers := workers + NewWorkers(db, now, chosen, names);
      Note(before, step);
    }

    /** The first access of a delivery: its endpoint is read. */
    method LookUpEndpoint(w: WorkerId)
      requires w in workers && workers[w].stage.Fetched?
      modifies this
      ensures Next(old(Current()), LookUp(w), Current())
      ensures var worker := old(workers)[w];
        workers == old(workers)[w := worker.(stage :=
          if worker.endpointId in store.endpoints then Found(store.endpoints[worker.endpointId]) else Missing)]
    {
      ghost var before := Current();
      var id := workers[w].endpointId;
      var stage := if id in store.endpoints then Found(store.endpoints[id]) else Missing;
      workers := workers[w := workers[w].(stage := stage)];
      Note(before, LookUp(w));
    }

    /** The second access: whatever was found and answered is recorded, and the delivery is over. */
    method Conclude(w: WorkerId, response: Body.Response, decode: seq<Body.byte> -> string, draw: nat)
      returns (ghost step: Step)
      requires w in workers && !workers[w].stage.Fetched?
      modifies this, store
      ensures Next(old(Current()), step, Current())
      ensures step == Conclusion(old(workers)[w], w, response, decode, draw)
      ensures var worker := old(workers)[w];
        if worker.stage.Missing? then
          if worker.event in old(store.events) then Effects.ClosedAsMissing(old(store.Contents()), store.Contents(),
            worker.event, Attempt(false, now, None, None))
          else store.Contents() == old(store.Contents())
        else if !worker.stage.endpoint.enabled then
          Effects.HandedBack(old(store.Contents()), store.Contents(), worker.event, now)
        else
          Effects.Answered(Circuit.Postgres, old(store.Contents()), store.Contents(), worker.event, worker.endpointId,
            worker.stage.endpoint, response, Effects.ArrivedText(Arrived(response), decode), now)
    {
      ghost var before := Current();
      step := Conclusion(workers[w], w, response, decode, draw);
      var e := workers[w].event;
      match workers[w].stage {
        case Missing =>
          store.RecordEndpointDeleted(e, now);
        case Found(endpoint) =>
          if !endpoint.enabled {
            store.ResetToPending(e, now);
          } else {
            Record(e, workers[w].endpointId, endpoint, response, decode, draw);
          }
      }
      workers := workers - {w};
      Note(before, step);
    }

    /** The body is read up to its limit, then the answer is recorded. */
    method Record(e: EventId, id: EndpointId, endpoint: Endpoint, response: Body.Response, decode: seq<Body.byte> -> string,
        draw: nat)
      modifies store
      ensures store.Contents() ==
        if Body.Success(response) then
          RecordSuccess(old(store.Contents()), e, SuccessRow(response.code, ReadText(response, decode), now))
        else
          RecordFailure(Circuit.Postgres, old(store.Contents()), e, Failure(id, endpoint.maxAttempts, endpoint.initialDelayMs,
            Attempt(false, now, if response.Answer? then Some(response.code) else None, None)), now, draw)
      ensures Effects.Answered(Circuit.Postgres, old(store.Contents()), store.Contents(), e, id, endpoint, response,
        Effects.ArrivedText(Arrived(response), decode), now)
    {
      ghost var before, text := store.Contents(), Effects.ArrivedText(Arrived(response), decode);
      match response {
        case Answer(code, chunks) =>
          var buf := Body.ReadBodyLimited(chunks, Body.MAX_RESPONSE_BODY_BYTES);
          var body := if buf == [] then None else Some(decode(buf));
          Effects.ArrivedTextMeans(Arrived(response), decode);
          if 200 <= code < 300 {
            var _ := store.RecordSuccess(e, code, body, now);
            Effects.SuccessAnswers(Circuit.Postgres, before, e, id, endpoint, response, text, now);
          } else {
            var row := Attempt(false, now, Some(code), None);
            var _ := store.RecordFailure(e, Failure(id, endpoint.maxAttempts, endpoint.initialDelayMs, row), now, draw);
            Effects.FailureAnswers(Circuit.Postgres, before, e, id, endpoint, response, text, now, draw);
          }
        case NetworkError =>
          var row := Attempt(false, now, None, None);
          var _ := store.RecordFailure(e, Failure(id, endpoint.maxAttempts, endpoint.initialDelayMs, row), now, draw);
          Effects.FailureAnswers(Circuit.Postgres, before, e, id, endpoint, response, text, now, draw);
      }
    }

    method RecoverStuckDeliveries(stuckAfterSecs: int) returns (count: nat)
      modifies this, store
      ensures Next(old(Current()), Reap(stuckAfterSecs), Current())
      ensures Effects.StuckReleased(old(store.Contents()), store.Contents(), now - stuckAfterSecs * 1_000_000)
    {
      ghost var before := Current();
      count := store.RecoverStuckDeliveries(stuckAfterSecs, now);
      Note(before, Reap(stuckAfterSecs));
    }

    // ---- Dead letters and cleanup ----

    /** The first access of a retry: only a dead event may go on. */
    method StartRetry(c: CallId, e: EventId) returns (r: Result<(), StoreError>)
      requires c !in calls
      modifies this
      ensures r == (if e !in store.events then Err(NotFound)
                    else if store.events[e].status != Dead then Err(InvalidState) else Ok(()))
      ensures if r.Ok? then Next(old(Current()), RetryStart(c, e), Current()) else Current() == old(Current())
    {
      ghost var before := Current();
      if e !in store.events {
        return Err(NotFound);
      }
      if store.events[e].status != Dead {
        return Err(InvalidState);
      }
      calls := calls[c := SawDead(e)];
      Note(before, RetryStart(c, e));
      return Ok(());
    }

    /** The second access: the endpoint whose circuit is to be reset. */
    method LookUpRetry(c: CallId)
      requires c in calls && calls[c].SawDead?
      modifies this
      ensures Next(old(Current()), RetryLookUp(c), Current())
      ensures var e := old(calls)[c].event;
        calls == old(calls)[c := SawEndpoint(e, if e in store.events then Some(store.events[e].endpointId) else None)]
    {
      ghost var before := Current();
      var e := calls[c].event;
      calls := calls[c := SawEndpoint(e, if e in store.events then Some(store.events[e].endpointId) else None)];
      Note(before, RetryLookUp(c));
    }

    /** The transaction of the retry. */
    method CommitRetry(c: CallId)
      requires c in calls && calls[c].SawEndpoint?
      modifies this, store
      ensures Next(old(Current()), RetryCommit(c), Current())
      ensures var call := old(calls)[c];
        if call.event in old(store.events) && old(store.events)[call.event].status == Dead then
          call.endpointId.Some? ==>
            Effects.DeadRetried(old(store.Contents()), store.Contents(), call.event, call.endpointId.value, now)
        else store.Contents() == old(store.Contents())
    {
      ghost var before := Current();
      var _ := store.RequeueDead(calls[c].event, calls[c].endpointId, now);
      calls := calls - {c};
      Note(before, RetryCommit(c));
    }

    method RetryAllDead(id: EndpointId) returns (count: nat)
      modifies this, store
      ensures Next(old(Current()), RetryAll(id), Current())
    {
      ghost var before := Current();
      count := store.RetryAllDead(id, now);
      Note(before, RetryAll(id));
    }

    method CleanupEvents(status: Status, olderThanSecs: int) returns (count: nat)
      requires status == Delivered || status == Dead
      modifies this, store
      ensures Next(old(Current()), Purge(status, olderThanSecs), Current())
    {
      ghost var before := Current();
      count := store.CleanupEvents(status, olderThanSecs, now);
      Note(before, Purge(status, olderThanSecs));
    }

    method Wait(elapsed: nat)
      modifies this
      ensures Next(old(Current()), Tick(elapsed), Current())
    {
      ghost var before := Current();
      now := now + elapsed;
      Note(before, Tick(elapsed));
    }
  }

  // ---- Names of deliveries ----

  /** Names for a batch: one for each event, all different, none in use. */
  predicate FreshNames(names: map<EventId, WorkerId>, workers: map<WorkerId, Worker>) {
    && names.Values !! workers.Keys
    && forall e, f :: e in names && f in names && e != f ==> names[e] != names[f]
  }

  function Names(all: map<EventId, WorkerId>, chosen: set<EventId>): map<EventId, WorkerId> {
    map e | e in all && e in chosen :: all[e]
  }

  lemma NamesAreFresh(all: map<EventId, WorkerId>, workers: map<WorkerId, Worker>, chosen: set<EventId>)
    requires FreshNames(all, workers) && chosen <= all.Keys
    ensures FreshNames(Names(all, chosen), workers) && Names(all, chosen).Keys == chosen
  {
    var names := Names(all, chosen);
    forall w | w in names.Values ensures w in all.Values {
      var e :| e in names && names[e] == w;
      assert all[e] == w;
    }
  }

  lemma ClaimIsEnabled(s: State, limit: nat, locked: set<EventId>, chosen: set<EventId>, all: map<EventId, WorkerId>)
    requires FreshNames(all, s.workers) && s.db.events.Keys <= all.Keys
    requires Earliest(s.db, DueEvents(s.db, s.now) - locked, limit, chosen)
    ensures chosen <= s.db.events.Keys && FreshNames(Names(all, chosen), s.workers) && Names(all, chosen).Keys == chosen
    ensures Enabled(s, Step.ClaimBatch(limit, locked, chosen, Names(all, chosen)))
  {
    NamesAreFresh(all, s.workers, chosen);
  }

  // ---- How a delivery ends ----

  /** The bytes of an answer that arrive before an error. */
  function Arrived(response: Body.Response): seq<Body.byte> {
    if response.Answer? then Body.UntilError(response.chunks) else []
  }

  /** What the first 4096 bytes of an answer that arrive before an error decode to. */
  function ReadText(response: Body.Response, decode: seq<Body.byte> -> string): Option<string>
    requires response.Answer?
  {
    var buf := Body.Take(Body.UntilError(response.chunks), Body.MAX_RESPONSE_BODY_BYTES);
    if buf == [] then None else Some(decode(buf))
  }

  /** The step that ends a delivery, by what was found and answered. */
  ghost function Conclusion(worker: Worker, w: WorkerId, response: Body.Response, decode: seq<Body.byte> -> string,
      draw: nat): Step
    requires !worker.stage.Fetched?
  {
    if worker.stage.Missing? then CloseMissing(w)
    else if !worker.stage.endpoint.enabled then HandBack(w)
    else if Body.Success(response) then ReportSuccess(w, response.code, ReadText(response, decode))
    else ReportFailure(w, if response.Answer? then Some(response.code) else None, draw)
  }
}
