/**
 * Enqueueing with an idempotency key on SQLite: select, insert-or-ignore, select
 * again, with the statements of any number of callers interleaved and the rest of the
 * system working in between, as long as nothing is deleted. It refines the one-step
 * upsert of Postgres.
 */
module Idempotent {
  import opened Common
  import opened Schema
  import opened Queue
  import Integrity

  type CallId = nat

  /** One call; `uuid` is the id it would insert under. */
  datatype Request = Request(uuid: EventId, endpointId: EndpointId, eventType: string, payload: string, key: string)

  /** How far a call has come. */
  datatype Phase = Asking | Absent | Tried | Returned(event: EventId) | Refused

  datatype State = State(db: Db, now: int, phases: map<CallId, Phase>)

  datatype Step = Select(c: CallId) | InsertOrIgnore(c: CallId) | Reread(c: CallId) | Elsewhere(db: Db, now: int)

  /** The row that holds a key. */
  predicate Holds(db: Db, e: EventId, id: EndpointId, key: string) {
    e in db.events && db.events[e].endpointId == id && db.events[e].idempotencyKey == Some(key)
  }

  ghost function Holder(db: Db, id: EndpointId, key: string): (e: EventId)
    requires Taken(db, id, Some(key))
    ensures Holds(db, e, id, key)
  {
    var e :| e in db.events && db.events[e].endpointId == id && db.events[e].idempotencyKey == Some(key);
    e
  }

  lemma HolderIsUnique(db: Db, e: EventId, id: EndpointId, key: string)
    requires KeysUnique(db.events) && Holds(db, e, id, key)
    ensures Taken(db, id, Some(key)) && Holder(db, id, key) == e
  {
    var holder := Holder(db, id, key);
    assert Holds(db, holder, id, key);
  }

  /** No event is deleted or changes its identity. */
  predicate RowsStay(before: Db, after: Db) {
    forall e :: e in before.events ==> e in after.events && SameContent(before.events[e], after.events[e])
  }

  /** What the rest of the system may do meanwhile: anything but delete events or insert under one of the ids. */
  predicate Undisturbed(calls: map<CallId, Request>, before: Db, after: Db) {
    && Consistent(after) && RowsStay(before, after)
    && (forall c :: c in calls && calls[c].uuid in after.events ==> calls[c].uuid in before.events)
  }

  function Upserted(db: Db, request: Request, now: int): Db {
    Enqueue(db, request.uuid, request.endpointId, request.eventType, request.payload, Some(request.key), now)
  }

  ghost predicate Enabled(calls: map<CallId, Request>, s: State, step: Step) {
    match step
    case Select(c) => c in s.phases && s.phases[c] == Asking
    case InsertOrIgnore(c) => c in s.phases && s.phases[c] == Absent
    case Reread(c) => c in s.phases && s.phases[c] == Tried
    case Elsewhere(db, _) => Undisturbed(calls, s.db, db)
  }

  ghost function Found(db: Db, request: Request, otherwise: Phase): Phase {
    if Taken(db, request.endpointId, Some(request.key))
    then Returned(Holder(db, request.endpointId, request.key)) else otherwise
  }

  /** A violated foreign key is an error even for insert-or-ignore; a violated unique key is not. */
  ghost function Apply(calls: map<CallId, Request>, s: State, step: Step): State
    requires Enabled(calls, s, step) && s.phases.Keys == calls.Keys
  {
    match step
    case Select(c) => s.(phases := s.phases[c := Found(s.db, calls[c], Absent)])
    case InsertOrIgnore(c) =>
      if calls[c].endpointId !in s.db.endpoints then s.(phases := s.phases[c := Refused])
      else s.(db := Upserted(s.db, calls[c], s.now), phases := s.phases[c := Tried])
    case Reread(c) => s.(phases := s.phases[c := Found(s.db, calls[c], Refused)])
    case Elsewhere(db, now) => s.(db := db, now := now)
  }

  // ---- The invariant ----

  /** The row a call inserted carries what the call asked for. */
  predicate Carries(db: Db, request: Request) {
    request.uuid in db.events ==>
      Holds(db, request.uuid, request.endpointId, request.key)
      && db.events[request.uuid].eventType == request.eventType && db.events[request.uuid].payload == request.payload
  }

  predicate CallOk(db: Db, request: Request, phase: Phase) {
    && Carries(db, request)
    && match phase
       case Asking => request.uuid !in db.events
       case Absent => request.uuid !in db.events
       case Tried => Taken(db, request.endpointId, Some(request.key))
       case Returned(e) => Holds(db, e, request.endpointId, request.key)
       case Refused => true
  }

  predicate Invariant(calls: map<CallId, Request>, s: State) {
    && Consistent(s.db) && s.phases.Keys == calls.Keys
    && (forall c, d :: c in calls && d in calls && c != d ==> calls[c].uuid != calls[d].uuid)
    && (forall c :: c in calls ==> CallOk(s.db, calls[c], s.phases[c]))
  }

  predicate Initial(calls: map<CallId, Request>, s: State) {
    && Consistent(s.db) && s.phases.Keys == calls.Keys
    && (forall c, d :: c in calls && d in calls && c != d ==> calls[c].uuid != calls[d].uuid)
    && (forall c :: c in calls ==> s.phases[c] == Asking && calls[c].uuid !in s.db.events)
  }

  /** What a call knows survives as long as events keep their identity. */
  lemma KnowledgeKept(before: Db, after: Db, request: Request, phase: Phase)
    requires CallOk(before, request, phase)
    requires RowsStay(before, after)
    requires request.uuid in after.events ==> request.uuid in before.events
    ensures CallOk(after, request, phase)
  {
    if phase.Tried? {
      assert Holds(after, Holder(before, request.endpointId, request.key), request.endpointId, request.key);
    }
  }

  lemma UpsertKeepsEvents(db: Db, request: Request, now: int)
    requires request.uuid !in db.events
    ensures var after := Upserted(db, request, now);
      && RowsStay(db, after)
      && (forall e :: e in after.events ==> e in db.events || e == request.uuid)
      && Carries(after, request)
    ensures request.endpointId in db.endpoints ==>
      Taken(Upserted(db, request, now), request.endpointId, Some(request.key))
  {
    var after := Upserted(db, request, now);
    if request.endpointId in db.endpoints && !Taken(db, request.endpointId, Some(request.key)) {
      assert Holds(after, request.uuid, request.endpointId, request.key);
    }
  }

  lemma InsertKeepsCall(db: Db, request: Request, now: int, other: Request, phase: Phase)
    requires request.uuid !in db.events && other.uuid != request.uuid && CallOk(db, other, phase)
    ensures CallOk(Upserted(db, request, now), other, phase)
  {
    UpsertKeepsEvents(db, request, now);
    KnowledgeKept(db, Upserted(db, request, now), other, phase);
  }

  lemma InsertKeepsInvariant(calls: map<CallId, Request>, s: State, c: CallId)
    requires Invariant(calls, s) && Enabled(calls, s, InsertOrIgnore(c))
    ensures Invariant(calls, Apply(calls, s, InsertOrIgnore(c)))
  {
    var request, next := calls[c], Apply(calls, s, InsertOrIgnore(c));
    assert CallOk(s.db, request, Absent);
    if request.endpointId in s.db.endpoints {
      Integrity.EnqueueKeeps(s.db, request.uuid, request.endpointId, request.eventType, request.payload, Some(request.key), s.now);
      forall d | d in calls ensures CallOk(next.db, calls[d], next.phases[d]) {
        if d == c {
          UpsertKeepsEvents(s.db, request, s.now);
        } else {
          InsertKeepsCall(s.db, request, s.now, calls[d], s.phases[d]);
        }
      }
    }
  }

  lemma InvariantKept(calls: map<CallId, Request>, s: State, step: Step)
    requires Invariant(calls, s) && Enabled(calls, s, step)
    ensures Invariant(calls, Apply(calls, s, step))
  {
    var next := Apply(calls, s, step);
    if step.InsertOrIgnore? {
      InsertKeepsInvariant(calls, s, step.c);
    } else {
      forall d | d in calls ensures CallOk(next.db, calls[d], next.phases[d]) {
        assert CallOk(s.db, calls[d], s.phases[d]);
        if step.Elsewhere? {
          KnowledgeKept(s.db, next.db, calls[d], s.phases[d]);
        }
      }
    }
  }

  // ---- Runs ----

  ghost predicate StepAt(calls: map<CallId, Request>, states: seq<State>, steps: seq<Step>, i: nat)
    requires |states| == |steps| + 1 && i < |steps|
  {
    Enabled(calls, states[i], steps[i])
    && states[i].phases.Keys == calls.Keys && states[i + 1] == Apply(calls, states[i], steps[i])
  }

  ghost predicate Run(calls: map<CallId, Request>, states: seq<State>, steps: seq<Step>) {
    && |states| == |steps| + 1 && Initial(calls, states[0])
    && forall i :: 0 <= i < |steps| ==> StepAt(calls, states, steps, i)
  }

  lemma {:induction false} InvariantHolds(calls: map<CallId, Request>, states: seq<State>, steps: seq<Step>, i: nat)
    requires Run(calls, states, steps) && i < |states|
    ensures Invariant(calls, states[i])
  {
    if i > 0 {
      InvariantHolds(calls, states, steps, i - 1);
      assert StepAt(calls, states, steps, i - 1);
      InvariantKept(calls, states[i - 1], steps[i - 1]);
    }
  }

  lemma RowsKept(calls: map<CallId, Request>, s: State, step: Step, e: EventId)
    requires Invariant(calls, s) && Enabled(calls, s, step) && e in s.db.events
    ensures var next := Apply(calls, s, step);
      e in next.db.events && SameContent(s.db.events[e], next.db.events[e])
  {
    if step.InsertOrIgnore? {
      assert CallOk(s.db, calls[step.c], Absent);
      UpsertKeepsEvents(s.db, calls[step.c], s.now);
    }
  }

  lemma ReturnKept(calls: map<CallId, Request>, s: State, step: Step, c: CallId)
    requires Invariant(calls, s) && Enabled(calls, s, step) && c in calls && s.phases[c].Returned?
    ensures Apply(calls, s, step).phases[c] == s.phases[c]
  {
  }

  predicate ReturnedAs(calls: map<CallId, Request>, s: State, c: CallId, e: EventId, was: Event)
    requires c in calls
  {
    && c in s.phases && s.phases[c] == Returned(e)
    && Holds(s.db, e, calls[c].endpointId, calls[c].key) && SameContent(was, s.db.events[e])
  }

  lemma ReturnedKept(calls: map<CallId, Request>, s: State, step: Step, c: CallId, e: EventId, was: Event)
    requires Invariant(calls, s) && Enabled(calls, s, step) && c in calls && ReturnedAs(calls, s, c, e, was)
    ensures ReturnedAs(calls, Apply(calls, s, step), c, e, was)
  {
    RowsKept(calls, s, step, e);
    ReturnKept(calls, s, step, c);
  }

  lemma ReturnedStep(calls: map<CallId, Request>, states: seq<State>, steps: seq<Step>, k: nat, c: CallId, e: EventId, was: Event)
    requires Run(calls, states, steps) && k < |steps| && c in calls && ReturnedAs(calls, states[k], c, e, was)
    ensures ReturnedAs(calls, states[k + 1], c, e, was)
  {
    InvariantHolds(calls, states, steps, k);
    assert StepAt(calls, states, steps, k);
    ReturnedKept(calls, states[k], steps[k], c, e, was);
  }

  lemma {:induction false} ReturnedOnwards(calls: map<CallId, Request>, states: seq<State>, steps: seq<Step>, i: nat, j: nat,
      c: CallId, e: EventId, was: Event)
    requires Run(calls, states, steps) && i <= j < |states| && c in calls && ReturnedAs(calls, states[i], c, e, was)
    ensures ReturnedAs(calls, states[j], c, e, was)
    decreases j
  {
    if i < j {
      ReturnedOnwards(calls, states, steps, i, j - 1, c, e, was);
      ReturnedStep(calls, states, steps, j - 1, c, e, was);
    }
  }

  /** What a call returned stays the row of its key, with the same content, for the rest of the run. */
  lemma ReturnedStays(calls: map<CallId, Request>, states: seq<State>, steps: seq<Step>, i: nat, j: nat, c: CallId)
    requires Run(calls, states, steps) && i <= j < |states|
    requires c in calls && c in states[i].phases && states[i].phases[c].Returned?
    ensures var e := states[i].phases[c].event;
      && Holds(states[i].db, e, calls[c].endpointId, calls[c].key)
      && ReturnedAs(calls, states[j], c, e, states[i].db.events[e])
  {
    InvariantHolds(calls, states, steps, i);
    assert CallOk(states[i].db, calls[c], states[i].phases[c]);
    var e := states[i].phases[c].event;
    ReturnedOnwards(calls, states, steps, i, j, c, e, states[i].db.events[e]);
  }

  /**
   * However their statements interleave, all callers with the same endpoint and key get
   * the same event, and it stays the only one with that key.
   */
  lemma OneEventPerKey(calls: map<CallId, Request>, states: seq<State>, steps: seq<Step>, i: nat, j: nat, c: CallId, d: CallId)
    requires Run(calls, states, steps) && i <= j < |states| && c in calls && d in calls
    requires calls[c].endpointId == calls[d].endpointId && calls[c].key == calls[d].key
    requires c in states[i].phases && states[i].phases[c].Returned?
    requires d in states[j].phases && states[j].phases[d].Returned?
    ensures states[i].phases[c].event == states[j].phases[d].event
    ensures forall e :: Holds(states[j].db, e, calls[c].endpointId, calls[c].key) ==> e == states[j].phases[d].event
  {
    ReturnedStays(calls, states, steps, i, j, c);
    ReturnedStays(calls, states, steps, j, j, d);
    InvariantHolds(calls, states, steps, j);
    forall e | Holds(states[j].db, e, calls[c].endpointId, calls[c].key) ensures e == states[j].phases[d].event {
      HolderIsUnique(states[j].db, e, calls[c].endpointId, calls[c].key);
      HolderIsUnique(states[j].db, states[j].phases[d].event, calls[c].endpointId, calls[c].key);
    }
  }

  /** The event returned carries the type and payload of the call that inserted it, if one of the calls did. */
  lemma FirstPayloadWins(calls: map<CallId, Request>, states: seq<State>, steps: seq<Step>, i: nat, c: CallId, winner: CallId)
    requires Run(calls, states, steps) && i < |states| && c in calls && winner in calls
    requires c in states[i].phases && states[i].phases[c] == Returned(calls[winner].uuid)
    ensures calls[winner].endpointId == calls[c].endpointId && calls[winner].key == calls[c].key
    ensures calls[winner].uuid in states[i].db.events
    ensures var ev := states[i].db.events[calls[winner].uuid];
      ev.eventType == calls[winner].eventType && ev.payload == calls[winner].payload
  {
    InvariantHolds(calls, states, steps, i);
    assert CallOk(states[i].db, calls[c], states[i].phases[c]);
    assert CallOk(states[i].db, calls[winner], states[i].phases[winner]);
  }

  // ---- Refinement of the one-step upsert ----

  datatype Outcome = Open | Done(event: EventId) | Rejected

  /** The Postgres view: the tables, and the outcome of each call. */
  datatype Spec = Spec(db: Db, outcomes: map<CallId, Outcome>)

  /** The outcome of one upsert: the row that holds the key afterwards, or a foreign-key error. */
  ghost function UpsertOutcome(db: Db, request: Request): Outcome {
    if request.endpointId !in db.endpoints then Rejected
    else if Taken(db, request.endpointId, Some(request.key)) then Done(Holder(db, request.endpointId, request.key))
    else Done(request.uuid)
  }

  /** One call takes effect at once, at some time. */
  ghost predicate UpsertStep(calls: map<CallId, Request>, a: Spec, b: Spec, c: CallId, now: int) {
    && c in calls && c in a.outcomes && a.outcomes[c] == Open
    && b == Spec(Upserted(a.db, calls[c], now), a.outcomes[c := UpsertOutcome(a.db, calls[c])])
  }

  ghost predicate SpecNext(calls: map<CallId, Request>, a: Spec, b: Spec) {
    || (exists c, now :: UpsertStep(calls, a, b, c, now))
    || (a.outcomes == b.outcomes && Undisturbed(calls, a.db, b.db))
  }

  /** A call has taken effect once its row exists, even if it has not read it back yet. */
  ghost function OutcomeOf(db: Db, request: Request, phase: Phase): Outcome {
    match phase
    case Asking => Open
    case Absent => Open
    case Tried =>
      if Taken(db, request.endpointId, Some(request.key)) then Done(Holder(db, request.endpointId, request.key)) else Open
    case Returned(e) => Done(e)
    case Refused => Rejected
  }

  ghost function Abstract(calls: map<CallId, Request>, s: State): Spec
    requires s.phases.Keys == calls.Keys
  {
    Spec(s.db, map c | c in calls :: OutcomeOf(s.db, calls[c], s.phases[c]))
  }

  lemma OutcomeKept(before: Db, after: Db, request: Request, phase: Phase)
    requires KeysUnique(before.events) && KeysUnique(after.events) && CallOk(before, request, phase)
    requires RowsStay(before, after)
    ensures OutcomeOf(after, request, phase) == OutcomeOf(before, request, phase)
  {
    if phase.Tried? {
      HolderIsUnique(after, Holder(before, request.endpointId, request.key), request.endpointId, request.key);
    }
  }

  /** The first select either finds the row, and then the call takes effect there, or changes nothing. */
  ghost predicate BecomesFor(calls: map<CallId, Request>, s: State, next: State, c: CallId, outcome: Outcome, d: CallId)
    requires d in calls && s.phases.Keys == calls.Keys && next.phases.Keys == calls.Keys
  {
    OutcomeOf(next.db, calls[d], next.phases[d]) == if d == c then outcome else OutcomeOf(s.db, calls[d], s.phases[d])
  }

  /** The outcome of one call becomes this, and those of the others stay. */
  lemma OneOutcome(calls: map<CallId, Request>, s: State, next: State, c: CallId, outcome: Outcome)
    requires s.phases.Keys == calls.Keys && next.phases.Keys == calls.Keys && c in calls
    requires forall d :: d in calls ==> BecomesFor(calls, s, next, c, outcome, d)
    ensures Abstract(calls, next).outcomes == Abstract(calls, s).outcomes[c := outcome]
  {
    forall d | d in calls ensures Abstract(calls, next).outcomes[d] == Abstract(calls, s).outcomes[c := outcome][d] {
      assert BecomesFor(calls, s, next, c, outcome, d);
    }
  }

  lemma SelectRefines(calls: map<CallId, Request>, s: State, c: CallId)
    requires Invariant(calls, s) && Enabled(calls, s, Select(c))
    ensures SpecNext(calls, Abstract(calls, s), Abstract(calls, Apply(calls, s, Select(c))))
  {
    var a, b := Abstract(calls, s), Abstract(calls, Apply(calls, s, Select(c)));
    var request := calls[c];
    if Taken(s.db, request.endpointId, Some(request.key)) {
      var holder := Holder(s.db, request.endpointId, request.key);
      assert EventOk(s.db, holder);
      OneOutcome(calls, s, Apply(calls, s, Select(c)), c, UpsertOutcome(s.db, request));
      assert UpsertStep(calls, a, b, c, s.now);
    } else {
      assert a.outcomes == b.outcomes;
    }
  }

  /** Once the insert ran, the row that holds the key is the one an upsert would return. */
  lemma InsertOutcome(db: Db, request: Request, now: int)
    requires Consistent(db) && request.uuid !in db.events
    ensures request.endpointId in db.endpoints ==>
      OutcomeOf(Upserted(db, request, now), request, Tried) == UpsertOutcome(db, request)
  {
    if request.endpointId in db.endpoints {
      var after, e := Upserted(db, request, now), UpsertOutcome(db, request).event;
      Integrity.EnqueueKeeps(db, request.uuid, request.endpointId, request.eventType, request.payload, Some(request.key), now);
      assert Holds(after, e, request.endpointId, request.key);
      HolderIsUnique(after, e, request.endpointId, request.key);
    }
  }

  lemma InsertOutcomeOf(calls: map<CallId, Request>, s: State, c: CallId, d: CallId)
    requires Invariant(calls, s) && Enabled(calls, s, InsertOrIgnore(c)) && d in calls
    ensures BecomesFor(calls, s, Apply(calls, s, InsertOrIgnore(c)), c, UpsertOutcome(s.db, calls[c]), d)
  {
    assert CallOk(s.db, calls[c], Absent);
    if d == c {
      InsertOutcome(s.db, calls[c], s.now);
    } else {
      UpsertKeepsEvents(s.db, calls[c], s.now);
      assert CallOk(s.db, calls[d], s.phases[d]);
      OutcomeKept(s.db, Apply(calls, s, InsertOrIgnore(c)).db, calls[d], s.phases[d]);
    }
  }

  lemma InsertOutcomes(calls: map<CallId, Request>, s: State, c: CallId)
    requires Invariant(calls, s) && Enabled(calls, s, InsertOrIgnore(c))
    ensures Abstract(calls, Apply(calls, s, InsertOrIgnore(c))).outcomes
         == Abstract(calls, s).outcomes[c := UpsertOutcome(s.db, calls[c])]
  {
    var next := Apply(calls, s, InsertOrIgnore(c));
    forall d | d in calls ensures BecomesFor(calls, s, next, c, UpsertOutcome(s.db, calls[c]), d) {
      InsertOutcomeOf(calls, s, c, d);
    }
    OneOutcome(calls, s, next, c, UpsertOutcome(s.db, calls[c]));
  }

  lemma InsertRefines(calls: map<CallId, Request>, s: State, c: CallId)
    requires Invariant(calls, s) && Enabled(calls, s, InsertOrIgnore(c))
    ensures SpecNext(calls, Abstract(calls, s), Abstract(calls, Apply(calls, s, InsertOrIgnore(c))))
  {
    var a, b := Abstract(calls, s), Abstract(calls, Apply(calls, s, InsertOrIgnore(c)));
    assert CallOk(s.db, calls[c], Absent);
    InsertKeepsInvariant(calls, s, c);
    InsertOutcomes(calls, s, c);
    assert UpsertStep(calls, a, b, c, s.now);
  }

  lemma RereadRefines(calls: map<CallId, Request>, s: State, c: CallId)
    requires Invariant(calls, s) && Enabled(calls, s, Reread(c))
    ensures Apply(calls, s, Reread(c)).phases[c].Returned?
    ensures SpecNext(calls, Abstract(calls, s), Abstract(calls, Apply(calls, s, Reread(c))))
  {
    assert CallOk(s.db, calls[c], Tried);
    assert Abstract(calls, s).outcomes == Abstract(calls, Apply(calls, s, Reread(c))).outcomes;
  }

  lemma ElsewhereRefines(calls: map<CallId, Request>, s: State, db: Db, now: int)
    requires Invariant(calls, s) && Enabled(calls, s, Elsewhere(db, now))
    ensures SpecNext(calls, Abstract(calls, s), Abstract(calls, Apply(calls, s, Elsewhere(db, now))))
  {
    var a, b := Abstract(calls, s), Abstract(calls, Apply(calls, s, Elsewhere(db, now)));
    forall d | d in calls ensures b.outcomes[d] == a.outcomes[d] {
      assert CallOk(s.db, calls[d], s.phases[d]);
      OutcomeKept(s.db, db, calls[d], s.phases[d]);
    }
    assert a.outcomes == b.outcomes;
  }

  /**
   * Every run of the three-statement protocol is, seen from outside, a run in which each
   * call is a single upsert, at the moment of its first select or of its insert.
   */
  lemma RunRefines(calls: map<CallId, Request>, states: seq<State>, steps: seq<Step>, i: nat)
    requires Run(calls, states, steps) && i < |steps|
    ensures states[i].phases.Keys == calls.Keys == states[i + 1].phases.Keys
    ensures SpecNext(calls, Abstract(calls, states[i]), Abstract(calls, states[i + 1]))
  {
    InvariantHolds(calls, states, steps, i);
    assert StepAt(calls, states, steps, i);
    match steps[i]
    case Select(c) => SelectRefines(calls, states[i], c);
    case InsertOrIgnore(c) => InsertRefines(calls, states[i], c);
    case Reread(c) => RereadRefines(calls, states[i], c);
    case Elsewhere(db, now) => ElsewhereRefines(calls, states[i], db, now);
  }
}
