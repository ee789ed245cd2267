/**
 * What holds over whole runs: the status machine, exclusive claims, the conservation
 * of claims, and the circuit as a function of what was recorded before.
 */
module History {
  import opened Common
  import opened Schema
  import opened Queue
  import opened System
  import opened Invariants
  import Circuit

  /** What the step from the i-th state to the next one did to events. */
  function EffectsAt(states: seq<State>, i: nat): map<EventId, Effect> {
    if i + 1 < |states| && states[i + 1].trail != [] then states[i + 1].trail[|states[i + 1].trail| - 1].events else map[]
  }

  // ---- The status machine ----

  predicate IsRelease(effect: Effect) {
    effect in {Reaped, Succeeded, Retried, DeadLettered, HandedBack, Closed}
  }

  /** The moves the status of an event may make in one step. */
  predicate Allowed(before: Event, after: Event, effects: map<EventId, Effect>, e: EventId) {
    && SameContent(before, after)
    && (before.status == Delivered ==> after == before)
    && (before.status == Dead ==> after == before || (after.status == Pending && after.attempts == 0))
    && (before.status in {Pending, Failed} ==> after == before || after.status == Delivering)
    && (before.status == Delivering && after != before ==> e in effects && IsRelease(effects[e]))
    && (after.status == Delivering && before.status != Delivering ==> e in effects && effects[e] == Claimed)
  }

  lemma StepIsAllowed(s: State, next: State, e: EventId)
    requires Truthful(s, next) && e in s.issued && e in next.db.events
    ensures e in s.db.events
    ensures Allowed(s.db.events[e], next.db.events[e], next.trail[|s.trail|].events, e)
  {
  }

  lemma HistoryStep(states: seq<State>, i: nat, e: EventId)
    requires IsHistory(states) && i + 1 < |states| && e in states[i].issued
    ensures e in states[i + 1].issued
    ensures e in states[i + 1].db.events ==>
      e in states[i].db.events && Allowed(states[i].db.events[e], states[i + 1].db.events[e], EffectsAt(states, i), e)
  {
    assert TruthfulAt(states, i);
    if e in states[i + 1].db.events {
      StepIsAllowed(states[i], states[i + 1], e);
    }
  }

  /**
   * Over a whole run an event keeps its endpoint, type, payload, key and creation
   * time, and once delivered it stays exactly as it was, until it is deleted.
   */
  lemma {:induction false} EventsArePersistent(states: seq<State>, i: nat, j: nat, e: EventId)
    requires IsHistory(states) && i <= j < |states| && e in states[i].db.events
    ensures e in states[j].issued
    ensures e in states[j].db.events ==>
      SameContent(states[i].db.events[e], states[j].db.events[e])
      && (states[i].db.events[e].status == Delivered ==> states[j].db.events[e] == states[i].db.events[e])
    decreases j
  {
    assert Core(states[i]);
    if i < j {
      EventsArePersistent(states, i, j - 1, e);
      HistoryStep(states, j - 1, e);
    }
  }

  /** An event that was deleted never comes back. */
  lemma {:induction false} DeletedForGood(states: seq<State>, i: nat, j: nat, e: EventId)
    requires IsHistory(states) && i <= j < |states| && e in states[i].issued && e !in states[i].db.events
    ensures e in states[j].issued && e !in states[j].db.events
    decreases j
  {
    if i < j {
      DeletedForGood(states, i, j - 1, e);
      HistoryStep(states, j - 1, e);
    }
  }

  predicate ClaimedAt(states: seq<State>, i: nat, e: EventId) {
    e in EffectsAt(states, i) && EffectsAt(states, i)[e] == Claimed
  }

  predicate ReleasedAt(states: seq<State>, i: nat, e: EventId) {
    e in EffectsAt(states, i) && IsRelease(EffectsAt(states, i)[e])
  }

  lemma ClaimStep(states: seq<State>, i: nat, e: EventId)
    requires IsHistory(states) && i + 1 < |states| && ClaimedAt(states, i, e)
    ensures e in states[i].db.events && states[i].db.events[e].status in {Pending, Failed}
    ensures e in states[i + 1].issued && e in states[i + 1].db.events
    ensures states[i + 1].db.events[e] == MarkClaimed(states[i].db.events[e], states[i].now)
  {
    assert TruthfulAt(states, i) && Core(states[i + 1]);
    assert EventChange(EffectsAt(states, i), states[i], states[i + 1].db.events, e);
  }

  lemma DeliveringKept(states: seq<State>, i: nat, e: EventId, ev: Event)
    requires IsHistory(states) && i + 1 < |states| && e in states[i].issued
    requires ev.status == Delivering && (e in states[i].db.events ==> states[i].db.events[e] == ev)
    requires !ReleasedAt(states, i, e)
    ensures e in states[i + 1].issued && (e in states[i + 1].db.events ==> states[i + 1].db.events[e] == ev)
  {
    HistoryStep(states, i, e);
  }

  /** While nothing releases it, a delivering event stays exactly as it is, or is deleted. */
  lemma {:induction false} StaysDelivering(states: seq<State>, i: nat, j: nat, e: EventId, ev: Event)
    requires IsHistory(states) && i <= j < |states| && e in states[i].issued
    requires ev.status == Delivering && (e in states[i].db.events ==> states[i].db.events[e] == ev)
    requires forall k :: i <= k < j ==> !ReleasedAt(states, k, e)
    ensures e in states[j].issued
    ensures e in states[j].db.events ==> states[j].db.events[e] == ev
    decreases j
  {
    if i < j {
      StaysDelivering(states, i, j - 1, e, ev);
      DeliveringKept(states, j - 1, e, ev);
    }
  }

  /** Claims are exclusive: between two claims of one event something released it. */
  lemma ClaimsAreExclusive(states: seq<State>, i: nat, j: nat, e: EventId)
    requires IsHistory(states) && i < j && j + 1 < |states|
    requires ClaimedAt(states, i, e) && ClaimedAt(states, j, e)
    ensures exists k :: i < k < j && ReleasedAt(states, k, e)
  {
    if forall k :: i < k < j ==> !ReleasedAt(states, k, e) {
      ClaimStep(states, i, e);
      StaysDelivering(states, i + 1, j, e, states[i + 1].db.events[e]);
      ClaimStep(states, j, e);
      assert false;
    }
  }

  lemma NotClaimedStep(states: seq<State>, k: nat, e: EventId)
    requires IsHistory(states) && k + 1 < |states| && e in states[k].issued && !IsDelivering(states[k].db, e)
    requires !ClaimedAt(states, k, e)
    ensures e in states[k + 1].issued && !IsDelivering(states[k + 1].db, e)
  {
    HistoryStep(states, k, e);
  }

  /** An event that is not delivering stays so until somebody claims it. */
  lemma {:induction false} StaysNotDelivering(states: seq<State>, i: nat, j: nat, e: EventId)
    requires IsHistory(states) && i <= j < |states| && e in states[i].issued && !IsDelivering(states[i].db, e)
    requires forall k :: i <= k < j ==> !ClaimedAt(states, k, e)
    ensures e in states[j].issued && !IsDelivering(states[j].db, e)
    decreases j
  {
    if i < j {
      StaysNotDelivering(states, i, j - 1, e);
      NotClaimedStep(states, j - 1, e);
    }
  }

  lemma ReleaseStep(states: seq<State>, k: nat, e: EventId)
    requires IsHistory(states) && k + 1 < |states| && ReleasedAt(states, k, e)
    ensures e in states[k + 1].issued && !IsDelivering(states[k + 1].db, e)
  {
    assert TruthfulAt(states, k) && Core(states[k + 1]);
    assert EventChange(EffectsAt(states, k), states[k], states[k + 1].db.events, e);
  }

  predicate ReleasedBetween(states: seq<State>, i: nat, j: nat, e: EventId) {
    exists k :: i < k < j && ReleasedAt(states, k, e)
  }

  predicate ClaimedBetween(states: seq<State>, i: nat, j: nat, e: EventId) {
    exists k :: i < k < j && ClaimedAt(states, k, e)
  }

  lemma ReleasedClaimIsOver(states: seq<State>, i: nat, k: nat, j: nat, e: EventId)
    requires IsHistory(states) && i < k < j < |states| && ReleasedAt(states, k, e)
    ensures !IsDelivering(states[j].db, e) || ClaimedBetween(states, i, j, e)
  {
    ReleaseStep(states, k, e);
    if !ClaimedBetween(states, i, j, e) {
      StaysNotDelivering(states, k + 1, j, e);
    }
  }

  lemma UnreleasedClaimStands(states: seq<State>, i: nat, j: nat, e: EventId)
    requires IsHistory(states) && i < j < |states| && ClaimedAt(states, i, e) && e in states[j].db.events
    requires !ReleasedBetween(states, i, j, e)
    ensures e in states[i].db.events && states[j].db.events[e] == MarkClaimed(states[i].db.events[e], states[i].now)
    ensures !ClaimedBetween(states, i, j, e)
  {
    ClaimStep(states, i, e);
    StaysDelivering(states, i + 1, j, e, states[i + 1].db.events[e]);
    if k :| i < k < j && ClaimedAt(states, k, e) {
      ClaimsAreExclusive(states, i, k, e);
      assert false;
    }
  }

  /**
   * When a claim is still the one that stands: exactly if nothing released its event since,
   * the event is delivering and was not claimed anew. Otherwise a report by the worker
   * that made it meets an event that is not delivering, or somebody else's claim.
   */
  lemma ClaimStandsExactly(states: seq<State>, i: nat, j: nat, e: EventId)
    requires IsHistory(states) && i < j < |states| && ClaimedAt(states, i, e) && e in states[j].db.events
    ensures !ReleasedBetween(states, i, j, e)
       <==> IsDelivering(states[j].db, e) && !ClaimedBetween(states, i, j, e)
  {
    if k :| i < k < j && ReleasedAt(states, k, e) {
      ReleasedClaimIsOver(states, i, k, j, e);
    } else {
      UnreleasedClaimStands(states, i, j, e);
    }
  }

  // ---- Conservation of claims ----

  /** How often an effect happened to an event since it was enqueued or last requeued. */
  function Count(trail: seq<Entry>, e: EventId, effect: Effect): nat {
    if trail == [] then 0
    else
      var last, earlier := trail[|trail| - 1].events, trail[..|trail| - 1];
      if e !in last then Count(earlier, e, effect)
      else if last[e] == Enqueued || last[e] == Requeued then 0
      else Count(earlier, e, effect) + (if last[e] == effect then 1 else 0)
  }

  /** Attempts that were counted, by their outcome. */
  function Recorded(trail: seq<Entry>, e: EventId): nat {
    Count(trail, e, Succeeded) + Count(trail, e, Retried) + Count(trail, e, DeadLettered)
  }

  /** Claims that ended without a counted attempt. */
  function GivenUp(trail: seq<Entry>, e: EventId): nat {
    Count(trail, e, Reaped) + Count(trail, e, HandedBack) + Count(trail, e, Closed)
  }

  predicate Conserved(s: State, e: EventId)
    requires e in s.db.events
  {
    var ev := s.db.events[e];
    && ev.attempts == Recorded(s.trail, e)
    && Count(s.trail, e, Claimed) ==
       ev.attempts + GivenUp(s.trail, e) + (if ev.status == Delivering then 1 else 0)
  }

  lemma CountStep(s: State, next: State, e: EventId, effect: Effect)
    requires Truthful(s, next)
    ensures var last := next.trail[|s.trail|].events;
      Count(next.trail, e, effect) ==
        if e !in last then Count(s.trail, e, effect)
        else if last[e] == Enqueued || last[e] == Requeued then 0
        else Count(s.trail, e, effect) + (if last[e] == effect then 1 else 0)
  {
  }

  lemma ConservedKept(s: State, next: State, e: EventId)
    requires Truthful(s, next) && e in next.db.events
    requires e in s.db.events ==> Conserved(s, e)
    ensures Conserved(next, e)
  {
    CountStep(s, next, e, Claimed);
    CountStep(s, next, e, Succeeded);
    CountStep(s, next, e, Retried);
    CountStep(s, next, e, DeadLettered);
    CountStep(s, next, e, Reaped);
    CountStep(s, next, e, HandedBack);
    CountStep(s, next, e, Closed);
    assert EventChange(next.trail[|s.trail|].events, s, next.db.events, e);
  }

  /**
   * The claims of every event since it was enqueued or last requeued are its counted
   * attempts, plus the claims that were reaped, handed back or closed without one,
   * plus the claim that is open now.
   */
  predicate AllConserved(s: State) {
    forall e :: e in s.db.events ==> Conserved(s, e)
  }

  lemma AllConservedKept(s: State, next: State)
    requires Truthful(s, next) && AllConserved(s)
    ensures AllConserved(next)
  {
    forall e | e in next.db.events ensures Conserved(next, e) {
      ConservedKept(s, next, e);
    }
  }

  lemma ConservedInitially(s: State)
    requires Initial(s)
    ensures AllConserved(s)
  {
  }

  /** Claims are conserved in every state of every run. */
  lemma {:induction false} ClaimsAreConserved(states: seq<State>, i: nat)
    requires IsHistory(states) && i < |states|
    ensures AllConserved(states[i])
  {
    if i == 0 {
      ConservedInitially(states[0]);
    } else {
      ClaimsAreConserved(states, i - 1);
      assert TruthfulAt(states, i - 1);
      AllConservedKept(states[i - 1], states[i]);
    }
  }

  // ---- Circuits ----

  /** Failures recorded for an endpoint since its last success, reset or registration. */
  function Streak(trail: seq<Entry>, p: EndpointId): nat {
    if trail == [] then 0
    else
      var last, earlier := trail[|trail| - 1].circuits, trail[..|trail| - 1];
      if p !in last then Streak(earlier, p)
      else if last[p] == FailureCounted then Streak(earlier, p) + 1
      else 0
  }

  /** When the latest failure was recorded. */
  function LastFailure(trail: seq<Entry>, p: EndpointId): int {
    if trail == [] then 0
    else
      var last := trail[|trail| - 1];
      if p in last.circuits && last.circuits[p] == FailureCounted then last.at
      else LastFailure(trail[..|trail| - 1], p)
  }

  /** The longest streak the Postgres backend can record. */
  const LONGEST_STREAK := Circuit.THRESHOLD + Circuit.MAX_DOUBLE_EXPONENT

  /** Counter and deadline of a circuit, as the recorded history determines them. */
  predicate CircuitOk(s: State, p: EndpointId)
    requires p in s.db.endpoints
  {
    var ep, streak := s.db.endpoints[p], Streak(s.trail, p);
    && ep.consecutiveFailures == streak <= LONGEST_STREAK
    && (streak > 0 ==> LastFailure(s.trail, p) <= s.now)
    && ep.circuitOpenUntil ==
       if streak < Circuit.THRESHOLD then None
       else Some(LastFailure(s.trail, p) + Circuit.IdealWindow(streak) * MINUTE)
  }

  lemma StreakStep(s: State, next: State, p: EndpointId)
    requires Truthful(s, next)
    ensures var last := next.trail[|s.trail|].circuits;
      Streak(next.trail, p) ==
        (if p !in last then Streak(s.trail, p) else if last[p] == FailureCounted then Streak(s.trail, p) + 1 else 0)
      && LastFailure(next.trail, p) ==
        (if p in last && last[p] == FailureCounted then s.now else LastFailure(s.trail, p))
  {
  }

  lemma CircuitKept(s: State, next: State, p: EndpointId)
    requires Truthful(s, next) && p in next.db.endpoints
    requires p in s.db.endpoints ==> CircuitOk(s, p)
    ensures CircuitOk(next, p)
  {
    StreakStep(s, next, p);
    var last := next.trail[|s.trail|].circuits;
    assert CircuitChange(last, s, next.db.endpoints, p);
    if p in last && last[p] == FailureCounted && Streak(next.trail, p) >= Circuit.THRESHOLD {
      Circuit.PostgresFollowsSchedule(Streak(next.trail, p));
    }
  }

  /**
   * The failure counter of every endpoint is the length of its current streak, and its
   * circuit is open from the fifth failure on, until the documented time after the latest.
   */
  predicate AllCircuitsOk(s: State) {
    forall p :: p in s.db.endpoints ==> CircuitOk(s, p)
  }

  lemma AllCircuitsKept(s: State, next: State)
    requires Truthful(s, next) && AllCircuitsOk(s)
    ensures AllCircuitsOk(next)
  {
    forall p | p in next.db.endpoints ensures CircuitOk(next, p) {
      CircuitKept(s, next, p);
    }
  }

  /** Circuits follow what was recorded, in every state of every run. */
  lemma {:induction false} CircuitsFollowHistory(states: seq<State>, i: nat)
    requires IsHistory(states) && i < |states|
    ensures AllCircuitsOk(states[i])
  {
    if i > 0 {
      CircuitsFollowHistory(states, i - 1);
      assert TruthfulAt(states, i - 1);
      AllCircuitsKept(states[i - 1], states[i]);
    } else {
      assert states[0].db.endpoints == map[];
    }
  }

  /** A circuit is never open for more than 320 minutes from now. */
  lemma CircuitDeadlineBounded(states: seq<State>, i: nat, p: EndpointId)
    requires IsHistory(states) && i < |states| && p in states[i].db.endpoints
    ensures var until := states[i].db.endpoints[p].circuitOpenUntil;
      until.Some? ==> until.value <= states[i].now + Circuit.MAX_MINUTES * MINUTE
  {
    CircuitsFollowHistory(states, i);
    assert CircuitOk(states[i], p);
  }

  predicate StreakGoesOn(states: seq<State>, i: nat, p: EndpointId) {
    i + 1 < |states| && states[i + 1].trail != [] &&
    var circuits := states[i + 1].trail[|states[i + 1].trail| - 1].circuits;
    p in circuits ==> circuits[p] == FailureCounted
  }

  lemma DeadlineStep(s: State, next: State, p: EndpointId)
    requires Truthful(s, next) && AllCircuitsOk(s)
    requires p in s.db.endpoints && p in next.db.endpoints && s.db.endpoints[p].circuitOpenUntil.Some?
    requires var last := next.trail[|s.trail|].circuits; p in last ==> last[p] == FailureCounted
    ensures next.db.endpoints[p].circuitOpenUntil.Some?
    ensures s.db.endpoints[p].circuitOpenUntil.value <= next.db.endpoints[p].circuitOpenUntil.value
  {
    assert CircuitOk(s, p);
    CircuitKept(s, next, p);
    StreakStep(s, next, p);
    Circuit.ScheduleMonotone(Streak(s.trail, p), Streak(next.trail, p));
  }

  /** Within a streak an open circuit stays open and its deadline never moves back. */
  lemma {:induction false} DeadlineNeverMovesBack(states: seq<State>, i: nat, j: nat, p: EndpointId)
    requires IsHistory(states) && i <= j < |states|
    requires forall k :: i <= k <= j ==> p in states[k].db.endpoints
    requires forall k :: i <= k < j ==> StreakGoesOn(states, k, p)
    requires states[i].db.endpoints[p].circuitOpenUntil.Some?
    ensures states[j].db.endpoints[p].circuitOpenUntil.Some?
    ensures states[i].db.endpoints[p].circuitOpenUntil.value <= states[j].db.endpoints[p].circuitOpenUntil.value
    decreases j
  {
    if i < j {
      DeadlineNeverMovesBack(states, i, j - 1, p);
      CircuitsFollowHistory(states, j - 1);
      assert TruthfulAt(states, j - 1);
      assert StreakGoesOn(states, j - 1, p);
      DeadlineStep(states[j - 1], states[j], p);
    }
  }
}
