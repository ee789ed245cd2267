/**
 * What holds in runs whose environment keeps a promise: operators who leave attempt
 * limits alone, or workers that report in time.
 */
module Contracts {
  import opened Common
  import opened Schema
  import opened Queue
  import opened System
  import opened Invariants
  import opened History
  import opened Bounds
  import Circuit
  import Effects
  import Integrity

  /** The worker that ends its delivery in this step by a write to the database. */
  function Reporter(step: Step): Option<WorkerId> {
    match step
    case ReportSuccess(w, _, _) => Some(w)
    case ReportFailure(w, _, _) => Some(w)
    case HandBack(w) => Some(w)
    case CloseMissing(w) => Some(w)
    case _ => None
  }

  /** An event is released only by the reaper or by a worker that claimed it at some time. */
  lemma ReleasedBy(s: State, step: Step, e: EventId)
    requires Enabled(s, step) && e in EventEffects(s, step) && IsRelease(EventEffects(s, step)[e])
    ensures EventEffects(s, step)[e] == Reaped ==>
      step.Reap? && e in s.db.events && Stuck(s.db.events[e], Ago(s.now, step.stuckAfterSecs))
    ensures EventEffects(s, step)[e] != Reaped ==>
      Reporter(step).Some? && Reporter(step).value in s.workers && s.workers[Reporter(step).value].event == e
      && Reporter(step).value !in WorkersAfter(s, step)
  {
  }

  /** Whether a failure is retried or dead-lettered depends on the limit the worker read. */
  lemma FailureDecidedBy(s: State, step: Step, e: EventId)
    requires Enabled(s, step) && e in EventEffects(s, step) && EventEffects(s, step)[e] in {Retried, DeadLettered}
    ensures step.ReportFailure? && HasEndpoint(s, step.w, true) && s.workers[step.w].event == e && e in s.db.events
    ensures EventEffects(s, step)[e] == DeadLettered
       <==> s.db.events[e].attempts + 1 >= s.workers[step.w].stage.endpoint.maxAttempts
  {
  }

  // ---- Steps on their own ----

  /** The endpoint-missing path changes no table in any reachable state. */
  lemma MissingPathIsNoOp(s: State, w: WorkerId)
    requires Core(s) && Enabled(s, CloseMissing(w))
    ensures Apply(s, CloseMissing(w)).db == s.db && EventEffects(s, CloseMissing(w)) == map[]
  {
    assert WorkerOk(s, s.workers[w]);
  }

  lemma NothingIsClosed(s: State, step: Step, e: EventId)
    requires Core(s) && Enabled(s, step) && e in EventEffects(s, step)
    ensures EventEffects(s, step)[e] != Closed
  {
    if step.CloseMissing? {
      MissingPathIsNoOp(s, step.w);
    }
  }

  /**
   * A retry resets a circuit exactly when its own transaction moved the event from
   * dead to pending, and then it is the circuit of that event's endpoint; otherwise
   * it changes nothing, whatever ran between its reads and its commit.
   */
  lemma RetryIsExact(s: State, c: CallId)
    requires Core(s) && Enabled(s, RetryCommit(c))
    ensures var e := s.calls[c].event;
      var next := Apply(s, RetryCommit(c)).db;
      if e in s.db.events && s.db.events[e].status == Dead then
        var id := s.db.events[e].endpointId;
        && id in s.db.endpoints
        && next == Db(
             s.db.endpoints[id := s.db.endpoints[id].(consecutiveFailures := 0, circuitOpenUntil := None)],
             s.db.events[e := MarkRequeued(s.db.events[e], s.now)],
             s.db.log)
      else next == s.db
  {
    var e := s.calls[c].event;
    assert CallOk(s, s.calls[c]);
    if e in s.db.events {
      assert EventOk(s.db, e);
    }
  }

  /**
   * A report of success is not tied to the claim it belongs to: it changes its event exactly
   * when the event is delivering at that moment, whoever claimed it last, and otherwise
   * leaves all circuits alone as well.
   */
  lemma ReportTakesEffectExactly(s: State, w: WorkerId, response: int, body: Option<string>)
    requires Core(s) && Enabled(s, ReportSuccess(w, response, body))
    ensures Apply(s, ReportSuccess(w, response, body)).db.events != s.db.events
       <==> IsDelivering(s.db, s.workers[w].event)
    ensures !IsDelivering(s.db, s.workers[w].event) ==>
      Apply(s, ReportSuccess(w, response, body)).db.endpoints == s.db.endpoints
  {
    var e := s.workers[w].event;
    if IsDelivering(s.db, e) {
      assert Apply(s, ReportSuccess(w, response, body)).db.events[e].status == Delivered;
    }
  }

  /** A report of failure is written exactly if the event is there and the circuit's window does not overflow. */
  lemma FailureCommitsExactly(s: State, w: WorkerId, reason: Option<int>)
    requires Core(s) && HasEndpoint(s, w, true)
    ensures var e, id := s.workers[w].event, s.workers[w].endpointId;
      FailureCommits(Circuit.Postgres, s.db, e, FailureOf(s, w, reason), s.now)
      <==> e in s.db.events && id in s.db.endpoints && s.db.endpoints[id].consecutiveFailures < LONGEST_STREAK
  {
    assert WorkerOk(s, s.workers[w]);
    if s.workers[w].event in s.db.events {
      assert EventOk(s.db, s.workers[w].event);
    }
  }

  /**
   * A report of failure is no more tied to its claim: it changes an event exactly when the
   * worker's event is delivering at that moment, whoever claimed it last, and the report is written.
   */
  lemma FailureTakesEffectExactly(s: State, w: WorkerId, reason: Option<int>, draw: nat)
    requires Core(s) && Enabled(s, ReportFailure(w, reason, draw))
    ensures var e := s.workers[w].event;
      Apply(s, ReportFailure(w, reason, draw)).db.events != s.db.events
      <==> IsDelivering(s.db, e) && FailureCommits(Circuit.Postgres, s.db, e, FailureOf(s, w, reason), s.now)
  {
    var e, failure := s.workers[w].event, FailureOf(s, w, reason);
    var next := Apply(s, ReportFailure(w, reason, draw)).db;
    if FailureCommits(Circuit.Postgres, s.db, e, failure, s.now) {
      assert next.events == s.db.events[e := next.events[e]];
      Integrity.EventAfterFailureShape(s.db.events[e], failure.maxAttempts, failure.initialDelayMs, s.now, draw);
    }
  }

  /**
   * Late or not, a failure counts against the endpoint's circuit; only at the longest
   * streak its window can express is the whole report rolled back. A late one leaves all events alone.
   */
  lemma FailureCounts(s: State, w: WorkerId, reason: Option<int>, draw: nat)
    requires Core(s) && Enabled(s, ReportFailure(w, reason, draw)) && s.workers[w].event in s.db.events
    ensures var e, id, next := s.workers[w].event, s.workers[w].endpointId, Apply(s, ReportFailure(w, reason, draw)).db;
      && id in s.db.endpoints && id in next.endpoints
      && (if s.db.endpoints[id].consecutiveFailures < LONGEST_STREAK
          then next.endpoints[id].consecutiveFailures == s.db.endpoints[id].consecutiveFailures + 1
            && next.log == s.db.log[e := s.db.log[e] + [FailureOf(s, w, reason).row]]
          else next == s.db)
      && (!IsDelivering(s.db, e) ==> next.events == s.db.events)
  {
    assert WorkerOk(s, s.workers[w]) && EventOk(s.db, s.workers[w].event);
    FailureCommitsExactly(s, w, reason);
  }

  lemma FailedRow(s: State, w: WorkerId, reason: Option<int>, draw: nat)
    requires Enabled(s, ReportFailure(w, reason, draw))
    requires s.workers[w].event in EventEffects(s, ReportFailure(w, reason, draw))
    ensures var e, failure := s.workers[w].event, FailureOf(s, w, reason);
      && e in s.db.events && e in DbAfter(s, ReportFailure(w, reason, draw)).events
      && s.db.events[e].status == Delivering
      && DbAfter(s, ReportFailure(w, reason, draw)).events[e]
         == EventAfterFailure(s.db.events[e], failure.maxAttempts, failure.initialDelayMs, s.now, draw)
  {
  }

  /** The step reports a failure of a delivering event that has attempts left. */
  predicate Retries(s: State, step: Step)
    requires Enabled(s, step)
  {
    step.ReportFailure? && EventEffects(s, step) == map[s.workers[step.w].event := Retried]
  }

  lemma RetryIsOrdinary(s: State, w: WorkerId, reason: Option<int>, draw: nat)
    requires Core(s) && Enabled(s, ReportFailure(w, reason, draw)) && Retries(s, ReportFailure(w, reason, draw))
    ensures var e, failure := s.workers[w].event, FailureOf(s, w, reason);
      && IsDelivering(s.db, e) && Effects.Ordinary(s.db.events[e], failure)
      && s.db.events[e].attempts + 1 < failure.maxAttempts
      && e in DbAfter(s, ReportFailure(w, reason, draw)).events
      && DbAfter(s, ReportFailure(w, reason, draw)).events[e]
         == EventAfterFailure(s.db.events[e], failure.maxAttempts, failure.initialDelayMs, s.now, draw)
  {
    var e := s.workers[w].event;
    assert e in EventEffects(s, ReportFailure(w, reason, draw));
    FailedRow(s, w, reason, draw);
    FailureDecidedBy(s, ReportFailure(w, reason, draw), e);
    assert EventOk(s.db, e) && WorkerOk(s, s.workers[w]);
  }

  /**
   * A failed event is retried no sooner than after the initial delay, or an hour if that is less,
   * and no later than after the initial delay doubled with every attempt, or an hour.
   */
  lemma RetryTime(s: State, w: WorkerId, reason: Option<int>, draw: nat)
    requires Core(s) && Enabled(s, ReportFailure(w, reason, draw)) && Retries(s, ReportFailure(w, reason, draw))
    ensures var e, delay := s.workers[w].event, s.workers[w].stage.endpoint.initialDelayMs;
      && e in s.db.events && e in DbAfter(s, ReportFailure(w, reason, draw)).events
      && s.db.events[e].attempts >= 0
      && var at := DbAfter(s, ReportFailure(w, reason, draw)).events[e].scheduledAt;
        && s.now < s.now + Min(delay, 3_600_000) * 1000 <= at
        && at <= s.now + Min(3_600_000, delay * Pow2(s.db.events[e].attempts + 1)) * 1000
  {
    RetryIsOrdinary(s, w, reason, draw);
    Effects.EventFails(s.db.events[s.workers[w].event], FailureOf(s, w, reason), s.now, draw);
  }

  lemma DrawIsFree(s: State, w: WorkerId, reason: Option<int>, draw: nat, other: nat)
    requires Enabled(s, ReportFailure(w, reason, draw)) && Retries(s, ReportFailure(w, reason, draw))
    ensures Enabled(s, ReportFailure(w, reason, other)) && Retries(s, ReportFailure(w, reason, other))
  {
  }

  /** Which retry is scheduled depends on the draw alone, and every whole number of milliseconds in that range is possible. */
  lemma RetryTimesReached(s: State, w: WorkerId, reason: Option<int>, draw: nat, waitMs: nat) returns (lucky: nat)
    requires Core(s) && Enabled(s, ReportFailure(w, reason, draw)) && Retries(s, ReportFailure(w, reason, draw))
    requires var e, delay := s.workers[w].event, s.workers[w].stage.endpoint.initialDelayMs;
      && e in s.db.events && s.db.events[e].attempts >= 0
      && Min(delay, 3_600_000) <= waitMs <= Min(3_600_000, delay * Pow2(s.db.events[e].attempts + 1))
    ensures Enabled(s, ReportFailure(w, reason, lucky))
    ensures var e, next := s.workers[w].event, DbAfter(s, ReportFailure(w, reason, lucky));
      e in next.events && next.events[e].status == Failed && next.events[e].scheduledAt == s.now + waitMs * 1000
  {
    RetryIsOrdinary(s, w, reason, draw);
    lucky := LuckyDraw(s.db.events[s.workers[w].event], FailureOf(s, w, reason), s.now, waitMs);
    DrawIsFree(s, w, reason, draw, lucky);
    RetryIsOrdinary(s, w, reason, lucky);
  }

  lemma LuckyDraw(ev: Event, failure: Failure, now: int, waitMs: nat) returns (draw: nat)
    requires ev.status == Delivering && Effects.Ordinary(ev, failure) && ev.attempts + 1 < failure.maxAttempts
    requires Min(failure.initialDelayMs, 3_600_000) <= waitMs <= Effects.LongestWaitMs(ev, failure)
    ensures var next := EventAfterFailure(ev, failure.maxAttempts, failure.initialDelayMs, now, draw);
      next.status == Failed && next.scheduledAt == now + waitMs * 1000
  {
    Effects.RetryTimesExactly(ev, failure, now, waitMs);
    draw :| EventAfterFailure(ev, failure.maxAttempts, failure.initialDelayMs, now, draw).scheduledAt == now + waitMs * 1000;
    Integrity.EventAfterFailureShape(ev, failure.maxAttempts, failure.initialDelayMs, now, draw);
  }

  predicate SinceAtLeast(db: Db, e: EventId, cutoff: int)
    requires e in db.events
  {
    db.events[e].deliveringSince.Some? && db.events[e].deliveringSince.value >= cutoff
  }

  /**
   * The reaper reaches every stuck event: afterwards no event has been delivering for
   * longer than the timeout, and those that still are were left exactly as they were.
   */
  lemma ReaperReachesAll(s: State, stuckAfterSecs: int)
    requires Core(s)
    ensures var next, cutoff := Apply(s, Reap(stuckAfterSecs)).db, Ago(s.now, stuckAfterSecs);
      forall e :: e in next.events && next.events[e].status == Delivering ==>
        SinceAtLeast(next, e, cutoff) && e in s.db.events && next.events[e] == s.db.events[e]
  {
    var next, cutoff := Apply(s, Reap(stuckAfterSecs)).db, Ago(s.now, stuckAfterSecs);
    forall e | e in next.events && next.events[e].status == Delivering
      ensures SinceAtLeast(next, e, cutoff) && e in s.db.events && next.events[e] == s.db.events[e]
    {
      assert EventOk(s.db, e);
    }
  }

  // ---- Claims and circuits ----

  /** When the circuit of an endpoint lets its events through, by what was recorded: the documented schedule. */
  predicate CircuitLetsThrough(s: State, p: EndpointId) {
    var streak := Streak(s.trail, p);
    streak < 5 || LastFailure(s.trail, p) + Min(5 * Pow2(streak - 5), 320) * 60_000_000 <= s.now
  }

  lemma CircuitRowLetsThrough(s: State, p: EndpointId)
    requires AllCircuitsOk(s) && p in s.db.endpoints
    ensures CircuitLetsThrough(s, p)
       <==> s.db.endpoints[p].circuitOpenUntil.None? || s.db.endpoints[p].circuitOpenUntil.value <= s.now
  {
    assert CircuitOk(s, p);
  }

  predicate ClaimableNow(s: State, e: EventId)
    requires e in s.db.events
  {
    var ev := s.db.events[e];
    && (ev.status == Pending || ev.status == Failed) && ev.scheduledAt <= s.now
    && ev.endpointId in s.db.endpoints && s.db.endpoints[ev.endpointId].enabled && CircuitLetsThrough(s, ev.endpointId)
  }

  /** An event may be claimed exactly if it waits, its time has come, its endpoint is enabled, and history closed the circuit. */
  lemma ClaimableByHistory(states: seq<State>, i: nat, e: EventId)
    requires IsHistory(states) && i < |states| && e in states[i].db.events
    ensures Effects.MayBeClaimed(states[i].db, e, states[i].now) <==> ClaimableNow(states[i], e)
  {
    assert EventOk(states[i].db, e);
    CircuitsFollowHistory(states, i);
    CircuitRowLetsThrough(states[i], states[i].db.events[e].endpointId);
  }

  /**
   * In every run a claim takes only events whose circuit history has closed, takes the earliest,
   * and leaves none behind that it could take, unless locked or the batch is full.
   */
  lemma ClaimsRespectCircuits(states: seq<State>, steps: seq<Step>, i: nat)
    requires Run(states, steps) && i < |steps| && steps[i].ClaimBatch?
    ensures Effects.RightlyChosen(states[i].db, steps[i].chosen, steps[i].locked, steps[i].limit, states[i].now)
    ensures forall e :: e in steps[i].chosen ==>
      e in states[i].db.events && CircuitLetsThrough(states[i], states[i].db.events[e].endpointId)
  {
    assert StepAt(states, steps, i);
    RunIsHistory(states, steps);
    Effects.EarliestIsRight(states[i].db, steps[i].chosen, steps[i].locked, steps[i].limit, states[i].now);
    forall e | e in steps[i].chosen
      ensures e in states[i].db.events && CircuitLetsThrough(states[i], states[i].db.events[e].endpointId)
    {
      assert Effects.MayBeClaimed(states[i].db, e, states[i].now);
      ClaimableByHistory(states, i, e);
    }
  }

  // ---- How events vanish ----

  /** The step deletes the event's endpoint, or cleans up events of its status that are older than it. */
  predicate Removes(s: State, step: Step, e: EventId)
    requires e in s.db.events
  {
    || (step.Unregister? && step.id == s.db.events[e].endpointId)
    || (step.Purge? && step.status == s.db.events[e].status
        && s.db.events[e].createdAt < s.now - step.olderThanSecs * 1_000_000)
  }

  lemma UnregisterRemoves(s: State, step: Step, e: EventId)
    requires Core(s) && Enabled(s, step) && step.Unregister? && e in s.db.events
    ensures e !in DbAfter(s, step).events <==> Removes(s, step, e)
  {
    assert EventOk(s.db, e);
  }

  lemma PurgeRemoves(s: State, step: Step, e: EventId)
    requires Enabled(s, step) && step.Purge? && e in s.db.events
    ensures e !in DbAfter(s, step).events <==> Removes(s, step, e)
  {
  }

  lemma OthersRemoveNothing(s: State, step: Step, e: EventId)
    requires Enabled(s, step) && !step.Unregister? && !step.Purge? && e in s.db.events
    ensures e in DbAfter(s, step).events
  {
  }

  lemma VanishesExactly(s: State, step: Step, e: EventId)
    requires Core(s) && Enabled(s, step) && e in s.db.events
    ensures e !in DbAfter(s, step).events <==> Removes(s, step, e)
  {
    if step.Unregister? {
      UnregisterRemoves(s, step, e);
    } else if step.Purge? {
      PurgeRemoves(s, step, e);
    } else {
      OthersRemoveNothing(s, step, e);
    }
  }

  predicate RemovedBetween(states: seq<State>, steps: seq<Step>, i: nat, j: nat, e: EventId)
    requires |states| == |steps| + 1 && j < |states|
  {
    exists k :: i <= k < j && e in states[k].db.events && Removes(states[k], steps[k], e)
  }

  /** One step of a run: an event that is there vanishes exactly if the step removes it, and one that is gone stays so. */
  lemma VanishStep(states: seq<State>, steps: seq<Step>, k: nat, e: EventId)
    requires Run(states, steps) && k < |steps| && e in states[k].issued
    ensures e in states[k + 1].issued
    ensures e !in states[k + 1].db.events <==> e !in states[k].db.events || Removes(states[k], steps[k], e)
  {
    RunIsHistory(states, steps);
    HistoryStep(states, k, e);
    assert StepAt(states, steps, k) && Core(states[k]);
    if e in states[k].db.events {
      VanishesExactly(states[k], steps[k], e);
    }
  }

  lemma RemovedLater(states: seq<State>, steps: seq<Step>, i: nat, k: nat, e: EventId)
    requires |states| == |steps| + 1 && i <= k < |steps|
    ensures RemovedBetween(states, steps, i, k + 1, e)
       <==> RemovedBetween(states, steps, i, k, e) || (e in states[k].db.events && Removes(states[k], steps[k], e))
  {
  }

  lemma {:induction false} VanishedBy(states: seq<State>, steps: seq<Step>, i: nat, j: nat, e: EventId)
    requires Run(states, steps) && i <= j < |states| && e in states[i].db.events && e in states[i].issued
    ensures e in states[j].issued
    ensures e !in states[j].db.events <==> RemovedBetween(states, steps, i, j, e)
    decreases j
  {
    if i < j {
      VanishedBy(states, steps, i, j - 1, e);
      VanishStep(states, steps, j - 1, e);
      RemovedLater(states, steps, i, j - 1, e);
    }
  }

  /**
   * Over whole runs: an event that is there at one time and not at a later one was removed in
   * between, with its endpoint or by a cleanup of events of its status older than it; and only then.
   */
  lemma EventsVanishExactly(states: seq<State>, steps: seq<Step>, i: nat, j: nat, e: EventId)
    requires Run(states, steps) && i <= j < |states| && e in states[i].db.events
    ensures e !in states[j].db.events <==> RemovedBetween(states, steps, i, j, e)
  {
    CoreHolds(states, steps, i);
    VanishedBy(states, steps, i, j, e);
  }

  // ---- The end of a delivery ----

  /** The report is written; a report of failure is not if its event is gone or the window overflows. */
  predicate Commits(s: State, step: Step)
    requires Enabled(s, step)
  {
    && Reporter(step).Some?
    && (step.ReportFailure? ==>
        FailureCommits(Circuit.Postgres, s.db, s.workers[step.w].event, FailureOf(s, step.w, step.reason), s.now))
  }

  lemma ReportEnds(s: State, step: Step)
    requires Core(s) && Enabled(s, step) && Commits(s, step)
    ensures Reporter(step).value in s.workers
    ensures !IsDelivering(DbAfter(s, step), s.workers[Reporter(step).value].event)
  {
    if step.CloseMissing? {
      assert WorkerOk(s, s.workers[step.w]);
    }
  }

  /** In step i a worker wrote its report about event e. */
  ghost predicate ReportedAt(states: seq<State>, steps: seq<Step>, i: nat, e: EventId) {
    && |states| == |steps| + 1 && i < |steps| && StepAt(states, steps, i) && Commits(states[i], steps[i])
    && Reporter(steps[i]).value in states[i].workers && states[i].workers[Reporter(steps[i]).value].event == e
  }

  /**
   * Once a worker's report is written its event is not in flight: if it is delivering
   * at any later time, somebody claimed it anew in between.
   */
  lemma ReportEndsDelivery(states: seq<State>, steps: seq<Step>, i: nat, j: nat, e: EventId)
    requires Run(states, steps) && i < j < |states| && ReportedAt(states, steps, i, e)
    ensures IsDelivering(states[j].db, e) ==> ClaimedBetween(states, i, j, e)
  {
    RunIsHistory(states, steps);
    assert Core(states[i]) && TruthfulAt(states, i);
    ReportEnds(states[i], steps[i]);
    assert WorkerOk(states[i], states[i].workers[Reporter(steps[i]).value]);
    if !ClaimedBetween(states, i, j, e) {
      StaysNotDelivering(states, i + 1, j, e);
    }
  }

  /**
   * A worker that claimed a batch and waited until the report about each of its events was
   * written leaves nothing of its own in flight: what is delivering was claimed anew since
   * its report. Deliveries that crash or whose report is rolled back are not waited for in
   * this sense; they are left to the reaper.
   */
  lemma JoinedBatchLeavesNothing(states: seq<State>, steps: seq<Step>, i: nat, j: nat, reports: map<EventId, nat>)
    requires Run(states, steps) && i < |steps| && j < |states| && steps[i].ClaimBatch?
    requires reports.Keys == steps[i].chosen
    requires forall e :: e in reports ==> i < reports[e] < j && ReportedAt(states, steps, reports[e], e)
    ensures forall e :: e in steps[i].chosen && IsDelivering(states[j].db, e) ==> ClaimedBetween(states, reports[e], j, e)
  {
    forall e | e in steps[i].chosen && IsDelivering(states[j].db, e) ensures ClaimedBetween(states, reports[e], j, e) {
      ReportEndsDelivery(states, steps, reports[e], j, e);
    }
  }

  /**
   * When a report closes the claim its worker made, and not somebody else's or none: exactly
   * if nothing released the event since that claim, and the report is written.
   */
  lemma ReportClosesOwnClaimExactly(states: seq<State>, steps: seq<Step>, i: nat, j: nat, e: EventId)
    requires Run(states, steps) && i < j < |steps| && ClaimedAt(states, i, e) && e in states[j].db.events
    requires StepAt(states, steps, j) && (steps[j].ReportSuccess? || steps[j].ReportFailure?)
    requires steps[j].w in states[j].workers && states[j].workers[steps[j].w].event == e
    ensures states[j + 1].db.events != states[j].db.events && !ClaimedBetween(states, i, j, e)
       <==> !ReleasedBetween(states, i, j, e) && Commits(states[j], steps[j])
  {
    RunIsHistory(states, steps);
    ClaimStandsExactly(states, i, j, e);
    assert Core(states[j]);
    match steps[j]
    case ReportSuccess(w, response, body) => ReportTakesEffectExactly(states[j], w, response, body);
    case ReportFailure(w, reason, draw) => FailureTakesEffectExactly(states[j], w, reason, draw);
  }

  // ---- Constant attempt limits ----

  /** The step leaves the attempt limit of every endpoint alone. */
  predicate KeepsLimits(s: State, step: Step) {
    step.Configure? && step.id in s.db.endpoints && step.update.maxAttempts.Some? ==>
      step.update.maxAttempts.value == s.db.endpoints[step.id].maxAttempts
  }

  /** The attempt limit the worker read is still the one of its event's endpoint. */
  predicate LimitKnown(s: State, worker: Worker) {
    worker.stage.Found? && worker.event in s.db.events && worker.endpointId in s.db.endpoints ==>
      worker.stage.endpoint.maxAttempts == s.db.endpoints[worker.endpointId].maxAttempts
  }

  predicate LimitsKnown(s: State) {
    forall w :: w in s.workers ==> LimitKnown(s, s.workers[w])
  }

  lemma LimitKept(s: State, step: Step, p: EndpointId)
    requires Enabled(s, step) && KeepsLimits(s, step) && p in s.db.endpoints && p in DbAfter(s, step).endpoints
    ensures DbAfter(s, step).endpoints[p].maxAttempts == s.db.endpoints[p].maxAttempts
  {
  }

  /** An event that stays keeps its endpoint, and the endpoint its limit. */
  lemma EventLimitKept(s: State, step: Step, e: EventId)
    requires Core(s) && Enabled(s, step) && KeepsLimits(s, step)
    requires e in s.issued && e in DbAfter(s, step).events
    ensures var next := DbAfter(s, step);
      && e in s.db.events && next.events[e].endpointId == s.db.events[e].endpointId
      && next.events[e].endpointId in s.db.endpoints && next.events[e].endpointId in next.endpoints
      && next.endpoints[next.events[e].endpointId].maxAttempts == s.db.endpoints[next.events[e].endpointId].maxAttempts
  {
    StepIsTruthful(s, step);
    ConsistentKept(s, step);
    StepIsAllowed(s, Apply(s, step), e);
    assert EventOk(s.db, e) && EventOk(DbAfter(s, step), e);
    LimitKept(s, step, s.db.events[e].endpointId);
  }

  /** The limits of a worker after a step are those of a worker before it, or freshly read. */
  lemma FoundBefore(s: State, step: Step, w: WorkerId)
    requires Enabled(s, step) && w in WorkersAfter(s, step) && WorkersAfter(s, step)[w].stage.Found?
    ensures w in s.workers
    ensures s.workers[w].event == WorkersAfter(s, step)[w].event
    ensures s.workers[w].endpointId == WorkersAfter(s, step)[w].endpointId
    ensures s.workers[w].stage == WorkersAfter(s, step)[w].stage
      || (s.workers[w].endpointId in s.db.endpoints
          && WorkersAfter(s, step)[w].stage == Found(s.db.endpoints[s.workers[w].endpointId]))
  {
  }

  lemma LimitsKnownKept(s: State, step: Step)
    requires Core(s) && Enabled(s, step) && KeepsLimits(s, step) && LimitsKnown(s)
    ensures LimitsKnown(Apply(s, step))
  {
    var next := Apply(s, step);
    forall w | w in next.workers ensures LimitKnown(next, next.workers[w]) {
      if next.workers[w].stage.Found? && next.workers[w].event in next.db.events {
        FoundBefore(s, step, w);
        assert WorkerOk(s, s.workers[w]) && LimitKnown(s, s.workers[w]);
        EventLimitKept(s, step, next.workers[w].event);
      }
    }
  }

  /** What a worker passes to record_failure is the limit that holds. */
  lemma KnownLimitIsPassed(s: State, w: WorkerId, reason: Option<int>)
    requires Core(s) && LimitsKnown(s) && HasEndpoint(s, w, true)
    ensures LimitPassed(s.db, s.workers[w].event, FailureOf(s, w, reason))
  {
    assert WorkerOk(s, s.workers[w]) && LimitKnown(s, s.workers[w]);
  }

  lemma ReportKeepsBounded(s: State, step: Step)
    requires Core(s) && Enabled(s, step) && LimitsKnown(s) && Bounded(s.db)
    requires step.ReportSuccess? || step.ReportFailure? || step.HandBack? || step.CloseMissing?
    ensures Bounded(DbAfter(s, step))
  {
    var e := s.workers[step.w].event;
    match step
    case ReportSuccess(w, response, body) => Bounds.RecordSuccessKeeps(s.db, e, SuccessRow(response, body, s.now));
    case ReportFailure(w, reason, draw) =>
      KnownLimitIsPassed(s, w, reason);
      Bounds.RecordFailureKeeps(Circuit.Postgres, s.db, e, FailureOf(s, w, reason), s.now, draw);
    case HandBack(w) => Bounds.ResetToPendingKeeps(s.db, e, s.now);
    case CloseMissing(w) =>
      assert WorkerOk(s, s.workers[w]);
      Bounds.RecordEndpointDeletedKeeps(s.db, e, Attempt(false, s.now, None, None));
  }

  lemma QueueKeepsBounded(s: State, step: Step)
    requires Core(s) && Enabled(s, step) && Bounded(s.db)
    requires step.Send? || step.SendToAll? || step.ClaimBatch? || step.Reap?
    ensures Bounded(DbAfter(s, step))
  {
    match step
    case Send(e, id, eventType, payload, key) => Bounds.EnqueueKeeps(s.db, e, id, eventType, payload, key, s.now);
    case SendToAll(targets, eventType, payload, key) => Bounds.BroadcastKeeps(s.db, targets, eventType, payload, key, s.now);
    case ClaimBatch(_, _, chosen, _) => Bounds.ClaimKeeps(s.db, chosen, s.now);
    case Reap(secs) => Bounds.RecoverKeeps(s.db, Ago(s.now, secs));
  }

  lemma OperatorKeepsBounded(s: State, step: Step)
    requires Core(s) && Enabled(s, step) && KeepsLimits(s, step) && Bounded(s.db)
    requires step.Register? || step.Configure? || step.Unregister? || step.RetryCommit? || step.RetryAll? || step.Purge?
    ensures Bounded(DbAfter(s, step))
  {
    match step
    case Register(id, config) => Bounds.CreateKeeps(s.db, id, config);
    case Configure(id, update) => Bounds.UpdateKeeps(s.db, id, update);
    case Unregister(id) => Bounds.DeleteKeeps(s.db, id);
    case RetryCommit(c) => Bounds.RetryDeadKeeps(s.db, s.calls[c].event, s.calls[c].endpointId, s.now);
    case RetryAll(id) => Bounds.RetryAllDeadKeeps(s.db, id, s.now);
    case Purge(status, secs) => Bounds.WithoutKeeps(s.db, Expired(s.db, status, Ago(s.now, secs)));
  }

  lemma BoundedKept(s: State, step: Step)
    requires Core(s) && Enabled(s, step) && KeepsLimits(s, step) && LimitsKnown(s) && Bounded(s.db)
    ensures Bounded(DbAfter(s, step))
  {
    if step.ReportSuccess? || step.ReportFailure? || step.HandBack? || step.CloseMissing? {
      ReportKeepsBounded(s, step);
    } else if step.Send? || step.SendToAll? || step.ClaimBatch? || step.Reap? {
      QueueKeepsBounded(s, step);
    } else if step.LookUp? || step.Crash? || step.RetryStart? || step.RetryLookUp? || step.Tick? {
    } else {
      OperatorKeepsBounded(s, step);
    }
  }

  ghost predicate NeverClosed(s: State) {
    forall e :: Count(s.trail, e, Closed) == 0
  }

  lemma NeverClosedKept(s: State, step: Step)
    requires Core(s) && Enabled(s, step) && NeverClosed(s)
    ensures NeverClosed(Apply(s, step))
  {
    StepIsTruthful(s, step);
    forall e ensures Count(Apply(s, step).trail, e, Closed) == 0 {
      CountStep(s, Apply(s, step), e, Closed);
      if e in EventEffects(s, step) {
        NothingIsClosed(s, step, e);
      }
    }
  }

  /** A run in which no operator changes an attempt limit. */
  ghost predicate LimitsConstant(states: seq<State>, steps: seq<Step>) {
    Run(states, steps) && forall i :: 0 <= i < |steps| ==> KeepsLimits(states[i], steps[i])
  }

  /**
   * With constant limits, in every reachable state: an event that may still be
   * delivered has attempts left, a dead one has used exactly all of them, and a
   * delivered one at least one and at most all.
   */
  lemma {:induction false} AttemptsAreBounded(states: seq<State>, steps: seq<Step>, i: nat)
    requires LimitsConstant(states, steps) && i < |states|
    ensures Core(states[i]) && LimitsKnown(states[i]) && Bounded(states[i].db)
  {
    if i > 0 {
      AttemptsAreBounded(states, steps, i - 1);
      assert StepAt(states, steps, i - 1);
      CoreKept(states[i - 1], steps[i - 1]);
      LimitsKnownKept(states[i - 1], steps[i - 1]);
      BoundedKept(states[i - 1], steps[i - 1]);
    }
  }

  /** No claim is ever closed by the endpoint-missing path, in any run. */
  lemma {:induction false} NothingIsEverClosed(states: seq<State>, steps: seq<Step>, i: nat)
    requires Run(states, steps) && i < |states|
    ensures NeverClosed(states[i])
  {
    if i > 0 {
      NothingIsEverClosed(states, steps, i - 1);
      assert StepAt(states, steps, i - 1);
      CoreHolds(states, steps, i - 1);
      NeverClosedKept(states[i - 1], steps[i - 1]);
    }
  }

  /**
   * With constant limits an event is claimed at most as often as its limit allows
   * attempts, plus once for every time a claim was reaped or handed back, however
   * many slow workers report.
   */
  lemma ClaimsAreBounded(states: seq<State>, steps: seq<Step>, i: nat, e: EventId)
    requires LimitsConstant(states, steps) && i < |states| && e in states[i].db.events
    ensures states[i].db.events[e].endpointId in states[i].db.endpoints
    ensures var s := states[i];
      Count(s.trail, e, Claimed) <=
        s.db.endpoints[s.db.events[e].endpointId].maxAttempts + Count(s.trail, e, Reaped) + Count(s.trail, e, HandedBack)
  {
    AttemptsAreBounded(states, steps, i);
    NothingIsEverClosed(states, steps, i);
    RunIsHistory(states, steps);
    ClaimsAreConserved(states, i);
    assert EventOk(states[i].db, e) && Conserved(states[i], e);
  }

  // ---- Reports in time ----

  predicate OnTime(s: State, worker: Worker, timeoutSecs: nat) {
    s.now <= worker.claimedAt + timeoutSecs * SECOND
  }

  /** Workers report within the timeout of their claim, and no reaper is more impatient than that. */
  predicate Timely(s: State, step: Step, timeoutSecs: nat) {
    && (step.Reap? ==> step.stuckAfterSecs >= timeoutSecs)
    && (Reporter(step).Some? && Reporter(step).value in s.workers ==>
        OnTime(s, s.workers[Reporter(step).value], timeoutSecs))
  }

  /** The worker's event, if it still exists, is delivering under this worker's own claim. */
  predicate OwnsEvent(s: State, worker: Worker) {
    worker.event in s.db.events ==>
      s.db.events[worker.event].status == Delivering
      && s.db.events[worker.event].deliveringSince == Some(worker.claimedAt)
  }

  predicate Owned(s: State, timeoutSecs: nat) {
    && (forall w :: w in s.workers && OnTime(s, s.workers[w], timeoutSecs) ==> OwnsEvent(s, s.workers[w]))
    && (forall v, w :: v in s.workers && w in s.workers && v != w ==>
        !OnTime(s, s.workers[v], timeoutSecs) || !OnTime(s, s.workers[w], timeoutSecs)
        || s.workers[v].event != s.workers[w].event)
  }

  /** A worker after a step is one from before, perhaps after a read, or was claimed in this step. */
  lemma WorkerOrigin(s: State, step: Step, w: WorkerId)
    requires Enabled(s, step) && w in WorkersAfter(s, step)
    ensures var worker := WorkersAfter(s, step)[w];
      && (w in s.workers ==> worker.event == s.workers[w].event && worker.claimedAt == s.workers[w].claimedAt)
      && (w !in s.workers ==>
          step.ClaimBatch? && worker.event in step.chosen && step.names[worker.event] == w
          && worker.event in s.db.events && worker == NewWorker(s.db, s.now, worker.event))
  {
    if step.ClaimBatch? && w !in s.workers {
      var e :| e in step.chosen && step.names[e] == w;
      assert NewWorkers(s.db, s.now, step.chosen, step.names)[w] == NewWorker(s.db, s.now, e);
    }
  }

  lemma OldOwnerKept(s: State, step: Step, timeoutSecs: nat, w: WorkerId)
    requires Core(s) && Enabled(s, step) && Timely(s, step, timeoutSecs) && Owned(s, timeoutSecs)
    requires w in s.workers && w in WorkersAfter(s, step) && OnTime(s, s.workers[w], timeoutSecs)
    ensures OwnsEvent(Apply(s, step), s.workers[w])
  {
    var e := s.workers[w].event;
    if e in DbAfter(s, step).events {
      assert WorkerOk(s, s.workers[w]) && OwnsEvent(s, s.workers[w]);
      StepIsTruthful(s, step);
      StepIsAllowed(s, Apply(s, step), e);
      EventsAreReal(s, step, e);
      if e in EventEffects(s, step) && IsRelease(EventEffects(s, step)[e]) {
        ReleasedBy(s, step, e);
        assert false;
      }
    }
  }

  lemma NewOwnerHolds(s: State, step: Step, w: WorkerId)
    requires Core(s) && Enabled(s, step) && step.ClaimBatch? && w in WorkersAfter(s, step) && w !in s.workers
    ensures OwnsEvent(Apply(s, step), WorkersAfter(s, step)[w])
  {
    WorkerOrigin(s, step, w);
  }

  /** An event chosen by a claim is not that of a worker that is still on time. */
  lemma ChosenIsUnowned(s: State, step: Step, timeoutSecs: nat, w: WorkerId)
    requires Enabled(s, step) && step.ClaimBatch? && Owned(s, timeoutSecs)
    requires w in s.workers && OnTime(s, s.workers[w], timeoutSecs)
    ensures s.workers[w].event !in step.chosen
  {
    assert OwnsEvent(s, s.workers[w]);
    assert step.chosen <= DueEvents(s.db, s.now);
  }

  lemma OwnersDistinct(s: State, step: Step, timeoutSecs: nat, v: WorkerId, w: WorkerId)
    requires Enabled(s, step) && Owned(s, timeoutSecs)
    requires v in WorkersAfter(s, step) && w in WorkersAfter(s, step) && v != w
    requires OnTime(s, WorkersAfter(s, step)[v], timeoutSecs) && OnTime(s, WorkersAfter(s, step)[w], timeoutSecs)
    ensures WorkersAfter(s, step)[v].event != WorkersAfter(s, step)[w].event
  {
    WorkerOrigin(s, step, v);
    WorkerOrigin(s, step, w);
    if v in s.workers && w !in s.workers {
      ChosenIsUnowned(s, step, timeoutSecs, v);
    } else if w in s.workers && v !in s.workers {
      ChosenIsUnowned(s, step, timeoutSecs, w);
    }
  }

  lemma OwnedKept(s: State, step: Step, timeoutSecs: nat)
    requires Core(s) && Enabled(s, step) && Timely(s, step, timeoutSecs) && Owned(s, timeoutSecs)
    ensures Owned(Apply(s, step), timeoutSecs)
  {
    var next := Apply(s, step);
    forall w | w in next.workers && OnTime(next, next.workers[w], timeoutSecs)
      ensures OwnsEvent(next, next.workers[w])
    {
      WorkerOrigin(s, step, w);
      if w in s.workers {
        OldOwnerKept(s, step, timeoutSecs, w);
      } else {
        NewOwnerHolds(s, step, w);
      }
    }
    forall v, w | v in next.workers && w in next.workers && v != w
        && OnTime(next, next.workers[v], timeoutSecs) && OnTime(next, next.workers[w], timeoutSecs)
      ensures next.workers[v].event != next.workers[w].event
    {
      OwnersDistinct(s, step, timeoutSecs, v, w);
    }
  }

  /** A run that keeps the timing contract. */
  ghost predicate TimelyRun(states: seq<State>, steps: seq<Step>, timeoutSecs: nat) {
    Run(states, steps) && forall i :: 0 <= i < |steps| ==> Timely(states[i], steps[i], timeoutSecs)
  }

  lemma {:induction false} OwnershipHolds(states: seq<State>, steps: seq<Step>, timeoutSecs: nat, i: nat)
    requires TimelyRun(states, steps, timeoutSecs) && i < |states|
    ensures Core(states[i]) && Owned(states[i], timeoutSecs)
  {
    if i > 0 {
      OwnershipHolds(states, steps, timeoutSecs, i - 1);
      assert StepAt(states, steps, i - 1);
      CoreKept(states[i - 1], steps[i - 1]);
      OwnedKept(states[i - 1], steps[i - 1], timeoutSecs);
    }
  }

  /**
   * Under the timing contract there are no zombies: whenever a worker reports, its
   * event, if it still exists, is delivering since that worker's own claim, in every
   * run with any number of workers and reapers.
   */
  lemma NoZombies(states: seq<State>, steps: seq<Step>, timeoutSecs: nat, i: nat)
    requires TimelyRun(states, steps, timeoutSecs) && i < |steps| && Reporter(steps[i]).Some?
    ensures Reporter(steps[i]).value in states[i].workers
    ensures OwnsEvent(states[i], states[i].workers[Reporter(steps[i]).value])
  {
    OwnershipHolds(states, steps, timeoutSecs, i);
    assert StepAt(states, steps, i) && Timely(states[i], steps[i], timeoutSecs);
  }
}
