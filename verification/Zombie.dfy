/**
 * A run without the timing contract: a slow worker's report closes the claim of the
 * worker that took its event over.
 */
module Zombie {
  import opened Common
  import opened Schema
  import opened Queue
  import opened System
  import Circuit
  import Contracts
  import Integrity

  const NEW_EVENT := NewEvent(0, "a", "{}", None, 0)
  const ENDPOINT := Endpoint(true, 10, 1000, None, 0, None)

  /** One endpoint and one event, with the given version of the event. */
  function OneEvent(ev: Event): Db {
    Db(map[0 := ENDPOINT], map[0 := ev], map[0 := []])
  }

  const REGISTER := Register(0, NewEndpoint("https://example.com", "0123456789abcdef", None, None, None))
  const SEND := Send(0, 0, "a", "{}", None)
  const WAIT := Tick(121 * SECOND)

  /** The two reports a slow worker may come with: failure, or success. */
  const FAILURE := ReportFailure(1, Some(500), 0)
  const SUCCESS := ReportSuccess(1, 200, None)

  function ClaimOne(w: WorkerId): Step {
    ClaimBatch(1, {}, {0}, map[0 := w])
  }

  /** The parts of a state this run depends on. */
  predicate Looks(s: State, db: Db, now: int, workers: map<WorkerId, Worker>) {
    s.db == db && s.now == now && s.workers == workers
  }

  lemma OnlyDue(s: State)
    requires s.db == OneEvent(NEW_EVENT) && s.now >= 0
    ensures DueEvents(s.db, s.now) - {} == {0}
  {
  }

  lemma OneName(w: WorkerId)
    ensures (map[0 := w]).Values == {w}
  {
    var names := map[0 := w];
    assert names[0] == w;
    forall v | v in names.Values ensures v == w {
    }
  }

  lemma ClaimEnabled(s: State, w: WorkerId)
    requires s.db == OneEvent(NEW_EVENT) && s.now >= 0 && w !in s.workers
    ensures Enabled(s, ClaimOne(w))
  {
    OnlyDue(s);
    OneName(w);
  }

  lemma ClaimedRows(s: State, w: WorkerId)
    requires s.db == OneEvent(NEW_EVENT) && Enabled(s, ClaimOne(w))
    ensures DbAfter(s, ClaimOne(w)) == OneEvent(MarkClaimed(NEW_EVENT, s.now))
  {
    assert DbAfter(s, ClaimOne(w)).events == OneEvent(MarkClaimed(NEW_EVENT, s.now)).events;
  }

  lemma OneNewWorker(s: State, w: WorkerId)
    requires s.db == OneEvent(NEW_EVENT)
    ensures NewWorkers(s.db, s.now, {0}, map[0 := w]) == map[w := Worker(0, 0, s.now, Fetched)]
  {
    var names := map[0 := w];
    OneName(w);
    assert NewWorkers(s.db, s.now, {0}, names)[names[0]] == NewWorker(s.db, s.now, 0);
  }

  lemma AddOne(workers: map<WorkerId, Worker>, w: WorkerId, worker: Worker)
    ensures workers + map[w := worker] == workers[w := worker]
  {
  }

  lemma OneWorker(s: State, w: WorkerId)
    requires s.db == OneEvent(NEW_EVENT) && Enabled(s, ClaimOne(w))
    ensures WorkersAfter(s, ClaimOne(w)) == s.workers[w := Worker(0, 0, s.now, Fetched)]
  {
    OneNewWorker(s, w);
    AddOne(s.workers, w, Worker(0, 0, s.now, Fetched));
  }

  lemma ClaimStep(s: State, now: int, workers: map<WorkerId, Worker>, w: WorkerId) returns (next: State)
    requires Looks(s, OneEvent(NEW_EVENT), now, workers) && now >= 0 && w !in workers
    ensures Next(s, ClaimOne(w), next)
    ensures Looks(next, OneEvent(MarkClaimed(NEW_EVENT, now)), now, workers[w := Worker(0, 0, now, Fetched)])
  {
    ClaimEnabled(s, w);
    ClaimedRows(s, w);
    OneWorker(s, w);
    next := Apply(s, ClaimOne(w));
  }

  lemma SetUp(s: State) returns (registered: State, next: State)
    requires Initial(s) && s.now == 0
    ensures Next(s, REGISTER, registered)
    ensures Next(registered, SEND, next)
    ensures Looks(next, OneEvent(NEW_EVENT), 0, map[])
  {
    registered := Apply(s, REGISTER);
    assert registered.db == Db(map[0 := ENDPOINT], map[], map[]);
    next := Apply(registered, SEND);
  }

  lemma ReadStep(s: State) returns (next: State)
    requires Looks(s, OneEvent(MarkClaimed(NEW_EVENT, 0)), 0, map[1 := Worker(0, 0, 0, Fetched)])
    ensures Next(s, LookUp(1), next)
    ensures Looks(next, s.db, 0, map[1 := Worker(0, 0, 0, Found(ENDPOINT))])
  {
    next := Apply(s, LookUp(1));
  }

  lemma ReapStep(s: State, workers: map<WorkerId, Worker>) returns (later: State, next: State)
    requires Looks(s, OneEvent(MarkClaimed(NEW_EVENT, 0)), 0, workers)
    ensures Next(s, WAIT, later) && Next(later, Reap(120), next)
    ensures Looks(next, OneEvent(NEW_EVENT), 121 * SECOND, workers)
  {
    later := Apply(s, WAIT);
    next := Apply(later, Reap(120));
    assert next.db.events == OneEvent(NEW_EVENT).events;
  }

  /** What the slow worker reports, and the tables afterwards. */
  function OneReport(now: int): Failure {
    Failure(0, 10, 1000, Attempt(false, now, Some(500), None))
  }

  function Reported(now: int): Db {
    RecordFailure(Circuit.Postgres, OneEvent(MarkClaimed(NEW_EVENT, now)), 0, OneReport(now), now, 0)
  }

  lemma OneFailure(now: int)
    ensures var after := Reported(now);
      && 0 in after.events && after.events[0].status == Failed && after.events[0].attempts == 1
      && 0 in after.endpoints && after.endpoints[0].consecutiveFailures == 1
  {
    Integrity.EventAfterFailureShape(MarkClaimed(NEW_EVENT, now), 10, 1000, now, 0);
  }

  lemma FailureRows(s: State)
    requires HasEndpoint(s, 1, true) && s.workers[1] == Worker(0, 0, 0, Found(ENDPOINT))
    requires s.db == OneEvent(MarkClaimed(NEW_EVENT, s.now))
    ensures Enabled(s, FAILURE) && DbAfter(s, FAILURE) == Reported(s.now)
  {
    assert FailureOf(s, 1, Some(500)) == OneReport(s.now);
  }

  lemma FailureStep(s: State, other: Worker) returns (next: State)
    requires s.workers == map[1 := Worker(0, 0, 0, Found(ENDPOINT)), 2 := other]
    requires Enabled(s, FAILURE)
    ensures Next(s, FAILURE, next)
    ensures next.now == s.now && next.workers == map[2 := other] && next.db == DbAfter(s, FAILURE)
  {
    next := Apply(s, FAILURE);
  }

  lemma SuccessStep(s: State, other: Worker) returns (next: State)
    requires s.workers == map[1 := Worker(0, 0, 0, Found(ENDPOINT)), 2 := other]
    requires s.db == OneEvent(MarkClaimed(NEW_EVENT, s.now))
    ensures Next(s, SUCCESS, next)
    ensures next.now == s.now && next.workers == map[2 := other]
    ensures 0 in next.db.events && next.db.events[0].status == Delivered
  {
    next := Apply(s, SUCCESS);
  }

  const SET_UP := [REGISTER, SEND]
  const CLAIMED := SET_UP + [ClaimOne(1), LookUp(1)]
  const REAPED := CLAIMED + [WAIT, Reap(120)]

  /** A run grows by any two enabled steps. */
  lemma Extend(states: seq<State>, steps: seq<Step>, first: Step, middle: State, second: Step, last: State)
    requires Run(states, steps) && Next(states[|steps|], first, middle) && Next(middle, second, last)
    ensures Run(states + [middle, last], steps + [first, second])
  {
    var longer, more := states + [middle, last], steps + [first, second];
    forall i | 0 <= i < |more| ensures StepAt(longer, more, i) {
      if i < |steps| {
        assert StepAt(states, steps, i);
        assert longer[i] == states[i] && longer[i + 1] == states[i + 1] && more[i] == steps[i];
      } else if i == |steps| {
        assert longer[i] == states[i] && longer[i + 1] == middle && more[i] == first;
      } else {
        assert longer[i] == middle && longer[i + 1] == last && more[i] == second;
      }
    }
  }

  lemma RunSetUp() returns (states: seq<State>)
    ensures Run(states, SET_UP) && Looks(states[2], OneEvent(NEW_EVENT), 0, map[])
  {
    var start := State(EmptyDb, 0, map[], map[], {}, []);
    var middle, last := SetUp(start);
    Extend([start], [], REGISTER, middle, SEND, last);
    states := [start] + [middle, last];
  }

  lemma RunClaimed() returns (states: seq<State>)
    ensures Run(states, CLAIMED)
    ensures Looks(states[4], OneEvent(MarkClaimed(NEW_EVENT, 0)), 0, map[1 := Worker(0, 0, 0, Found(ENDPOINT))])
  {
    var earlier := RunSetUp();
    var middle := ClaimStep(earlier[2], 0, map[], 1);
    var last := ReadStep(middle);
    Extend(earlier, SET_UP, ClaimOne(1), middle, LookUp(1), last);
    states := earlier + [middle, last];
  }

  lemma RunReaped() returns (states: seq<State>)
    ensures Run(states, REAPED)
    ensures Looks(states[6], OneEvent(NEW_EVENT), 121 * SECOND, map[1 := Worker(0, 0, 0, Found(ENDPOINT))])
  {
    var earlier := RunClaimed();
    var middle, last := ReapStep(earlier[4], earlier[4].workers);
    Extend(earlier, CLAIMED, WAIT, middle, Reap(120), last);
    states := earlier + [middle, last];
  }

  /** The second worker is on time, and the event it holds a claim of is no longer delivering. */
  predicate ForeignClaimClosed(last: State) {
    && 2 in last.workers && last.workers[2].event == 0 && Contracts.OnTime(last, last.workers[2], 120)
    && 0 in last.db.events && last.db.events[0].status != Delivering
  }

  /** The guard on the status does not keep a late report of failure from closing a claim it does not own. */
  lemma FailureClosesForeignClaim() returns (states: seq<State>)
    ensures Run(states, REAPED + [ClaimOne(2), FAILURE]) && ForeignClaimClosed(states[8])
    ensures 0 in states[8].db.events && states[8].db.events[0].status == Failed
  {
    var earlier := RunReaped();
    var middle := ClaimStep(earlier[6], 121 * SECOND, earlier[6].workers, 2);
    FailureRows(middle);
    var last := FailureStep(middle, Worker(0, 0, 121 * SECOND, Fetched));
    OneFailure(middle.now);
    Extend(earlier, REAPED, ClaimOne(2), middle, FAILURE, last);
    states := earlier + [middle, last];
  }

  /** Nor a late report of success. */
  lemma SuccessClosesForeignClaim() returns (states: seq<State>)
    ensures Run(states, REAPED + [ClaimOne(2), SUCCESS]) && ForeignClaimClosed(states[8])
    ensures 0 in states[8].db.events && states[8].db.events[0].status == Delivered
  {
    var earlier := RunReaped();
    var middle := ClaimStep(earlier[6], 121 * SECOND, earlier[6].workers, 2);
    var last := SuccessStep(middle, Worker(0, 0, 121 * SECOND, Fetched));
    Extend(earlier, REAPED, ClaimOne(2), middle, SUCCESS, last);
    states := earlier + [middle, last];
  }
}
