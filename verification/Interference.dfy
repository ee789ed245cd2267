/**
 * What others may do to the tables while a single worker is at work: callers that enqueue,
 * operators that change endpoints, retry, clean up or delete, and reapers. Nobody else claims.
 */
module Interference {
  import opened Bounds
  import opened Common
  import opened Schema
  import opened Queue
  import Circuit
  import Integrity

  /** Whatever is delivering afterwards was so before, and is untouched. */
  predicate StartsNothing(before: Db, after: Db) {
    forall e :: e in after.events && IsDelivering(after, e) ==> e in before.events && after.events[e] == before.events[e]
  }

  predicate Lawful(before: Db, after: Db) {
    Consistent(after) && StartsNothing(before, after)
  }

  predicate KeepsBounds(before: Db, after: Db) {
    Bounded(after) && LimitsStay(before, after)
  }

  /** What others do to the tables, at the k-th occasion. */
  type Others = (nat, Db) -> Db

  /** The tables after others have acted. */
  function Act(others: Others, k: nat, db: Db): Db {
    others(k, db)
  }

  ghost predicate AllLawful(others: Others) {
    forall k: nat, db: Db :: Consistent(db) ==> Lawful(db, Act(others, k, db))
  }

  ghost predicate AllKeepBounds(others: Others) {
    forall k: nat, db: Db :: Consistent(db) && Bounded(db) ==> KeepsBounds(db, Act(others, k, db))
  }

  lemma StartsNothingTwice(a: Db, b: Db, c: Db)
    requires StartsNothing(a, b) && StartsNothing(b, c)
    ensures StartsNothing(a, c)
  {
    forall e | IsDelivering(c, e) ensures e in a.events && c.events[e] == a.events[e] {
      assert IsDelivering(b, e);
    }
  }

  // ---- The operations others may run ----

  lemma EnqueueIsLawful(db: Db, e: EventId, id: EndpointId, eventType: string, payload: string, key: Option<string>, now: int)
    requires Consistent(db) && e !in db.events
    ensures Lawful(db, Enqueue(db, e, id, eventType, payload, key, now))
    ensures Bounded(db) ==> KeepsBounds(db, Enqueue(db, e, id, eventType, payload, key, now))
  {
    Integrity.EnqueueKeeps(db, e, id, eventType, payload, key, now);
    if Bounded(db) {
      Bounds.EnqueueKeeps(db, e, id, eventType, payload, key, now);
    }
  }

  lemma BroadcastIsLawful(backend: Circuit.Backend, db: Db, targets: map<EventId, EndpointId>, eventType: string,
      payload: string, key: Option<string>, now: int)
    requires Consistent(db) && FreshFor(db, targets, Targets(backend, db, eventType))
    ensures Lawful(db, Broadcast(db, targets, eventType, payload, key, now))
    ensures Bounded(db) ==> KeepsBounds(db, Broadcast(db, targets, eventType, payload, key, now))
  {
    Integrity.BroadcastKeeps(backend, db, targets, eventType, payload, key, now);
    if Bounded(db) {
      Bounds.BroadcastKeeps(db, targets, eventType, payload, key, now);
    }
  }

  lemma CreateIsLawful(db: Db, id: EndpointId, config: NewEndpoint)
    requires Consistent(db) && id !in db.endpoints && Integrity.LimitsOk(config.maxAttempts, config.initialDelayMs)
    ensures Lawful(db, Create(db, id, config))
    ensures Bounded(db) ==> KeepsBounds(db, Create(db, id, config))
  {
    Integrity.CreateKeeps(db, id, config);
    if Bounded(db) {
      Bounds.CreateKeeps(db, id, config);
    }
  }

  /** Changing an attempt limit is lawful too, but it alone need not keep the bounds. */
  lemma UpdateIsLawful(db: Db, id: EndpointId, update: UpdateEndpoint)
    requires Consistent(db) && Integrity.LimitsOk(update.maxAttempts, update.initialDelayMs)
    ensures Lawful(db, Update(db, id, update))
    ensures Bounded(db) && update.maxAttempts.None? ==> KeepsBounds(db, Update(db, id, update))
  {
    Integrity.UpdateKeeps(db, id, update);
    if Bounded(db) && update.maxAttempts.None? {
      Bounds.UpdateKeeps(db, id, update);
    }
  }

  lemma DeleteIsLawful(db: Db, id: EndpointId)
    requires Consistent(db)
    ensures Lawful(db, Delete(db, id))
    ensures Bounded(db) ==> KeepsBounds(db, Delete(db, id))
  {
    Integrity.DeleteKeeps(db, id);
    if Bounded(db) {
      Bounds.DeleteKeeps(db, id);
    }
  }

  lemma CleanupIsLawful(db: Db, status: Status, cutoff: int)
    requires Consistent(db)
    ensures Lawful(db, Cleanup(db, status, cutoff))
    ensures Bounded(db) ==> KeepsBounds(db, Cleanup(db, status, cutoff))
  {
    Integrity.WithoutKeeps(db, Expired(db, status, cutoff));
    if Bounded(db) {
      Bounds.WithoutKeeps(db, Expired(db, status, cutoff));
    }
  }

  lemma RetryStartsNothing(db: Db, e: EventId, id: Option<EndpointId>, now: int)
    ensures StartsNothing(db, RetryDead(db, e, id, now)) && LimitsStay(db, RetryDead(db, e, id, now))
  {
  }

  lemma RetryIsLawful(db: Db, e: EventId, id: Option<EndpointId>, now: int)
    requires Consistent(db)
    ensures Lawful(db, RetryDead(db, e, id, now))
    ensures Bounded(db) ==> KeepsBounds(db, RetryDead(db, e, id, now))
  {
    RetryStartsNothing(db, e, id, now);
    Integrity.RetryDeadKeeps(db, e, id, now);
    if Bounded(db) {
      Bounds.RetryDeadKeeps(db, e, id, now);
    }
  }

  lemma RetryAllIsLawful(db: Db, id: EndpointId, now: int)
    requires Consistent(db)
    ensures Lawful(db, RetryAllDead(db, id, now))
    ensures Bounded(db) ==> KeepsBounds(db, RetryAllDead(db, id, now))
  {
    Integrity.RetryAllDeadKeeps(db, id, now);
    if Bounded(db) {
      Bounds.RetryAllDeadKeeps(db, id, now);
    }
  }

  lemma RecoverIsLawful(db: Db, cutoff: int)
    requires Consistent(db)
    ensures Lawful(db, Recover(db, cutoff))
    ensures Bounded(db) ==> KeepsBounds(db, Recover(db, cutoff))
  {
    Integrity.RecoverKeeps(db, cutoff);
    if Bounded(db) {
      Bounds.RecoverKeeps(db, cutoff);
    }
  }

  // ---- Operators who only disable endpoints ----

  /** Nothing changes but that endpoints may have been disabled. */
  predicate OnlyDisables(before: Db, after: Db) {
    && after.events == before.events && after.log == before.log
    && after.endpoints.Keys == before.endpoints.Keys
    && forall p :: p in before.endpoints ==>
        after.endpoints[p] == before.endpoints[p].(enabled := after.endpoints[p].enabled)
        && (after.endpoints[p].enabled ==> before.endpoints[p].enabled)
  }

  ghost predicate AllOnlyDisable(others: Others) {
    forall k: nat, db: Db :: OnlyDisables(db, Act(others, k, db))
  }

  lemma DisablingIsLawful(before: Db, after: Db)
    requires Consistent(before) && OnlyDisables(before, after)
    ensures Lawful(before, after)
    ensures Bounded(before) ==> KeepsBounds(before, after)
  {
    forall e | e in after.events ensures EventOk(after, e) && (Bounded(before) ==> BoundedAt(after, e)) {
      assert EventOk(before, e);
      if Bounded(before) {
        assert BoundedAt(before, e);
      }
    }
  }

  lemma DisablersAreLawful(others: Others)
    requires AllOnlyDisable(others)
    ensures AllLawful(others) && AllKeepBounds(others)
  {
    forall k: nat, db: Db | Consistent(db) ensures Lawful(db, Act(others, k, db)) {
      DisablingIsLawful(db, Act(others, k, db));
    }
    forall k: nat, db: Db | Consistent(db) && Bounded(db) ensures KeepsBounds(db, Act(others, k, db)) {
      DisablingIsLawful(db, Act(others, k, db));
    }
  }
}
