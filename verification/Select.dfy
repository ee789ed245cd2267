/** The selection of due events both backends make: ORDER BY scheduled_at LIMIT n. */
module Select {
  import opened Common
  import opened Schema
  import opened Queue

  function Elements(ids: seq<EventId>): set<EventId> {
    set e | e in ids
  }

  predicate Distinct(ids: seq<EventId>) {
    forall i, j :: 0 <= i < j < |ids| ==> ids[i] != ids[j]
  }

  predicate InOrder(events: map<EventId, Event>, ids: seq<EventId>)
    requires forall i :: 0 <= i < |ids| ==> ids[i] in events
  {
    forall i, j :: 0 <= i < j < |ids| ==> events[ids[i]].scheduledAt <= events[ids[j]].scheduledAt
  }

  lemma {:induction false} DistinctSize(ids: seq<EventId>)
    requires Distinct(ids)
    ensures |Elements(ids)| == |ids|
  {
    if ids != [] {
      var last := |ids| - 1;
      DistinctSize(ids[..last]);
      assert Elements(ids) == Elements(ids[..last]) + {ids[last]};
    }
  }

  lemma DistinctGrows(ids: seq<EventId>, e: EventId)
    requires Distinct(ids) && e !in Elements(ids)
    ensures Distinct(ids + [e]) && Elements(ids + [e]) == Elements(ids) + {e}
  {
    assert forall i :: 0 <= i < |ids| ==> ids[i] in Elements(ids);
  }

  method EarliestOne(events: map<EventId, Event>, candidates: set<EventId>) returns (first: EventId)
    requires candidates != {} && candidates <= events.Keys
    ensures first in candidates
    ensures forall e :: e in candidates ==> events[first].scheduledAt <= events[e].scheduledAt
  {
    first :| first in candidates;
    var rest := candidates - {first};
    while rest != {}
      invariant rest <= candidates && first in candidates
      invariant forall e :: e in candidates - rest ==> events[first].scheduledAt <= events[e].scheduledAt
      decreases rest
    {
      var e :| e in rest;
      if events[e].scheduledAt < events[first].scheduledAt {
        first := e;
      }
      rest := rest - {e};
    }
  }

  /** `ids` are ordered, distinct, and none is later than any of those left. */
  predicate Front(events: map<EventId, Event>, ids: seq<EventId>, left: set<EventId>)
    requires left <= events.Keys
  {
    && Distinct(ids)
    && (forall i :: 0 <= i < |ids| ==> ids[i] in events && ids[i] !in left)
    && InOrder(events, ids)
    && forall i, e :: 0 <= i < |ids| && e in left ==> events[ids[i]].scheduledAt <= events[e].scheduledAt
  }

  lemma FrontGrows(events: map<EventId, Event>, ids: seq<EventId>, left: set<EventId>, first: EventId)
    requires left <= events.Keys && Front(events, ids, left) && first in left
    requires forall e :: e in left ==> events[first].scheduledAt <= events[e].scheduledAt
    ensures Front(events, ids + [first], left - {first})
    ensures Elements(ids + [first]) == Elements(ids) + {first}
  {
    var longer := ids + [first];
    assert forall i :: 0 <= i < |ids| ==> longer[i] == ids[i];
  }

  lemma FrontIsEarliest(db: Db, ids: seq<EventId>, left: set<EventId>, limit: nat)
    requires left <= db.events.Keys && Front(db.events, ids, left)
    requires |ids| <= limit && (|ids| == limit || left == {})
    ensures Elements(ids) + left <= db.events.Keys && Earliest(db, Elements(ids) + left, limit, Elements(ids))
    ensures |Elements(ids)| == |ids|
  {
    DistinctSize(ids);
    assert |Elements(ids) + left| == |Elements(ids)| + |left|;
  }

  /** The `limit` earliest candidates, in order of their scheduled time. */
  method SelectEarliest(db: Db, candidates: set<EventId>, limit: nat) returns (ids: seq<EventId>)
    requires candidates <= db.events.Keys
    ensures Distinct(ids) && Elements(ids) <= candidates && InOrder(db.events, ids)
    ensures Earliest(db, candidates, limit, Elements(ids))
    ensures |ids| == |Elements(ids)|
  {
    ids := [];
    var left := candidates;
    while |ids| < limit && left != {}
      invariant |ids| <= limit && left <= candidates
      invariant Front(db.events, ids, left) && Elements(ids) + left == candidates
      decreases left
    {
      var e := EarliestOne(db.events, left);
      FrontGrows(db.events, ids, left, e);
      ids := ids + [e];
      left := left - {e};
    }
    FrontIsEarliest(db, ids, left, limit);
  }
}
