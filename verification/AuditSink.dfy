// The audit sink: events are kept once per identifier.
module AuditSink {
  import opened ExpiryEpisodes

  /** Identifiers of the audit events the session protocols record, as the parts they are rendered from. */
  datatype EventId =
    | SessionEvent(kind: AuditKind, bankCode: string, expiredEventId: string)
    | ResolutionEvent(resolutionId: nat)

  function Recorded(events: seq<EventId>, event: EventId): seq<EventId> {
    if event in events then events else events + [event]
  }

  ghost predicate Distinct<T>(s: seq<T>) { forall i, j :: 0 <= i < j < |s| ==> s[i] != s[j] }

  function Occurrences<T(==)>(x: T, s: seq<T>): nat {
    if s == [] then 0 else Occurrences(x, s[..|s| - 1]) + if s[|s| - 1] == x then 1 else 0
  }

  /** In a sequence without repetition a member occurs exactly once. */
  lemma {:induction false} DistinctOccursOnce<T>(x: T, s: seq<T>)
    requires Distinct(s)
    ensures Occurrences(x, s) == if x in s then 1 else 0
  {
    if s != [] {
      var t := s[..|s| - 1];
      DistinctOccursOnce(x, t);
      assert s == t + [s[|s| - 1]];
    }
  }

  function RecordAll(events: seq<EventId>, incoming: seq<EventId>): seq<EventId>
    decreases |incoming|
  {
    if incoming == [] then events else RecordAll(Recorded(events, incoming[0]), incoming[1..])
  }

  /** However often events are delivered, each is kept exactly once, and nothing recorded is lost. */
  lemma {:induction false} DeliveredOnce(events: seq<EventId>, incoming: seq<EventId>, e: EventId)
    requires Distinct(events)
    ensures Distinct(RecordAll(events, incoming)) && events <= RecordAll(events, incoming)
    ensures Occurrences(e, RecordAll(events, incoming)) == if e in events || e in incoming then 1 else 0
    decreases |incoming|
  {
    if incoming == [] {
      DistinctOccursOnce(e, events);
    } else {
      assert incoming == [incoming[0]] + incoming[1..];
      DeliveredOnce(Recorded(events, incoming[0]), incoming[1..], e);
    }
  }

  class InMemoryAuditSink {
    var events: seq<EventId>
    var eventIds: set<EventId>

    ghost predicate Valid()
      reads this
    {
      Distinct(events) && forall e :: e in eventIds <==> e in events
    }

    constructor ()
      ensures Valid() && events == []
    {
      events, eventIds := [], {};
    }

    method Record(event: EventId)
      requires Valid()
      modifies this
      ensures Valid() && events == Recorded(old(events), event)
    {
      if event in eventIds { return; }
      eventIds := eventIds + {event};
      events := events + [event];
    }
  }
}
