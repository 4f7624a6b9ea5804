/** `EventRepository`: the owner-scoped finder, the public search and the
    bulk completion update, over the event table. */
module EventRepository {
  import opened Wrappers
  import opened Strings
  import opened Domain
  import opened Entities

  /** `findByIdAndOrganizerId`: the event only when that organizer owns it. */
  function FindByIdAndOrganizerId(events: seq<Event>, id: Id, organizerId: Id): (r: Option<Event>)
    ensures r.Some? ==> r.value in events && r.value.id == id && r.value.organizerId == organizerId
    ensures r.None? <==> forall e :: e in events ==> !(e.id == id && e.organizerId == organizerId)
  {
    if |events| == 0 then None
    else if events[0].id == id && events[0].organizerId == organizerId then Some(events[0])
    else FindByIdAndOrganizerId(events[1..], id, organizerId)
  }

  /** The WHERE clause shared by `searchEvents` and its count query:
      published, and the lower-cased term inside the lower-cased name or
      venue. */
  predicate SearchMatch(e: Event, term: string) {
    e.status == Published
    && (Includes(Lower(e.name), Lower(term)) || Includes(Lower(e.venue), Lower(term)))
  }

  /** The content query, in table order. */
  function SearchEvents(events: seq<Event>, term: string): (r: seq<Event>)
    ensures |r| <= |events|
    ensures forall e :: e in r <==> e in events && SearchMatch(e, term)
  {
    if |events| == 0 then []
    else
      var rest := SearchEvents(events[1..], term);
      assert forall e :: e in events <==> e == events[0] || e in events[1..];
      if SearchMatch(events[0], term) then [events[0]] + rest else rest
  }

  /** The count query. */
  function CountSearch(events: seq<Event>, term: string): (n: nat)
    ensures n <= |events|
    ensures n == 0 <==> forall e :: e in events ==> !SearchMatch(e, term)
  {
    if |events| == 0 then 0
    else
      assert forall e :: e in events <==> e == events[0] || e in events[1..];
      (if SearchMatch(events[0], term) then 1 else 0) + CountSearch(events[1..], term)
  }

  /** The count query counts exactly the rows the content query returns. */
  lemma {:induction false} SearchCountAgrees(events: seq<Event>, term: string)
    ensures |SearchEvents(events, term)| == CountSearch(events, term)
  {
    if |events| > 0 {
      SearchCountAgrees(events[1..], term);
    }
  }

  /** The search ignores letter case, and an empty term lists every
      published event. */
  lemma SearchProperties(events: seq<Event>, term: string, term': string)
    ensures Lower(term) == Lower(term') ==> SearchEvents(events, term) == SearchEvents(events, term')
    ensures forall e :: e in SearchEvents(events, "") <==> e in events && e.status == Published
  {
    forall e: Event ensures SearchMatch(e, "") <==> e.status == Published {
      IncludesEmpty(Lower(e.name));
    }
    if Lower(term) == Lower(term') {
      SearchSameLower(events, term, term');
    }
  }

  lemma {:induction false} SearchSameLower(events: seq<Event>, term: string, term': string)
    requires Lower(term) == Lower(term')
    ensures SearchEvents(events, term) == SearchEvents(events, term')
  {
    if |events| > 0 {
      SearchSameLower(events[1..], term, term');
    }
  }

  /** The WHERE clause of `completeEndedEvents`. */
  predicate CompleteRow(e: Event, currentStatus: EventStatus, now: Time) {
    e.status == currentStatus && e.end.Some? && e.end.value < now
  }

  /** The SET clause on one row, when the WHERE clause selects it. */
  function CompleteOne(e: Event, newStatus: EventStatus, currentStatus: EventStatus, now: Time): Event {
    if CompleteRow(e, currentStatus, now) then e.(status := newStatus, updatedAt := now) else e
  }

  function CountCompletable(events: seq<Event>, currentStatus: EventStatus, now: Time): (n: nat)
    ensures n <= |events|
    ensures n == 0 <==> forall i :: 0 <= i < |events| ==> !CompleteRow(events[i], currentStatus, now)
  {
    if |events| == 0 then 0
    else
      assert forall i :: 1 <= i < |events| ==> events[i] == events[1..][i - 1];
      (if CompleteRow(events[0], currentStatus, now) then 1 else 0)
        + CountCompletable(events[1..], currentStatus, now)
  }

  /** `completeEndedEvents`: the bulk update and its row count. */
  function CompleteEndedEvents(events: seq<Event>, newStatus: EventStatus, currentStatus: EventStatus, now: Time)
    : (r: (seq<Event>, nat))
    ensures |r.0| == |events|
    ensures forall i :: 0 <= i < |events| && CompleteRow(events[i], currentStatus, now) ==>
      r.0[i] == events[i].(status := newStatus, updatedAt := now)
    ensures forall i :: 0 <= i < |events| && !CompleteRow(events[i], currentStatus, now) ==>
      r.0[i] == events[i]
    ensures r.1 == CountCompletable(events, currentStatus, now)
  {
    if |events| == 0 then ([], 0)
    else
      var rest := CompleteEndedEvents(events[1..], newStatus, currentStatus, now);
      var e := events[0];
      var updated := [CompleteOne(e, newStatus, currentStatus, now)] + rest.0;
      assert forall i :: 1 <= i < |events| ==> events[i] == events[1..][i - 1] && updated[i] == rest.0[i - 1];
      (updated, rest.1 + (if CompleteRow(e, currentStatus, now) then 1 else 0))
  }
}

/** `EventStatusServiceImpl`: the scheduled completion of ended events. */
module EventStatusService {
  import opened Domain
  import opened Entities
  import opened EventRepository

  /** PUBLISHED events whose end has passed become COMPLETED, all stamped
      with the same `now`; the result is how many. */
  function CompleteEndedEvents(db: Db, now: Time): (r: (Db, nat))
    ensures r.0 == db.(events := r.0.events) && |r.0.events| == |db.events|
    ensures forall i :: 0 <= i < |db.events| && r.0.events[i] != db.events[i] ==>
      db.events[i].status == Published
      && r.0.events[i] == db.events[i].(status := Completed, updatedAt := now)
    ensures forall i :: 0 <= i < |db.events| ==>
      (r.0.events[i] != db.events[i] <==> CompleteRow(db.events[i], Published, now))
    ensures r.1 == CountCompletable(db.events, Published, now)
  {
    var u := EventRepository.CompleteEndedEvents(db.events, Completed, Published, now);
    (db.(events := u.0), u.1)
  }

  /** A second run at the same instant completes nothing. */
  lemma CompleteIdempotent(db: Db, now: Time)
    ensures CompleteEndedEvents(CompleteEndedEvents(db, now).0, now)
         == (CompleteEndedEvents(db, now).0, 0)
  {
    var db1 := CompleteEndedEvents(db, now).0;
    var r := CompleteEndedEvents(db1, now);
    assert r.0.events == db1.events;
  }
}
