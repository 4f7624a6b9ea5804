/** `TicketRepository`: the derived finders, the two JPQL listing queries and
    the bulk expiry update, evaluated over the ticket table of a `Db`. The
    joins `t.ticketType.event` are lookups, so a ticket whose type or event
    is missing drops out of every joined query. */
module TicketRepository {
  import opened Wrappers
  import opened Domain
  import opened Entities

  /** `countByTicketTypeId`: how many tickets of the type exist. */
  function CountByTicketTypeId(tickets: seq<Ticket>, ticketTypeId: Id): (n: nat)
    ensures n <= |tickets|
    ensures n == 0 <==> forall t :: t in tickets ==> t.ticketTypeId != ticketTypeId
  {
    if |tickets| == 0 then 0
    else
      assert forall t :: t in tickets <==> t == tickets[0] || t in tickets[1..];
      (if tickets[0].ticketTypeId == ticketTypeId then 1 else 0)
        + CountByTicketTypeId(tickets[1..], ticketTypeId)
  }

  /** Appending one ticket raises the count of its own type by one and
      leaves every other count alone. */
  lemma {:induction false} CountAfterAppend(tickets: seq<Ticket>, t: Ticket, ticketTypeId: Id)
    ensures CountByTicketTypeId(tickets + [t], ticketTypeId)
         == CountByTicketTypeId(tickets, ticketTypeId) + (if t.ticketTypeId == ticketTypeId then 1 else 0)
  {
    if |tickets| > 0 {
      assert (tickets + [t])[1..] == tickets[1..] + [t];
      CountAfterAppend(tickets[1..], t, ticketTypeId);
    }
  }

  /** `findByIdAndPurchaserId`: the ticket only when that purchaser owns it. */
  function FindByIdAndPurchaserId(tickets: seq<Ticket>, id: Id, purchaserId: Id): (r: Option<Ticket>)
    ensures r.Some? ==> r.value in tickets && r.value.id == id && r.value.purchaserId == purchaserId
    ensures r.None? <==> forall t :: t in tickets ==> !(t.id == id && t.purchaserId == purchaserId)
  {
    if |tickets| == 0 then None
    else if tickets[0].id == id && tickets[0].purchaserId == purchaserId then Some(tickets[0])
    else FindByIdAndPurchaserId(tickets[1..], id, purchaserId)
  }

  /** `findByPurchaserId`: all of the purchaser's tickets, in table order. */
  function FindByPurchaserId(tickets: seq<Ticket>, purchaserId: Id): (r: seq<Ticket>)
    ensures |r| <= |tickets|
    ensures forall t :: t in r <==> t in tickets && t.purchaserId == purchaserId
    ensures r == Filter(tickets, (t: Ticket) => t.purchaserId == purchaserId)
    ensures IsSubseq(r, tickets)
  {
    if |tickets| == 0 then []
    else
      var rest := FindByPurchaserId(tickets[1..], purchaserId);
      assert forall t :: t in tickets <==> t == tickets[0] || t in tickets[1..];
      if tickets[0].purchaserId == purchaserId then [tickets[0]] + rest else rest
  }

  /** The inner joins of both listing queries succeed. */
  predicate Joined(db: Db, t: Ticket) {
    EventOfTicket(db, t).Some?
  }

  /** The WHERE clause of `findActiveTicketsByPurchaserId`. */
  predicate ActiveRow(db: Db, t: Ticket, purchaserId: Id, status: TicketStatus, now: Time) {
    Joined(db, t) && t.purchaserId == purchaserId && t.status == status
    && (EndOfTicket(db, t).None? || EndOfTicket(db, t).value > now)
  }

  /** The WHERE clause of `findPastTicketsByPurchaserId`. */
  predicate PastRow(db: Db, t: Ticket, purchaserId: Id, pastStatuses: seq<TicketStatus>, now: Time) {
    Joined(db, t) && t.purchaserId == purchaserId
    && (t.status in pastStatuses || (EndOfTicket(db, t).Some? && EndOfTicket(db, t).value <= now))
  }

  function SelectActive(db: Db, tickets: seq<Ticket>, purchaserId: Id, status: TicketStatus, now: Time): (r: seq<Ticket>)
    ensures |r| <= |tickets|
    ensures forall t :: t in r <==> t in tickets && ActiveRow(db, t, purchaserId, status, now)
    ensures r == Filter(tickets, (t: Ticket) => ActiveRow(db, t, purchaserId, status, now))
  {
    if |tickets| == 0 then []
    else
      var rest := SelectActive(db, tickets[1..], purchaserId, status, now);
      assert forall t :: t in tickets <==> t == tickets[0] || t in tickets[1..];
      if ActiveRow(db, tickets[0], purchaserId, status, now) then [tickets[0]] + rest else rest
  }

  function SelectPast(db: Db, tickets: seq<Ticket>, purchaserId: Id, pastStatuses: seq<TicketStatus>, now: Time): (r: seq<Ticket>)
    ensures |r| <= |tickets|
    ensures forall t :: t in r <==> t in tickets && PastRow(db, t, purchaserId, pastStatuses, now)
    ensures r == Filter(tickets, (t: Ticket) => PastRow(db, t, purchaserId, pastStatuses, now))
  {
    if |tickets| == 0 then []
    else
      var rest := SelectPast(db, tickets[1..], purchaserId, pastStatuses, now);
      assert forall t :: t in tickets <==> t == tickets[0] || t in tickets[1..];
      if PastRow(db, tickets[0], purchaserId, pastStatuses, now) then [tickets[0]] + rest else rest
  }

  /** `ORDER BY e.start` as a total preorder on optional instants: ascending
      or descending on known starts; a missing start sorts last. */
  predicate Before(a: Option<Time>, b: Option<Time>, desc: bool) {
    b.None? || (a.Some? && (if desc then a.value >= b.value else a.value <= b.value))
  }

  predicate SortedByStart(db: Db, xs: seq<Ticket>, desc: bool) {
    forall i, j :: 0 <= i < j < |xs| ==> Before(StartOfTicket(db, xs[i]), StartOfTicket(db, xs[j]), desc)
  }

  /** Insert `x` before the first row it may precede. */
  function InsertByStart(db: Db, x: Ticket, xs: seq<Ticket>, desc: bool): seq<Ticket> {
    if |xs| == 0 then [x]
    else if Before(StartOfTicket(db, x), StartOfTicket(db, xs[0]), desc) then [x] + xs
    else [xs[0]] + InsertByStart(db, x, xs[1..], desc)
  }

  /** A row that may precede the head of a sorted list may precede all of it. */
  lemma PrependBefore(db: Db, x: Ticket, xs: seq<Ticket>, desc: bool)
    requires SortedByStart(db, xs, desc)
    requires |xs| > 0 ==> Before(StartOfTicket(db, x), StartOfTicket(db, xs[0]), desc)
    ensures SortedByStart(db, [x] + xs, desc)
  {
    var r := [x] + xs;
    forall i, j | 0 <= i < j < |r|
      ensures Before(StartOfTicket(db, r[i]), StartOfTicket(db, r[j]), desc)
    {
      if i == 0 && j > 1 {
        assert r[j] == xs[j - 1];
        assert Before(StartOfTicket(db, xs[0]), StartOfTicket(db, xs[j - 1]), desc);
      } else if i > 0 {
        assert r[i] == xs[i - 1] && r[j] == xs[j - 1];
      }
    }
  }

  /** A row that may precede every element of a sorted list heads it. */
  lemma PrependLeast(db: Db, y: Ticket, rest: seq<Ticket>, desc: bool)
    requires SortedByStart(db, rest, desc)
    requires forall k :: 0 <= k < |rest| ==> Before(StartOfTicket(db, y), StartOfTicket(db, rest[k]), desc)
    ensures SortedByStart(db, [y] + rest, desc)
  {
    var r := [y] + rest;
    forall i, j | 0 <= i < j < |r|
      ensures Before(StartOfTicket(db, r[i]), StartOfTicket(db, r[j]), desc)
    {
      assert r[j] == rest[j - 1];
      if i > 0 {
        assert r[i] == rest[i - 1];
      }
    }
  }

  lemma SortedTail(db: Db, xs: seq<Ticket>, desc: bool)
    requires |xs| > 0 && SortedByStart(db, xs, desc)
    ensures SortedByStart(db, xs[1..], desc)
    ensures forall k :: 1 <= k < |xs| ==> Before(StartOfTicket(db, xs[0]), StartOfTicket(db, xs[k]), desc)
  {
    var tail := xs[1..];
    forall i, j | 0 <= i < j < |tail|
      ensures Before(StartOfTicket(db, tail[i]), StartOfTicket(db, tail[j]), desc)
    {
      assert tail[i] == xs[i + 1] && tail[j] == xs[j + 1];
    }
  }

  lemma {:induction false} InsertSorted(db: Db, x: Ticket, xs: seq<Ticket>, desc: bool)
    requires SortedByStart(db, xs, desc)
    ensures multiset(InsertByStart(db, x, xs, desc)) == multiset(xs) + multiset{x}
    ensures SortedByStart(db, InsertByStart(db, x, xs, desc), desc)
  {
    if |xs| == 0 {
    } else if Before(StartOfTicket(db, x), StartOfTicket(db, xs[0]), desc) {
      PrependBefore(db, x, xs, desc);
    } else {
      var tail := xs[1..];
      SortedTail(db, xs, desc);
      InsertSorted(db, x, tail, desc);
      var rest := InsertByStart(db, x, tail, desc);
      assert xs == [xs[0]] + tail;
      forall k | 0 <= k < |rest|
        ensures Before(StartOfTicket(db, xs[0]), StartOfTicket(db, rest[k]), desc)
      {
        assert rest[k] in multiset(rest);
        if rest[k] != x {
          assert rest[k] in multiset(tail);
          var m :| 0 <= m < |tail| && tail[m] == rest[k];
          assert xs[m + 1] == rest[k];
        }
      }
      PrependLeast(db, xs[0], rest, desc);
    }
  }

  /** Inserting the head into the sorted tail sorts the whole sequence. */
  lemma SortStep(db: Db, xs: seq<Ticket>, rest: seq<Ticket>, desc: bool)
    requires |xs| > 0 && multiset(rest) == multiset(xs[1..]) && SortedByStart(db, rest, desc)
    ensures multiset(InsertByStart(db, xs[0], rest, desc)) == multiset(xs)
    ensures SortedByStart(db, InsertByStart(db, xs[0], rest, desc), desc)
  {
    InsertSorted(db, xs[0], rest, desc);
    assert xs == [xs[0]] + xs[1..];
  }

  /** Insertion sort by event start. */
  function SortByStart(db: Db, xs: seq<Ticket>, desc: bool): (r: seq<Ticket>)
    ensures multiset(r) == multiset(xs)
    ensures SortedByStart(db, r, desc)
  {
    if |xs| == 0 then []
    else
      var rest := SortByStart(db, xs[1..], desc);
      SortStep(db, xs, rest, desc);
      InsertByStart(db, xs[0], rest, desc)
  }

  /** `findActiveTicketsByPurchaserId`: the purchaser's tickets in `status`
      whose event has not ended, earliest start first. The joins are
      many-to-one, so each matching row comes back exactly as often as it
      is stored, and no other row comes back. */
  function FindActiveTickets(db: Db, purchaserId: Id, status: TicketStatus, now: Time): (r: seq<Ticket>)
    ensures forall t :: t in r <==> t in db.tickets && ActiveRow(db, t, purchaserId, status, now)
    ensures multiset(r) == multiset(Filter(db.tickets, (t: Ticket) => ActiveRow(db, t, purchaserId, status, now)))
    ensures forall i, j :: 0 <= i < j < |r| && StartOfTicket(db, r[i]).Some? && StartOfTicket(db, r[j]).Some?
              ==> StartOfTicket(db, r[i]).value <= StartOfTicket(db, r[j]).value
  {
    var rows := SelectActive(db, db.tickets, purchaserId, status, now);
    var r := SortByStart(db, rows, false);
    assert forall t :: t in r <==> t in multiset(rows);
    r
  }

  /** `findPastTicketsByPurchaserId`: the purchaser's tickets with a past
      status or whose event has ended, latest start first; each matching row
      exactly as often as it is stored. */
  function FindPastTickets(db: Db, purchaserId: Id, pastStatuses: seq<TicketStatus>, now: Time): (r: seq<Ticket>)
    ensures forall t :: t in r <==> t in db.tickets && PastRow(db, t, purchaserId, pastStatuses, now)
    ensures multiset(r) == multiset(Filter(db.tickets, (t: Ticket) => PastRow(db, t, purchaserId, pastStatuses, now)))
    ensures forall i, j :: 0 <= i < j < |r| && StartOfTicket(db, r[i]).Some? && StartOfTicket(db, r[j]).Some?
              ==> StartOfTicket(db, r[i]).value >= StartOfTicket(db, r[j]).value
  {
    var rows := SelectPast(db, db.tickets, purchaserId, pastStatuses, now);
    var r := SortByStart(db, rows, true);
    assert forall t :: t in r <==> t in multiset(rows);
    r
  }

  /** The WHERE clause of `expireTicketsForEndedEvents`. */
  predicate ExpireRow(db: Db, t: Ticket, currentStatus: TicketStatus, now: Time) {
    t.status == currentStatus && EndOfTicket(db, t).Some? && EndOfTicket(db, t).value < now
  }

  function CountExpirable(db: Db, tickets: seq<Ticket>, currentStatus: TicketStatus, now: Time): (n: nat)
    ensures n <= |tickets|
    ensures n == 0 <==> forall i :: 0 <= i < |tickets| ==> !ExpireRow(db, tickets[i], currentStatus, now)
  {
    if |tickets| == 0 then 0
    else
      assert forall i :: 1 <= i < |tickets| ==> tickets[i] == tickets[1..][i - 1];
      (if ExpireRow(db, tickets[0], currentStatus, now) then 1 else 0)
        + CountExpirable(db, tickets[1..], currentStatus, now)
  }

  /** The SET clause on one row, when the WHERE clause selects it. */
  function ExpireOne(db: Db, t: Ticket, newStatus: TicketStatus, currentStatus: TicketStatus, now: Time): Ticket {
    if ExpireRow(db, t, currentStatus, now) then t.(status := newStatus, updatedAt := now) else t
  }

  /** `expireTicketsForEndedEvents`: the bulk update and its row count. */
  function ExpireTicketsForEndedEvents(db: Db, newStatus: TicketStatus, currentStatus: TicketStatus, now: Time)
    : (r: (Db, nat))
    ensures r.0 == db.(tickets := r.0.tickets)
    ensures |r.0.tickets| == |db.tickets|
    ensures forall i :: 0 <= i < |db.tickets| && ExpireRow(db, db.tickets[i], currentStatus, now) ==>
      r.0.tickets[i] == db.tickets[i].(status := newStatus, updatedAt := now)
    ensures forall i :: 0 <= i < |db.tickets| && !ExpireRow(db, db.tickets[i], currentStatus, now) ==>
      r.0.tickets[i] == db.tickets[i]
    ensures r.1 == CountExpirable(db, db.tickets, currentStatus, now)
  {
    var rows := seq(|db.tickets|, i requires 0 <= i < |db.tickets| =>
      ExpireOne(db, db.tickets[i], newStatus, currentStatus, now));
    (db.(tickets := rows), CountExpirable(db, db.tickets, currentStatus, now))
  }
}
