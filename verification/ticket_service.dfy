/** `TicketServiceImpl`: the repository queries with their parameters fixed. */
module TicketService {
  import opened Wrappers
  import opened Domain
  import opened Entities
  import opened TicketRepository

  /** The statuses the past list always includes. */
  const PastStatuses: seq<TicketStatus> := [Used, TicketExpired, TicketCancelled]

  /** `listTicketsForUser`: every ticket the user purchased. */
  function ListTicketsForUser(db: Db, userId: Id): (r: seq<Ticket>)
    ensures forall t :: t in r <==> t in db.tickets && t.purchaserId == userId
  {
    FindByPurchaserId(db.tickets, userId)
  }

  /** `listActiveTicketsForUser`: PURCHASED tickets whose event has not ended. */
  function ListActiveTicketsForUser(db: Db, userId: Id, now: Time): (r: seq<Ticket>)
    ensures forall t :: t in r <==>
      t in db.tickets && t.purchaserId == userId && Joined(db, t)
      && t.status == Purchased && (EndOfTicket(db, t).None? || EndOfTicket(db, t).value > now)
    ensures multiset(r) == multiset(Filter(db.tickets, (t: Ticket) => ActiveRow(db, t, userId, Purchased, now)))
    ensures forall i, j :: 0 <= i < j < |r| && StartOfTicket(db, r[i]).Some? && StartOfTicket(db, r[j]).Some?
              ==> StartOfTicket(db, r[i]).value <= StartOfTicket(db, r[j]).value
  {
    FindActiveTickets(db, userId, Purchased, now)
  }

  /** `listPastTicketsForUser`: tickets no longer PURCHASED, or whose event
      has ended. Since the enumeration is closed, "status in
      {USED, EXPIRED, CANCELLED}" is "status other than PURCHASED". */
  function ListPastTicketsForUser(db: Db, userId: Id, now: Time): (r: seq<Ticket>)
    ensures forall t :: t in r <==>
      t in db.tickets && t.purchaserId == userId && Joined(db, t)
      && (t.status != Purchased || (EndOfTicket(db, t).Some? && EndOfTicket(db, t).value <= now))
    ensures multiset(r) == multiset(Filter(db.tickets, (t: Ticket) => PastRow(db, t, userId, PastStatuses, now)))
    ensures forall i, j :: 0 <= i < j < |r| && StartOfTicket(db, r[i]).Some? && StartOfTicket(db, r[j]).Some?
              ==> StartOfTicket(db, r[i]).value >= StartOfTicket(db, r[j]).value
  {
    assert forall s: TicketStatus :: s in PastStatuses <==> s != Purchased;
    FindPastTickets(db, userId, PastStatuses, now)
  }

  /** `getTicketForUser`: never another user's ticket. */
  function GetTicketForUser(db: Db, userId: Id, ticketId: Id): (r: Option<Ticket>)
    ensures r.Some? ==> r.value in db.tickets && r.value.id == ticketId && r.value.purchaserId == userId
    ensures r.None? <==> forall t :: t in db.tickets ==> !(t.id == ticketId && t.purchaserId == userId)
  {
    FindByIdAndPurchaserId(db.tickets, ticketId, userId)
  }

  /** At one instant the active and past lists split the user's tickets:
      in a linked database each ticket is in exactly one of them, and both
      lists draw only on the full list. */
  lemma ActivePastPartition(db: Db, userId: Id, now: Time, t: Ticket)
    requires Linked(db)
    ensures t in ListTicketsForUser(db, userId) ==>
      (t in ListActiveTicketsForUser(db, userId, now) <==> t !in ListPastTicketsForUser(db, userId, now))
    ensures t in ListActiveTicketsForUser(db, userId, now) ==> t in ListTicketsForUser(db, userId)
    ensures t in ListPastTicketsForUser(db, userId, now) ==> t in ListTicketsForUser(db, userId)
  {
    var active := ListActiveTicketsForUser(db, userId, now);
    var past := ListPastTicketsForUser(db, userId, now);
    assert t in active <==> t in db.tickets && ActiveRow(db, t, userId, Purchased, now);
    assert t in past <==> t in db.tickets && PastRow(db, t, userId, PastStatuses, now);
    if t in db.tickets && t.purchaserId == userId {
      RowsPartition(db, userId, now, t);
    }
  }

  /** A joined ticket of the user satisfies exactly one of the two WHERE
      clauses. */
  lemma RowsPartition(db: Db, userId: Id, now: Time, t: Ticket)
    requires Linked(db) && t in db.tickets && t.purchaserId == userId
    ensures ActiveRow(db, t, userId, Purchased, now) <==> !PastRow(db, t, userId, PastStatuses, now)
  {
    LinkedJoins(db, t);
  }
}

/** `TicketController`: the `filter` parameter and the not-found mapping. */
module TicketController {
  import opened Wrappers
  import opened Strings
  import opened Entities
  import opened TicketService

  /** `GET /api/v1/tickets?filter=…`: "active" and "past" in any letter
      case pick those lists; no filter or any other word lists everything. */
  function ListTickets(db: Db, userId: Id, filter: Option<string>, now: Time): (r: seq<Ticket>)
    ensures forall t :: t in r ==> t in db.tickets && t.purchaserId == userId
  {
    if filter.Some? && EqualsIgnoreCase("active", filter.value) then
      ListActiveTicketsForUser(db, userId, now)
    else if filter.Some? && EqualsIgnoreCase("past", filter.value) then
      ListPastTicketsForUser(db, userId, now)
    else
      ListTicketsForUser(db, userId)
  }

  /** The filter's letter case is irrelevant, and the three outcomes are
      the three service lists. */
  lemma ListTicketsDispatch(db: Db, userId: Id, now: Time, f: string, g: string)
    ensures EqualsIgnoreCase(f, g) ==> ListTickets(db, userId, Some(f), now) == ListTickets(db, userId, Some(g), now)
    ensures ListTickets(db, userId, Some("ACTIVE"), now) == ListActiveTicketsForUser(db, userId, now)
    ensures ListTickets(db, userId, Some("Past"), now) == ListPastTicketsForUser(db, userId, now)
    ensures ListTickets(db, userId, None, now) == ListTicketsForUser(db, userId)
    ensures !EqualsIgnoreCase("active", f) && !EqualsIgnoreCase("past", f) ==>
      ListTickets(db, userId, Some(f), now) == ListTicketsForUser(db, userId)
  {
    FilterWords();
  }

  /** The two spellings used above fold to the controller's keywords. */
  lemma FilterWords()
    ensures EqualsIgnoreCase("active", "ACTIVE") && EqualsIgnoreCase("past", "Past")
  {
    var a, p := Lower("ACTIVE"), Lower("Past");
    assert a[0] == 'a' && a[1] == 'c' && a[2] == 't' && a[3] == 'i' && a[4] == 'v' && a[5] == 'e';
    assert p[0] == 'p' && p[1] == 'a' && p[2] == 's' && p[3] == 't';
    assert Lower("active") == "active" by {
      var l := Lower("active");
      assert l[0] == 'a' && l[1] == 'c' && l[2] == 't' && l[3] == 'i' && l[4] == 'v' && l[5] == 'e';
    }
    assert Lower("past") == "past" by {
      var l := Lower("past");
      assert l[0] == 'p' && l[1] == 'a' && l[2] == 's' && l[3] == 't';
    }
  }

  datatype TicketResponse = Ok(ticket: Ticket) | NotFound

  /** `GET /api/v1/tickets/{ticketId}`: 200 with the ticket, or 404. */
  function GetTicket(db: Db, userId: Id, ticketId: Id): (r: TicketResponse)
    ensures r.Ok? ==> r.ticket in db.tickets && r.ticket.id == ticketId && r.ticket.purchaserId == userId
    ensures r.NotFound? <==> forall t :: t in db.tickets ==> !(t.id == ticketId && t.purchaserId == userId)
  {
    match GetTicketForUser(db, userId, ticketId)
    case Some(t) => Ok(t)
    case None => NotFound
  }
}

/** `TicketExpirationServiceImpl`: the scheduled bulk expiry. */
module TicketExpiration {
  import opened Domain
  import opened Entities
  import opened TicketRepository

  /** `expireTicketsForEndedEvents`: PURCHASED tickets of ended events become
      EXPIRED, all stamped with the same `now`; the result is how many. */
  function ExpireTicketsForEndedEvents(db: Db, now: Time): (r: (Db, nat))
    ensures r.0 == db.(tickets := r.0.tickets) && |r.0.tickets| == |db.tickets|
    ensures forall i :: 0 <= i < |db.tickets| && r.0.tickets[i] != db.tickets[i] ==>
      db.tickets[i].status == Purchased
      && r.0.tickets[i] == db.tickets[i].(status := TicketExpired, updatedAt := now)
    ensures forall i :: 0 <= i < |db.tickets| ==>
      (r.0.tickets[i] != db.tickets[i] <==> ExpireRow(db, db.tickets[i], Purchased, now))
    ensures r.1 == CountExpirable(db, db.tickets, Purchased, now)
  {
    TicketRepository.ExpireTicketsForEndedEvents(db, TicketExpired, Purchased, now)
  }

  /** The join `t.ticketType.event` reads only the event and type tables. */
  lemma EndOfTicketFrame(db: Db, db': Db, t: Ticket)
    requires db'.events == db.events && db'.ticketTypes == db.ticketTypes
    ensures EndOfTicket(db', t) == EndOfTicket(db, t)
  {
  }

  /** A second run at the same instant finds nothing left to expire. */
  lemma ExpireIdempotent(db: Db, now: Time)
    ensures ExpireTicketsForEndedEvents(ExpireTicketsForEndedEvents(db, now).0, now)
         == (ExpireTicketsForEndedEvents(db, now).0, 0)
  {
    var db1 := ExpireTicketsForEndedEvents(db, now).0;
    forall i | 0 <= i < |db1.tickets|
      ensures !ExpireRow(db1, db1.tickets[i], Purchased, now)
    {
      EndOfTicketFrame(db, db1, db.tickets[i]);
      EndOfTicketFrame(db, db1, db1.tickets[i]);
    }
    var r := ExpireTicketsForEndedEvents(db1, now);
    assert r.0.tickets == db1.tickets;
  }
}
