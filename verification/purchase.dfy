/** `TicketTypeServiceImpl.purchaseTicket`: the admission checks in their
    order, then one new PURCHASED ticket. */
module Purchase {
  import opened Wrappers
  import opened Domain
  import opened Entities
  import opened TicketRepository

  /** The exceptions `purchaseTicket` raises, one per check. */
  datatype PurchaseError =
    | UserNotFound
    | TicketTypeNotFound
    | SalesNotStarted
    | SalesEnded
    | EventEnded
    | SoldOut

  /** The messages the three `SalesPeriodException`s carry. */
  function SalesPeriodMessage(e: PurchaseError): (m: Option<string>)
    ensures m.Some? <==> e in {SalesNotStarted, SalesEnded, EventEnded}
  {
    match e
    case SalesNotStarted => Some("Ticket sales have not started yet")
    case SalesEnded => Some("Ticket sales have ended")
    case EventEnded => Some("This event has already ended")
    case _ => None
  }

  datatype PurchaseResult = Success(db: Db, ticket: Ticket) | Failure(error: PurchaseError)

  /** The sales window and the event are open at `now`: a missing bound
      imposes nothing, and both ends of the window are inclusive. */
  predicate SalesOpen(e: Event, now: Time) {
    (e.salesStart.None? || now >= e.salesStart.value)
    && (e.salesEnd.None? || now <= e.salesEnd.value)
    && (e.end.None? || now <= e.end.value)
  }

  /** One more ticket fits; a missing limit means unlimited. */
  predicate HasRoom(tt: TicketType, sold: nat) {
    tt.totalAvailable.None? || sold + 1 <= tt.totalAvailable.value
  }

  function PurchaseTicket(db: Db, userId: Id, ticketTypeId: Id, now: Time, newTicketId: Id): (r: PurchaseResult)
    requires Linked(db)
    requires forall t :: t in db.tickets ==> t.id != newTicketId
    ensures r == Failure(UserNotFound) <==> userId !in db.users
    ensures r == Failure(TicketTypeNotFound) <==>
      userId in db.users && FindTicketType(db.ticketTypes, ticketTypeId).None?
    ensures r.Success? <==>
      userId in db.users && FindTicketType(db.ticketTypes, ticketTypeId).Some?
      && SalesOpen(FindEvent(db.events, FindTicketType(db.ticketTypes, ticketTypeId).value.eventId).value, now)
      && HasRoom(FindTicketType(db.ticketTypes, ticketTypeId).value, CountByTicketTypeId(db.tickets, ticketTypeId))
    ensures r.Failure? && r.error !in {UserNotFound, TicketTypeNotFound} ==>
      var e := FindEvent(db.events, FindTicketType(db.ticketTypes, ticketTypeId).value.eventId).value;
      var startOk := e.salesStart.None? || now >= e.salesStart.value;
      var endOk := e.salesEnd.None? || now <= e.salesEnd.value;
      var eventOk := e.end.None? || now <= e.end.value;
      (r.error == SalesNotStarted <==> !startOk)
      && (r.error == SalesEnded <==> startOk && !endOk)
      && (r.error == EventEnded <==> startOk && endOk && !eventOk)
      && (r.error == SoldOut <==> SalesOpen(e, now))
    ensures r.Success? ==>
      r.db == db.(tickets := db.tickets + [r.ticket])
      && r.ticket == Ticket(newTicketId, Purchased, ticketTypeId, userId, now)
  {
    if userId !in db.users then Failure(UserNotFound)
    else
      match FindTicketType(db.ticketTypes, ticketTypeId)
      case None => Failure(TicketTypeNotFound)
      case Some(tt) =>
        assert FindEvent(db.events, tt.eventId).Some?;
        var e := FindEvent(db.events, tt.eventId).value;
        if e.salesStart.Some? && now < e.salesStart.value then Failure(SalesNotStarted)
        else if e.salesEnd.Some? && now > e.salesEnd.value then Failure(SalesEnded)
        else if e.end.Some? && now > e.end.value then Failure(EventEnded)
        else
          var sold := CountByTicketTypeId(db.tickets, tt.id);
          if tt.totalAvailable.Some? && sold + 1 > tt.totalAvailable.value then Failure(SoldOut)
          else
            var t := Ticket(newTicketId, Purchased, tt.id, userId, now);
            Success(db.(tickets := db.tickets + [t]), t)
  }

  /** A purchase sells exactly one more ticket of its type, never beyond the
      limit, and leaves every other type's count alone. */
  lemma PurchaseCounts(db: Db, userId: Id, ticketTypeId: Id, now: Time, newTicketId: Id, other: Id)
    requires Linked(db)
    requires forall t :: t in db.tickets ==> t.id != newTicketId
    requires PurchaseTicket(db, userId, ticketTypeId, now, newTicketId).Success?
    ensures var r := PurchaseTicket(db, userId, ticketTypeId, now, newTicketId);
      var tt := FindTicketType(db.ticketTypes, ticketTypeId).value;
      CountByTicketTypeId(r.db.tickets, ticketTypeId) == CountByTicketTypeId(db.tickets, ticketTypeId) + 1
      && (tt.totalAvailable.Some? ==> CountByTicketTypeId(r.db.tickets, ticketTypeId) <= tt.totalAvailable.value)
      && (other != ticketTypeId ==> CountByTicketTypeId(r.db.tickets, other) == CountByTicketTypeId(db.tickets, other))
  {
    var r := PurchaseTicket(db, userId, ticketTypeId, now, newTicketId);
    CountAfterAppend(db.tickets, r.ticket, ticketTypeId);
    CountAfterAppend(db.tickets, r.ticket, other);
  }

  /** Every purchase keeps the database linked. */
  lemma PurchaseKeepsLinked(db: Db, userId: Id, ticketTypeId: Id, now: Time, newTicketId: Id)
    requires Linked(db)
    requires forall t :: t in db.tickets ==> t.id != newTicketId
    ensures var r := PurchaseTicket(db, userId, ticketTypeId, now, newTicketId);
      r.Success? ==> Linked(r.db) && FindTicket(r.db.tickets, newTicketId) == Some(r.ticket)
  {
    var r := PurchaseTicket(db, userId, ticketTypeId, now, newTicketId);
    if r.Success? {
      var tickets' := db.tickets + [r.ticket];
      forall q | q in db.qrCodes
        ensures FindTicket(tickets', q.ticketId).Some?
      {
        var t :| t in db.tickets && t == FindTicket(db.tickets, q.ticketId).value;
        assert t in tickets';
      }
      FindTicketFresh(db.tickets, r.ticket);
    }
  }

  /** A ticket appended under a fresh id is what its id finds. */
  lemma {:induction false} FindTicketFresh(tickets: seq<Ticket>, t: Ticket)
    requires forall x :: x in tickets ==> x.id != t.id
    ensures FindTicket(tickets + [t], t.id) == Some(t)
  {
    if |tickets| > 0 {
      assert (tickets + [t])[1..] == tickets[1..] + [t];
      FindTicketFresh(tickets[1..], t);
    }
  }
}
