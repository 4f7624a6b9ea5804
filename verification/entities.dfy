/** The persistent records of the back end (the JPA entities under
    `com.fullstack.tickets.domain.entities`) and the database as one value.
    Every table is a sequence of rows; an entity reference is the referenced
    row's id, and a join is a lookup by id. */
module Entities {
  import opened Wrappers
  import opened Domain

  /** Identifiers (UUIDs in the source) are opaque; equality is all that is used. */
  type Id = nat

  /** A `LocalDateTime`, read as a point on a total order of instants. */
  type Time = int

  datatype Event = Event(
    id: Id,
    name: string,
    venue: string,
    start: Option<Time>,
    end: Option<Time>,
    salesStart: Option<Time>,
    salesEnd: Option<Time>,
    status: EventStatus,
    organizerId: Id,
    updatedAt: Time)

  /** Prices are whole cents here; the source keeps a `Double`. */
  datatype TicketType = TicketType(
    id: Id,
    name: string,
    price: int,
    description: string,
    totalAvailable: Option<int>,
    eventId: Id)

  datatype Ticket = Ticket(
    id: Id,
    status: TicketStatus,
    ticketTypeId: Id,
    purchaserId: Id,
    updatedAt: Time)

  datatype QrCodeStatus = QrActive | QrExpired

  datatype QrCode = QrCode(id: Id, status: QrCodeStatus, ticketId: Id)

  /** One row of the validation log. A validation of an unknown QR code or
      ticket id is recorded with no ticket. */
  datatype TicketValidation = TicketValidation(
    status: ValidationStatus,
    via: ValidationMethod,
    ticketId: Option<Id>)

  datatype Db = Db(
    users: seq<Id>,
    events: seq<Event>,
    ticketTypes: seq<TicketType>,
    tickets: seq<Ticket>,
    qrCodes: seq<QrCode>,
    validations: seq<TicketValidation>)

  /** `findById` on each table: the row with that id, if any. */
  function FindEvent(events: seq<Event>, id: Id): (r: Option<Event>)
    ensures r.Some? ==> r.value in events && r.value.id == id
    ensures r.None? <==> forall e :: e in events ==> e.id != id
  {
    if |events| == 0 then None
    else if events[0].id == id then Some(events[0])
    else FindEvent(events[1..], id)
  }

  function FindTicketType(ticketTypes: seq<TicketType>, id: Id): (r: Option<TicketType>)
    ensures r.Some? ==> r.value in ticketTypes && r.value.id == id
    ensures r.None? <==> forall tt :: tt in ticketTypes ==> tt.id != id
  {
    if |ticketTypes| == 0 then None
    else if ticketTypes[0].id == id then Some(ticketTypes[0])
    else FindTicketType(ticketTypes[1..], id)
  }

  function FindTicket(tickets: seq<Ticket>, id: Id): (r: Option<Ticket>)
    ensures r.Some? ==> r.value in tickets && r.value.id == id
    ensures r.None? <==> forall t :: t in tickets ==> t.id != id
  {
    if |tickets| == 0 then None
    else if tickets[0].id == id then Some(tickets[0])
    else FindTicket(tickets[1..], id)
  }

  /** `ticket.getTicketType().getEvent()`. */
  function EventOfTicket(db: Db, t: Ticket): (r: Option<Event>)
    ensures r.Some? ==> r.value in db.events
    ensures r.Some? <==> FindTicketType(db.ticketTypes, t.ticketTypeId).Some?
                         && FindEvent(db.events, FindTicketType(db.ticketTypes, t.ticketTypeId).value.eventId).Some?
  {
    match FindTicketType(db.ticketTypes, t.ticketTypeId)
    case None => None
    case Some(tt) => FindEvent(db.events, tt.eventId)
  }

  /** `ticket.getTicketType().getEvent().getEnd()`, when the joins succeed. */
  function EndOfTicket(db: Db, t: Ticket): Option<Time> {
    match EventOfTicket(db, t)
    case None => None
    case Some(e) => e.end
  }

  function StartOfTicket(db: Db, t: Ticket): Option<Time> {
    match EventOfTicket(db, t)
    case None => None
    case Some(e) => e.start
  }

  /** Referential integrity, which the foreign keys guarantee: every ticket
      type has its event, every ticket its type, every QR code its ticket. */
  predicate Linked(db: Db) {
    (forall tt :: tt in db.ticketTypes ==> FindEvent(db.events, tt.eventId).Some?)
    && (forall t :: t in db.tickets ==> FindTicketType(db.ticketTypes, t.ticketTypeId).Some?)
    && (forall q :: q in db.qrCodes ==> FindTicket(db.tickets, q.ticketId).Some?)
  }

  /** In a linked database every ticket reaches its event. */
  lemma LinkedJoins(db: Db, t: Ticket)
    requires Linked(db) && t in db.tickets
    ensures EventOfTicket(db, t).Some?
  {
  }

  /** `ticketRepository.save(ticket)` for a ticket already stored: every row
      with that id is replaced. */
  function SaveTicket(tickets: seq<Ticket>, t: Ticket): (r: seq<Ticket>)
    ensures |r| == |tickets|
    ensures forall i :: 0 <= i < |r| ==>
      r[i] == (if tickets[i].id == t.id then t else tickets[i])
    ensures forall x :: x in r ==> x == t || x in tickets
  {
    seq(|tickets|, i requires 0 <= i < |tickets| =>
      if tickets[i].id == t.id then t else tickets[i])
  }

  /** After a save, looking the id up yields the saved row. */
  lemma FindAfterSave(tickets: seq<Ticket>, t: Ticket)
    requires FindTicket(tickets, t.id).Some?
    ensures FindTicket(SaveTicket(tickets, t), t.id) == Some(t)
  {
    var i :| 0 <= i < |tickets| && tickets[i] == FindTicket(tickets, t.id).value;
    assert SaveTicket(tickets, t)[i] == t;
    assert forall x :: x in SaveTicket(tickets, t) && x.id == t.id ==> x == t;
  }

  /** Saving a ticket whose type exists keeps the database linked. */
  lemma SaveKeepsLinked(db: Db, t: Ticket)
    requires Linked(db)
    requires FindTicketType(db.ticketTypes, t.ticketTypeId).Some?
    ensures Linked(db.(tickets := SaveTicket(db.tickets, t)))
  {
    var tickets' := SaveTicket(db.tickets, t);
    forall q | q in db.qrCodes
      ensures FindTicket(tickets', q.ticketId).Some?
    {
      var j :| 0 <= j < |db.tickets| && db.tickets[j] == FindTicket(db.tickets, q.ticketId).value;
      assert tickets'[j].id == q.ticketId;
      assert tickets'[j] in tickets';
    }
  }
}
