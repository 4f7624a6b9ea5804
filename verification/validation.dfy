/** `TicketValidationServiceImpl`: admitting a ticket at the door. Each call
    appends exactly one record to the validation log; a successful one also
    marks the ticket USED, and a ticket of an ended event is marked EXPIRED. */
module Validation {
  import opened Wrappers
  import opened Domain
  import opened Entities

  /** `ticket.getValidations()` holds a VALID record. */
  predicate HasValidValidation(log: seq<TicketValidation>, ticketId: Id) {
    exists v :: v in log && v.ticketId == Some(ticketId) && v.status == Valid
  }

  /** The ticket's event has a recorded end and `now` is past it. */
  predicate EventEnded(db: Db, t: Ticket, now: Time) {
    EndOfTicket(db, t).Some? && now > EndOfTicket(db, t).value
  }

  /** `qrCodeRepository.findByIdAndStatus(id, ACTIVE)`. */
  function FindActiveQrCode(qrCodes: seq<QrCode>, id: Id): (r: Option<QrCode>)
    ensures r.Some? ==> r.value in qrCodes && r.value.id == id && r.value.status == QrActive
    ensures r.None? <==> forall q :: q in qrCodes ==> !(q.id == id && q.status == QrActive)
  {
    if |qrCodes| == 0 then None
    else if qrCodes[0].id == id && qrCodes[0].status == QrActive then Some(qrCodes[0])
    else FindActiveQrCode(qrCodes[1..], id)
  }

  /** The ticket after a status change, stamped by the entity's update hook. */
  function Restamp(t: Ticket, status: TicketStatus, now: Time): Ticket {
    t.(status := status, updatedAt := now)
  }

  /** The status `validateTicket` records: the checks in order are an
      EXPIRED ticket, an ended event, a USED ticket and an earlier VALID
      record. A CANCELLED ticket is not rejected. */
  function Verdict(db: Db, t: Ticket, now: Time): (s: ValidationStatus)
    ensures s != Invalid
    ensures s == ValidationExpired <==> t.status == TicketExpired || EventEnded(db, t, now)
    ensures s == AlreadyUsed <==>
      t.status != TicketExpired && !EventEnded(db, t, now)
      && (t.status == Used || HasValidValidation(db.validations, t.id))
  {
    if t.status == TicketExpired then ValidationExpired
    else if EventEnded(db, t, now) then ValidationExpired
    else if t.status == Used then AlreadyUsed
    else if HasValidValidation(db.validations, t.id) then AlreadyUsed
    else Valid
  }

  /** `validateTicket(ticket, method)`: one record with the verdict; an
      ended event also expires the ticket, and a VALID verdict marks it USED. */
  function ValidateTicket(db: Db, t: Ticket, via: ValidationMethod, now: Time): (r: (Db, TicketValidation))
    requires Linked(db) && t in db.tickets
    ensures r.1 == TicketValidation(Verdict(db, t, now), via, Some(t.id))
    ensures r.0 == db.(tickets := r.0.tickets, validations := db.validations + [r.1])
    ensures Linked(r.0)
    ensures t.status == TicketExpired ==> r.0.tickets == db.tickets
    ensures t.status != TicketExpired && EventEnded(db, t, now) ==>
      r.0.tickets == SaveTicket(db.tickets, Restamp(t, TicketExpired, now))
    ensures r.1.status == AlreadyUsed ==> r.0.tickets == db.tickets
    ensures r.1.status == Valid ==> r.0.tickets == SaveTicket(db.tickets, Restamp(t, Used, now))
  {
    var s := Verdict(db, t, now);
    var v := TicketValidation(s, via, Some(t.id));
    var changed :=
      if s == Valid then Some(Restamp(t, Used, now))
      else if s == ValidationExpired && t.status != TicketExpired then Some(Restamp(t, TicketExpired, now))
      else None;
    if changed.Some? then
      SaveKeepsLinked(db, changed.value);
      (db.(tickets := SaveTicket(db.tickets, changed.value), validations := db.validations + [v]), v)
    else
      (db.(validations := db.validations + [v]), v)
  }

  /** The record of an id that matched nothing. */
  function InvalidRecord(db: Db, via: ValidationMethod): (r: (Db, TicketValidation))
    ensures r.1 == TicketValidation(Invalid, via, None)
    ensures r.0 == db.(validations := db.validations + [r.1])
  {
    var v := TicketValidation(Invalid, via, None);
    (db.(validations := db.validations + [v]), v)
  }

  /** `validateTicketByQrCode`: an unknown or inactive QR code is recorded
      INVALID with no ticket; otherwise its ticket is validated. */
  function ValidateByQrCode(db: Db, qrCodeId: Id, now: Time): (r: (Db, TicketValidation))
    requires Linked(db)
    ensures r.0.validations == db.validations + [r.1] && r.1.via == QrScan
    ensures Linked(r.0)
    ensures r.1.status == Invalid <==> FindActiveQrCode(db.qrCodes, qrCodeId).None?
    ensures r.1.status == Invalid ==> r.1.ticketId.None? && r.0 == db.(validations := r.0.validations)
    ensures r.1.status != Invalid ==>
      r.1.ticketId == Some(FindActiveQrCode(db.qrCodes, qrCodeId).value.ticketId)
  {
    match FindActiveQrCode(db.qrCodes, qrCodeId)
    case None => InvalidRecord(db, QrScan)
    case Some(q) =>
      var t := FindTicket(db.tickets, q.ticketId).value;
      ValidateTicket(db, t, QrScan, now)
  }

  /** `validateTicketManually`: an unknown ticket id is recorded INVALID;
      otherwise the ticket is validated. */
  function ValidateManually(db: Db, ticketId: Id, now: Time): (r: (Db, TicketValidation))
    requires Linked(db)
    ensures r.0.validations == db.validations + [r.1] && r.1.via == Manual
    ensures Linked(r.0)
    ensures r.1.status == Invalid <==> FindTicket(db.tickets, ticketId).None?
    ensures r.1.status == Invalid ==> r.1.ticketId.None? && r.0 == db.(validations := r.0.validations)
    ensures r.1.status != Invalid ==> r.1.ticketId == Some(ticketId)
  {
    match FindTicket(db.tickets, ticketId)
    case None => InvalidRecord(db, Manual)
    case Some(t) => ValidateTicket(db, t, Manual, now)
  }

  /** Validating the same ticket twice in a row never admits it twice: the
      first VALID leaves a VALID record behind. */
  lemma NeverValidTwice(db: Db, t: Ticket, via1: ValidationMethod, via2: ValidationMethod, now1: Time, now2: Time)
    requires Linked(db) && t in db.tickets
    ensures var (db1, v1) := ValidateTicket(db, t, via1, now1);
      FindTicket(db1.tickets, t.id).Some?
      && (v1.status == Valid ==>
            ValidateTicket(db1, FindTicket(db1.tickets, t.id).value, via2, now2).1.status != Valid)
  {
    var (db1, v1) := ValidateTicket(db, t, via1, now1);
    assert FindTicket(db.tickets, t.id).Some?;
    if db1.tickets == db.tickets {
    } else if v1.status == Valid {
      FindAfterSave(db.tickets, Restamp(t, Used, now1));
    } else {
      FindAfterSave(db.tickets, Restamp(t, TicketExpired, now1));
    }
    if v1.status == Valid {
      assert v1 in db1.validations;
      assert HasValidValidation(db1.validations, t.id);
    }
  }

  /** Scanning the same QR code twice in a row never admits twice. */
  lemma QrNeverValidTwice(db: Db, qrCodeId: Id, now1: Time, now2: Time)
    requires Linked(db)
    ensures var (db1, v1) := ValidateByQrCode(db, qrCodeId, now1);
      v1.status == Valid ==> ValidateByQrCode(db1, qrCodeId, now2).1.status != Valid
  {
    var (db1, v1) := ValidateByQrCode(db, qrCodeId, now1);
    if v1.status == Valid {
      var q := FindActiveQrCode(db.qrCodes, qrCodeId).value;
      assert db1.qrCodes == db.qrCodes;
      assert v1 in db1.validations;
      assert HasValidValidation(db1.validations, q.ticketId);
    }
  }

  /** A CANCELLED ticket of a running event, never admitted before, is
      admitted and becomes USED. */
  lemma CancelledTicketAdmitted(db: Db, t: Ticket, via: ValidationMethod, now: Time)
    requires Linked(db) && t in db.tickets
    requires t.status == TicketCancelled && !EventEnded(db, t, now)
    requires !HasValidValidation(db.validations, t.id)
    ensures ValidateTicket(db, t, via, now).1.status == Valid
    ensures ValidateTicket(db, t, via, now).0.tickets == SaveTicket(db.tickets, Restamp(t, Used, now))
  {
  }

  /** A USED ticket whose event has ended is reported EXPIRED and is
      overwritten to EXPIRED. */
  lemma UsedAfterEndExpires(db: Db, t: Ticket, via: ValidationMethod, now: Time)
    requires Linked(db) && t in db.tickets
    requires t.status == Used && EventEnded(db, t, now)
    ensures ValidateTicket(db, t, via, now).1.status == ValidationExpired
    ensures FindTicket(ValidateTicket(db, t, via, now).0.tickets, t.id) == Some(Restamp(t, TicketExpired, now))
  {
    FindAfterSave(db.tickets, Restamp(t, TicketExpired, now));
  }
}

/** `TicketValidationController.validateTicket`: the id is parsed first; a
    missing or malformed id is answered INVALID without touching the
    service. `UUID.fromString` is the parameter `parseUuid`. */
module ValidationController {
  import opened Wrappers
  import opened Domain
  import opened Entities
  import opened Validation

  /** The response carries the status and, when the service ran, the record
      it returned (the mapper's copy of it). */
  datatype ValidationResponse = ValidationResponse(status: ValidationStatus, record: Option<TicketValidation>)

  function HandleValidation(db: Db, id: Option<string>, via: Option<ValidationMethod>, now: Time,
                            parseUuid: string -> Option<Id>): (r: (Db, ValidationResponse))
    requires Linked(db)
    ensures Linked(r.0)
    ensures id.None? || parseUuid(id.value).None? ==>
      r.0 == db && r.1 == ValidationResponse(Invalid, None)
    ensures id.Some? && parseUuid(id.value).Some? ==>
      r.1.record.Some? && r.1.status == r.1.record.value.status
      && r.0.validations == db.validations + [r.1.record.value]
      && r.1.record.value.via == (if via == Some(Manual) then Manual else QrScan)
  {
    if id.None? then (db, ValidationResponse(Invalid, None))
    else
      match parseUuid(id.value)
      case None => (db, ValidationResponse(Invalid, None))
      case Some(uuid) =>
        var (db1, v) := if via == Some(Manual) then ValidateManually(db, uuid, now)
                        else ValidateByQrCode(db, uuid, now);
        (db1, ValidationResponse(v.status, Some(v)))
  }

  /** MANUAL goes to the ticket table, anything else (QR_SCAN or no method)
      to the QR code table. */
  lemma Dispatch(db: Db, text: string, via: Option<ValidationMethod>, now: Time, parseUuid: string -> Option<Id>)
    requires Linked(db) && parseUuid(text).Some?
    ensures var r := HandleValidation(db, Some(text), via, now, parseUuid);
      via == Some(Manual) ==>
        (r.1.status == Invalid <==> FindTicket(db.tickets, parseUuid(text).value).None?)
    ensures var r := HandleValidation(db, Some(text), via, now, parseUuid);
      via != Some(Manual) ==>
        (r.1.status == Invalid <==> FindActiveQrCode(db.qrCodes, parseUuid(text).value).None?)
  {
  }
}
