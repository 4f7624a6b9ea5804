/** The event editor (frontend/src/pages/dashboard-manage-event-page.tsx):
    its private copies of the wall-clock helpers, the ticket-type list kept
    in the form, and the request the form submits. */
module ManageEvent {
  import opened Wrappers
  import opened Strings
  import opened Domain
  import opened DateUtils

  /** JavaScript truthiness of a `string | undefined`. */
  predicate Present(s: Option<string>) {
    s.Some? && s.value != ""
  }

  // ---------------------------------------------------------------------
  // The page's own date helpers.

  /** `formatTimeFromDate`: the first `T\d{2}:\d{2}` as `HH:MM`, else the
      padded hour and minute of the host's parse. */
  function FormatTimeFromDate(s: string, hostParse: string -> Date): (r: string)
    ensures SearchTime(s).Some? ==>
      var i := SearchTime(s).value;
      |r| == 5 && r[2] == ':' && r[..2] == s[i + 1..i + 3] && r[3..] == s[i + 4..i + 6]
    ensures SearchTime(s).None? ==> r == HourMinute(hostParse(s))
  {
    match SearchTime(s)
    case Some(i) => s[i + 1..i + 3] + ":" + s[i + 4..i + 6]
    case None => HourMinute(hostParse(s))
  }

  /** `parseDateFromString`: midnight of the first `\d{4}-\d{2}-\d{2}`
      anywhere in the text, else the host's parse. */
  function ParseDateFromString(s: string, hostParse: string -> Date): (r: Date)
    ensures SearchDate(s).Some? ==>
      var i := SearchDate(s).value;
      r.hour == 0 && r.minute == 0 && r.second == 0
      && r.month0 == NumAt(s, i + 5, 2) - 1 && r.day == NumAt(s, i + 8, 2)
      && (NumAt(s, i, 4) >= 100 ==> r.year == NumAt(s, i, 4))
      && (NumAt(s, i, 4) < 100 ==> r.year == 1900 + NumAt(s, i, 4))
    ensures SearchDate(s).None? ==> r == hostParse(s)
  {
    match SearchDate(s)
    case Some(i) => NewDate(NumAt(s, i, 4), NumAt(s, i + 5, 2) - 1, NumAt(s, i + 8, 2), 0, 0, 0)
    case None => hostParse(s)
  }

  /** The page's time helper is the shared `extractTime` on every non-empty text. */
  lemma FormatTimeAgreesWithExtractTime(s: string, hostParse: string -> Date)
    requires s != ""
    ensures FormatTimeFromDate(s, hostParse) == ExtractTime(Some(s), hostParse)
  {
    if SearchTime(s).None? {
      assert !TimeMatchAt(s, 10);
      assert !WireMatch(s);
    }
  }

  /** On a text that starts with a date the page's date helper is the shared
      `extractDateOnly`; it differs only in also finding a date later on. */
  lemma ParseDateAgreesWithExtractDateOnly(s: string, hostParse: string -> Date)
    requires DateMatchAt(s, 0)
    ensures ParseDateFromString(s, hostParse) == ExtractDateOnly(Some(s), hostParse).value
  {
    assert SearchDate(s) == Some(0);
  }

  /** `time.split(":")` destructured into `[hours, minutes]` with no
      defaults: a missing element is `undefined`, printed as such. */
  function InlineTimeParts(time: string): (hm: (string, string))
    ensures ':' !in hm.0
    ensures ':' !in time ==> hm == (time, "undefined")
  {
    var parts := Split(time, ':');
    (parts[0], if |parts| >= 2 then parts[1] else "undefined")
  }

  /** `combineDateTime`: month and day are padded, hours and minutes are not. */
  function CombineDateTime(date: Date, time: string): (r: string)
    ensures |r| >= 3 && r[|r| - 3..] == ":00"
  {
    var hm := InlineTimeParts(time);
    Assemble(IntToString(date.year), PadStart(IntToString(date.month0 + 1), 2, '0'),
             PadStart(IntToString(date.day), 2, '0'), hm.0, hm.1, "00")
  }

  /** On an `HH:MM` text from a time input the page's composer agrees with
      the shared `combineToLocalDateTime`. */
  lemma CombineDateTimeOnTwoDigits(date: Date, hh: string, mm: string)
    requires |hh| == 2 && AllDigits(hh) && |mm| == 2 && AllDigits(mm)
    ensures CombineDateTime(date, hh + ":" + mm) == CombineToLocalDateTime(date, hh + ":" + mm)
  {
    assert ':' !in hh && ':' !in mm;
    SplitAt(hh, ':', mm);
    assert Split(hh + ":" + mm, ':') == [hh, mm];
  }

  /** The value of an `<input type="time">`: empty or `HH:MM`. */
  predicate TimeInputValue(t: string) {
    t == "" || (|t| == 5 && t[2] == ':' && AllDigits(t[..2]) && AllDigits(t[3..]))
  }

  /** A time-input value that is not empty is its two fields joined by `:`. */
  lemma TimeInputFields(t: string)
    requires TimeInputValue(t) && t != ""
    ensures t == t[..2] + ":" + t[3..]
  {
  }

  // ---------------------------------------------------------------------
  // Dates in the submitted request.

  /** One date field of the request as written: sent only when its switch is
      on and a date is chosen, with `time ?? "00:00"` as the time. A cleared
      time input holds `""`, which `??` lets through. */
  function DateFieldAsWritten(enabled: bool, date: Option<Date>, time: Option<string>): (r: Option<string>)
    ensures r.Some? <==> enabled && date.Some?
    ensures enabled && date.Some? && time.None? ==> r == Some(CombineDateTime(date.value, "00:00"))
  {
    if enabled && date.Some? then Some(CombineDateTime(date.value, time.GetOr("00:00"))) else None
  }

  /** A cleared time input makes the request carry `...T:undefined:00`,
      which is no local date-time at all. */
  lemma ClearedTimeBreaksRequest(d: Date)
    requires ValidDate(d)
    ensures var r := DateFieldAsWritten(true, Some(d), Some(""));
      r.Some? && r.value[11] == ':' && !WireMatch(r.value)
  {
    assert InlineTimeParts("") == ("", "undefined");
    Year4(d.year);
    Pad2Value(d.month0 + 1);
    Pad2Value(d.day);
    EmptyHourNotWire(IntToString(d.year), PadStart(IntToString(d.month0 + 1), 2, '0'),
                     PadStart(IntToString(d.day), 2, '0'), "undefined", "00");
  }

  /** With an empty hour the colon lands where the hour's digits belong. */
  lemma EmptyHourNotWire(y: string, mo: string, d: string, mi: string, sec: string)
    requires |y| == 4 && |mo| == 2 && |d| == 2
    ensures Assemble(y, mo, d, "", mi, sec)[11] == ':'
    ensures !WireMatch(Assemble(y, mo, d, "", mi, sec))
  {
    var s := Assemble(y, mo, d, "", mi, sec);
    assert s[11] == ':';
    assert !DigitsAt(s, 11, 2);
  }

  /** The time the request should use: `time || "00:00"`, so that a cleared
      input counts as no time. */
  function EffectiveTime(time: Option<string>): (t: string)
    ensures t != ""
    ensures Present(time) ==> t == time.value
    ensures !Present(time) ==> t == "00:00"
    ensures (time.Some? ==> TimeInputValue(time.value)) ==>
      |t| == 5 && t[2] == ':' && AllDigits(t[..2]) && AllDigits(t[3..])
  {
    if Present(time) then time.value
    else
      assert AllDigits("00") by { ParseZeroZero(); }
      assert "00:00"[..2] == "00" && "00:00"[3..] == "00";
      "00:00"
  }

  /** One date field of the request, with the cleared-input case repaired. */
  function DateField(enabled: bool, date: Option<Date>, time: Option<string>): (r: Option<string>)
    ensures r.Some? <==> enabled && date.Some?
    ensures time != Some("") ==> r == DateFieldAsWritten(enabled, date, time)
  {
    if enabled && date.Some? then Some(CombineDateTime(date.value, EffectiveTime(time))) else None
  }

  /** Whatever the time input holds, an enabled field with a valid date is a
      wire text naming that date and time, seconds zero. */
  lemma DateFieldIsWire(d: Date, time: Option<string>, hostParse: string -> Date)
    requires ValidDate(d)
    requires time.Some? ==> TimeInputValue(time.value)
    ensures var r := DateField(true, Some(d), time);
      var t := EffectiveTime(time);
      r.Some? && WireMatch(r.value)
      && ParseWallClockDate(Text(r.value), hostParse)
         == Some(Date(d.year, d.month0, d.day, ParseDigits(t[..2]), ParseDigits(t[3..]), 0))
  {
    var t := EffectiveTime(time);
    assert t == t[..2] + ":" + t[3..];
    CombineDateTimeOnTwoDigits(d, t[..2], t[3..]);
    ParseCombine(d, t[..2], t[3..], hostParse);
  }

  // ---------------------------------------------------------------------
  // The ticket types held by the form.

  datatype TicketTypeForm = TicketTypeForm(
    id: Option<string>, name: string, price: int, totalAvailable: Option<int>, description: string)

  const TempPrefix: string := "temp_"

  /** `generateTempId`, with the random UUID as a parameter. */
  function GenerateTempId(uuid: string): (id: string)
    ensures StartsWith(id, TempPrefix) && id[|TempPrefix|..] == uuid
  {
    TempPrefix + uuid
  }

  /** `isTempId` read as a boolean. */
  predicate IsTempId(id: Option<string>) {
    Present(id) && StartsWith(id.value, TempPrefix)
  }

  /** Every generated id is temporary; an id that does not start with `t`
      (a server UUID) is not. */
  lemma TempIds(uuid: string, server: string)
    requires server == "" || server[0] != 't'
    ensures IsTempId(Some(GenerateTempId(uuid)))
    ensures !IsTempId(Some(server))
  {
  }

  /** `handleSaveTicketType`. An entry with a truthy id replaces the first
      entry with that id, or nothing if there is none; an entry without one
      is appended under a fresh temporary id. */
  function SaveTicketType(types: seq<TicketTypeForm>, current: Option<TicketTypeForm>, uuid: string)
    : (r: seq<TicketTypeForm>)
    ensures current.None? ==> r == types
    ensures current.Some? && Present(current.value.id) ==>
      var i := FindIndex(types, (t: TicketTypeForm) => t.id == current.value.id);
      |r| == |types|
      && (i == -1 ==> r == types)
      && (i >= 0 ==> r[i] == current.value && forall j :: 0 <= j < |r| && j != i ==> r[j] == types[j])
      && (forall j :: 0 <= j < |r| ==> r[j].id == types[j].id)
    ensures current.Some? && !Present(current.value.id) ==>
      |r| == |types| + 1 && r[..|types|] == types
      && r[|types|] == current.value.(id := Some(GenerateTempId(uuid)))
      && IsTempId(r[|types|].id)
  {
    match current
    case None => types
    case Some(c) =>
      if Present(c.id) then
        var i := FindIndex(types, (t: TicketTypeForm) => t.id == c.id);
        if i == -1 then types else types[i := c]
      else
        TempIds(uuid, "");
        types + [c.(id := Some(GenerateTempId(uuid)))]
  }

  /** The delete button: every entry carrying the id goes. */
  function DeleteTicketType(types: seq<TicketTypeForm>, id: Option<string>): (r: seq<TicketTypeForm>)
    ensures forall j :: 0 <= j < |r| ==> r[j].id != id && r[j] in types
    ensures forall j :: 0 <= j < |types| && types[j].id != id ==> types[j] in r
    ensures IsSubseq(r, types)
    ensures forall j :: 0 <= j < |types| ==>
      multiset(r)[types[j]] == if types[j].id != id then multiset(types)[types[j]] else 0
  {
    var keep := (t: TicketTypeForm) => t.id != id;
    FilterKeepsOrder(types, keep);
    Filter(types, keep)
  }

  /** Deleting a just-added entry by its temporary id restores the list,
      provided no older entry had that id. */
  lemma DeleteUndoesAdd(types: seq<TicketTypeForm>, c: TicketTypeForm, uuid: string)
    requires !Present(c.id)
    requires forall j :: 0 <= j < |types| ==> types[j].id != Some(GenerateTempId(uuid))
    ensures DeleteTicketType(SaveTicketType(types, Some(c), uuid), Some(GenerateTempId(uuid))) == types
  {
    var id := Some(GenerateTempId(uuid));
    var p := (t: TicketTypeForm) => t.id != id;
    var added := c.(id := id);
    assert SaveTicketType(types, Some(c), uuid) == types + [added];
    FilterAppend(types, [added], p);
    FilterKeepsAll(types, p);
    assert Filter([added], p) == [];
  }

  // ---------------------------------------------------------------------
  // The submitted request.

  /** The form state `eventData` together with the two switches. */
  datatype EventForm = EventForm(
    id: Option<string>, name: string,
    startDate: Option<Date>, startTime: Option<string>,
    endDate: Option<Date>, endTime: Option<string>,
    venue: string,
    salesStartDate: Option<Date>, salesStartTime: Option<string>,
    salesEndDate: Option<Date>, salesEndTime: Option<string>,
    ticketTypes: seq<TicketTypeForm>, status: EventStatus,
    dateEnabled: bool, salesDateEnabled: bool)

  datatype TicketTypeRequest = TicketTypeRequest(
    id: Option<string>, name: string, price: int, description: string, totalAvailable: Option<int>)

  /** `CreateEventRequest` and `UpdateEventRequest`; a create request has no id. */
  datatype EventRequest = EventRequest(
    id: Option<string>, name: string, start: Option<string>, end: Option<string>, venue: string,
    salesStart: Option<string>, salesEnd: Option<string>, status: EventStatus,
    ticketTypes: seq<TicketTypeRequest>)

  /** What `handleFormSubmit` does: report missing authentication, or send
      an update (to the form's event id) or a create. */
  datatype Submission = AuthRequired | Update(eventId: string, request: EventRequest) | Create(request: EventRequest)

  /** The ticket types of an update: temporary ids are dropped, others kept. */
  function UpdateTicketTypes(types: seq<TicketTypeForm>): (r: seq<TicketTypeRequest>)
    ensures |r| == |types|
    ensures forall i :: 0 <= i < |r| ==>
      r[i].name == types[i].name && r[i].price == types[i].price
      && r[i].description == types[i].description && r[i].totalAvailable == types[i].totalAvailable
    ensures forall i :: 0 <= i < |r| ==> (IsTempId(types[i].id) <==> r[i].id.None? && Present(types[i].id))
    ensures forall i :: 0 <= i < |r| && !IsTempId(types[i].id) ==> r[i].id == types[i].id
  {
    seq(|types|, i requires 0 <= i < |types| =>
      var t := types[i];
      TicketTypeRequest(if IsTempId(t.id) then None else t.id, t.name, t.price, t.description, t.totalAvailable))
  }

  /** The ticket types of a create: no ids at all. */
  function CreateTicketTypes(types: seq<TicketTypeForm>): (r: seq<TicketTypeRequest>)
    ensures |r| == |types|
    ensures forall i :: 0 <= i < |r| ==>
      r[i].id.None? && r[i].name == types[i].name && r[i].price == types[i].price
      && r[i].description == types[i].description && r[i].totalAvailable == types[i].totalAvailable
  {
    seq(|types|, i requires 0 <= i < |types| =>
      var t := types[i];
      TicketTypeRequest(None, t.name, t.price, t.description, t.totalAvailable))
  }

  /** The request `handleFormSubmit` sends for the given date fields: an
      update to the form's event id when the route and the form carry one,
      else a create; nothing without authentication. */
  function Send(routeId: Option<string>, authLoading: bool, accessToken: Option<string>, form: EventForm,
                start: Option<string>, end: Option<string>, salesStart: Option<string>, salesEnd: Option<string>)
    : Submission
  {
    if authLoading || !Present(accessToken) then AuthRequired
    else if Present(routeId) && Present(form.id) then
      Update(form.id.value, EventRequest(form.id, form.name, start, end, form.venue, salesStart, salesEnd,
                                         form.status, UpdateTicketTypes(form.ticketTypes)))
    else
      Create(EventRequest(None, form.name, start, end, form.venue, salesStart, salesEnd,
                          form.status, CreateTicketTypes(form.ticketTypes)))
  }

  /** `handleFormSubmit` as written; `routeId` is the `:id` route parameter
      and `accessToken` the signed-in user's token. Every date goes through
      `time ?? "00:00"`. */
  function Submit(routeId: Option<string>, authLoading: bool, accessToken: Option<string>, form: EventForm)
    : (r: Submission)
    ensures r.AuthRequired? <==> authLoading || !Present(accessToken)
    ensures r.Update? <==> !authLoading && Present(accessToken) && Present(routeId) && Present(form.id)
    ensures r.Update? ==>
      r.eventId == form.id.value && r.request.id == form.id
      && r.request.ticketTypes == UpdateTicketTypes(form.ticketTypes)
    ensures r.Create? ==> r.request.id.None? && r.request.ticketTypes == CreateTicketTypes(form.ticketTypes)
    ensures !r.AuthRequired? ==>
      r.request.name == form.name && r.request.venue == form.venue && r.request.status == form.status
      && r.request.start == DateFieldAsWritten(form.dateEnabled, form.startDate, form.startTime)
      && r.request.end == DateFieldAsWritten(form.dateEnabled, form.endDate, form.endTime)
      && r.request.salesStart == DateFieldAsWritten(form.salesDateEnabled, form.salesStartDate, form.salesStartTime)
      && r.request.salesEnd == DateFieldAsWritten(form.salesDateEnabled, form.salesEndDate, form.salesEndTime)
  {
    Send(routeId, authLoading, accessToken, form,
         DateFieldAsWritten(form.dateEnabled, form.startDate, form.startTime),
         DateFieldAsWritten(form.dateEnabled, form.endDate, form.endTime),
         DateFieldAsWritten(form.salesDateEnabled, form.salesStartDate, form.salesStartTime),
         DateFieldAsWritten(form.salesDateEnabled, form.salesEndDate, form.salesEndTime))
  }

  /** No time input of the form is cleared. */
  predicate NoClearedTime(form: EventForm) {
    form.startTime != Some("") && form.endTime != Some("")
    && form.salesStartTime != Some("") && form.salesEndTime != Some("")
  }

  /** `handleFormSubmit` with the cleared-input case repaired: every date
      goes through `DateField`. It sends what `Submit` sends unless a time
      input was cleared. */
  function SubmitFixed(routeId: Option<string>, authLoading: bool, accessToken: Option<string>, form: EventForm)
    : (r: Submission)
    ensures r.AuthRequired? <==> Submit(routeId, authLoading, accessToken, form).AuthRequired?
    ensures r.Update? <==> Submit(routeId, authLoading, accessToken, form).Update?
    ensures !r.AuthRequired? ==>
      r.request.start == DateField(form.dateEnabled, form.startDate, form.startTime)
      && r.request.end == DateField(form.dateEnabled, form.endDate, form.endTime)
      && r.request.salesStart == DateField(form.salesDateEnabled, form.salesStartDate, form.salesStartTime)
      && r.request.salesEnd == DateField(form.salesDateEnabled, form.salesEndDate, form.salesEndTime)
    ensures NoClearedTime(form) ==> r == Submit(routeId, authLoading, accessToken, form)
  {
    Send(routeId, authLoading, accessToken, form,
         DateField(form.dateEnabled, form.startDate, form.startTime),
         DateField(form.dateEnabled, form.endDate, form.endTime),
         DateField(form.salesDateEnabled, form.salesStartDate, form.salesStartTime),
         DateField(form.salesDateEnabled, form.salesEndDate, form.salesEndTime))
  }

  // ---------------------------------------------------------------------
  // Loading an event into the form, and saving it back.

  datatype TicketTypeDetails = TicketTypeDetails(
    id: string, name: string, price: int, description: string, totalAvailable: Option<int>)

  /** `EventDetails` as the back end sends it. */
  datatype EventDetails = EventDetails(
    id: string, name: string, start: Option<string>, end: Option<string>, venue: string,
    salesStart: Option<string>, salesEnd: Option<string>, status: EventStatus,
    ticketTypes: seq<TicketTypeDetails>)

  function LoadDate(s: Option<string>, hostParse: string -> Date): (r: Option<Date>)
    ensures r.Some? <==> Present(s)
  {
    if Present(s) then Some(ParseDateFromString(s.value, hostParse)) else None
  }

  function LoadTime(s: Option<string>, hostParse: string -> Date): (r: Option<string>)
    ensures r.Some? <==> Present(s)
  {
    if Present(s) then Some(FormatTimeFromDate(s.value, hostParse)) else None
  }

  /** The effect of `fetchEvent`: the form state and the two switches. */
  function LoadEvent(ev: EventDetails, hostParse: string -> Date): (f: EventForm)
    ensures f.id == Some(ev.id) && f.name == ev.name && f.venue == ev.venue && f.status == ev.status
    ensures f.dateEnabled <==> Present(ev.start) || Present(ev.end)
    ensures f.salesDateEnabled <==> Present(ev.salesStart) || Present(ev.salesEnd)
    ensures f.startDate.Some? <==> Present(ev.start)
    ensures f.endDate.Some? <==> Present(ev.end)
    ensures f.salesStartDate.Some? <==> Present(ev.salesStart)
    ensures f.salesEndDate.Some? <==> Present(ev.salesEnd)
    ensures |f.ticketTypes| == |ev.ticketTypes|
    ensures forall i :: 0 <= i < |f.ticketTypes| ==>
      (var t := ev.ticketTypes[i];
       f.ticketTypes[i] == TicketTypeForm(Some(t.id), t.name, t.price, t.totalAvailable, t.description))
  {
    EventForm(
      Some(ev.id), ev.name,
      LoadDate(ev.start, hostParse), LoadTime(ev.start, hostParse),
      LoadDate(ev.end, hostParse), LoadTime(ev.end, hostParse),
      ev.venue,
      LoadDate(ev.salesStart, hostParse), LoadTime(ev.salesStart, hostParse),
      LoadDate(ev.salesEnd, hostParse), LoadTime(ev.salesEnd, hostParse),
      seq(|ev.ticketTypes|, i requires 0 <= i < |ev.ticketTypes| =>
        var t := ev.ticketTypes[i];
        TicketTypeForm(Some(t.id), t.name, t.price, t.totalAvailable, t.description)),
      ev.status,
      Present(ev.start) || Present(ev.end),
      Present(ev.salesStart) || Present(ev.salesEnd))
  }

  /** A date field the form reproduces: absent, or a valid wire text whose
      seconds are zero (the form keeps only hours and minutes). */
  predicate Reproducible(s: Option<string>) {
    s.None? || (ValidWire(s.value) && s.value[17..19] == "00")
  }

  /** One date field survives loading and saving unchanged. */
  lemma DateFieldRoundTrip(s: Option<string>, enabled: bool, hostParse: string -> Date)
    requires Reproducible(s)
    requires Present(s) ==> enabled
    ensures DateField(enabled, LoadDate(s, hostParse), LoadTime(s, hostParse)) == s
    ensures DateFieldAsWritten(enabled, LoadDate(s, hostParse), LoadTime(s, hostParse)) == s
  {
    if s.Some? {
      var t := s.value;
      ParseDateAgreesWithExtractDateOnly(t, hostParse);
      FormatTimeAgreesWithExtractTime(t, hostParse);
      SearchTimeOnWire(t);
      var time := ExtractTime(Some(t), hostParse);
      assert time == t[11..13] + ":" + t[14..16];
      CombineDateTimeOnTwoDigits(ExtractDateOnly(Some(t), hostParse).value, t[11..13], t[14..16]);
      CombineExtractRoundTrip(t, hostParse);
    }
  }

  /** Opening an event in the editor and saving it without changes sends
      back the same dates, name, venue, status and ticket types, with every
      server ticket-type id kept. */
  lemma LoadThenSave(ev: EventDetails, hostParse: string -> Date, routeId: Option<string>, token: Option<string>)
    requires Present(routeId) && Present(token) && ev.id != ""
    requires Reproducible(ev.start) && Reproducible(ev.end)
    requires Reproducible(ev.salesStart) && Reproducible(ev.salesEnd)
    requires forall i :: 0 <= i < |ev.ticketTypes| ==> !StartsWith(ev.ticketTypes[i].id, TempPrefix)
    ensures var r := Submit(routeId, false, token, LoadEvent(ev, hostParse));
      r.Update? && r.eventId == ev.id && r.request.id == Some(ev.id)
      && r.request.name == ev.name && r.request.venue == ev.venue && r.request.status == ev.status
      && r.request.start == ev.start && r.request.end == ev.end
      && r.request.salesStart == ev.salesStart && r.request.salesEnd == ev.salesEnd
      && |r.request.ticketTypes| == |ev.ticketTypes|
      && forall i :: 0 <= i < |ev.ticketTypes| ==>
           var t := ev.ticketTypes[i];
           r.request.ticketTypes[i] == TicketTypeRequest(Some(t.id), t.name, t.price, t.description, t.totalAvailable)
  {
    var f := LoadEvent(ev, hostParse);
    DateFieldRoundTrip(ev.start, f.dateEnabled, hostParse);
    DateFieldRoundTrip(ev.end, f.dateEnabled, hostParse);
    DateFieldRoundTrip(ev.salesStart, f.salesDateEnabled, hostParse);
    DateFieldRoundTrip(ev.salesEnd, f.salesDateEnabled, hostParse);
  }
}
