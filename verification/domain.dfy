/** The shared vocabulary of the front end and the back end: the status and
    method enumerations (frontend/src/domain/domain.ts and the matching Java
    enums) and the `isErrorResponse` type guard over JSON values. */
module Domain {
  import opened Wrappers

  datatype EventStatus = Draft | Published | EventCancelled | Completed
  datatype TicketStatus = Purchased | Used | TicketExpired | TicketCancelled
  datatype ValidationStatus = Valid | Invalid | ValidationExpired | AlreadyUsed
  datatype ValidationMethod = QrScan | Manual

  /** The wire names of the enumerations, as serialised in JSON. */
  function EventStatusName(s: EventStatus): string {
    match s
    case Draft => "DRAFT"
    case Published => "PUBLISHED"
    case EventCancelled => "CANCELLED"
    case Completed => "COMPLETED"
  }

  function TicketStatusName(s: TicketStatus): string {
    match s
    case Purchased => "PURCHASED"
    case Used => "USED"
    case TicketExpired => "EXPIRED"
    case TicketCancelled => "CANCELLED"
  }

  function ValidationStatusName(s: ValidationStatus): string {
    match s
    case Valid => "VALID"
    case Invalid => "INVALID"
    case ValidationExpired => "EXPIRED"
    case AlreadyUsed => "ALREADY_USED"
  }

  function ValidationMethodName(m: ValidationMethod): string {
    match m
    case QrScan => "QR_SCAN"
    case Manual => "MANUAL"
  }

  const AllEventStatuses: seq<EventStatus> := [Draft, Published, EventCancelled, Completed]
  const AllTicketStatuses: seq<TicketStatus> := [Purchased, Used, TicketExpired, TicketCancelled]
  const AllValidationStatuses: seq<ValidationStatus> := [Valid, Invalid, ValidationExpired, AlreadyUsed]
  const AllValidationMethods: seq<ValidationMethod> := [QrScan, Manual]

  /** Reading an enum back from its wire name: the first constant with that name. */
  function ParseEventStatus(name: string): (r: Option<EventStatus>)
    ensures r.Some? ==> EventStatusName(r.value) == name
    ensures r.None? ==> forall s: EventStatus :: EventStatusName(s) != name
  {
    FirstWhere(AllEventStatuses, (s: EventStatus) => EventStatusName(s) == name)
  }

  function ParseTicketStatus(name: string): (r: Option<TicketStatus>)
    ensures r.Some? ==> TicketStatusName(r.value) == name
    ensures r.None? ==> forall s: TicketStatus :: TicketStatusName(s) != name
  {
    FirstWhere(AllTicketStatuses, (s: TicketStatus) => TicketStatusName(s) == name)
  }

  function ParseValidationStatus(name: string): (r: Option<ValidationStatus>)
    ensures r.Some? ==> ValidationStatusName(r.value) == name
    ensures r.None? ==> forall s: ValidationStatus :: ValidationStatusName(s) != name
  {
    FirstWhere(AllValidationStatuses, (s: ValidationStatus) => ValidationStatusName(s) == name)
  }

  function ParseValidationMethod(name: string): (r: Option<ValidationMethod>)
    ensures r.Some? ==> ValidationMethodName(r.value) == name
    ensures r.None? ==> forall m: ValidationMethod :: ValidationMethodName(m) != name
  {
    FirstWhere(AllValidationMethods, (m: ValidationMethod) => ValidationMethodName(m) == name)
  }

  /** Each wire name reads back to its constant, so the names are distinct. */
  lemma EventStatusRoundTrip(s: EventStatus)
    ensures s in AllEventStatuses
    ensures ParseEventStatus(EventStatusName(s)) == Some(s)
  {
    var r := ParseEventStatus(EventStatusName(s));
    assert r.Some?;
    match r.value
    case Draft =>
    case Published =>
    case EventCancelled =>
    case Completed =>
  }

  lemma TicketStatusRoundTrip(s: TicketStatus)
    ensures s in AllTicketStatuses
    ensures ParseTicketStatus(TicketStatusName(s)) == Some(s)
  {
    var r := ParseTicketStatus(TicketStatusName(s));
    assert r.Some?;
    match r.value
    case Purchased =>
    case Used =>
    case TicketExpired =>
    case TicketCancelled =>
  }

  lemma ValidationStatusRoundTrip(s: ValidationStatus)
    ensures s in AllValidationStatuses
    ensures ParseValidationStatus(ValidationStatusName(s)) == Some(s)
  {
    var r := ParseValidationStatus(ValidationStatusName(s));
    assert r.Some?;
    match r.value
    case Valid =>
    case Invalid =>
    case ValidationExpired =>
    case AlreadyUsed =>
  }

  lemma ValidationMethodRoundTrip(m: ValidationMethod)
    ensures m in AllValidationMethods
    ensures ParseValidationMethod(ValidationMethodName(m)) == Some(m)
  {
    var r := ParseValidationMethod(ValidationMethodName(m));
    assert r.Some?;
    match r.value
    case QrScan =>
    case Manual =>
  }

  /** The enumerations are closed: 4, 4, 4 and 2 pairwise distinct constants. */
  lemma EnumsClosed()
    ensures |AllEventStatuses| == 4 && |AllTicketStatuses| == 4
    ensures |AllValidationStatuses| == 4 && |AllValidationMethods| == 2
    ensures forall i, j :: 0 <= i < j < 4 ==> AllEventStatuses[i] != AllEventStatuses[j]
    ensures forall i, j :: 0 <= i < j < 4 ==> AllTicketStatuses[i] != AllTicketStatuses[j]
    ensures forall i, j :: 0 <= i < j < 4 ==> AllValidationStatuses[i] != AllValidationStatuses[j]
    ensures AllValidationMethods[0] != AllValidationMethods[1]
  {
  }

  /** A JavaScript value as it arrives from `response.json()`. Numbers are
      integers here; `Obj` holds the own enumerable properties. */
  datatype JsValue =
    | Undefined
    | Null
    | Bool(b: bool)
    | Num(n: int)
    | Str(s: string)
    | Arr(items: seq<JsValue>)
    | Obj(props: map<string, JsValue>)

  /** JavaScript truthiness. */
  predicate Truthy(v: JsValue) {
    match v
    case Undefined => false
    case Null => false
    case Bool(b) => b
    case Num(n) => n != 0
    case Str(s) => s != ""
    case _ => true
  }

  /** `typeof v === "object"`: null, arrays and plain objects. */
  predicate TypeofObject(v: JsValue) {
    v.Null? || v.Arr? || v.Obj?
  }

  /** `"error" in v`, for a value that is an object. Arrays carry only index keys. */
  predicate HasKey(v: JsValue, key: string) {
    v.Obj? && key in v.props
  }

  /** `isErrorResponse(obj)` read as a boolean: the conjunction short-circuits
      on the first falsy operand. */
  predicate IsErrorResponse(v: JsValue) {
    Truthy(v) && TypeofObject(v) && HasKey(v, "error") && v.props["error"].Str?
  }

  /** The guard accepts exactly the objects whose `error` property is a string. */
  lemma IsErrorResponseExactly(v: JsValue)
    ensures v.Undefined? || v.Null? ==> !IsErrorResponse(v)
    ensures !v.Obj? ==> !IsErrorResponse(v)
    ensures v.Obj? && "error" !in v.props ==> !IsErrorResponse(v)
    ensures IsErrorResponse(v) <==> exists msg :: v.Obj? && "error" in v.props && v.props["error"] == Str(msg)
  {
    if v.Obj? && "error" in v.props && v.props["error"].Str? {
      var msg := v.props["error"].s;
      assert v.props["error"] == Str(msg);
    }
  }
}
