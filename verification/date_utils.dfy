/** Wall-clock date handling (frontend/src/lib/date-utils.ts).

    The back end sends `LocalDateTime` values as ISO 8601 extended-format
    local date-times without a UTC designator, `YYYY-MM-DDThh:mm:ss`
    (ISO 8601:2004 section 4.3.2), optionally followed by fractional seconds.
    The front end must show the same wall-clock fields to every viewer, so it
    reads the fields out of the text and builds a `Date` from local
    components, and writes them back the same way. Only the lenient
    `new Date(text)` fallback depends on the host time zone; it is a
    parameter here (`hostParse`), and so is date-fns `format`. */
module DateUtils {
  import opened Wrappers
  import opened Strings

  /** A JavaScript `Date` seen through its local getters; `month0` is
      0-based as `getMonth()` returns it. */
  datatype Date = Date(year: int, month0: int, day: int, hour: int, minute: int, second: int)

  /** `new Date(y, m, d, h, mi, s)` with local components. The constructor
      reads a year of 0..99 as 1900..1999; its overflow normalisation
      (month 12, day 32, ...) is not modelled, so fields are kept as given. */
  function NewDate(y: int, m0: int, d: int, h: int, mi: int, s: int): (r: Date)
    ensures r.month0 == m0 && r.day == d && r.hour == h && r.minute == mi && r.second == s
    ensures 0 <= y <= 99 ==> r.year == 1900 + y
    ensures !(0 <= y <= 99) ==> r.year == y
  {
    Date(if 0 <= y <= 99 then 1900 + y else y, m0, d, h, mi, s)
  }

  /** The `string | Date | undefined` argument of the parser. */
  datatype DateInput = Absent | Text(text: string) | AlreadyDate(date: Date)

  // ---------------------------------------------------------------------
  // The regular expressions, as predicates on positions.

  /** `\d{n}` at position `i`. */
  predicate DigitsAt(s: string, i: nat, n: nat) {
    i + n <= |s| && forall k :: i <= k < i + n ==> IsDigit(s[k])
  }

  /** The value of the digit run of length `n` at `i` (`parseInt`). */
  function NumAt(s: string, i: nat, n: nat): nat
    requires DigitsAt(s, i, n)
  {
    ParseDigits(s[i..i + n])
  }

  /** `(\d{4})-(\d{2})-(\d{2})` at position `i`. */
  predicate DateMatchAt(s: string, i: nat) {
    i + 10 <= |s| && DigitsAt(s, i, 4) && s[i + 4] == '-' && DigitsAt(s, i + 5, 2)
    && s[i + 7] == '-' && DigitsAt(s, i + 8, 2)
  }

  /** `T(\d{2}):(\d{2})` at position `i`. */
  predicate TimeMatchAt(s: string, i: nat) {
    i + 6 <= |s| && s[i] == 'T' && DigitsAt(s, i + 1, 2) && s[i + 3] == ':' && DigitsAt(s, i + 4, 2)
  }

  /** `^(\d{4})-(\d{2})-(\d{2})T(\d{2}):(\d{2}):(\d{2})`. */
  predicate WireMatch(s: string) {
    19 <= |s| && DateMatchAt(s, 0) && TimeMatchAt(s, 10) && s[16] == ':' && DigitsAt(s, 17, 2)
  }

  /** `s.match(/T(\d{2}):(\d{2})/)`: the leftmost position of the `T`, as
      `String.prototype.match` without the `g` flag reports it. */
  function SearchTime(s: string, from: nat := 0): (r: Option<nat>)
    ensures r.Some? ==> from <= r.value && TimeMatchAt(s, r.value)
    ensures r.Some? ==> forall j :: from <= j < r.value ==> !TimeMatchAt(s, j)
    ensures r.None? ==> forall j: nat :: from <= j ==> !TimeMatchAt(s, j)
    decreases |s| - from
  {
    if from >= |s| then None
    else if TimeMatchAt(s, from) then Some(from)
    else SearchTime(s, from + 1)
  }

  /** `s.match(/(\d{4})-(\d{2})-(\d{2})/)`: the leftmost position of the year. */
  function SearchDate(s: string, from: nat := 0): (r: Option<nat>)
    ensures r.Some? ==> from <= r.value && DateMatchAt(s, r.value)
    ensures r.Some? ==> forall j :: from <= j < r.value ==> !DateMatchAt(s, j)
    ensures r.None? ==> forall j: nat :: from <= j ==> !DateMatchAt(s, j)
    decreases |s| - from
  {
    if from >= |s| then None
    else if DateMatchAt(s, from) then Some(from)
    else SearchDate(s, from + 1)
  }

  /** The template `${y}-${mo}-${d}T${h}:${mi}:${sec}` that both the back
      end's format and the composers fill in. */
  function Assemble(y: string, mo: string, d: string, h: string, mi: string, sec: string): string {
    y + "-" + mo + "-" + d + "T" + h + ":" + mi + ":" + sec
  }

  // ---------------------------------------------------------------------
  // The five exported functions.

  /** `parseWallClockDate`. */
  function ParseWallClockDate(input: DateInput, hostParse: string -> Date): (r: Option<Date>)
    ensures r.None? <==> input.Absent? || input == Text("")
    ensures input.AlreadyDate? ==> r == Some(input.date)
    ensures input.Text? && WireMatch(input.text) ==>
      r.Some? && r.value.month0 == NumAt(input.text, 5, 2) - 1 && r.value.day == NumAt(input.text, 8, 2)
      && r.value.hour == NumAt(input.text, 11, 2) && r.value.minute == NumAt(input.text, 14, 2)
      && r.value.second == NumAt(input.text, 17, 2)
      && (NumAt(input.text, 0, 4) >= 100 ==> r.value.year == NumAt(input.text, 0, 4))
      && (NumAt(input.text, 0, 4) < 100 ==> r.value.year == 1900 + NumAt(input.text, 0, 4))
    ensures input.Text? && input.text != "" && !WireMatch(input.text) ==> r == Some(hostParse(input.text))
  {
    match input
    case Absent => None
    case AlreadyDate(d) => Some(d)
    case Text(s) =>
      if s == "" then None
      else if WireMatch(s) then
        Some(NewDate(NumAt(s, 0, 4), NumAt(s, 5, 2) - 1, NumAt(s, 8, 2),
                     NumAt(s, 11, 2), NumAt(s, 14, 2), NumAt(s, 17, 2)))
      else Some(hostParse(s))
  }

  /** `formatWallClockDate`: `formatFn` stands for date-fns `format`. */
  function FormatWallClockDate(input: DateInput, formatFn: (Date, string) -> string, formatStr: string,
                               hostParse: string -> Date): (r: string)
    ensures input.Absent? || input == Text("") ==> r == ""
    ensures input.AlreadyDate? ==> r == formatFn(input.date, formatStr)
    ensures input.Text? && input.text != "" ==> r == formatFn(ParseWallClockDate(input, hostParse).value, formatStr)
    ensures input.Text? && input.text != "" && !WireMatch(input.text) ==> r == formatFn(hostParse(input.text), formatStr)
  {
    match ParseWallClockDate(input, hostParse)
    case None => ""
    case Some(d) => formatFn(d, formatStr)
  }

  /** `hh:mm` from the two fields of a `Date`, as the fallbacks print them. */
  function HourMinute(d: Date): string {
    PadStart(IntToString(d.hour), 2, '0') + ":" + PadStart(IntToString(d.minute), 2, '0')
  }

  /** `extractTime`. */
  function ExtractTime(input: Option<string>, hostParse: string -> Date): (r: string)
    ensures input.None? || input == Some("") ==> r == ""
    ensures input.Some? && SearchTime(input.value).Some? ==>
      var i := SearchTime(input.value).value;
      |r| == 5 && r[2] == ':' && r[..2] == input.value[i + 1..i + 3] && r[3..] == input.value[i + 4..i + 6]
  {
    match input
    case None => ""
    case Some(s) =>
      if s == "" then ""
      else match SearchTime(s)
        case Some(i) => s[i + 1..i + 3] + ":" + s[i + 4..i + 6]
        case None =>
          match ParseWallClockDate(Text(s), hostParse)
          case None => ""
          case Some(d) => HourMinute(d)
  }

  /** `extractDateOnly`. */
  function ExtractDateOnly(input: Option<string>, hostParse: string -> Date): (r: Option<Date>)
    ensures r.None? <==> input.None? || input == Some("")
    ensures input.Some? && DateMatchAt(input.value, 0) ==>
      var s := input.value;
      r.value.hour == 0 && r.value.minute == 0 && r.value.second == 0
      && r.value.month0 == NumAt(s, 5, 2) - 1 && r.value.day == NumAt(s, 8, 2)
      && (NumAt(s, 0, 4) >= 100 ==> r.value.year == NumAt(s, 0, 4))
      && (NumAt(s, 0, 4) < 100 ==> r.value.year == 1900 + NumAt(s, 0, 4))
    ensures input.Some? && input.value != "" && !DateMatchAt(input.value, 0) ==>
      r == ParseWallClockDate(Text(input.value), hostParse)
  {
    match input
    case None => None
    case Some(s) =>
      if s == "" then None
      else if DateMatchAt(s, 0) then Some(NewDate(NumAt(s, 0, 4), NumAt(s, 5, 2) - 1, NumAt(s, 8, 2), 0, 0, 0))
      else ParseWallClockDate(Text(s), hostParse)
  }

  /** The hour and minute strings `time.split(':')` yields, with the
      destructuring defaults `'00'` for a missing element. */
  function TimeParts(time: string): (hm: (string, string))
    ensures ':' !in hm.0 && ':' !in hm.1
    ensures ':' !in time ==> hm == (time, "00")
  {
    var parts := Split(time, ':');
    (parts[0], if |parts| >= 2 then parts[1] else "00")
  }

  /** `combineToLocalDateTime`: only the date fields of `date` are read. */
  function CombineToLocalDateTime(date: Date, time: string): (r: string)
    ensures |r| >= 3 && r[|r| - 3..] == ":00"
  {
    var hm := TimeParts(time);
    Assemble(IntToString(date.year), PadStart(IntToString(date.month0 + 1), 2, '0'),
             PadStart(IntToString(date.day), 2, '0'), PadStart(hm.0, 2, '0'), PadStart(hm.1, 2, '0'), "00")
  }


  // ---------------------------------------------------------------------
  // A reference printer and the round trips.

  function DaysInMonth(year: int, month0: int): int {
    if month0 == 1 then
      (if (year % 4 == 0 && year % 100 != 0) || year % 400 == 0 then 29 else 28)
    else if month0 == 3 || month0 == 5 || month0 == 8 || month0 == 10 then 30
    else 31
  }

  /** A date the `Date` constructor keeps as given (no overflow to
      normalise) and whose year prints with four digits. */
  predicate ValidDate(d: Date) {
    1000 <= d.year <= 9999 && 0 <= d.month0 < 12 && 1 <= d.day <= DaysInMonth(d.year, d.month0)
    && 0 <= d.hour < 24 && 0 <= d.minute < 60 && 0 <= d.second < 60
  }

  /** The wire text of a date, `YYYY-MM-DDThh:mm:ss`: an independent
      statement of what the back end sends. */
  function ToWire(d: Date): string
    requires ValidDate(d)
  {
    NatToString(d.year) + "-" + Pad2(d.month0 + 1) + "-" + Pad2(d.day)
      + "T" + Pad2(d.hour) + ":" + Pad2(d.minute) + ":" + Pad2(d.second)
  }

  /** A wire text whose fields name a valid date. */
  predicate ValidWire(s: string) {
    |s| == 19 && WireMatch(s) && 1000 <= NumAt(s, 0, 4)
    && 1 <= NumAt(s, 5, 2) <= 12 && 1 <= NumAt(s, 8, 2) <= DaysInMonth(NumAt(s, 0, 4), NumAt(s, 5, 2) - 1)
    && NumAt(s, 11, 2) < 24 && NumAt(s, 14, 2) < 60 && NumAt(s, 17, 2) < 60
  }

  lemma Year4(n: nat)
    requires 1000 <= n <= 9999
    ensures |NatToString(n)| == 4
  {
    assert |NatToString(n / 1000)| == 1;
    assert |NatToString(n / 100)| == 2;
    assert |NatToString(n / 10)| == 3;
  }

  /** The four-digit run is at least 1000 exactly when it does not start with 0. */
  lemma Parse4(s: string)
    requires |s| == 4 && AllDigits(s)
    ensures ParseDigits(s) == 1000 * DigitValue(s[0]) + 100 * DigitValue(s[1]) + 10 * DigitValue(s[2]) + DigitValue(s[3])
  {
    assert s[..3][..2] == s[..2];
    assert s[..2][..1] == s[..1];
    assert s[..1][..0] == [];
    assert ParseDigits(s[..1]) == DigitValue(s[0]);
    assert ParseDigits(s[..2]) == 10 * DigitValue(s[0]) + DigitValue(s[1]);
    assert ParseDigits(s[..3]) == 100 * DigitValue(s[0]) + 10 * DigitValue(s[1]) + DigitValue(s[2]);
  }

  predicate FieldShapes(y: string, mo: string, d: string, h: string, mi: string, sec: string) {
    |y| == 4 && |mo| == 2 && |d| == 2 && |h| == 2 && |mi| == 2 && |sec| == 2
    && AllDigits(y) && AllDigits(mo) && AllDigits(d) && AllDigits(h) && AllDigits(mi) && AllDigits(sec)
  }

  /** Assembled fields form a wire text from which each field reads back. */
  lemma AssembleFields(y: string, mo: string, d: string, h: string, mi: string, sec: string)
    requires FieldShapes(y, mo, d, h, mi, sec)
    ensures var s := Assemble(y, mo, d, h, mi, sec);
      |s| == 19 && WireMatch(s) && s[0..4] == y && s[5..7] == mo && s[8..10] == d
      && s[11..13] == h && s[14..16] == mi && s[17..19] == sec
  {
    var s := Assemble(y, mo, d, h, mi, sec);
    assert s[0..4] == y;
    assert s[5..7] == mo;
    assert s[8..10] == d;
    assert s[11..13] == h;
    assert s[14..16] == mi;
    assert s[17..19] == sec;
  }

  /** How a 19-character wire text splits into its six fields. */
  lemma WireFields(s: string)
    requires |s| == 19 && WireMatch(s)
    ensures FieldShapes(s[0..4], s[5..7], s[8..10], s[11..13], s[14..16], s[17..19])
    ensures s == Assemble(s[0..4], s[5..7], s[8..10], s[11..13], s[14..16], s[17..19])
  {
    var t := Assemble(s[0..4], s[5..7], s[8..10], s[11..13], s[14..16], s[17..19]);
    AssembleFields(s[0..4], s[5..7], s[8..10], s[11..13], s[14..16], s[17..19]);
    assert forall k :: 0 <= k < 19 ==> t[k] == s[k] by {
      forall k | 0 <= k < 19 ensures t[k] == s[k] {
        if k < 4 { assert t[0..4][k] == s[0..4][k]; }
        else if 5 <= k < 7 { assert t[5..7][k - 5] == s[5..7][k - 5]; }
        else if 8 <= k < 10 { assert t[8..10][k - 8] == s[8..10][k - 8]; }
        else if 11 <= k < 13 { assert t[11..13][k - 11] == s[11..13][k - 11]; }
        else if 14 <= k < 16 { assert t[14..16][k - 14] == s[14..16][k - 14]; }
        else if 17 <= k < 19 { assert t[17..19][k - 17] == s[17..19][k - 17]; }
      }
    }
  }

  /** Parsing assembled fields reads each field's value back. */
  lemma ParseAssembled(y: string, mo: string, d: string, h: string, mi: string, sec: string,
                       hostParse: string -> Date)
    requires FieldShapes(y, mo, d, h, mi, sec) && ParseDigits(y) >= 100
    ensures WireMatch(Assemble(y, mo, d, h, mi, sec))
    ensures ParseWallClockDate(Text(Assemble(y, mo, d, h, mi, sec)), hostParse)
         == Some(Date(ParseDigits(y), ParseDigits(mo) - 1, ParseDigits(d), ParseDigits(h), ParseDigits(mi), ParseDigits(sec)))
  {
    var s := Assemble(y, mo, d, h, mi, sec);
    AssembleFields(y, mo, d, h, mi, sec);
    assert NumAt(s, 0, 4) == ParseDigits(y);
    assert NumAt(s, 5, 2) == ParseDigits(mo) && NumAt(s, 8, 2) == ParseDigits(d);
    assert NumAt(s, 11, 2) == ParseDigits(h) && NumAt(s, 14, 2) == ParseDigits(mi) && NumAt(s, 17, 2) == ParseDigits(sec);
  }

  /** The printer is the assembly of the printed fields. */
  lemma ToWireFields(d: Date)
    requires ValidDate(d)
    ensures FieldShapes(NatToString(d.year), Pad2(d.month0 + 1), Pad2(d.day), Pad2(d.hour), Pad2(d.minute), Pad2(d.second))
    ensures ToWire(d) == Assemble(NatToString(d.year), Pad2(d.month0 + 1), Pad2(d.day), Pad2(d.hour), Pad2(d.minute), Pad2(d.second))
    ensures ParseDigits(NatToString(d.year)) == d.year
    ensures ParseDigits(Pad2(d.month0 + 1)) == d.month0 + 1 && ParseDigits(Pad2(d.day)) == d.day
    ensures ParseDigits(Pad2(d.hour)) == d.hour && ParseDigits(Pad2(d.minute)) == d.minute
    ensures ParseDigits(Pad2(d.second)) == d.second
  {
    Year4(d.year);
    ParseNatToString(d.year);
    Pad2Value(d.month0 + 1);
    Pad2Value(d.day);
    Pad2Value(d.hour);
    Pad2Value(d.minute);
    Pad2Value(d.second);
  }

  /** Printing a valid date and parsing it back gives the same date. */
  lemma ParseToWire(d: Date, hostParse: string -> Date)
    requires ValidDate(d)
    ensures ValidWire(ToWire(d))
    ensures ParseWallClockDate(Text(ToWire(d)), hostParse) == Some(d)
  {
    var y, mo, dd, h, mi, sec := NatToString(d.year), Pad2(d.month0 + 1), Pad2(d.day), Pad2(d.hour), Pad2(d.minute), Pad2(d.second);
    ToWireFields(d);
    ParseAssembled(y, mo, dd, h, mi, sec, hostParse);
    AssembleFields(y, mo, dd, h, mi, sec);
  }

  /** Parsing a valid wire text and printing it back gives the same text. */
  lemma ToWireParse(s: string, hostParse: string -> Date)
    requires ValidWire(s)
    ensures var r := ParseWallClockDate(Text(s), hostParse);
      r.Some? && ValidDate(r.value) && ToWire(r.value) == s
  {
    WireFields(s);
    var d := ParseWallClockDate(Text(s), hostParse).value;
    Parse4(s[0..4]);
    NatToStringParse(s[0..4]);
    Pad2Parse(s[5..7]);
    Pad2Parse(s[8..10]);
    Pad2Parse(s[11..13]);
    Pad2Parse(s[14..16]);
    Pad2Parse(s[17..19]);
    ToWireFields(d);
  }

  /** Text after the seconds (fractional seconds, an offset) is ignored. */
  lemma TrailingIgnored(s: string, rest: string, hostParse: string -> Date)
    requires WireMatch(s)
    ensures WireMatch(s + rest)
    ensures ParseWallClockDate(Text(s + rest), hostParse) == ParseWallClockDate(Text(s), hostParse)
  {
    var t := s + rest;
    assert forall k :: 0 <= k < |s| ==> t[k] == s[k];
    assert t[0..4] == s[0..4] && t[5..7] == s[5..7] && t[8..10] == s[8..10];
    assert t[11..13] == s[11..13] && t[14..16] == s[14..16] && t[17..19] == s[17..19];
  }

  /** A wire text displays the same whatever the host time zone: only the
      lenient fallback consults `hostParse`, and it is never reached. */
  lemma FormatIsZoneIndependent(s: string, formatFn: (Date, string) -> string, formatStr: string,
                                zoneA: string -> Date, zoneB: string -> Date)
    requires WireMatch(s)
    ensures FormatWallClockDate(Text(s), formatFn, formatStr, zoneA)
         == FormatWallClockDate(Text(s), formatFn, formatStr, zoneB)
  {
  }

  /** On a wire text the `T` of the time search is the one at position 10. */
  lemma SearchTimeOnWire(s: string)
    requires WireMatch(s)
    ensures SearchTime(s) == Some(10)
  {
    assert TimeMatchAt(s, 10);
  }

  /** The fast path of `extractTime` agrees with a full parse. */
  lemma ExtractTimeAgreesWithParse(s: string, hostParse: string -> Date)
    requires ValidWire(s)
    ensures ExtractTime(Some(s), hostParse) == HourMinute(ParseWallClockDate(Text(s), hostParse).value)
  {
    SearchTimeOnWire(s);
    Pad2Parse(s[11..13]);
    Pad2Parse(s[14..16]);
  }

  /** The fast path of `extractDateOnly` agrees with a full parse at midnight. */
  lemma ExtractDateAgreesWithParse(s: string, hostParse: string -> Date)
    requires ValidWire(s)
    ensures ExtractDateOnly(Some(s), hostParse) ==
      Some(ParseWallClockDate(Text(s), hostParse).value.(hour := 0, minute := 0, second := 0))
  {
  }

  /** `HH:MM` splits into its two fields. */
  lemma TimePartsOfHourMinute(hh: string, mm: string)
    requires |hh| == 2 && AllDigits(hh) && |mm| == 2 && AllDigits(mm)
    ensures TimeParts(hh + ":" + mm) == (hh, mm)
  {
    assert ':' !in hh && ':' !in mm;
    SplitAt(hh, ':', mm);
  }

  /** The composer applied to a date with a four-digit year and an `HH:MM` text. */
  lemma CombineFields(d: Date, hh: string, mm: string)
    requires 1000 <= d.year <= 9999 && 0 <= d.month0 < 12 && 1 <= d.day <= 31
    requires |hh| == 2 && AllDigits(hh) && |mm| == 2 && AllDigits(mm)
    ensures CombineToLocalDateTime(d, hh + ":" + mm)
         == Assemble(NatToString(d.year), Pad2(d.month0 + 1), Pad2(d.day), hh, mm, "00")
  {
    TimePartsOfHourMinute(hh, mm);
  }

  /** The composer inverts the two extractors: a zero-seconds wire text
      with a four-digit year comes back unchanged. */
  lemma CombineExtractRoundTrip(s: string, hostParse: string -> Date)
    requires ValidWire(s) && s[17..19] == "00"
    ensures CombineToLocalDateTime(ExtractDateOnly(Some(s), hostParse).value, ExtractTime(Some(s), hostParse)) == s
  {
    WireFields(s);
    var d := ExtractDateOnly(Some(s), hostParse).value;
    assert d.year == NumAt(s, 0, 4) && d.month0 + 1 == NumAt(s, 5, 2) && d.day == NumAt(s, 8, 2);
    Parse4(s[0..4]);
    assert 1000 <= d.year <= 9999;
    assert 0 <= d.month0 < 12 && 1 <= d.day <= 31;
    assert NatToString(d.year) == s[0..4] by {
      NatToStringParse(s[0..4]);
    }
    assert Pad2(d.month0 + 1) == s[5..7] by { Pad2Parse(s[5..7]); }
    assert Pad2(d.day) == s[8..10] by { Pad2Parse(s[8..10]); }
    assert ExtractTime(Some(s), hostParse) == s[11..13] + ":" + s[14..16] by {
      SearchTimeOnWire(s);
    }
    CombineFields(d, s[11..13], s[14..16]);
  }

  /** The composer pads a one- or two-character hour and minute to two
      characters each and puts them, with zero seconds, at the end. */
  lemma CombinePadsTime(date: Date, h: string, m: string)
    requires 1 <= |h| <= 2 && 1 <= |m| <= 2 && ':' !in h && ':' !in m
    ensures var r := CombineToLocalDateTime(date, h + ":" + m);
      var hh, mm := PadStart(h, 2, '0'), PadStart(m, 2, '0');
      |hh| == 2 && hh[2 - |h|..] == h && |mm| == 2 && mm[2 - |m|..] == m
      && |r| >= 8 && r[|r| - 8..] == hh + ":" + mm + ":00"
  {
    SplitAt(h, ':', m);
    assert Split(m, ':') == [m];
    assert TimeParts(h + ":" + m) == (h, m);
  }

  /** A time without a colon gets minutes `00`: it composes exactly as the
      same hour followed by `:00` would. */
  lemma CombineDefaultsMinutes(date: Date, h: string)
    requires ':' !in h
    ensures CombineToLocalDateTime(date, h) == CombineToLocalDateTime(date, h + ":00")
  {
    SplitAt(h, ':', "00");
    assert Split("00", ':') == ["00"];
    assert h + [':'] + "00" == h + ":00";
    assert TimeParts(h + ":00") == (h, "00");
  }

  /** The composer's documented example: missing zeros are added. */
  lemma CombinePadsExample()
    ensures CombineToLocalDateTime(Date(2025, 0, 5, 0, 0, 0), "9:5") == Assemble("2025", "01", "05", "09", "05", "00")
  {
    SplitAt("9", ':', "5");
    assert TimeParts("9:5") == ("9", "5");
    assert NatToString(2025) == "2025" by {
      assert NatToString(202) == "202" by {
        assert NatToString(20) == "20";
      }
    }
    assert PadStart(NatToString(1), 2, '0') == "01";
    assert PadStart(NatToString(5), 2, '0') == "05";
    assert PadStart("9", 2, '0') == "09";
    assert PadStart("5", 2, '0') == "05";
  }

  /** `"00"` reads as zero. */
  lemma ParseZeroZero()
    ensures AllDigits("00") && ParseDigits("00") == 0
  {
    assert "00"[..1] == "0";
    assert "0"[..0] == "";
  }

  /** The parse of the composer's fields, before the composer is unfolded. */
  lemma ParseCombinedFields(d: Date, hh: string, mm: string, hostParse: string -> Date)
    requires ValidDate(d)
    requires |hh| == 2 && AllDigits(hh) && |mm| == 2 && AllDigits(mm)
    ensures WireMatch(Assemble(NatToString(d.year), Pad2(d.month0 + 1), Pad2(d.day), hh, mm, "00"))
    ensures ParseWallClockDate(Text(Assemble(NatToString(d.year), Pad2(d.month0 + 1), Pad2(d.day), hh, mm, "00")), hostParse)
         == Some(Date(d.year, d.month0, d.day, ParseDigits(hh), ParseDigits(mm), 0))
  {
    ToWireFields(d);
    ParseZeroZero();
    ParseAssembled(NatToString(d.year), Pad2(d.month0 + 1), Pad2(d.day), hh, mm, "00", hostParse);
  }

  /** Composing then parsing: the date fields come from the date, the
      hour and minute from the `HH:MM` text, the seconds are zero. */
  lemma ParseCombine(d: Date, hh: string, mm: string, hostParse: string -> Date)
    requires ValidDate(d)
    requires |hh| == 2 && AllDigits(hh) && |mm| == 2 && AllDigits(mm)
    ensures WireMatch(CombineToLocalDateTime(d, hh + ":" + mm))
    ensures ParseWallClockDate(Text(CombineToLocalDateTime(d, hh + ":" + mm)), hostParse)
         == Some(Date(d.year, d.month0, d.day, ParseDigits(hh), ParseDigits(mm), 0))
  {
    CombineFields(d, hh, mm);
    ParseCombinedFields(d, hh, mm, hostParse);
  }

}
