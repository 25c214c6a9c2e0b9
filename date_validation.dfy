/**
 * `dateValidation.js`, the browser-side checks on `date` and `datetime-local`
 * inputs: formatting a `Date` as an input value, parsing an input value back
 * with a component round-trip check, the `min`/`max` bounds an input gets,
 * the verdict on one input and the submit handler over all of them.
 *
 * A JavaScript `Date` is modelled by its local calendar components in the
 * proleptic Gregorian calendar, without time zones or daylight saving, and
 * the clock (`new Date()`) is a parameter.
 */
module DateValidation {
  import opened Wrappers
  import opened Text

  // ---------------------------------------------------------------------
  // The calendar

  predicate IsLeapYear(y: int)
  {
    y % 4 == 0 && (y % 100 != 0 || y % 400 == 0)
  }

  /** The length of month `m`, counted from 0 as `getMonth` counts. */
  function DaysInMonth(y: int, m: int): (n: int)
    requires 0 <= m < 12
    ensures 28 <= n <= 31
  {
    if m == 1 then (if IsLeapYear(y) then 29 else 28)
    else if m == 3 || m == 5 || m == 8 || m == 10 then 30
    else 31
  }

  datatype CivilDay = CivilDay(year: int, month: int, day: int)

  predicate ValidDay(c: CivilDay)
  {
    0 <= c.month < 12 && 1 <= c.day <= DaysInMonth(c.year, c.month)
  }

  function NextDay(c: CivilDay): (r: CivilDay)
    requires ValidDay(c)
    ensures ValidDay(r)
  {
    if c.day < DaysInMonth(c.year, c.month) then c.(day := c.day + 1)
    else if c.month < 11 then CivilDay(c.year, c.month + 1, 1)
    else CivilDay(c.year + 1, 0, 1)
  }

  function PreviousDay(c: CivilDay): (r: CivilDay)
    requires ValidDay(c)
    ensures ValidDay(r)
  {
    if c.day > 1 then c.(day := c.day - 1)
    else if c.month > 0 then CivilDay(c.year, c.month - 1, DaysInMonth(c.year, c.month - 1))
    else CivilDay(c.year - 1, 11, 31)
  }

  /** The day `k` days after `c`, or `-k` days before it. */
  function AddDays(c: CivilDay, k: int): (r: CivilDay)
    requires ValidDay(c)
    ensures ValidDay(r)
    decreases if k < 0 then -k else k
  {
    if k == 0 then c
    else if k > 0 then AddDays(NextDay(c), k - 1)
    else AddDays(PreviousDay(c), k + 1)
  }

  /** ECMAScript's `MakeDay(year, month, date)`: a month outside 0..11
    * carries into the year, and a date outside the month into the
    * neighbouring months. */
  function MakeDay(year: int, month: int, date: int): CivilDay
  {
    AddDays(CivilDay(year + month / 12, month % 12, 1), date - 1)
  }

  /** The local components of a `Date`, as its getters report them. */
  datatype LocalDate = LocalDate(year: int, month: int, day: int, hours: int, minutes: int, seconds: int, millis: int)

  function DayOf(d: LocalDate): CivilDay
  {
    CivilDay(d.year, d.month, d.day)
  }

  predicate ValidDate(d: LocalDate)
  {
    && ValidDay(DayOf(d))
    && 0 <= d.hours < 24 && 0 <= d.minutes < 60 && 0 <= d.seconds < 60 && 0 <= d.millis < 1000
  }

  /** `new Date(y, m, d, h, mi, 0, 0)`: years 0 to 99 stand for 1900 to
    * 1999, and every component carries into the next larger one. */
  function NewDate(y: int, m: int, d: int, h: int, mi: int): (r: LocalDate)
    ensures ValidDate(r)
  {
    var year := if 0 <= y <= 99 then 1900 + y else y;
    var minutes := h * 60 + mi;
    var c := MakeDay(year, m, d + minutes / 1440);
    var rest := minutes % 1440;
    LocalDate(c.year, c.month, c.day, rest / 60, rest % 60, 0, 0)
  }

  /** `date.setFullYear(y)`: the month, the date and the time are kept, and
    * a 29 February that year lacks becomes 1 March. */
  function SetFullYear(d: LocalDate, y: int): (r: LocalDate)
    requires ValidDate(d)
    ensures ValidDate(r)
  {
    var c := MakeDay(y, d.month, d.day);
    d.(year := c.year, month := c.month, day := c.day)
  }

  /** `a < b` on two dates: the earlier time comes first. */
  predicate Earlier(a: LocalDate, b: LocalDate)
  {
    || a.year < b.year
    || (a.year == b.year && a.month < b.month)
    || (a.year == b.year && a.month == b.month && a.day < b.day)
    || (DayOf(a) == DayOf(b) && a.hours < b.hours)
    || (DayOf(a) == DayOf(b) && a.hours == b.hours && a.minutes < b.minutes)
    || (DayOf(a) == DayOf(b) && a.hours == b.hours && a.minutes == b.minutes && a.seconds < b.seconds)
    || (DayOf(a) == DayOf(b) && a.hours == b.hours && a.minutes == b.minutes && a.seconds == b.seconds
        && a.millis < b.millis)
  }

  /** The `type` of an element, as far as the handlers tell types apart. */
  datatype InputType = DateType | DateTimeLocalType | OtherType(name: string)

  /** The type named by a `type` keyword. */
  function TypeOf(name: string): (t: InputType)
    ensures t.DateType? <==> name == "date"
    ensures t.DateTimeLocalType? <==> name == "datetime-local"
    ensures t.OtherType? ==> t.name == name
  {
    if name == "date" then DateType
    else if name == "datetime-local" then DateTimeLocalType
    else OtherType(name)
  }

  /** `currentDateForType(type)` on the clock reading `d`, and the part of a
    * date an input of that type holds: the minute, or for `date` the day. */
  function TruncateFor(d: LocalDate, inputType: InputType): (r: LocalDate)
    ensures ValidDate(d) ==> ValidDate(r)
  {
    if inputType.DateType? then d.(hours := 0, minutes := 0, seconds := 0, millis := 0)
    else d.(seconds := 0, millis := 0)
  }

  // ---------------------------------------------------------------------
  // Formatting and parsing input values

  /** `String(n)` for an integer. */
  function IntToString(n: int): string
  {
    if n < 0 then "-" + NatToString(-n) else NatToString(n)
  }

  /** `s.padStart(width, fill)` with a one-character filler. */
  function PadStart(s: string, width: nat, fill: char): string
    decreases width - |s|
  {
    if |s| >= width then s else PadStart([fill] + s, width, fill)
  }

  /** `pad(value)`. */
  function Pad(value: nat): string
  {
    PadStart(NatToString(value), 2, '0')
  }

  /** `formatForInput(date, type)`. */
  function FormatForInput(d: LocalDate, inputType: InputType): string
    requires ValidDate(d)
  {
    if inputType.DateType? then DayText(d)
    else DayText(d) + "T" + Pad(d.hours) + ":" + Pad(d.minutes)
  }

  /** `year + "-" + month + "-" + day`, the part both formats share. */
  function DayText(d: LocalDate): string
    requires ValidDate(d)
  {
    IntToString(d.year) + "-" + Pad(d.month + 1) + "-" + Pad(d.day)
  }

  predicate DigitsAt(s: string, i: nat, n: nat)
  {
    i + n <= |s| && AllDigits(s[i..i + n])
  }

  /** `Number(match[k])` for a group of `n` digits at `i`. */
  function NumberAt(s: string, i: nat, n: nat): nat
    requires DigitsAt(s, i, n)
  {
    DecimalValue(s[i..i + n])
  }

  /** The whole of `s` matches `^(\d{4})-(\d{2})-(\d{2})$`. */
  predicate MatchesDatePattern(s: string)
  {
    |s| == 10 && DigitsAt(s, 0, 4) && s[4] == '-' && DigitsAt(s, 5, 2) && s[7] == '-' && DigitsAt(s, 8, 2)
  }

  /** The whole of `s` matches `^(\d{4})-(\d{2})-(\d{2})T(\d{2}):(\d{2})$`. */
  predicate MatchesDateTimePattern(s: string)
  {
    && |s| == 16 && DigitsAt(s, 0, 4) && s[4] == '-' && DigitsAt(s, 5, 2) && s[7] == '-' && DigitsAt(s, 8, 2)
    && s[10] == 'T' && DigitsAt(s, 11, 2) && s[13] == ':' && DigitsAt(s, 14, 2)
  }

  /** `parseInputValue(value, type)`: `None` stands for `null`. */
  function ParseInputValue(value: string, inputType: InputType): (r: Option<LocalDate>)
    ensures r.Some? ==> ValidDate(r.value)
  {
    if value == "" then None
    else if inputType.DateType? then
      if !MatchesDatePattern(value) then None
      else
        var y, m, d := NumberAt(value, 0, 4), NumberAt(value, 5, 2), NumberAt(value, 8, 2);
        var parsed := NewDate(y, m - 1, d, 0, 0);
        if parsed.year != y || parsed.month != m - 1 || parsed.day != d then None
        else Some(parsed)
    else
      if !MatchesDateTimePattern(value) then None
      else
        var y, m, d := NumberAt(value, 0, 4), NumberAt(value, 5, 2), NumberAt(value, 8, 2);
        var h, mi := NumberAt(value, 11, 2), NumberAt(value, 14, 2);
        var parsed := NewDate(y, m - 1, d, h, mi);
        if parsed.year != y || parsed.month != m - 1 || parsed.day != d || parsed.hours != h || parsed.minutes != mi
        then None
        else Some(parsed)
  }

  /** Components an input value may name: a real day of a year from 100 on
    * (two-digit years are reinterpreted by the `Date` constructor), and a
    * time of day. */
  predicate InCalendar(y: int, m: int, d: int, h: int, mi: int)
  {
    y >= 100 && 1 <= m <= 12 && ValidDay(CivilDay(y, m - 1, d)) && 0 <= h < 24 && 0 <= mi < 60
  }

  // ---------------------------------------------------------------------
  // JavaScript's `parseInt(s, 10)`

  function TrimJsStart(s: string): (r: string)
    ensures |r| <= |s|
  {
    if |s| > 0 && IsJsSpace(s[0]) then TrimJsStart(s[1..]) else s
  }

  /** The longest run of ASCII digits that starts `s`. */
  function DigitPrefix(s: string): (r: string)
    ensures |r| <= |s| && r == s[..|r|] && AllDigits(r)
    ensures |r| < |s| ==> !IsAsciiDigit(s[|r|])
  {
    if |s| > 0 && IsAsciiDigit(s[0]) then [s[0]] + DigitPrefix(s[1..]) else []
  }

  /** `parseInt(s, 10)`; `None` stands for `NaN`. Leading white space and a
    * sign are skipped, and the number ends at the first non-digit. */
  function ParseInt(s: string): Option<int>
  {
    var t := TrimJsStart(s);
    var negative := |t| > 0 && t[0] == '-';
    var rest := if |t| > 0 && (t[0] == '-' || t[0] == '+') then t[1..] else t;
    var digits := DigitPrefix(rest);
    var magnitude: int := DecimalValue(digits);
    if digits == [] then None
    else Some(if negative then -magnitude else magnitude)
  }

  // ---------------------------------------------------------------------
  // The inputs

  predicate IsDateType(inputType: InputType)
  {
    inputType.DateType? || inputType.DateTimeLocalType?
  }

  const InvalidMessage := "Enter a valid date and time."
  const NotPastDefault := "Please choose a date/time in the future."
  const AfterDefault := "This date/time must be after the linked field."

  /** `attribute || fallback`. */
  function OrDefault(s: Option<string>, fallback: string): string
  {
    if s.Some? && s.value != "" then s.value else fallback
  }

  /** An `<input>` element. What the handlers read is fixed while they run:
    * its type, its value, its `data-date-*` attributes (`None` when absent;
    * of `data-date-not-past` only whether it reads `"true"`) and the element
    * `resolveLinkedField` finds for `data-date-after`. What they write are
    * the `min` and `max` attributes (`""` when absent) and the custom
    * validity message. */
  class DateInput {
    const inputType: InputType
    const value: string
    const notPast: bool
    const maxYears: Option<string>
    const notPastMessage: Option<string>
    const afterMessage: Option<string>
    const linked: Option<DateInput>
    var min: string
    var max: string
    var message: string

    constructor (typeName: string, value: string, notPast: Option<string>, maxYears: Option<string>,
                 notPastMessage: Option<string>, afterMessage: Option<string>, linked: Option<DateInput>)
      ensures inputType == TypeOf(typeName) && this.value == value && this.notPast == (notPast == Some("true"))
      ensures this.maxYears == maxYears && this.notPastMessage == notPastMessage
      ensures this.afterMessage == afterMessage && this.linked == linked
      ensures min == "" && max == "" && message == ""
    {
      inputType := TypeOf(typeName);
      this.value := value;
      this.notPast := notPast == Some("true");
      this.maxYears := maxYears;
      this.notPastMessage := notPastMessage;
      this.afterMessage := afterMessage;
      this.linked := linked;
      min := "";
      max := "";
      message := "";
    }

    /** `applyBounds(field)` with the clock reading `now`. */
    method ApplyBounds(now: LocalDate)
      requires ValidDate(now)
      modifies this
      ensures min == MinAfter(this, now, old(min)) && max == MaxAfter(this, now, old(max))
      ensures message == old(message)
    {
      if !IsDateType(inputType) {
        return;
      }
      SetMinFromClock(now);
      SetMaxFromClock(now);
      RaiseMin(LinkedValue(linked));
    }

    /** `min` is removed, then set to the current day or minute when
      * `data-date-not-past` is `"true"`. */
    method SetMinFromClock(now: LocalDate)
      requires ValidDate(now)
      modifies this
      ensures min == NowBound(inputType, notPast, now)
      ensures max == old(max) && message == old(message)
    {
      min := "";
      if notPast {
        min := FormatForInput(TruncateFor(now, inputType), inputType);
      }
    }

    /** `max` is removed, then set `data-date-max-years` years ahead of the
      * current day or minute when that attribute reads as a positive
      * number. */
    method SetMaxFromClock(now: LocalDate)
      requires ValidDate(now)
      modifies this
      ensures max == MaxBound(inputType, maxYears, now)
      ensures min == old(min) && message == old(message)
    {
      max := "";
      var years := ParseInt(if maxYears.Some? then maxYears.value else "");
      if years.Some? && years.value > 0 {
        var current := TruncateFor(now, inputType);
        var maxDate := SetFullYear(current, current.year + years.value);
        max := FormatForInput(maxDate, inputType);
      }
    }

    /** The last part of `applyBounds`: the linked field's value replaces
      * `min` when it is set and `min` is not, or it is later. */
    method RaiseMin(afterValue: string)
      modifies this
      ensures min == Later(old(min), afterValue)
      ensures max == old(max) && message == old(message)
    {
      if afterValue != "" && (min == "" || OrdinalLt(min, afterValue)) {
        min := afterValue;
      }
    }

    /** `validateField(field)` with the clock reading `now`. */
    method Validate(now: LocalDate) returns (valid: bool)
      requires ValidDate(now)
      modifies this
      ensures valid == CheckOf(this, now).valid
      ensures message == MessageAfter(this, now, old(message))
      ensures min == old(min) && max == old(max)
    {
      if !IsDateType(inputType) {
        return true;
      }
      if value == "" {
        message := "";
        return true;
      }
      var parsed := ParseInputValue(value, inputType);
      if parsed.None? {
        message := InvalidMessage;
        return false;
      }
      if notPast {
        var current := TruncateFor(now, inputType);
        if Earlier(parsed.value, current) {
          message := OrDefault(notPastMessage, NotPastDefault);
          return false;
        }
      }
      if linked.Some? && linked.value.value != "" {
        var linkedType := if linked.value.inputType != OtherType("") then linked.value.inputType else inputType;
        var parsedAfter := ParseInputValue(linked.value.value, linkedType);
        if parsedAfter.Some? && !Earlier(parsedAfter.value, parsed.value) {
          message := OrDefault(afterMessage, AfterDefault);
          return false;
        }
      }
      message := "";
      return true;
    }
  }

  /** `afterField && afterField.value`, as a string. */
  function LinkedValue(linked: Option<DateInput>): string
  {
    if linked.Some? then linked.value.value else ""
  }

  /** `afterField.type || field.type`. */
  function LinkedType(linked: Option<DateInput>, inputType: InputType): InputType
  {
    if linked.Some? && linked.value.inputType != OtherType("") then linked.value.inputType else inputType
  }

  /** The `min` that `data-date-not-past="true"` asks for: the current day
    * or minute; otherwise none. */
  function NowBound(inputType: InputType, notPast: bool, now: LocalDate): string
    requires ValidDate(now)
  {
    if notPast then FormatForInput(TruncateFor(now, inputType), inputType) else ""
  }

  /** `if (value && (!min || value > min)) min = value`. */
  function Later(min: string, value: string): string
  {
    if value != "" && (min == "" || OrdinalLt(min, value)) then value else min
  }

  /** The `min` attribute `applyBounds` leaves on a date input. */
  function MinBound(inputType: InputType, notPast: bool, linkedValue: string, now: LocalDate): string
    requires ValidDate(now)
  {
    Later(NowBound(inputType, notPast, now), linkedValue)
  }

  /** The `max` attribute `applyBounds` leaves on a date input: the current
    * day or minute `data-date-max-years` years ahead, when that is a
    * positive number. */
  function MaxBound(inputType: InputType, maxYears: Option<string>, now: LocalDate): string
    requires ValidDate(now)
  {
    var years := ParseInt(if maxYears.Some? then maxYears.value else "");
    if years.Some? && years.value > 0 then
      var current := TruncateFor(now, inputType);
      FormatForInput(SetFullYear(current, current.year + years.value), inputType)
    else ""
  }

  /** The outcome of `validateField`: whether the input is valid, and the
    * message it sets (`None` when it sets none). */
  datatype Verdict = Verdict(valid: bool, message: Option<string>)

  function Check(inputType: InputType, value: string, notPast: bool, notPastMessage: Option<string>,
                 linkedValue: string, linkedType: InputType, afterMessage: Option<string>, now: LocalDate): Verdict
  {
    if !IsDateType(inputType) then Verdict(true, None)
    else if value == "" then Verdict(true, Some(""))
    else
      var parsed := ParseInputValue(value, inputType);
      if parsed.None? then Verdict(false, Some(InvalidMessage))
      else if notPast && Earlier(parsed.value, TruncateFor(now, inputType)) then
        Verdict(false, Some(OrDefault(notPastMessage, NotPastDefault)))
      else
        var parsedAfter := if linkedValue != "" then ParseInputValue(linkedValue, linkedType) else None;
        if parsedAfter.Some? && !Earlier(parsedAfter.value, parsed.value) then
          Verdict(false, Some(OrDefault(afterMessage, AfterDefault)))
        else Verdict(true, Some(""))
  }

  function CheckOf(field: DateInput, now: LocalDate): Verdict
  {
    Check(field.inputType, field.value, field.notPast, field.notPastMessage,
          LinkedValue(field.linked), LinkedType(field.linked, field.inputType), field.afterMessage, now)
  }

  /** The submit handler's loop over the form's date inputs (distinct
    * elements): each gets its bounds and its verdict, and the form may be
    * submitted exactly when every input is valid. */
  method Submit(inputs: seq<DateInput>, now: LocalDate) returns (isValid: bool)
    requires ValidDate(now)
    requires forall i, j :: 0 <= i < j < |inputs| ==> inputs[i] != inputs[j]
    modifies set i | 0 <= i < |inputs| :: inputs[i]
    ensures isValid <==> forall i :: 0 <= i < |inputs| ==> CheckOf(inputs[i], now).valid
    ensures forall i :: 0 <= i < |inputs| ==>
      Processed(inputs[i], now, old(inputs[i].min), old(inputs[i].max), old(inputs[i].message))
  {
    isValid := true;
    for i := 0 to |inputs|
      invariant isValid == AllValid(inputs, now, i)
      invariant forall j :: 0 <= j < i ==>
        Processed(inputs[j], now, old(inputs[j].min), old(inputs[j].max), old(inputs[j].message))
      invariant forall j :: i <= j < |inputs| ==>
        inputs[j].min == old(inputs[j].min) && inputs[j].max == old(inputs[j].max)
        && inputs[j].message == old(inputs[j].message)
    {
      var valid := Process(inputs[i], now);
      forall j | 0 <= j < i
        ensures Processed(inputs[j], now, old(inputs[j].min), old(inputs[j].max), old(inputs[j].message))
      {
        assert inputs[j] != inputs[i];
      }
      if !valid {
        isValid := false;
      }
    }
    AllValidMeaning(inputs, now, |inputs|);
  }

  /** Whether the first `n` inputs are all valid. */
  ghost predicate AllValid(inputs: seq<DateInput>, now: LocalDate, n: nat)
    requires n <= |inputs|
  {
    n == 0 || (AllValid(inputs, now, n - 1) && CheckOf(inputs[n - 1], now).valid)
  }

  lemma {:induction false} AllValidMeaning(inputs: seq<DateInput>, now: LocalDate, n: nat)
    requires n <= |inputs|
    ensures AllValid(inputs, now, n) <==> forall j :: 0 <= j < n ==> CheckOf(inputs[j], now).valid
  {
    if n > 0 {
      AllValidMeaning(inputs, now, n - 1);
    }
  }

  /** One pass of the loop: `applyBounds` then `validateField` on `field`. */
  method Process(field: DateInput, now: LocalDate) returns (valid: bool)
    requires ValidDate(now)
    modifies field
    ensures valid == CheckOf(field, now).valid
    ensures Processed(field, now, old(field.min), old(field.max), old(field.message))
  {
    field.ApplyBounds(now);
    valid := field.Validate(now);
  }

  /** `field` holds the bounds and the message `applyBounds` and
    * `validateField` give it, from `min0`, `max0` and `message0` before. */
  ghost predicate Processed(field: DateInput, now: LocalDate, min0: string, max0: string, message0: string)
    requires ValidDate(now)
    reads field
  {
    && field.min == MinAfter(field, now, min0)
    && field.max == MaxAfter(field, now, max0)
    && field.message == MessageAfter(field, now, message0)
  }

  /** The `min` of `field` after `applyBounds`, given the one before. */
  function MinAfter(field: DateInput, now: LocalDate, min0: string): string
    requires ValidDate(now)
  {
    if IsDateType(field.inputType) then MinBound(field.inputType, field.notPast, LinkedValue(field.linked), now)
    else min0
  }

  /** The `max` of `field` after `applyBounds`, given the one before. */
  function MaxAfter(field: DateInput, now: LocalDate, max0: string): string
    requires ValidDate(now)
  {
    if IsDateType(field.inputType) then MaxBound(field.inputType, field.maxYears, now) else max0
  }

  /** The message of `field` after `validateField`, given the one before. */
  function MessageAfter(field: DateInput, now: LocalDate, message0: string): string
  {
    var v := CheckOf(field, now);
    if v.message.Some? then v.message.value else message0
  }

  // ---------------------------------------------------------------------
  // Lemmas: the calendar

  /** Counting days forward inside a month moves the date, and one day past
    * the month's end is the first of the next month. */
  lemma {:induction false} AddDaysInMonth(c: CivilDay, k: int)
    requires ValidDay(c) && k >= 0
    ensures c.day + k <= DaysInMonth(c.year, c.month) ==> AddDays(c, k) == c.(day := c.day + k)
    ensures c.day + k == DaysInMonth(c.year, c.month) + 1 && c.month < 11 ==>
      AddDays(c, k) == CivilDay(c.year, c.month + 1, 1)
    decreases k
  {
    if k > 0 {
      if c.day < DaysInMonth(c.year, c.month) {
        AddDaysInMonth(NextDay(c), k - 1);
      }
    }
  }

  /** Counting days forward never goes back a year. */
  lemma {:induction false} AddDaysForwardYear(c: CivilDay, k: int)
    requires ValidDay(c) && k >= 0
    ensures AddDays(c, k).year >= c.year
    decreases k
  {
    if k > 0 {
      AddDaysForwardYear(NextDay(c), k - 1);
    }
  }

  /** The constructor keeps components that already name a moment. */
  lemma NewDateKeeps(y: int, m: int, d: int, h: int, mi: int)
    requires !(0 <= y <= 99) && ValidDay(CivilDay(y, m, d)) && 0 <= h < 24 && 0 <= mi < 60
    ensures NewDate(y, m, d, h, mi) == LocalDate(y, m, d, h, mi, 0, 0)
  {
    var minutes := h * 60 + mi;
    assert minutes / 1440 == 0 && minutes % 1440 == minutes;
    assert minutes / 60 == h && minutes % 60 == mi;
    assert m / 12 == 0 && m % 12 == m;
    AddDaysInMonth(CivilDay(y, m, 1), d - 1);
  }

  /** A year from 0 to 99 given to the constructor lands in the 1900s (or
    * at the end of 1899), so it is never read back. */
  lemma TwoDigitYearMoves(y: int, m: int, d: int, h: int, mi: int)
    requires 0 <= y <= 99 && m >= -1 && d >= 0 && h >= 0 && mi >= 0
    ensures NewDate(y, m, d, h, mi).year >= 1898
    ensures NewDate(y, m, d, h, mi).year != y
  {
    var minutes := h * 60 + mi;
    var date := d + minutes / 1440;
    var start := CivilDay(1900 + y + m / 12, m % 12, 1);
    assert start.year >= 1899;
    if date >= 1 {
      AddDaysForwardYear(start, date - 1);
    } else {
      assert AddDays(start, date - 1) == PreviousDay(start);
    }
  }

  /** `setFullYear` keeps the month and the date, except that 29 February
    * becomes 1 March in a year without it. */
  lemma SetFullYearShape(d: LocalDate, y: int)
    requires ValidDate(d)
    ensures ValidDay(CivilDay(y, d.month, d.day)) ==> SetFullYear(d, y) == d.(year := y)
    ensures !ValidDay(CivilDay(y, d.month, d.day)) ==>
      d.month == 1 && d.day == 29 && SetFullYear(d, y) == d.(year := y, month := 2, day := 1)
  {
    assert d.month / 12 == 0 && d.month % 12 == d.month;
    AddDaysInMonth(CivilDay(y, d.month, 1), d.day - 1);
  }

  /** `<` on dates is a strict total order. */
  lemma EarlierIsStrictOrder(a: LocalDate, b: LocalDate, c: LocalDate)
    ensures !Earlier(a, a)
    ensures Earlier(a, b) ==> !Earlier(b, a)
    ensures Earlier(a, b) && Earlier(b, c) ==> Earlier(a, c)
    ensures a != b ==> Earlier(a, b) || Earlier(b, a)
  {
  }

  // ---------------------------------------------------------------------
  // Lemmas: numerals

  lemma {:induction false} NumeralWidth(n: nat)
    ensures n < 10 ==> |NatToString(n)| == 1
    ensures 10 <= n < 100 ==> |NatToString(n)| == 2
    ensures 100 <= n < 1000 ==> |NatToString(n)| == 3
    ensures 1000 <= n < 10000 ==> |NatToString(n)| == 4
  {
    if n >= 10 {
      NumeralWidth(n / 10);
    }
  }

  /** `pad` writes 0 to 99 as exactly two digits that read back as the
    * number. */
  lemma PadTwoDigits(n: nat)
    requires n < 100
    ensures Pad(n) == [DigitChar(n / 10), DigitChar(n % 10)]
    ensures |Pad(n)| == 2 && AllDigits(Pad(n)) && DecimalValue(Pad(n)) == n
  {
    var p := Pad(n);
    if n < 10 {
      assert NatToString(n) == [DigitChar(n)];
      assert ['0'] + [DigitChar(n)] == ['0', DigitChar(n)];
      assert p == PadStart(['0', DigitChar(n)], 2, '0');
      assert p[..1] == ['0'] && ['0'][..0] == [];
    } else {
      assert NatToString(n / 10) == [DigitChar(n / 10)];
      assert p == NatToString(n);
      NatToStringDigits(n);
    }
  }

  /** `pad` never cuts a number short: from 10 on it is the plain numeral. */
  lemma PadKeepsWideNumbers(n: nat)
    requires n >= 10
    ensures Pad(n) == NatToString(n)
  {
    NumeralWidth(n);
    if n >= 100 {
      LongNumeral(n);
    }
  }

  lemma {:induction false} LongNumeral(n: nat)
    requires n >= 10
    ensures |NatToString(n)| >= 2
  {
    assert NatToString(n) == NatToString(n / 10) + [DigitChar(n % 10)];
    NatToStringDigits(n / 10);
  }

  // ---------------------------------------------------------------------
  // Lemmas: formatting and parsing

  /** The day part is `YYYY-MM-DD` for a four-digit year, each group
    * holding the date's own component. */
  lemma DayTextShape(d: LocalDate)
    requires ValidDate(d) && 1000 <= d.year <= 9999
    ensures var s := DayText(d);
      && MatchesDatePattern(s)
      && NumberAt(s, 0, 4) == d.year && NumberAt(s, 5, 2) == d.month + 1 && NumberAt(s, 8, 2) == d.day
  {
    var y := NatToString(d.year);
    NumeralWidth(d.year);
    NatToStringDigits(d.year);
    PadTwoDigits(d.month + 1);
    PadTwoDigits(d.day);
    var s := DayText(d);
    assert s[0..4] == y;
    assert s[5..7] == Pad(d.month + 1);
    assert s[8..10] == Pad(d.day);
  }

  /** For a four-digit year `formatForInput` writes `YYYY-MM-DD` for a
    * `date` input and `YYYY-MM-DDTHH:mm` for any other, each group holding
    * the date's own component. */
  lemma FormatShape(d: LocalDate, t: InputType)
    requires ValidDate(d) && 1000 <= d.year <= 9999
    ensures var s := FormatForInput(d, t);
      && (t.DateType? ==> MatchesDatePattern(s))
      && (!t.DateType? ==> MatchesDateTimePattern(s))
      && DigitsAt(s, 0, 4) && DigitsAt(s, 5, 2) && DigitsAt(s, 8, 2)
      && NumberAt(s, 0, 4) == d.year && NumberAt(s, 5, 2) == d.month + 1 && NumberAt(s, 8, 2) == d.day
      && (!t.DateType? ==> (&& DigitsAt(s, 11, 2) && DigitsAt(s, 14, 2)
                            && NumberAt(s, 11, 2) == d.hours && NumberAt(s, 14, 2) == d.minutes))
  {
    DayTextShape(d);
    if !t.DateType? {
      var date := DayText(d);
      PadTwoDigits(d.hours);
      PadTwoDigits(d.minutes);
      var s := FormatForInput(d, t);
      assert s[0..10] == date;
      assert s[0..4] == date[0..4] && s[5..7] == date[5..7] && s[8..10] == date[8..10];
      assert s[11..13] == Pad(d.hours);
      assert s[14..16] == Pad(d.minutes);
    }
  }

  /** A `date` value parses exactly when it has the pattern and names a
    * real day of a year from 100 on, and then names midnight of that day:
    * an empty value, month 13 or 31 April give `null`. */
  lemma ParseDateMeaning(value: string)
    ensures ParseInputValue(value, DateType) ==
      if MatchesDatePattern(value) && InCalendar(NumberAt(value, 0, 4), NumberAt(value, 5, 2), NumberAt(value, 8, 2), 0, 0)
      then Some(LocalDate(NumberAt(value, 0, 4), NumberAt(value, 5, 2) - 1, NumberAt(value, 8, 2), 0, 0, 0, 0))
      else None
  {
    if MatchesDatePattern(value) {
      var y: int, m: int, d: int := NumberAt(value, 0, 4), NumberAt(value, 5, 2), NumberAt(value, 8, 2);
      if InCalendar(y, m, d, 0, 0) {
        NewDateKeeps(y, m - 1, d, 0, 0);
      } else if y <= 99 {
        TwoDigitYearMoves(y, m - 1, d, 0, 0);
      }
    }
  }

  /** A value of any other input type parses exactly when it has the
    * date-and-time pattern and names a real day of a year from 100 on and
    * a time of day: hour 24 gives `null`. */
  lemma ParseDateTimeMeaning(value: string, t: InputType)
    requires !t.DateType?
    ensures ParseInputValue(value, t) ==
      if MatchesDateTimePattern(value)
        && InCalendar(NumberAt(value, 0, 4), NumberAt(value, 5, 2), NumberAt(value, 8, 2),
                      NumberAt(value, 11, 2), NumberAt(value, 14, 2))
      then Some(LocalDate(NumberAt(value, 0, 4), NumberAt(value, 5, 2) - 1, NumberAt(value, 8, 2),
                          NumberAt(value, 11, 2), NumberAt(value, 14, 2), 0, 0))
      else None
  {
    if MatchesDateTimePattern(value) {
      var y: int, m: int, d: int := NumberAt(value, 0, 4), NumberAt(value, 5, 2), NumberAt(value, 8, 2);
      var h: int, mi: int := NumberAt(value, 11, 2), NumberAt(value, 14, 2);
      if InCalendar(y, m, d, h, mi) {
        NewDateKeeps(y, m - 1, d, h, mi);
      } else if y <= 99 {
        TwoDigitYearMoves(y, m - 1, d, h, mi);
      }
    }
  }

  /** Formatting then parsing gives the date back, cut to the day or the
    * minute its input type holds, for a four-digit year. */
  lemma RoundTrip(d: LocalDate, t: InputType)
    requires ValidDate(d) && 1000 <= d.year <= 9999
    ensures ParseInputValue(FormatForInput(d, t), t) == Some(TruncateFor(d, t))
  {
    FormatShape(d, t);
    if t.DateType? {
      ParseDateMeaning(FormatForInput(d, t));
    } else {
      ParseDateTimeMeaning(FormatForInput(d, t), t);
    }
  }

  /** A year below 1000 is written with fewer than four digits, so its value
    * is not read back. */
  lemma ShortYearNotReadBack(d: LocalDate, t: InputType)
    requires ValidDate(d) && 0 <= d.year < 1000
    ensures ParseInputValue(FormatForInput(d, t), t) == None
  {
    NumeralWidth(d.year);
    PadTwoDigits(d.month + 1);
    PadTwoDigits(d.day);
    PadTwoDigits(d.hours);
    PadTwoDigits(d.minutes);
  }

  // ---------------------------------------------------------------------
  // Lemmas: parseInt

  lemma {:induction false} DigitPrefixOf(digits: string, rest: string)
    requires AllDigits(digits) && (rest == [] || !IsAsciiDigit(rest[0]))
    ensures DigitPrefix(digits + rest) == digits
  {
    if digits != [] {
      assert (digits + rest)[1..] == digits[1..] + rest;
      DigitPrefixOf(digits[1..], rest);
    }
  }

  /** `parseInt` reads a leading numeral, with or without a minus sign, and
    * stops at the first character that is not a digit. */
  lemma ParseIntReadsNumeral(n: nat, rest: string)
    requires rest == [] || !IsAsciiDigit(rest[0])
    ensures ParseInt(NatToString(n) + rest) == Some(n)
    ensures ParseInt("-" + NatToString(n) + rest) == Some(-(n as int))
  {
    var s := NatToString(n);
    NatToStringDigits(n);
    DigitPrefixOf(s, rest);
    var plain := s + rest;
    assert plain[0] == s[0] && IsAsciiDigit(plain[0]);
    assert TrimJsStart(plain) == plain;
    var signed := "-" + s + rest;
    assert signed[1..] == plain;
    assert TrimJsStart(signed) == signed;
  }

  /** `parseInt` skips leading white space, and reads nothing in an empty
    * string. */
  lemma ParseIntSkipsSpace(c: char, s: string)
    requires IsJsSpace(c)
    ensures ParseInt([c] + s) == ParseInt(s)
    ensures ParseInt("") == None
  {
    assert ([c] + s)[1..] == s;
  }

  // ---------------------------------------------------------------------
  // Lemmas: bounds and verdicts

  lemma FormatNonEmpty(d: LocalDate, t: InputType)
    requires ValidDate(d)
    ensures FormatForInput(d, t) != ""
  {
    NatToStringDigits(if d.year < 0 then -d.year else d.year);
  }

  /** `min` ends up the later, by string comparison, of the current day or
    * minute (when `data-date-not-past` is set) and the linked field's value
    * (when it has one), and is absent when neither applies. */
  lemma MinIsLater(t: InputType, notPast: bool, linkedValue: string, now: LocalDate)
    requires ValidDate(now)
    ensures var fromNow := NowBound(t, notPast, now);
      var r := MinBound(t, notPast, linkedValue, now);
      && (r == "" <==> !notPast && linkedValue == "")
      && (r == fromNow || r == linkedValue)
      && (notPast ==> fromNow == FormatForInput(TruncateFor(now, t), t) && OrdinalLe(fromNow, r))
      && (linkedValue != "" ==> OrdinalLe(linkedValue, r))
  {
    var fromNow := NowBound(t, notPast, now);
    FormatNonEmpty(TruncateFor(now, t), t);
    OrdinalLeTotal(fromNow, linkedValue);
    OrdinalLeTotal(fromNow, fromNow);
    OrdinalLeTotal(linkedValue, linkedValue);
  }

  /** `max` is set exactly when `data-date-max-years` reads as a positive
    * number `n`, and then holds the current day or minute `n` years ahead:
    * same month and date, but 1 March for a 29 February the year lacks. */
  lemma MaxBoundMeaning(t: InputType, maxYears: Option<string>, now: LocalDate)
    requires ValidDate(now)
    ensures var years := ParseInt(if maxYears.Some? then maxYears.value else "");
      && (MaxBound(t, maxYears, now) != "" <==> years.Some? && years.value > 0)
      && (years.Some? && years.value > 0 ==>
            var current := TruncateFor(now, t);
            var ahead := SetFullYear(current, now.year + years.value);
            && MaxBound(t, maxYears, now) == FormatForInput(ahead, t)
            && ahead.year == now.year + years.value
            && ahead.hours == current.hours && ahead.minutes == current.minutes
            && (DayOf(ahead) == CivilDay(ahead.year, now.month, now.day)
                || (now.month == 1 && now.day == 29 && DayOf(ahead) == CivilDay(ahead.year, 2, 1))))
  {
    var years := ParseInt(if maxYears.Some? then maxYears.value else "");
    if years.Some? && years.value > 0 {
      var current := TruncateFor(now, t);
      SetFullYearShape(current, now.year + years.value);
      FormatNonEmpty(SetFullYear(current, now.year + years.value), t);
    }
  }

  /** `validateField`: an input of another type is valid and keeps its
    * message; an empty value is valid; otherwise the value must parse, must
    * not be before the current day or minute when `data-date-not-past` is
    * set, and must be strictly later than the linked field's value when
    * that parses. The message is cleared exactly when the input is valid. */
  lemma CheckMeaning(t: InputType, value: string, notPast: bool, notPastMessage: Option<string>,
                     linkedValue: string, linkedType: InputType, afterMessage: Option<string>, now: LocalDate)
    ensures var v := Check(t, value, notPast, notPastMessage, linkedValue, linkedType, afterMessage, now);
      var parsed := ParseInputValue(value, t);
      var parsedAfter := if linkedValue != "" then ParseInputValue(linkedValue, linkedType) else None;
      && (!IsDateType(t) ==> v == Verdict(true, None))
      && (IsDateType(t) ==>
            && (v.valid <==>
                  || value == ""
                  || (&& parsed.Some?
                      && (notPast ==> !Earlier(parsed.value, TruncateFor(now, t)))
                      && (parsedAfter.Some? ==> Earlier(parsedAfter.value, parsed.value))))
            && v.message.Some?
            && (v.message.value == "" <==> v.valid)
            && (value != "" && parsed.None? ==> v.message.value == InvalidMessage))
  {
  }
}
