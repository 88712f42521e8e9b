/** The parsing the conversion and custom date/time views share: a time text
    split at ":" into numbers, a date text read through the host's `Date`, and
    the instant those parts denote in a source zone (seconds fixed at 0). */
module DateTimeInput {
  import opened Results
  import opened Adapter
  import opened Text

  /** A date as the host's `Date` getters read it: `getFullYear()`,
      `getMonth() + 1` and `getDate()`. */
  datatype CalendarDate = CalendarDate(year: int, month: int, day: int)

  /** `new Date(text)` read back by the host-local getters; `None` is an invalid date.
      The host's parser and timezone decide it, so it is a parameter of the model. */
  type DateParser = string -> Option<CalendarDate>

  /** `Number(piece)` for decimal text: the number the digits denote, the empty
      text being 0; `None` is NaN. */
  function ToNumber(piece: string): (r: Option<int>)
    ensures r.Some? <==> AllDigits(piece)
    ensures r.Some? ==> r.value == ValueOf(piece) && r.value >= 0
  {
    if AllDigits(piece) then Some(ValueOf(piece)) else None
  }

  /** The decimal text of a number reads as that number. */
  lemma ToNumberOfDecimal(n: nat)
    ensures ToNumber(Decimal(n)) == Some(n)
  {
    ValueOfDecimal(n);
  }

  /** The time text split at ":" with each piece read as a number: the hours
      and minutes are the first two pieces, when both exist and are numbers;
      later pieces are ignored. */
  function ParseTime(text: string): (r: Option<(int, int)>)
    ensures r.None? <==>
      || |Split(text, ':')| < 2
      || ToNumber(Split(text, ':')[0]).None?
      || ToNumber(Split(text, ':')[1]).None?
    ensures r.Some? ==>
      && |Split(text, ':')| >= 2
      && ToNumber(Split(text, ':')[0]) == Some(r.value.0)
      && ToNumber(Split(text, ':')[1]) == Some(r.value.1)
  {
    var pieces := Split(text, ':');
    if |pieces| < 2 then None
    else
      match (ToNumber(pieces[0]), ToNumber(pieces[1]))
      case (Some(hours), Some(minutes)) => Some((hours, minutes))
      case _ => None
  }

  /** Two digit fields joined by ":" split back into exactly those fields. */
  lemma SplitTwoDigitFields(h: string, m: string)
    requires AllDigits(h) && AllDigits(m)
    ensures Split(h + ":" + m, ':') == [h, m]
  {
    var text := h + ":" + m;
    var tail: Option<string> := Some(m);
    assert text == h + (if tail.Some? then [':'] + tail.value else "");
    SplitAtAfterDigits(h, ':', tail);
    assert Split(text, ':') == [h] + Split(m, ':');
  }

  /** An `HH:MM` text, as a time input produces it, reads back as its hour and minute. */
  lemma ParseTimeOfClockText(hour: nat, minute: nat)
    ensures ParseTime(PadStart2(Decimal(hour)) + ":" + PadStart2(Decimal(minute))) == Some((hour, minute))
  {
    var h, m := PadStart2(Decimal(hour)), PadStart2(Decimal(minute));
    PaddedValue(hour);
    PaddedValue(minute);
    SplitTwoDigitFields(h, m);
  }

  /** The parts both views build: date fields from the date text, hour and
      minute from the time text, second 0. */
  function PartsFromText(parseDate: DateParser, time: string, date: string): (r: Option<TimeParts>)
    ensures r.Some? <==> ParseTime(time).Some? && parseDate(date).Some?
    ensures r.Some? ==>
      && r.value.second == 0
      && (r.value.hour, r.value.minute) == ParseTime(time).value
      && CalendarDate(r.value.year, r.value.month, r.value.day) == parseDate(date).value
  {
    match ParseTime(time)
    case None => None
    case Some((hours, minutes)) =>
      match parseDate(date)
      case None => None
      case Some(d) => Some(TimeParts(d.year, d.month, d.day, hours, minutes, 0))
  }

  /** The instant the typed date and time denote in `zone`; `None` when the
      parse fails or the library throws (the views catch both). */
  function ResolveInput(lib: Library, parseDate: DateParser, time: string, date: string, zone: Zone): (r: Option<Instant>)
    ensures r.Some? <==> PartsFromText(parseDate, time, date).Some?
                         && lib.fromTimezoneParts(PartsFromText(parseDate, time, date).value, zone).Ok?
    ensures r.Some? ==> lib.fromTimezoneParts(PartsFromText(parseDate, time, date).value, zone) == Ok(r.value)
  {
    match PartsFromText(parseDate, time, date)
    case None => None
    case Some(parts) =>
      match lib.fromTimezoneParts(parts, zone)
      case Ok(t) => Some(t)
      case Err(_) => None
  }

  /** When the library reads back the parts it resolves, the resolved instant
      shows in the source zone exactly the typed hour and minute, at second 0. */
  lemma ResolvedInstantShowsInput(lib: Library, parseDate: DateParser, time: string, date: string, zone: Zone)
    requires ResolveInput(lib, parseDate, time, date, zone).Some?
    requires ReadsBack(lib, PartsFromText(parseDate, time, date).value, zone)
    ensures var shown := lib.toTimezoneParts(ResolveInput(lib, parseDate, time, date, zone).value, zone);
      && shown.Ok? && shown.value.second == 0
      && (shown.value.hour, shown.value.minute) == ParseTime(time).value
  {
    var parts := PartsFromText(parseDate, time, date).value;
    assert lib.fromTimezoneParts(parts, zone).Ok?;
  }

  /** The date part of an ISO timestamp: the text before its first "T". */
  function IsoDatePart(iso: string): (r: string)
    ensures 'T' !in r
    ensures r == iso || (|r| < |iso| && iso[..|r| + 1] == r + "T")
  {
    var (before, after) := SplitAt(iso, 'T');
    assert after.Some? ==> iso[..|before| + 1] == before + "T";
    Split(iso, 'T')[0]
  }
}
