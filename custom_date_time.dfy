/** The custom date/time panel: two text fields the user edits, the instant
    they denote in the selected zone, and the DST and work-hours flags of it. */
module CustomDateTimeState {
  import opened Results
  import opened Adapter
  import opened Text
  import opened DateTimeInput

  /** `customDateTime`: null when either text is empty; otherwise the typed
      parts (second 0) resolved in `timezone`, and null when that throws. */
  function CustomInstant(lib: Library, parseDate: DateParser, customDate: string, customTime: string, timezone: Zone): (r: Option<Instant>)
    ensures customDate == "" || customTime == "" ==> r.None?
    ensures r.Some? <==>
      && customDate != "" && customTime != ""
      && PartsFromText(parseDate, customTime, customDate).Some?
      && lib.fromTimezoneParts(PartsFromText(parseDate, customTime, customDate).value, timezone).Ok?
    ensures r.Some? ==>
      && PartsFromText(parseDate, customTime, customDate).value.second == 0
      && lib.fromTimezoneParts(PartsFromText(parseDate, customTime, customDate).value, timezone) == Ok(r.value)
  {
    if customDate == "" || customTime == "" then None
    else ResolveInput(lib, parseDate, customTime, customDate, timezone)
  }

  /** A flag derived from the instant: null when there is no instant, else the
      library's answer for it (which may throw; nothing catches it here). */
  function Derived(instant: Option<Instant>, timezone: Zone, ask: (Instant, Zone) -> Result<bool>): (r: Option<Result<bool>>)
    ensures r.None? <==> instant.None?
    ensures r.Some? ==> r.value == ask(instant.value, timezone)
  {
    match instant
    case None => None
    case Some(t) => Some(ask(t, timezone))
  }

  /** The initial time text "12:00" reads as twelve o'clock. */
  lemma NoonText()
    ensures ParseTime("12:00") == Some((12, 0))
  {
    assert Decimal(12) == "12" by { assert Decimal(1) == "1"; }
    assert PadStart2(Decimal(0)) == "00";
    assert "12:00" == PadStart2(Decimal(12)) + ":" + PadStart2(Decimal(0));
    ParseTimeOfClockText(12, 0);
  }

  class CustomDateTime {
    var customDate: string
    var customTime: string

    /** The panel opens on today's date (the date part of `now` as an ISO
        timestamp) at "12:00". */
    constructor (nowIso: string)
      ensures customDate == IsoDatePart(nowIso) && customTime == "12:00"
    {
      customDate := IsoDatePart(nowIso);
      customTime := "12:00";
    }

    method SetCustomDate(date: string)
      modifies this
      ensures customDate == date && customTime == old(customTime)
    {
      customDate := date;
    }

    method SetCustomTime(time: string)
      modifies this
      ensures customTime == time && customDate == old(customDate)
    {
      customTime := time;
    }

    function CustomDateTime(lib: Library, parseDate: DateParser, timezone: Zone): (r: Option<Instant>)
      reads this
      ensures r == CustomInstant(lib, parseDate, customDate, customTime, timezone)
      ensures customDate == "" || customTime == "" ==> r.None?
      ensures r.Some? <==>
        && customDate != "" && customTime != ""
        && PartsFromText(parseDate, customTime, customDate).Some?
        && lib.fromTimezoneParts(PartsFromText(parseDate, customTime, customDate).value, timezone).Ok?
      ensures r.Some? ==>
        lib.fromTimezoneParts(PartsFromText(parseDate, customTime, customDate).value, timezone) == Ok(r.value)
    {
      CustomInstant(lib, parseDate, customDate, customTime, timezone)
    }

    /** `customDst`: null exactly when `customDateTime` is, else `isDST` of it. */
    function CustomDst(lib: Library, parseDate: DateParser, timezone: Zone): (r: Option<Result<bool>>)
      reads this
      ensures r.None? <==> CustomDateTime(lib, parseDate, timezone).None?
      ensures r.Some? ==> r.value == lib.isDST(CustomDateTime(lib, parseDate, timezone).value, timezone)
    {
      Derived(CustomDateTime(lib, parseDate, timezone), timezone, lib.isDST)
    }

    /** `customWorkHours`: null exactly when `customDateTime` is, else `inWorkingHours` of it. */
    function CustomWorkHours(lib: Library, parseDate: DateParser, timezone: Zone): (r: Option<Result<bool>>)
      reads this
      ensures r.None? <==> CustomDateTime(lib, parseDate, timezone).None?
      ensures r.Some? ==> r.value == lib.inWorkingHours(CustomDateTime(lib, parseDate, timezone).value, timezone)
    {
      Derived(CustomDateTime(lib, parseDate, timezone), timezone, lib.inWorkingHours)
    }
  }

  /** The parts of a calendar date at 12:00:00. */
  function NoonParts(d: CalendarDate): TimeParts
  {
    TimeParts(d.year, d.month, d.day, 12, 0, 0)
  }

  /** A freshly opened panel denotes an instant exactly when today's date part
      parses and the library resolves it at 12:00:00; when the library reads
      those parts back, the instant shows 12:00:00 in the zone. */
  method OpenAtNoon(lib: Library, parseDate: DateParser, nowIso: string, timezone: Zone) returns (instant: Option<Instant>)
    ensures instant.None? <==>
      || IsoDatePart(nowIso) == ""
      || parseDate(IsoDatePart(nowIso)).None?
      || lib.fromTimezoneParts(NoonParts(parseDate(IsoDatePart(nowIso)).value), timezone).Err?
    ensures instant.Some? ==>
      && lib.fromTimezoneParts(NoonParts(parseDate(IsoDatePart(nowIso)).value), timezone) == Ok(instant.value)
      && (ReadsBack(lib, NoonParts(parseDate(IsoDatePart(nowIso)).value), timezone) ==>
            var shown := lib.toTimezoneParts(instant.value, timezone);
            && shown.Ok? && shown.value.hour == 12 && shown.value.minute == 0 && shown.value.second == 0)
  {
    var panel := new CustomDateTime(nowIso);
    instant := panel.CustomDateTime(lib, parseDate, timezone);
    NoonText();
    var date := IsoDatePart(nowIso);
    assert date != "" && parseDate(date).Some? ==>
      PartsFromText(parseDate, "12:00", date) == Some(NoonParts(parseDate(date).value));
    if instant.Some? && ReadsBack(lib, NoonParts(parseDate(date).value), timezone) {
      ResolvedInstantShowsInput(lib, parseDate, "12:00", date, timezone);
    }
  }
}
