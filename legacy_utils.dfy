/** The legacy helpers of `src/components/utils.ts`, written out as that file
    has them, and shown to agree with `TimezoneOperations` on every input. */
module LegacyUtils {
  import opened Results
  import opened Adapter
  import opened Text
  import opened OffsetLabel
  import TimezoneOperations

  function GetLocalTime(lib: Library, utcTime: Instant, timezone: Zone): Result<TimezoneOperations.LocalDate>
  {
    var parts :- lib.toTimezoneParts(utcTime, timezone);
    Ok(TimezoneOperations.LocalDate(parts.year, parts.month - 1, parts.day, parts.hour, parts.minute, parts.second))
  }

  function GetTimezoneAbbreviation(lib: Library, date: Instant, timezone: Zone): string
  {
    match lib.getTimezoneMetadata(timezone)
    case Err(_) => "UTC"
    case Ok(metadata) =>
      match lib.isDST(date, timezone)
      case Err(_) => "UTC"
      case Ok(isDstActive) =>
        if metadata.preferredAbbreviations.Some? then
          var p := metadata.preferredAbbreviations.value;
          if isDstActive then (if p.dst.Some? && p.dst.value != "" then p.dst.value else p.standard)
          else p.standard
        else
          var offset := if isDstActive
            then (if metadata.dstOffset.Some? && metadata.dstOffset.value != 0 then metadata.dstOffset.value
                  else metadata.standardOffset)
            else metadata.standardOffset;
          var hours := Abs(offset) / 60;
          var minutes := Abs(offset) % 60;
          var sign := if offset >= 0 then "+" else "-";
          "GMT" + sign + PadStart2(Decimal(hours)) + (if minutes != 0 then ":" + PadStart2(Decimal(minutes)) else "")
  }

  function ConvertBetweenTimezones(lib: Library, date: Instant, fromTz: Zone, toTz: Zone): Result<Instant>
  {
    // the wall-clock parts in the source zone, read as if they were in the target zone
    var parts :- lib.toTimezoneParts(date, fromTz);
    lib.fromTimezoneParts(parts, toTz)
  }

  /** The legacy `getLocalTime` copies the library's parts exactly as the current one does. */
  lemma GetLocalTimeAgrees(lib: Library, utcTime: Instant, timezone: Zone)
    ensures GetLocalTime(lib, utcTime, timezone) == TimezoneOperations.GetLocalTime(lib, utcTime, timezone)
    ensures GetLocalTime(lib, utcTime, timezone).Ok? ==>
      TimezoneOperations.PartsOf(GetLocalTime(lib, utcTime, timezone).value) == lib.toTimezoneParts(utcTime, timezone).value
  {
  }

  /** The legacy abbreviation has the same preferred-abbreviation selection, the
      same offset fallback, the same label format and the same "UTC" failure path. */
  lemma GetTimezoneAbbreviationAgrees(lib: Library, date: Instant, timezone: Zone)
    ensures GetTimezoneAbbreviation(lib, date, timezone) == TimezoneOperations.GetTimezoneAbbreviation(lib, date, timezone)
  {
  }

  /** The legacy conversion is the same composition of the two library calls. */
  lemma ConvertBetweenTimezonesAgrees(lib: Library, date: Instant, fromTz: Zone, toTz: Zone)
    ensures ConvertBetweenTimezones(lib, date, fromTz, toTz) == TimezoneOperations.ConvertBetweenTimezones(lib, date, fromTz, toTz)
  {
  }
}
