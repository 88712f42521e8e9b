/** The display-record layer of `src/utils/timezone-operations.ts`: local time,
    abbreviation, conversion, catalog lookup and the per-zone record batch. */
module TimezoneOperations {
  import opened Results
  import opened Adapter
  import opened Constants
  import opened OffsetLabel
  import opened Sequences

  /** A JS `Date` built from host-local fields; `monthIndex` is 0-based, as
      the `Date` constructor takes it. */
  datatype LocalDate = LocalDate(year: int, monthIndex: int, day: int, hours: int, minutes: int, seconds: int)

  /** The wall-clock parts a `LocalDate`'s getters read back (`getMonth() + 1`). */
  function PartsOf(d: LocalDate): TimeParts
  {
    TimeParts(d.year, d.monthIndex + 1, d.day, d.hours, d.minutes, d.seconds)
  }

  /** `getLocalTime`: the zone's wall-clock parts as a host-local date. The month
      is shifted to 0-based and back, so the parts read back unchanged; a throw
      from the library propagates. */
  function GetLocalTime(lib: Library, utcTime: Instant, timezone: Zone): (r: Result<LocalDate>)
    ensures r.Ok? <==> lib.toTimezoneParts(utcTime, timezone).Ok?
    ensures r.Ok? ==> PartsOf(r.value) == lib.toTimezoneParts(utcTime, timezone).value
    ensures r.Ok? ==> r.value.monthIndex == lib.toTimezoneParts(utcTime, timezone).value.month - 1
    ensures r.Err? ==> r.message == lib.toTimezoneParts(utcTime, timezone).message
  {
    var parts :- lib.toTimezoneParts(utcTime, timezone);
    Ok(LocalDate(parts.year, parts.month - 1, parts.day, parts.hour, parts.minute, parts.second))
  }

  /** `getTimezoneAbbreviation`: a preferred abbreviation chosen by the DST flag,
      else a `GMT±HH[:MM]` label of the offset in force; any throw becomes "UTC". */
  function GetTimezoneAbbreviation(lib: Library, date: Instant, timezone: Zone): (r: string)
    // a throw from either library call is caught and never propagates
    ensures lib.getTimezoneMetadata(timezone).Err? || lib.isDST(date, timezone).Err? ==> r == "UTC"
    ensures lib.getTimezoneMetadata(timezone).Ok? && lib.isDST(date, timezone).Ok? ==>
      var metadata, isDstActive := lib.getTimezoneMetadata(timezone).value, lib.isDST(date, timezone).value;
      match metadata.preferredAbbreviations
      // `dst || standard`: an absent or empty DST abbreviation falls back to the standard one
      case Some(p) =>
        r == if isDstActive && p.dst.Some? && p.dst.value != "" then p.dst.value else p.standard
      // `dstOffset || standardOffset`: the label of the offset in force, where an
      // absent or zero DST offset counts as no DST offset
      case None =>
        r == GmtLabel(if isDstActive && metadata.dstOffset.Some? && metadata.dstOffset.value != 0
                      then metadata.dstOffset.value else metadata.standardOffset)
  {
    match lib.getTimezoneMetadata(timezone)
    case Err(_) => "UTC"
    case Ok(metadata) =>
      match lib.isDST(date, timezone)
      case Err(_) => "UTC"
      case Ok(isDstActive) =>
        match metadata.preferredAbbreviations
        case Some(p) =>
          if isDstActive then (if p.dst.Some? && p.dst.value != "" then p.dst.value else p.standard)
          else p.standard
        case None =>
          var offset := if isDstActive
            then (if metadata.dstOffset.Some? && metadata.dstOffset.value != 0 then metadata.dstOffset.value
                  else metadata.standardOffset)
            else metadata.standardOffset;
          GmtLabel(offset)
  }

  /** `convertBetweenTimezones`: the wall-clock parts of `date` in `fromTz`,
      resolved as if they were local to `toTz`. */
  function ConvertBetweenTimezones(lib: Library, date: Instant, fromTz: Zone, toTz: Zone): (r: Result<Instant>)
    ensures lib.toTimezoneParts(date, fromTz).Err? ==> r.Err?
  {
    var parts :- lib.toTimezoneParts(date, fromTz);
    lib.fromTimezoneParts(parts, toTz)
  }

  /** The converted instant shows, in the target zone, exactly the wall-clock
      digits the original shows in the source zone (it is the digits that move,
      not the absolute instant). */
  lemma ConvertKeepsWallClock(lib: Library, date: Instant, fromTz: Zone, toTz: Zone)
    requires ConvertBetweenTimezones(lib, date, fromTz, toTz).Ok?
    requires ReadsBack(lib, lib.toTimezoneParts(date, fromTz).value, toTz)
    ensures lib.toTimezoneParts(ConvertBetweenTimezones(lib, date, fromTz, toTz).value, toTz)
         == lib.toTimezoneParts(date, fromTz)
  {
    var parts := lib.toTimezoneParts(date, fromTz).value;
    assert lib.fromTimezoneParts(parts, toTz) == Ok(ConvertBetweenTimezones(lib, date, fromTz, toTz).value);
  }

  /** Converting within one zone returns the instant unchanged when the library
      resolves an instant's own parts back to it. */
  lemma ConvertWithinZone(lib: Library, date: Instant, zone: Zone)
    requires ResolvesBack(lib, date, zone)
    requires lib.toTimezoneParts(date, zone).Ok?
    ensures ConvertBetweenTimezones(lib, date, zone, zone) == Ok(date)
  {
    var parts := lib.toTimezoneParts(date, zone).value;
    assert lib.fromTimezoneParts(parts, zone) == Ok(date);
  }

  /** Two conversions in a row equal one conversion from the first zone to the last. */
  lemma ConvertChains(lib: Library, date: Instant, a: Zone, b: Zone, c: Zone)
    requires ConvertBetweenTimezones(lib, date, a, b).Ok?
    requires ReadsBack(lib, lib.toTimezoneParts(date, a).value, b)
    ensures ConvertBetweenTimezones(lib, ConvertBetweenTimezones(lib, date, a, b).value, b, c)
         == ConvertBetweenTimezones(lib, date, a, c)
  {
    ConvertKeepsWallClock(lib, date, a, b);
  }

  /** `getTimezoneInfo`: the catalog entry with that name, or nothing. */
  function GetTimezoneInfo(timezoneName: Zone): (r: Option<TimezoneInfo>)
    ensures r.Some? <==> timezoneName in Names(TIMEZONES)
    ensures r.Some? ==> r.value in TIMEZONES && r.value.name == timezoneName
  {
    Find(TIMEZONES, timezoneName)
  }

  /** The display record of `processTimezoneData`, one per zone. */
  datatype TimezoneDisplayData = TimezoneDisplayData(
    timezone: Zone,
    city: string,
    flag: string,
    region: string,
    localTime: LocalDate,
    isDst: bool,
    inWorkingHours: bool,
    abbreviation: string)

  /** The error `processTimezoneData` throws for a zone missing from the catalog. */
  function NotFoundMessage(timezone: Zone): string
  {
    "Timezone info not found for " + timezone
  }

  // The record builders below take the catalog as a parameter; in the source it
  // is always the module-level `TIMEZONES`, the instance `ProcessWholeCatalog` uses.

  /** The record for one zone. It succeeds exactly when the zone is in the
      catalog and no library call throws. */
  function DisplayRecord(lib: Library, catalog: seq<TimezoneInfo>, currentTime: Instant, timezone: Zone)
    : (r: Result<TimezoneDisplayData>)
    ensures r.Ok? <==>
      && timezone in Names(catalog)
      && lib.toTimezoneParts(currentTime, timezone).Ok?
      && lib.isDST(currentTime, timezone).Ok?
      && lib.inWorkingHours(currentTime, timezone).Ok?
    ensures timezone !in Names(catalog) ==> r == Err(NotFoundMessage(timezone))
    ensures r.Ok? ==> r.value.timezone == timezone
  {
    match Find(catalog, timezone)
    case None => Err(NotFoundMessage(timezone))
    case Some(info) =>
      var localTime :- GetLocalTime(lib, currentTime, timezone);
      var isDst :- lib.isDST(currentTime, timezone);
      var inWorking :- lib.inWorkingHours(currentTime, timezone);
      Ok(TimezoneDisplayData(timezone, info.city, info.flag, info.region, localTime, isDst, inWorking,
                             GetTimezoneAbbreviation(lib, currentTime, timezone)))
  }

  /** Every field of a record is computed from the one instant `currentTime`:
      it agrees with an independent call on the same (instant, zone) pair, and
      the display metadata is the catalog entry's. */
  lemma DisplayRecordConsistent(lib: Library, catalog: seq<TimezoneInfo>, currentTime: Instant, timezone: Zone)
    requires DisplayRecord(lib, catalog, currentTime, timezone).Ok?
    ensures var d := DisplayRecord(lib, catalog, currentTime, timezone).value;
      && Find(catalog, timezone) == Some(TimezoneInfo(timezone, d.city, d.flag, d.region))
      && Ok(d.localTime) == GetLocalTime(lib, currentTime, timezone)
      && Ok(d.isDst) == lib.isDST(currentTime, timezone)
      && Ok(d.inWorkingHours) == lib.inWorkingHours(currentTime, timezone)
      && d.abbreviation == GetTimezoneAbbreviation(lib, currentTime, timezone)
  {
  }

  /** The `i`-th zone is the first whose record fails. */
  predicate FirstFailure(lib: Library, catalog: seq<TimezoneInfo>, currentTime: Instant, timezones: seq<Zone>, i: int)
  {
    && 0 <= i < |timezones|
    && DisplayRecord(lib, catalog, currentTime, timezones[i]).Err?
    && forall j :: 0 <= j < i ==> DisplayRecord(lib, catalog, currentTime, timezones[j]).Ok?
  }

  /** `processTimezoneData`: one record per zone, in input order, or an error
      when any zone fails. There is never a partial result. */
  function ProcessTimezoneData(lib: Library, catalog: seq<TimezoneInfo>, currentTime: Instant, timezones: seq<Zone>)
    : (r: Result<seq<TimezoneDisplayData>>)
    ensures r.Ok? <==> forall i :: 0 <= i < |timezones| ==> DisplayRecord(lib, catalog, currentTime, timezones[i]).Ok?
    ensures r.Ok? ==> |r.value| == |timezones|
    ensures r.Ok? ==> forall i :: 0 <= i < |timezones| ==>
      Ok(r.value[i]) == DisplayRecord(lib, catalog, currentTime, timezones[i]) && r.value[i].timezone == timezones[i]
  {
    MapAll(timezones, zone => DisplayRecord(lib, catalog, currentTime, zone))
  }

  /** A failed batch reports the error of the first zone that fails. */
  lemma ProcessReportsFirstFailure(lib: Library, catalog: seq<TimezoneInfo>, currentTime: Instant, timezones: seq<Zone>)
    requires ProcessTimezoneData(lib, catalog, currentTime, timezones).Err?
    ensures exists i :: (FirstFailure(lib, catalog, currentTime, timezones, i)
      && ProcessTimezoneData(lib, catalog, currentTime, timezones)
         == Err(DisplayRecord(lib, catalog, currentTime, timezones[i]).message))
  {
    var i := MapAllFirstFailure(timezones, zone => DisplayRecord(lib, catalog, currentTime, zone));
    assert FirstFailure(lib, catalog, currentTime, timezones, i);
  }

  /** A zone missing from the catalog fails the whole batch; when every zone
      before it succeeds, the error names that zone. */
  lemma ProcessMissingZone(lib: Library, catalog: seq<TimezoneInfo>, currentTime: Instant, timezones: seq<Zone>, i: int)
    requires 0 <= i < |timezones| && timezones[i] !in Names(catalog)
    ensures ProcessTimezoneData(lib, catalog, currentTime, timezones).Err?
    ensures (forall j :: 0 <= j < i ==> DisplayRecord(lib, catalog, currentTime, timezones[j]).Ok?) ==>
      ProcessTimezoneData(lib, catalog, currentTime, timezones) == Err(NotFoundMessage(timezones[i]))
  {
    var r := ProcessTimezoneData(lib, catalog, currentTime, timezones);
    assert DisplayRecord(lib, catalog, currentTime, timezones[i]).Err?;
    if forall j :: 0 <= j < i ==> DisplayRecord(lib, catalog, currentTime, timezones[j]).Ok? {
      ProcessReportsFirstFailure(lib, catalog, currentTime, timezones);
      var k :| FirstFailure(lib, catalog, currentTime, timezones, k)
        && r == Err(DisplayRecord(lib, catalog, currentTime, timezones[k]).message);
      assert k == i;
    }
  }

  /** When the library does not throw, a catalog with distinct names yields one
      record per entry, in catalog order, carrying that entry's city, flag and region. */
  lemma ProcessWholeCatalog(lib: Library, catalog: seq<TimezoneInfo>, currentTime: Instant)
    requires DistinctNames(catalog)
    requires forall z :: z in Names(catalog) ==>
      lib.toTimezoneParts(currentTime, z).Ok? && lib.isDST(currentTime, z).Ok? && lib.inWorkingHours(currentTime, z).Ok?
    ensures var r := ProcessTimezoneData(lib, catalog, currentTime, Names(catalog));
      && r.Ok? && |r.value| == |catalog|
      && forall i :: 0 <= i < |catalog| ==>
        TimezoneInfo(r.value[i].timezone, r.value[i].city, r.value[i].flag, r.value[i].region) == catalog[i]
  {
    var names := Names(catalog);
    var r := ProcessTimezoneData(lib, catalog, currentTime, names);
    forall i | 0 <= i < |names| ensures DisplayRecord(lib, catalog, currentTime, names[i]).Ok? {
      assert names[i] in names;
    }
    forall i | 0 <= i < |catalog|
      ensures TimezoneInfo(r.value[i].timezone, r.value[i].city, r.value[i].flag, r.value[i].region) == catalog[i]
    {
      FindUnique(catalog, i);
      DisplayRecordConsistent(lib, catalog, currentTime, names[i]);
    }
  }

  /** The catalog the source passes meets the distinct-names premise. */
  lemma ProcessTimezoneCatalog(lib: Library, currentTime: Instant)
    requires forall z :: z in Names(TIMEZONES) ==>
      lib.toTimezoneParts(currentTime, z).Ok? && lib.isDST(currentTime, z).Ok? && lib.inWorkingHours(currentTime, z).Ok?
    ensures var r := ProcessTimezoneData(lib, TIMEZONES, currentTime, Names(TIMEZONES));
      r.Ok? && |r.value| == 14 && r.value[0].city == "New York" && r.value[13].city == "Cairo"
  {
    CatalogNamesDistinct();
    ProcessWholeCatalog(lib, TIMEZONES, currentTime);
  }
}
