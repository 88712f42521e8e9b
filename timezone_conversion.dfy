/** The conversion view: a typed date and time in a source zone, shown in
    every zone of a catalog. */
module TimezoneConversion {
  import opened Results
  import opened Adapter
  import opened Constants
  import opened DateTimeInput
  import opened TimezoneOperations

  datatype ConversionResult = ConversionResult(name: Zone, city: string, flag: string, region: string, time: Instant, isDst: bool)

  /** The row for one catalog entry: the source zone keeps the resolved
      instant, every other zone gets `convertBetweenTimezones`; the DST flag is
      always asked about the source instant. The time is computed first, so
      its failure is the one reported. */
  function ConversionEntry(lib: Library, tz: TimezoneInfo, sourceDateTime: Instant, sourceTimezone: Zone): (r: Result<ConversionResult>)
    ensures r.Ok? <==>
      && (tz.name == sourceTimezone || ConvertBetweenTimezones(lib, sourceDateTime, sourceTimezone, tz.name).Ok?)
      && lib.isDST(sourceDateTime, tz.name).Ok?
    ensures r.Ok? ==>
      && (r.value.name, r.value.city, r.value.flag, r.value.region) == (tz.name, tz.city, tz.flag, tz.region)
      && r.value.isDst == lib.isDST(sourceDateTime, tz.name).value
      && (tz.name == sourceTimezone ==> r.value.time == sourceDateTime)
      && (tz.name != sourceTimezone ==> ConvertBetweenTimezones(lib, sourceDateTime, sourceTimezone, tz.name) == Ok(r.value.time))
  {
    var time :- if tz.name == sourceTimezone then Ok(sourceDateTime)
                else ConvertBetweenTimezones(lib, sourceDateTime, sourceTimezone, tz.name);
    var isDst :- lib.isDST(sourceDateTime, tz.name);
    Ok(ConversionResult(tz.name, tz.city, tz.flag, tz.region, time, isDst))
  }

  /** `catalog.map(...)`: one row per entry, in catalog order; the first
      exception aborts the whole map. */
  function ConvertCatalog(lib: Library, catalog: seq<TimezoneInfo>, sourceDateTime: Instant, sourceTimezone: Zone): (r: Result<seq<ConversionResult>>)
    ensures r.Ok? <==> forall i :: 0 <= i < |catalog| ==> ConversionEntry(lib, catalog[i], sourceDateTime, sourceTimezone).Ok?
    ensures r.Ok? ==>
      && |r.value| == |catalog|
      && forall i :: 0 <= i < |catalog| ==> ConversionEntry(lib, catalog[i], sourceDateTime, sourceTimezone) == Ok(r.value[i])
  {
    if |catalog| == 0 then Ok([])
    else
      var first :- ConversionEntry(lib, catalog[0], sourceDateTime, sourceTimezone);
      var rest :- ConvertCatalog(lib, catalog[1..], sourceDateTime, sourceTimezone);
      assert forall i :: 1 <= i < |catalog| ==> catalog[i] == catalog[1..][i - 1];
      Ok([first] + rest)
  }

  /** The hook's computation against a given catalog: `[]` when either text is
      empty, when the input does not parse or resolve, or when any row throws. */
  function ConvertWithCatalog(lib: Library, parseDate: DateParser, catalog: seq<TimezoneInfo>,
                              sourceTime: string, sourceDate: string, sourceTimezone: Zone): (r: seq<ConversionResult>)
    ensures sourceTime == "" || sourceDate == "" ==> r == []
    ensures ResolveInput(lib, parseDate, sourceTime, sourceDate, sourceTimezone).None? ==> r == []
    ensures r == [] || |r| == |catalog|
    ensures |r| > 0 ==>
      && sourceTime != "" && sourceDate != ""
      && ResolveInput(lib, parseDate, sourceTime, sourceDate, sourceTimezone).Some?
      && forall i :: 0 <= i < |catalog| ==>
           ConversionEntry(lib, catalog[i], ResolveInput(lib, parseDate, sourceTime, sourceDate, sourceTimezone).value, sourceTimezone)
             == Ok(r[i])
    ensures sourceTime != "" && sourceDate != "" && |catalog| > 0 ==>
      (|r| > 0 <==>
         && ResolveInput(lib, parseDate, sourceTime, sourceDate, sourceTimezone).Some?
         && ConvertCatalog(lib, catalog, ResolveInput(lib, parseDate, sourceTime, sourceDate, sourceTimezone).value, sourceTimezone).Ok?)
  {
    if sourceTime == "" || sourceDate == "" then []
    else
      match ResolveInput(lib, parseDate, sourceTime, sourceDate, sourceTimezone)
      case None => []
      case Some(sourceDateTime) =>
        match ConvertCatalog(lib, catalog, sourceDateTime, sourceTimezone)
        case Ok(results) => results
        case Err(_) => []
  }

  /** `useTimezoneConversion` over the application catalog. */
  function UseTimezoneConversion(lib: Library, parseDate: DateParser, sourceTime: string, sourceDate: string, sourceTimezone: Zone): (r: seq<ConversionResult>)
    ensures sourceTime == "" || sourceDate == "" ==> r == []
    ensures r == [] || |r| == 14
  {
    CatalogShape();
    ConvertWithCatalog(lib, parseDate, TIMEZONES, sourceTime, sourceDate, sourceTimezone)
  }

  /** Every row shows, in its own zone, the hour and minute that were typed:
      the source row because it is the resolved instant itself, the others
      because the conversion carries the wall-clock digits across. */
  lemma EveryRowShowsTypedClock(lib: Library, parseDate: DateParser, catalog: seq<TimezoneInfo>,
                                sourceTime: string, sourceDate: string, sourceTimezone: Zone, i: int)
    requires 0 <= i < |ConvertWithCatalog(lib, parseDate, catalog, sourceTime, sourceDate, sourceTimezone)|
    // the typed parts read back both in the source zone and in the row's zone
    requires ReadsBack(lib, PartsFromText(parseDate, sourceTime, sourceDate).value, sourceTimezone)
    requires ReadsBack(lib, PartsFromText(parseDate, sourceTime, sourceDate).value, catalog[i].name)
    ensures var row := ConvertWithCatalog(lib, parseDate, catalog, sourceTime, sourceDate, sourceTimezone)[i];
      var shown := lib.toTimezoneParts(row.time, row.name);
      && shown.Ok? && shown.value.second == 0
      && (shown.value.hour, shown.value.minute) == ParseTime(sourceTime).value
  {
    var rows := ConvertWithCatalog(lib, parseDate, catalog, sourceTime, sourceDate, sourceTimezone);
    var src := ResolveInput(lib, parseDate, sourceTime, sourceDate, sourceTimezone).value;
    ResolvedInstantShowsInput(lib, parseDate, sourceTime, sourceDate, sourceTimezone);
    assert ConversionEntry(lib, catalog[i], src, sourceTimezone) == Ok(rows[i]);
    if catalog[i].name != sourceTimezone {
      ConvertKeepsWallClock(lib, src, sourceTimezone, catalog[i].name);
    }
  }

  /** The DST column asks about the source instant in each row's zone, not
      about the row's converted time. */
  lemma DstColumnIsAboutSource(lib: Library, parseDate: DateParser, catalog: seq<TimezoneInfo>,
                               sourceTime: string, sourceDate: string, sourceTimezone: Zone, i: int)
    requires 0 <= i < |ConvertWithCatalog(lib, parseDate, catalog, sourceTime, sourceDate, sourceTimezone)|
    ensures var src := ResolveInput(lib, parseDate, sourceTime, sourceDate, sourceTimezone);
      && src.Some?
      && lib.isDST(src.value, catalog[i].name)
           == Ok(ConvertWithCatalog(lib, parseDate, catalog, sourceTime, sourceDate, sourceTimezone)[i].isDst)
  {
    var src := ResolveInput(lib, parseDate, sourceTime, sourceDate, sourceTimezone).value;
    assert ConversionEntry(lib, catalog[i], src, sourceTimezone).Ok?;
  }
}
