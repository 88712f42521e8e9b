/** The single-zone analysis of the API demo: every derived fact about one
    (instant, zone) pair, with no catalog involved. */
module TimezoneAnalysis {
  import opened Results
  import opened Adapter
  import opened Constants
  import opened TimezoneOperations

  datatype Analysis = Analysis(
    localTime: LocalDate,
    isDstActive: bool,
    inBusinessHours: bool,
    abbreviation: string,
    metadata: Metadata)

  /** `useTimezoneAnalysis`: it throws exactly when one of the four library
      calls that are not guarded does; the abbreviation never throws. */
  function UseTimezoneAnalysis(lib: Library, currentTime: Instant, timezone: Zone): (r: Result<Analysis>)
    ensures r.Ok? <==>
      && lib.toTimezoneParts(currentTime, timezone).Ok?
      && lib.isDST(currentTime, timezone).Ok?
      && lib.inWorkingHours(currentTime, timezone).Ok?
      && lib.getTimezoneMetadata(timezone).Ok?
    ensures r.Ok? ==>
      && GetLocalTime(lib, currentTime, timezone) == Ok(r.value.localTime)
      && lib.isDST(currentTime, timezone) == Ok(r.value.isDstActive)
      && lib.inWorkingHours(currentTime, timezone) == Ok(r.value.inBusinessHours)
      && r.value.abbreviation == GetTimezoneAbbreviation(lib, currentTime, timezone)
      && lib.getTimezoneMetadata(timezone) == Ok(r.value.metadata)
  {
    var localTime :- GetLocalTime(lib, currentTime, timezone);
    var isDstActive :- lib.isDST(currentTime, timezone);
    var inBusinessHours :- lib.inWorkingHours(currentTime, timezone);
    var abbreviation := GetTimezoneAbbreviation(lib, currentTime, timezone);
    var metadata :- lib.getTimezoneMetadata(timezone);
    Ok(Analysis(localTime, isDstActive, inBusinessHours, abbreviation, metadata))
  }

  /** The metadata does not depend on the instant analysed. */
  lemma MetadataIgnoresTime(lib: Library, t1: Instant, t2: Instant, timezone: Zone)
    requires UseTimezoneAnalysis(lib, t1, timezone).Ok? && UseTimezoneAnalysis(lib, t2, timezone).Ok?
    ensures UseTimezoneAnalysis(lib, t1, timezone).value.metadata == UseTimezoneAnalysis(lib, t2, timezone).value.metadata
  {
  }

  /** The analysis agrees field by field with the world-clock record of the
      same zone at the same instant, but needs no catalog entry: a zone the
      catalog lacks, which `processTimezoneData` rejects, is still analysed. */
  lemma AgreesWithDisplayRecord(lib: Library, catalog: seq<TimezoneInfo>, currentTime: Instant, timezone: Zone)
    requires UseTimezoneAnalysis(lib, currentTime, timezone).Ok?
    ensures timezone in Names(catalog) <==> DisplayRecord(lib, catalog, currentTime, timezone).Ok?
    ensures DisplayRecord(lib, catalog, currentTime, timezone).Ok? ==>
      var a := UseTimezoneAnalysis(lib, currentTime, timezone).value;
      var d := DisplayRecord(lib, catalog, currentTime, timezone).value;
      (a.localTime, a.isDstActive, a.inBusinessHours, a.abbreviation)
        == (d.localTime, d.isDst, d.inWorkingHours, d.abbreviation)
  {
    if DisplayRecord(lib, catalog, currentTime, timezone).Ok? {
      DisplayRecordConsistent(lib, catalog, currentTime, timezone);
    }
  }
}
