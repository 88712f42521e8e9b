/** The time converter tab: the text fields and source zone the user edits,
    and the conversion results its effect recomputes over the older
    seven-entry catalog whenever they change. */
module ConverterTabState {
  import opened Results
  import opened Adapter
  import opened LegacyConstants
  import opened DateTimeInput
  import opened TimezoneConversion
  import LegacyUtils

  /** What the effect leaves in `conversionResults`: with both texts filled
      in, the rows for the seven-entry catalog (`[]` when the input does not
      resolve or a row throws); with either text empty, the previous rows,
      untouched. */
  function EffectResults(lib: Library, parseDate: DateParser, previous: seq<ConversionResult>,
                         sourceTime: string, sourceDate: string, sourceTimezone: Zone): (r: seq<ConversionResult>)
    ensures sourceTime == "" || sourceDate == "" ==> r == previous
    ensures sourceTime != "" && sourceDate != "" ==> r == [] || |r| == |LEGACY_TIMEZONES| == 7
    ensures sourceTime != "" && sourceDate != "" && |r| > 0 ==>
      && ResolveInput(lib, parseDate, sourceTime, sourceDate, sourceTimezone).Some?
      && forall i :: 0 <= i < 7 ==>
           ConversionEntry(lib, LEGACY_TIMEZONES[i], ResolveInput(lib, parseDate, sourceTime, sourceDate, sourceTimezone).value,
                           sourceTimezone) == Ok(r[i])
  {
    LegacyCatalogIsSubCatalog();
    if sourceTime != "" && sourceDate != "" then
      ConvertWithCatalog(lib, parseDate, LEGACY_TIMEZONES, sourceTime, sourceDate, sourceTimezone)
    else previous
  }

  /** The rows the tab computes for zones other than the source are exactly
      what the tab's own (legacy) `convertBetweenTimezones` returns. */
  lemma RowsUseLegacyConversion(lib: Library, parseDate: DateParser, previous: seq<ConversionResult>,
                                sourceTime: string, sourceDate: string, sourceTimezone: Zone, i: int)
    requires sourceTime != "" && sourceDate != ""
    requires 0 <= i < |EffectResults(lib, parseDate, previous, sourceTime, sourceDate, sourceTimezone)|
    requires LEGACY_TIMEZONES[i].name != sourceTimezone
    ensures var src := ResolveInput(lib, parseDate, sourceTime, sourceDate, sourceTimezone);
      && src.Some?
      && LegacyUtils.ConvertBetweenTimezones(lib, src.value, sourceTimezone, LEGACY_TIMEZONES[i].name)
           == Ok(EffectResults(lib, parseDate, previous, sourceTime, sourceDate, sourceTimezone)[i].time)
  {
    var src := ResolveInput(lib, parseDate, sourceTime, sourceDate, sourceTimezone).value;
    LegacyUtils.ConvertBetweenTimezonesAgrees(lib, src, sourceTimezone, LEGACY_TIMEZONES[i].name);
  }

  class ConverterTab {
    var sourceTime: string
    var sourceDate: string
    var sourceTimezone: Zone
    var conversionResults: seq<ConversionResult>

    /** The tab opens with no time, today's date, New York as the source and
        no results (the effect's first run finds the time empty). */
    constructor (nowIso: string)
      ensures sourceTime == "" && sourceDate == IsoDatePart(nowIso)
      ensures sourceTimezone == "America/New_York" && conversionResults == []
    {
      sourceTime := "";
      sourceDate := IsoDatePart(nowIso);
      sourceTimezone := "America/New_York";
      conversionResults := [];
    }

    /** An edit of the inputs followed by the effect's run. */
    method OnInputChange(lib: Library, parseDate: DateParser, time: string, date: string, zone: Zone)
      modifies this
      ensures sourceTime == time && sourceDate == date && sourceTimezone == zone
      ensures conversionResults == EffectResults(lib, parseDate, old(conversionResults), time, date, zone)
    {
      sourceTime, sourceDate, sourceTimezone := time, date, zone;
      if sourceTime != "" && sourceDate != "" {
        conversionResults := ConvertWithCatalog(lib, parseDate, LEGACY_TIMEZONES, sourceTime, sourceDate, sourceTimezone);
      }
    }
  }

  /** Clearing the time after a conversion leaves the old rows on screen, where
      the conversion hook would show none. */
  method ClearingTimeKeepsRows(lib: Library, parseDate: DateParser, nowIso: string, time: string, date: string, zone: Zone)
    returns (before: seq<ConversionResult>, after: seq<ConversionResult>, hook: seq<ConversionResult>)
    ensures after == before
    ensures before == EffectResults(lib, parseDate, [], time, date, zone)
    ensures hook == []
  {
    var tab := new ConverterTab(nowIso);
    tab.OnInputChange(lib, parseDate, time, date, zone);
    before := tab.conversionResults;
    tab.OnInputChange(lib, parseDate, "", date, zone);
    after := tab.conversionResults;
    hook := UseTimezoneConversion(lib, parseDate, "", date, zone);
  }
}
