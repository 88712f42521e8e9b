# timezone-shift-demo: the derivation layer

The demo is a React application that shows a world clock, business-hours
statistics, a time converter, a DST explorer and an API playground, all
built on the external `timezone-shift` library. This model covers the layer
between the library and the screen:

- the helpers of `src/utils/timezone-operations.ts`: local time,
  abbreviation with its `GMT±HH[:MM]` fallback, conversion, catalog lookup
  and the per-zone display records;
- their legacy duplicates in `src/components/utils.ts`, proved equal to them;
- the two static catalogs and the update interval;
- the world clock's search filter and stable sort;
- the business-hours statistics;
- the conversion hook and the converter tab's effect;
- the custom date/time panel;
- the ticking clock and the DST year stepper;
- the single-zone analysis.

The library is a `Library` value of six total functions, each returning a
`Result` because each may throw. Every property holds for every such value.
A few properties need a law of the library, stated as a premise about the
one set of parts or the one instant at hand, never about all of them:
`ReadsBack` says that resolving given wall-clock parts in a zone and reading
them back gives the same parts, and `ResolvesBack` says that an instant's own
wall-clock parts resolve back to it. `ReadsBack` holds for parts naming a
wall-clock time that exists in the zone, including either reading of a
repeated hour. It fails for parts the library rolls over (month 13) or moves
out of a daylight-saving gap (02:30 on a spring-forward day), unless the
library throws on those. `ResolvesBack` fails for an instant in the repeated
hour when the library picks the other occurrence. The host's `Date` parser is a `DateParser`
parameter. "Now" and the ISO timestamp of now are arguments.

Modules follow the source files:

- `Results`, `Adapter`: the library interface;
- `Sequences`: array `filter`, counting, and `map` with a callback that may throw;
- `Constants`, `LegacyConstants`: the catalogs;
- `Text`, `OffsetLabel`: decimal text, padding, splitting and the GMT label;
- `TimezoneOperations`, `LegacyUtils`;
- `WorldClock`;
- `BusinessHoursStats`;
- `DateTimeInput`, `TimezoneConversion`, `CustomDateTimeState`;
- `CurrentTime`, `DstData`;
- `TimezoneAnalysis`;
- `ConverterTabState`.

The clock, the DST year, the custom date/time fields and the converter tab's
results are classes whose methods update fields. Everything else is
functions and lemmas.

## Model

| member | source | states |
|---|---|---|
| Constants.Names | src/utils/constants.ts:4-89 | the names of a catalog, one per entry, in catalog order |
| Constants.Find | src/utils/timezone-operations.ts:77-79 | `find` by name: none iff no entry has the name; otherwise an entry with that name, preceded by no other entry with it |
| Constants.FindUnique | src/utils/constants.ts:4-89 | with distinct names, looking up an entry's name finds exactly that entry |
| Constants.CatalogShape | src/utils/constants.ts:4-94 | the catalog has 14 entries, from America/New_York to Africa/Cairo; REAL_TIME is 1000 |
| Constants.CatalogNamesDistinct | src/utils/constants.ts:4-89 | no two catalog entries share a name |
| Constants.CatalogFieldsNonEmpty | src/utils/constants.ts:4-89 | every entry has a non-empty city, flag and region |
| Constants.CatalogRegionTies | src/utils/constants.ts:41-52 | Paris, Berlin and Rome are distinct entries that share the region "CET/CEST" |
| LegacyConstants.LegacyCatalogIsSubCatalog | src/components/constants.ts:4-47 | the older catalog has 7 entries with distinct names, each also an entry of the main catalog |
| Text.DigitChar | src/utils/timezone-operations.ts:54-55 | a digit character whose value is the given digit |
| Text.Decimal | src/utils/timezone-operations.ts:54-55 | `toString()` of a natural number: non-empty, all digits, one digit iff below 10, no leading zero unless 0 |
| Text.PadStart2 | src/utils/timezone-operations.ts:54-55 | `padStart(2, "0")`: length max(2, original); the original is the suffix; the added prefix is all zeros |
| Text.ValueOfDecimal | src/utils/timezone-operations.ts:54-55 | reading a number's decimal text gives back the number |
| Text.ValueOfLeadingZero | src/utils/timezone-operations.ts:54-55 | a leading zero does not change the value read |
| Text.PaddedValue | src/utils/timezone-operations.ts:54-55 | padded decimal text is all digits and reads back as the number |
| Text.SplitAt | src/hooks/useTimezoneConversion.ts:25 | the text before the first separator and the rest; the separator is not in the first part; joining the parts gives the input back |
| Text.SplitAtAfterDigits | src/hooks/useTimezoneConversion.ts:25 | digits followed by a non-digit separator split exactly there |
| Text.Split | src/hooks/useTimezoneConversion.ts:25 | `split(sep)`: never empty; text without the separator is a single piece; no piece holds the separator; joining the pieces with the separator gives the input back |
| OffsetLabel.GmtLabel | src/utils/timezone-operations.ts:51-56 | the label starts with "GMT", has at least 6 characters, and has sign '+' iff the offset is at least 0 |
| OffsetLabel.AssembledShape | src/utils/timezone-operations.ts:54-55 | digit hours followed by ":MM" only when minutes are wanted: a ":" appears iff they are, and the length adds 3 for them |
| OffsetLabel.PaddedFields | src/utils/timezone-operations.ts:54-55 | the padded hours and remainder texts are digits of their values; the remainder's has two digits, and so do the hours' below 100 |
| OffsetLabel.MagnitudeFields | src/utils/timezone-operations.ts:54-55 | the magnitude is the hours text, then ":" and the minutes text exactly when the remainder is not zero, each field the digits of its value |
| OffsetLabel.GmtLabelShape | src/utils/timezone-operations.ts:51-56 | the label holds a ":" iff the offset is not a whole number of hours; below 100 hours it has 9 characters then, 6 otherwise (hours padded to exactly two digits) |
| OffsetLabel.TwoDigitsUnique | src/utils/timezone-operations.ts:54-55 | two two-digit texts with the same value are equal |
| OffsetLabel.MagnitudeFromFields | src/utils/timezone-operations.ts:51-56 | a text of the magnitude's length that reads back as the minutes is the two-digit hours, then ":" and the two-digit minutes exactly when the remainder is not zero |
| OffsetLabel.GmtLabelCanonical | src/utils/timezone-operations.ts:51-56 | below 100 hours, a text with the label's sign and length that reads back as the offset is the label itself, so "GMT+5", "GMT+005" and "GMT+05:00" are not labels of 300 |
| OffsetLabel.ParseMagnitudeOf | src/utils/timezone-operations.ts:54-56 | digit hours, optionally followed by ":" and two digits denoting 1 to 59, parse as hours·60 plus minutes |
| OffsetLabel.DecimalBelowHundred | src/utils/timezone-operations.ts:55 | a remainder below 100 has at most two digits, so padding it gives exactly two |
| OffsetLabel.BodyRoundTrip | src/utils/timezone-operations.ts:51-56 | texts for the whole hours and the remainder, assembled with the minutes rule, parse back as the minutes |
| OffsetLabel.MagnitudeRoundTrip | src/utils/timezone-operations.ts:51-56 | the hours and optional minutes part of the label parses back to the magnitude in minutes |
| OffsetLabel.GmtLabelRoundTrip | src/utils/timezone-operations.ts:51-56 | every offset's label parses back to that offset, so hours, the minutes rule, padding and sign lose nothing |
| OffsetLabel.GmtLabelInjective | src/utils/timezone-operations.ts:51-56 | distinct offsets get distinct labels |
| OffsetLabel.PadOneDigit | src/utils/timezone-operations.ts:54-55 | a single digit pads to "0" and that digit |
| OffsetLabel.LabelOfZero | src/utils/timezone-operations.ts:51-56 | offset 0 gives "GMT+00" |
| OffsetLabel.LabelOfHalfHourEast | src/utils/timezone-operations.ts:51-56 | offset 330 gives "GMT+05:30" |
| OffsetLabel.LabelOfWholeHoursWest | src/utils/timezone-operations.ts:51-56 | offset -300 gives "GMT-05" |
| OffsetLabel.GmtLabelExamples | src/utils/timezone-operations.ts:51-56 | 0 gives "GMT+00", 330 gives "GMT+05:30", -300 gives "GMT-05" |
| TimezoneOperations.GetLocalTime | src/utils/timezone-operations.ts:14-27 | succeeds iff the library's parts do; the date's getters read back exactly those parts, with the month stored 0-based; a library error propagates |
| TimezoneOperations.GetTimezoneAbbreviation | src/utils/timezone-operations.ts:32-60 | "UTC" when either library call throws. With preferred abbreviations: the DST one when DST is active and it is present and non-empty, otherwise the standard one. Without: exactly GmtLabel of the DST offset when DST is active and that offset is present and non-zero, otherwise of the standard offset |
| TimezoneOperations.ConvertBetweenTimezones | src/utils/timezone-operations.ts:65-72 | fails when reading the source zone's parts fails |
| TimezoneOperations.ConvertKeepsWallClock | src/utils/timezone-operations.ts:65-72 | when the target zone reads back the source's parts, the result shows in the target zone the parts the input shows in the source zone |
| TimezoneOperations.ConvertWithinZone | src/utils/timezone-operations.ts:65-72 | converting a zone to itself gives the same instant when the library resolves an instant's own parts back to it |
| TimezoneOperations.ConvertChains | src/utils/timezone-operations.ts:65-72 | converting a to b and then b to c equals converting a to c, when b reads back the parts the instant shows in a |
| TimezoneOperations.GetTimezoneInfo | src/utils/timezone-operations.ts:77-79 | an entry iff the name is in the catalog, and that entry carries the name |
| TimezoneOperations.DisplayRecord | src/utils/timezone-operations.ts:90-105 | one zone's record: succeeds iff the zone is catalogued and the three library calls that are not guarded succeed; a missing zone gives "Timezone info not found for <zone>" |
| TimezoneOperations.DisplayRecordConsistent | src/utils/timezone-operations.ts:96-105 | the record carries the catalog entry's city, flag and region, and local time, DST, working hours and abbreviation of the same instant |
| TimezoneOperations.ProcessTimezoneData | src/utils/timezone-operations.ts:86-107 | succeeds iff every zone's record does; then one record per zone, in input order, each equal to that zone's record |
| TimezoneOperations.ProcessReportsFirstFailure | src/utils/timezone-operations.ts:90-94 | a failed batch reports the error of the first failing zone; there is no partial result |
| TimezoneOperations.ProcessMissingZone | src/utils/timezone-operations.ts:91-94 | one uncatalogued zone fails the whole batch, with its not-found message when every earlier zone succeeds |
| TimezoneOperations.ProcessWholeCatalog | src/utils/timezone-operations.ts:86-107 | all names of a catalog with distinct names give one record per entry, in catalog order, carrying that entry's data |
| TimezoneOperations.ProcessTimezoneCatalog | src/utils/timezone-operations.ts:86-107 | for the application catalog: 14 records, from New York to Cairo |
| LegacyUtils.GetLocalTimeAgrees | src/components/utils.ts:28-38 | the legacy `getLocalTime` equals the current one and copies the library's parts |
| LegacyUtils.GetTimezoneAbbreviationAgrees | src/components/utils.ts:40-68 | the legacy abbreviation equals the current one on every input: same selection, fallback, format and "UTC" path |
| LegacyUtils.ConvertBetweenTimezonesAgrees | src/components/utils.ts:71-80 | the legacy conversion equals the current one |
| WorldClock.ToLowerCase | src/components/WorldClockTab.tsx:25-30 | same length; each character lower-cased |
| Sequences.SubsequenceNoLonger | src/components/WorldClockTab.tsx:86 | a subsequence is no longer than its source |
| Sequences.SubsequenceReflexive | src/components/WorldClockTab.tsx:21-24 | every list is a subsequence of itself |
| Sequences.Count | src/hooks/useBusinessHoursStats.ts:9-13 | the number of accepted positions, at most the length |
| Sequences.CountExtremes | src/hooks/useBusinessHoursStats.ts:9-13 | the count is 0 iff no element is accepted, and the whole length iff every element is |
| Sequences.Filter | src/hooks/useBusinessHoursStats.ts:9-13 | `filter`: an order-preserving subsequence whose length is the count of accepted elements, holding each accepted element as many times as the input does and no other element |
| Sequences.MapAll | src/utils/timezone-operations.ts:88-107 | `map` with a callback that may throw: a result iff no call throws, and then one value per element, in order, each the call's value |
| Sequences.MapAllFirstFailure | src/utils/timezone-operations.ts:88-107 | a failed map carries the error of the first element whose call throws, every earlier call having succeeded |
| WorldClock.FilterBySearch | src/components/WorldClockTab.tsx:26-31 | an order-preserving subsequence holding every copy of each record whose lower-cased city, region or zone name contains the lower-cased term, and nothing else |
| WorldClock.ApplySearch | src/components/WorldClockTab.tsx:21-32 | an empty term keeps every record; otherwise every copy of each matching record and nothing else, as FilterBySearch with the lower-cased term; always a subsequence no longer than the input |
| WorldClock.StrLeqTotal | src/components/WorldClockTab.tsx:36-42 | any two strings are comparable |
| WorldClock.StrLeqTransitive | src/components/WorldClockTab.tsx:36-42 | the string order is transitive |
| WorldClock.StrLeqAntisymmetric | src/components/WorldClockTab.tsx:36-42 | strings that are each at most the other are equal |
| WorldClock.LeqTotal | src/components/WorldClockTab.tsx:35-46 | the comparator orders any two records, for every sort key |
| WorldClock.LeqTransitive | src/components/WorldClockTab.tsx:35-46 | the comparator is transitive, for every sort key |
| WorldClock.Insert | src/components/WorldClockTab.tsx:35-46 | inserting adds exactly one occurrence of the record |
| WorldClock.InsertSorted | src/components/WorldClockTab.tsx:35-46 | inserting into a sorted list keeps it sorted |
| WorldClock.SortRecords | src/components/WorldClockTab.tsx:35-46 | the sort returns a permutation of its input, sorted by the key |
| WorldClock.InsertKeepsTies | src/components/WorldClockTab.tsx:35-46 | inserting keeps the order of records tied with any given record |
| WorldClock.TiesOfCons | src/components/WorldClockTab.tsx:35-47 | the ties of a list with a head are the head's tie, if any, followed by the ties of the rest |
| WorldClock.NoTwoSidedTie | src/components/WorldClockTab.tsx:35-47 | a record that may not precede another cannot tie with a record that the other ties with |
| WorldClock.InsertKeepsTiesStep | src/components/WorldClockTab.tsx:35-47 | when the inserted record goes after the head, the ties keep their order, given that they do in the tail |
| WorldClock.SortIsStable | src/components/WorldClockTab.tsx:35-46 | records with equal keys keep their input order |
| WorldClock.SortSortedIsIdentity | src/components/WorldClockTab.tsx:35-46 | sorting an already sorted list changes nothing |
| WorldClock.FilteredAndSortedData | src/components/WorldClockTab.tsx:20-49 | a sorted permutation of the search result; "Showing X of Y" has X at most Y |
| WorldClock.ResortIsIdentity | src/components/WorldClockTab.tsx:35-48 | sorting the displayed list again by the same key leaves it unchanged |
| BusinessHoursStats.RoundedPercentage | src/hooks/useBusinessHoursStats.ts:17-25 | 0 for an empty list; otherwise 100·count/total rounded half up: the result p satisfies 2·total·p ≤ 200·count + total < 2·total·(p+1) |
| BusinessHoursStats.PercentageBounds | src/hooks/useBusinessHoursStats.ts:17-25 | for count ≤ total: at most 100; 0 when the count is 0; 100 when the count is the non-zero total |
| BusinessHoursStats.UseBusinessHoursStats | src/hooks/useBusinessHoursStats.ts:7-39 | the total is the input length; each count is the number of records with that flag, at most the total; each has-flag holds iff its count is positive, iff some record has that flag; each percentage is the rounded share and at most 100; a count equals the total iff every record has the flag |
| DateTimeInput.ToNumber | src/hooks/useTimezoneConversion.ts:25 | `Number` of a piece: a value iff the piece is decimal digits, and then the number they denote |
| DateTimeInput.ToNumberOfDecimal | src/hooks/useTimezoneConversion.ts:25 | a number's decimal text reads back as that number |
| DateTimeInput.ParseTime | src/hooks/useTimezoneConversion.ts:25 | hours and minutes are the numbers of the first two `":"` pieces; no result iff there are fewer than two pieces or one of the two is not a number |
| DateTimeInput.SplitTwoDigitFields | src/hooks/useTimezoneConversion.ts:25 | two digit fields joined by ":" split back into exactly those fields |
| DateTimeInput.ParseTimeOfClockText | src/hooks/useCustomDateTime.ts:17-23 | an "HH:MM" text reads back as its hour and minute |
| DateTimeInput.PartsFromText | src/hooks/useTimezoneConversion.ts:25-34 | parts exist iff both texts parse; second 0, hour and minute from the time text, year, month and day from the date |
| DateTimeInput.ResolveInput | src/hooks/useTimezoneConversion.ts:25-36 | an instant iff the parts exist and the library resolves them in the source zone; then it is that resolution |
| DateTimeInput.ResolvedInstantShowsInput | src/hooks/useTimezoneConversion.ts:25-36 | when the typed parts read back in the source zone, the resolved instant shows the typed hour and minute, at second 0, in the source zone |
| DateTimeInput.IsoDatePart | src/hooks/useCustomDateTime.ts:14-16 | `split("T")[0]`: contains no 'T'; it is the whole text or the prefix ending just before the first 'T' |
| TimezoneConversion.ConversionEntry | src/hooks/useTimezoneConversion.ts:38-48 | one row: name, city, flag and region from the catalog; the source zone gets the resolved instant itself and every other zone gets the conversion; `isDst` is asked about the source instant; fails iff one of those calls throws |
| TimezoneConversion.ConvertCatalog | src/hooks/useTimezoneConversion.ts:38-48 | succeeds iff every row does; then one row per catalog entry, in catalog order |
| TimezoneConversion.ConvertWithCatalog | src/hooks/useTimezoneConversion.ts:19-53 | `[]` when either text is empty or the input does not resolve; otherwise `[]` or one row per entry, and rows appear iff both the input and every row succeed |
| TimezoneConversion.UseTimezoneConversion | src/hooks/useTimezoneConversion.ts:14-54 | `[]` on empty input; otherwise `[]` or 14 rows |
| TimezoneConversion.EveryRowShowsTypedClock | src/hooks/useTimezoneConversion.ts:36-46 | when the typed parts read back in the source zone and in the row's zone, every row's time shows in its own zone the typed hour and minute at second 0 |
| TimezoneConversion.DstColumnIsAboutSource | src/hooks/useTimezoneConversion.ts:47 | each row's DST flag is the library's answer for the source instant in that row's zone |
| CustomDateTimeState.CustomInstant | src/hooks/useCustomDateTime.ts:19-38 | null when a text is empty; otherwise an instant iff the texts parse and the library resolves the parts (second 0), and then it is that resolution |
| CustomDateTimeState.Derived | src/hooks/useCustomDateTime.ts:40-46 | null iff the instant is null; otherwise the library's answer for it |
| CustomDateTimeState.NoonText | src/hooks/useCustomDateTime.ts:17 | the initial time text "12:00" reads as 12 hours and 0 minutes |
| CustomDateTimeState.CustomDateTime.constructor | src/hooks/useCustomDateTime.ts:14-17 | the panel opens on the date part of now's ISO timestamp, at "12:00" |
| CustomDateTimeState.CustomDateTime.SetCustomDate | src/hooks/useCustomDateTime.ts:14-16 | sets the date text and keeps the time text |
| CustomDateTimeState.CustomDateTime.SetCustomTime | src/hooks/useCustomDateTime.ts:17 | sets the time text and keeps the date text |
| CustomDateTimeState.CustomDateTime.CustomDateTime | src/hooks/useCustomDateTime.ts:19-38 | CustomInstant of the current fields: null when a field is empty; otherwise an instant iff the texts parse and the library resolves them, and then that resolution |
| CustomDateTimeState.CustomDateTime.CustomDst | src/hooks/useCustomDateTime.ts:40-42 | null iff the instant is null; otherwise `isDST` of it |
| CustomDateTimeState.CustomDateTime.CustomWorkHours | src/hooks/useCustomDateTime.ts:44-46 | null iff the instant is null; otherwise `inWorkingHours` of it |
| CustomDateTimeState.OpenAtNoon | src/hooks/useCustomDateTime.ts:14-33 | a fresh panel's instant is null iff the date part is empty, does not parse, or does not resolve at 12:00:00; otherwise it is the resolution of those parts, and it shows 12:00:00 when the library reads them back |
| CurrentTime.RequestedInterval | src/hooks/useCurrentTime.ts:7-9 | an omitted interval is REAL_TIME, 1000 |
| CurrentTime.EffectiveInterval | src/hooks/useCurrentTime.ts:19-25 | always positive: a non-positive interval becomes 1000, others are kept |
| CurrentTime.ScheduleCases | src/hooks/useCurrentTime.ts:22-35 | a timer is set up iff the interval is non-positive or at least 100; 1 to 99 neither schedules nor warns |
| CurrentTime.Clock.constructor | src/hooks/useCurrentTime.ts:10-11 | the first render's time, no timer |
| CurrentTime.Clock.Start | src/hooks/useCurrentTime.ts:18-35 | captures now; warns once iff the interval is non-positive; holds the timer id and its period iff the effective interval is at least 100 |
| CurrentTime.Clock.Tick | src/hooks/useCurrentTime.ts:32-34 | captures now only while a timer is set |
| CurrentTime.Clock.Refresh | src/hooks/useCurrentTime.ts:14-16 | captures now, whatever the timer state |
| CurrentTime.Clock.Cleanup | src/hooks/useCurrentTime.ts:38-43 | clears the timer that was set, if any, and no timer id remains |
| CurrentTime.TickRefreshStop | src/hooks/useCurrentTime.ts:7-44 | a default clock schedules a timer; after a tick, a refresh and cleanup, a late tick does not change the refreshed time |
| CurrentTime.TooFastNeverTicks | src/hooks/useCurrentTime.ts:28-35 | with a period of 1 to 99 ms: no timer, no warning, only the start capture |
| CurrentTime.NonPositiveFallsBack | src/hooks/useCurrentTime.ts:22-25 | a non-positive period warns once and runs every 1000 ms |
| DstData.InitialYear | src/hooks/useDSTData.ts:10-12 | the given year unless it is omitted or 0, then the current year; no clamping |
| DstData.DstTable | src/hooks/useDSTData.ts:14-19 | succeeds iff every zone's transitions call does; then one entry per catalog entry in order, with its name, city, flag and region and exactly the library's transitions |
| DstData.NoDstZoneKeepsRow | src/hooks/useDSTData.ts:14-19 | a zone without DST keeps its row, with null transitions |
| DstData.DstExplorer.constructor | src/hooks/useDSTData.ts:10-12 | the year starts at InitialYear |
| DstData.DstExplorer.SetDstYear | src/hooks/useDSTData.ts:10-12 | sets the year to any value |
| DstData.DstExplorer.IncrementYear | src/hooks/useDSTData.ts:21 | adds one to the year |
| DstData.DstExplorer.DecrementYear | src/hooks/useDSTData.ts:22 | subtracts one from the year |
| DstData.DstExplorer.DstData | src/hooks/useDSTData.ts:14-19 | 14 entries, each with the transitions of the current year |
| DstData.ForwardThenBack | src/hooks/useDSTData.ts:9-22 | increment then decrement returns to the initial year and its table |
| TimezoneAnalysis.UseTimezoneAnalysis | src/hooks/useTimezoneAnalysis.ts:17-31 | fails iff one of the four calls that are not guarded throws; otherwise every field is that call's result for the same (instant, zone); the abbreviation never throws |
| TimezoneAnalysis.MetadataIgnoresTime | src/hooks/useTimezoneAnalysis.ts:22 | the metadata does not depend on the instant |
| TimezoneAnalysis.AgreesWithDisplayRecord | src/hooks/useTimezoneAnalysis.ts:17-31 | a successful analysis agrees with the display record when the zone is catalogued; an uncatalogued zone is still analysed while the record fails |
| ConverterTabState.EffectResults | src/components/ConverterTab/index.tsx:30-64 | with either text empty, the previous results unchanged; otherwise `[]` or 7 rows, each the conversion row of the seven-entry catalog for the resolved instant |
| ConverterTabState.RowsUseLegacyConversion | src/components/ConverterTab/index.tsx:48-55 | every row for another zone holds the legacy `convertBetweenTimezones` of the source instant |
| ConverterTabState.ConverterTab.constructor | src/components/ConverterTab/index.tsx:20-28 | no time, today's date, New York as the source, no results |
| ConverterTabState.ConverterTab.OnInputChange | src/components/ConverterTab/index.tsx:30-64 | stores the inputs; the results become EffectResults of the previous results |
| ConverterTabState.ClearingTimeKeepsRows | src/components/ConverterTab/index.tsx:31-63 | clearing the time keeps the old rows, while the conversion hook gives `[]` for the same input |

## Left out

- The `timezone-shift` library. It is a parameter, not a model, and the wall-clock
  properties assume ReadsBack or ResolvesBack of the parts or instant at hand. This also covers `isDSTNow`,
  `validateAndRegisterTimezone` and `clearRuntimeTimezoneCache` of the API demo.
- JS `Date` parsing of the date text and its host-local getters. These are a
  `DateParser` parameter.
- `new Date(y, m, d, ...)` normalisation in `getLocalTime`: out-of-range fields
  roll over and years 0–99 map to the 1900s. `LocalDate` keeps the fields as given.
- DateTimeInput.ToNumber: `Number()` is modelled on decimal digit text only.
  Signs, spaces, exponents and decimals are not modelled, and a text without a
  second `":"` piece is treated as a parse failure. In the source these give
  `NaN` or `undefined` parts, and the library's response to those is not visible.
- DateTimeInput.PartsFromText: an invalid date (the `DateParser` gives `None`)
  yields no parts, so the views give `[]` or null without asking the library.
  In the source the `NaN` year, month and day are passed to `fromTimezoneParts`,
  whose response to them is not visible.
- WorldClock.StrLeq: `localeCompare` is modelled as code-point lexicographic
  order, not locale collation.
- WorldClock.LowerChar: `toLowerCase` lower-cases ASCII letters only.
- WorldClock.WallClockStamp: the "time" key is the local wall-clock fields
  read as a number. This is the order of `getTime()` for in-range fields on a
  UTC host, but not across a host-local DST change.
- BusinessHoursStats.RoundedPercentage: exact rational half-up rounding;
  floating-point error of `(count / total) * 100` before `Math.round` is not modelled.
- OffsetLabel.GmtLabelCanonical: the exact text is pinned only for offsets
  below 100 hours; above that the hours keep every digit `toString()` gives,
  which the round trip still reads back.
- DstData.InitialYear: a `NaN` year (also falsy) is not modelled.
- Timers, React `useMemo`/`useEffect` scheduling and console output. Start, tick,
  refresh and cleanup are explicit calls; a warning is a counter; the effect of
  the converter tab runs inside `OnInputChange`.
- `useDebounce`, `useTimezoneData` (a memo over `processTimezoneData`),
  `src/utils/formatting.ts` (locale formatting and host-local day-of-year
  arithmetic), all JSX, and the legacy inline tabs.
- The exception messages of the library. They are kept as text but no property
  depends on them; the error path of every view is modelled as `[]`, null,
  "UTC" or an `Err`, as the source has it.
