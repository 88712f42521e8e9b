/** The older seven-entry catalog of `src/components/constants.ts`, read by the
    legacy converter tab. */
module LegacyConstants {
  import opened Constants

  const LEGACY_TIMEZONES: seq<TimezoneInfo> := [
    TimezoneInfo("America/New_York", "New York", "\U{1F1FA}\U{1F1F8}", "EST/EDT"),
    TimezoneInfo("America/Los_Angeles", "Los Angeles", "\U{1F1FA}\U{1F1F8}", "PST/PDT"),
    TimezoneInfo("Europe/London", "London", "\U{1F1EC}\U{1F1E7}", "GMT/BST"),
    TimezoneInfo("Europe/Paris", "Paris", "\U{1F1EB}\U{1F1F7}", "CET/CEST"),
    TimezoneInfo("Europe/Berlin", "Berlin", "\U{1F1E9}\U{1F1EA}", "CET/CEST"),
    TimezoneInfo("Asia/Tokyo", "Tokyo", "\U{1F1EF}\U{1F1F5}", "JST"),
    TimezoneInfo("Australia/Sydney", "Sydney", "\U{1F1E6}\U{1F1FA}", "AEST/AEDT")
  ]

  /** The legacy catalog is a sub-catalog of the current one: seven entries,
      each also an entry of the current catalog, with distinct names. */
  lemma LegacyCatalogIsSubCatalog()
    ensures |LEGACY_TIMEZONES| == 7 && DistinctNames(LEGACY_TIMEZONES)
    ensures forall i :: 0 <= i < |LEGACY_TIMEZONES| ==> LEGACY_TIMEZONES[i] in TIMEZONES
  {
    assert LEGACY_TIMEZONES[0] == TIMEZONES[0];
    assert LEGACY_TIMEZONES[1] == TIMEZONES[1];
    assert LEGACY_TIMEZONES[2] == TIMEZONES[4];
    assert LEGACY_TIMEZONES[3] == TIMEZONES[5];
    assert LEGACY_TIMEZONES[4] == TIMEZONES[6];
    assert LEGACY_TIMEZONES[5] == TIMEZONES[8];
    assert LEGACY_TIMEZONES[6] == TIMEZONES[11];
  }
}
