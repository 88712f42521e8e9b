/** The static zone catalog and update intervals of `src/utils/constants.ts`. */
module Constants {
  import opened Results

  /** One catalog entry: identifier and display metadata. */
  datatype TimezoneInfo = TimezoneInfo(name: string, city: string, flag: string, region: string)

  /** The 14 supported zones, in display order. */
  const TIMEZONES: seq<TimezoneInfo> := [
    TimezoneInfo("America/New_York", "New York", "\U{1F1FA}\U{1F1F8}", "EST/EDT"),
    TimezoneInfo("America/Los_Angeles", "Los Angeles", "\U{1F1FA}\U{1F1F8}", "PST/PDT"),
    TimezoneInfo("America/Chicago", "Chicago", "\U{1F1FA}\U{1F1F8}", "CST/CDT"),
    TimezoneInfo("America/Denver", "Denver", "\U{1F1FA}\U{1F1F8}", "MST/MDT"),
    TimezoneInfo("Europe/London", "London", "\U{1F1EC}\U{1F1E7}", "GMT/BST"),
    TimezoneInfo("Europe/Paris", "Paris", "\U{1F1EB}\U{1F1F7}", "CET/CEST"),
    TimezoneInfo("Europe/Berlin", "Berlin", "\U{1F1E9}\U{1F1EA}", "CET/CEST"),
    TimezoneInfo("Europe/Rome", "Rome", "\U{1F1EE}\U{1F1F9}", "CET/CEST"),
    TimezoneInfo("Asia/Tokyo", "Tokyo", "\U{1F1EF}\U{1F1F5}", "JST"),
    TimezoneInfo("Asia/Singapore", "Singapore", "\U{1F1F8}\U{1F1EC}", "SGT"),
    TimezoneInfo("Asia/Dubai", "Dubai", "\U{1F1E6}\U{1F1EA}", "GST"),
    TimezoneInfo("Australia/Sydney", "Sydney", "\U{1F1E6}\U{1F1FA}", "AEST/AEDT"),
    TimezoneInfo("America/Sao_Paulo", "São Paulo", "\U{1F1E7}\U{1F1F7}", "BRT/BRST"),
    TimezoneInfo("Africa/Cairo", "Cairo", "\U{1F1EA}\U{1F1EC}", "EET/EEST")
  ]

  /** `UPDATE_INTERVALS.REAL_TIME`, in milliseconds. */
  const REAL_TIME: int := 1000

  /** All names of a catalog, in order (`TIMEZONES.map((tz) => tz.name)`). */
  function Names(catalog: seq<TimezoneInfo>): (r: seq<string>)
    ensures |r| == |catalog|
    ensures forall i :: 0 <= i < |catalog| ==> r[i] == catalog[i].name
  {
    seq(|catalog|, i requires 0 <= i < |catalog| => catalog[i].name)
  }

  /** No two entries of the catalog share a name. */
  predicate DistinctNames(catalog: seq<TimezoneInfo>)
  {
    forall i, j :: 0 <= i < j < |catalog| ==> catalog[i].name != catalog[j].name
  }

  /** `catalog.find((tz) => tz.name === name)`: the first entry with that name. */
  function Find(catalog: seq<TimezoneInfo>, name: string): (r: Option<TimezoneInfo>)
    ensures r.Some? ==> r.value in catalog && r.value.name == name
    ensures r.None? <==> forall i :: 0 <= i < |catalog| ==> catalog[i].name != name
    ensures r.Some? ==> exists i :: 0 <= i < |catalog| && catalog[i] == r.value
                                   && forall j :: 0 <= j < i ==> catalog[j].name != name
  {
    if catalog == [] then None
    else if catalog[0].name == name then Some(catalog[0])
    else
      var r := Find(catalog[1..], name);
      if r.Some? then
        ghost var i :| 0 <= i < |catalog[1..]| && catalog[1..][i] == r.value
                       && forall j :: 0 <= j < i ==> catalog[1..][j].name != name;
        assert catalog[i + 1] == r.value;
        r
      else r
  }

  /** With distinct names, a lookup finds exactly the entry carrying that name. */
  lemma FindUnique(catalog: seq<TimezoneInfo>, i: int)
    requires DistinctNames(catalog)
    requires 0 <= i < |catalog|
    ensures Find(catalog, catalog[i].name) == Some(catalog[i])
  {
    var r := Find(catalog, catalog[i].name);
    var k :| 0 <= k < |catalog| && catalog[k] == r.value
             && forall j :: 0 <= j < k ==> catalog[j].name != catalog[i].name;
    assert k == i;
  }

  lemma CatalogShape()
    ensures |TIMEZONES| == 14
    ensures TIMEZONES[0].name == "America/New_York"
    ensures TIMEZONES[13].name == "Africa/Cairo"
    ensures REAL_TIME == 1000
  {
  }

  lemma CatalogNamesDistinct()
    ensures DistinctNames(TIMEZONES)
  {
  }

  lemma CatalogFieldsNonEmpty()
    ensures forall i :: 0 <= i < |TIMEZONES| ==>
      TIMEZONES[i].city != "" && TIMEZONES[i].flag != "" && TIMEZONES[i].region != ""
  {
  }

  /** Paris, Berlin and Rome are distinct entries with one region: region order has ties. */
  lemma CatalogRegionTies()
    ensures TIMEZONES[5].name != TIMEZONES[6].name && TIMEZONES[6].name != TIMEZONES[7].name
    ensures TIMEZONES[5].region == TIMEZONES[6].region == TIMEZONES[7].region == "CET/CEST"
  {
  }
}
