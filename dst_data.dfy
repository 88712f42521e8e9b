/** The DST explorer: a year the user steps through, and for that year the
    DST transitions of every catalog zone. */
module DstData {
  import opened Results
  import opened Adapter
  import opened Constants

  /** `initialYear || currentYear`: an omitted year or year 0 means this year.
      Nothing else is checked: negative and far-off years are kept. */
  function InitialYear(initialYear: Option<int>, currentYear: int): (r: int)
    ensures initialYear.Some? && initialYear.value != 0 ==> r == initialYear.value
    ensures initialYear.None? || initialYear.value == 0 ==> r == currentYear
  {
    if initialYear.Some? && initialYear.value != 0 then initialYear.value else currentYear
  }

  datatype DstEntry = DstEntry(name: Zone, city: string, flag: string, region: string, transitions: Option<DstTransitions>)

  /** Each catalog entry with the library's DST transitions for `year` added;
      a throw for any entry fails the whole table. */
  function DstTable(lib: Library, catalog: seq<TimezoneInfo>, year: int): (r: Result<seq<DstEntry>>)
    ensures r.Ok? <==> forall i :: 0 <= i < |catalog| ==> lib.dstTransitionDates(year, catalog[i].name).Ok?
    ensures r.Ok? ==>
      && |r.value| == |catalog|
      && forall i :: 0 <= i < |catalog| ==>
           && (r.value[i].name, r.value[i].city, r.value[i].flag, r.value[i].region)
                == (catalog[i].name, catalog[i].city, catalog[i].flag, catalog[i].region)
           && lib.dstTransitionDates(year, catalog[i].name) == Ok(r.value[i].transitions)
  {
    if |catalog| == 0 then Ok([])
    else
      var tz := catalog[0];
      var transitions :- lib.dstTransitionDates(year, tz.name);
      var rest :- DstTable(lib, catalog[1..], year);
      assert forall i :: 1 <= i < |catalog| ==> catalog[i] == catalog[1..][i - 1];
      Ok([DstEntry(tz.name, tz.city, tz.flag, tz.region, transitions)] + rest)
  }

  /** A zone without DST (the library answers null) keeps its row, with no transitions. */
  lemma NoDstZoneKeepsRow(lib: Library, catalog: seq<TimezoneInfo>, year: int, i: int)
    requires DstTable(lib, catalog, year).Ok?
    requires 0 <= i < |catalog| && lib.dstTransitionDates(year, catalog[i].name) == Ok(None)
    ensures DstTable(lib, catalog, year).value[i].name == catalog[i].name
    ensures DstTable(lib, catalog, year).value[i].transitions.None?
  {
  }

  class DstExplorer {
    var dstYear: int

    constructor (initialYear: Option<int>, currentYear: int)
      ensures dstYear == InitialYear(initialYear, currentYear)
    {
      dstYear := InitialYear(initialYear, currentYear);
    }

    method SetDstYear(year: int)
      modifies this
      ensures dstYear == year
    {
      dstYear := year;
    }

    method IncrementYear()
      modifies this
      ensures dstYear == old(dstYear) + 1
    {
      dstYear := dstYear + 1;
    }

    method DecrementYear()
      modifies this
      ensures dstYear == old(dstYear) - 1
    {
      dstYear := dstYear - 1;
    }

    /** `dstData`: the transitions table of the catalog for the current year. */
    function DstData(lib: Library): (r: Result<seq<DstEntry>>)
      reads this
      ensures r.Ok? ==> |r.value| == |TIMEZONES| == 14
      ensures r.Ok? ==> forall i :: 0 <= i < |TIMEZONES| ==>
        lib.dstTransitionDates(dstYear, TIMEZONES[i].name) == Ok(r.value[i].transitions)
    {
      CatalogShape();
      DstTable(lib, TIMEZONES, dstYear)
    }
  }

  /** Stepping forward and back returns to the year the explorer opened on, and
      the table shown is the one for that year again. */
  method ForwardThenBack(lib: Library, initialYear: Option<int>, currentYear: int)
    returns (year: int, table: Result<seq<DstEntry>>)
    ensures year == InitialYear(initialYear, currentYear)
    ensures table == DstTable(lib, TIMEZONES, InitialYear(initialYear, currentYear))
  {
    var explorer := new DstExplorer(initialYear, currentYear);
    explorer.IncrementYear();
    explorer.DecrementYear();
    year := explorer.dstYear;
    table := explorer.DstData(lib);
  }
}
