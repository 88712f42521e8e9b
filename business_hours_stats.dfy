/** The business-hours statistics: how many displayed locations are inside
    working hours or observing DST, and what share of the total each is. */
module BusinessHoursStats {
  import opened TimezoneOperations
  import opened Sequences

  /** `Math.round(count / total * 100)` for a non-empty list, read exactly:
      the percentage rounded half up; 0 for an empty list. */
  function RoundedPercentage(count: nat, total: nat): (p: nat)
    ensures total == 0 ==> p == 0
    ensures total > 0 ==> 2 * total * p <= 200 * count + total < 2 * total * (p + 1)
  {
    if total > 0 then (200 * count + total) / (2 * total) else 0
  }

  /** A share of a list lies in [0, 100]: none is 0 and all is 100. */
  lemma PercentageBounds(count: nat, total: nat)
    requires count <= total
    ensures RoundedPercentage(count, total) <= 100
    ensures count == 0 ==> RoundedPercentage(count, total) == 0
    ensures count == total ==> RoundedPercentage(count, total) == if total > 0 then 100 else 0
  {
    var p := RoundedPercentage(count, total);
    if total > 0 {
      assert 2 * total * p <= 200 * count + total <= 200 * total + total < 2 * total * 101;
      MulMonotone(2 * total, p, 101);
      if count == 0 {
        assert 2 * total * p < 2 * total * 1;
        MulMonotone(2 * total, p, 1);
      }
      if count == total {
        assert 2 * total * 100 < 2 * total * (p + 1);
        MulMonotone(2 * total, 100, p + 1);
      }
    }
  }

  /** Multiplying by a positive factor keeps a strict order, read backwards. */
  lemma MulMonotone(k: nat, a: nat, b: nat)
    requires k > 0 && k * a < k * b
    ensures a < b
  {
  }

  datatype Stats = Stats(
    businessHoursCount: nat,
    dstActiveCount: nat,
    totalLocations: nat,
    businessHoursPercentage: nat,
    dstActivePercentage: nat,
    hasBusinessHours: bool,
    hasDstActive: bool)

  function InWorkingHours(data: TimezoneDisplayData): bool { data.inWorkingHours }

  function DstActive(data: TimezoneDisplayData): bool { data.isDst }

  /** The statistics of a list of display records. */
  function UseBusinessHoursStats(timezoneData: seq<TimezoneDisplayData>): (r: Stats)
    ensures r.totalLocations == |timezoneData|
    // each count is the number of records with that flag set
    ensures r.businessHoursCount == Count(timezoneData, InWorkingHours)
    ensures r.dstActiveCount == Count(timezoneData, DstActive)
    ensures r.businessHoursCount <= r.totalLocations && r.dstActiveCount <= r.totalLocations
    ensures r.hasBusinessHours <==> r.businessHoursCount > 0
    ensures r.hasDstActive <==> r.dstActiveCount > 0
    ensures r.hasBusinessHours <==> exists i :: 0 <= i < |timezoneData| && timezoneData[i].inWorkingHours
    ensures r.hasDstActive <==> exists i :: 0 <= i < |timezoneData| && timezoneData[i].isDst
    ensures r.businessHoursPercentage == RoundedPercentage(r.businessHoursCount, r.totalLocations)
    ensures r.dstActivePercentage == RoundedPercentage(r.dstActiveCount, r.totalLocations)
    ensures r.businessHoursPercentage <= 100 && r.dstActivePercentage <= 100
    ensures (forall i :: 0 <= i < |timezoneData| ==> timezoneData[i].inWorkingHours)
            <==> r.businessHoursCount == r.totalLocations
    ensures (forall i :: 0 <= i < |timezoneData| ==> timezoneData[i].isDst)
            <==> r.dstActiveCount == r.totalLocations
  {
    var businessHoursCount := |Filter(timezoneData, InWorkingHours)|;
    var dstActiveCount := |Filter(timezoneData, DstActive)|;
    var totalLocations := |timezoneData|;
    CountExtremes(timezoneData, InWorkingHours);
    CountExtremes(timezoneData, DstActive);
    PercentageBounds(businessHoursCount, totalLocations);
    PercentageBounds(dstActiveCount, totalLocations);
    Stats(
      businessHoursCount,
      dstActiveCount,
      totalLocations,
      RoundedPercentage(businessHoursCount, totalLocations),
      RoundedPercentage(dstActiveCount, totalLocations),
      businessHoursCount > 0,
      dstActiveCount > 0)
  }
}
