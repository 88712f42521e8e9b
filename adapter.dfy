/** The interface of the external `timezone-shift` library as the demo consumes it.
    The library's rules are not part of this model: a `Library` value bundles one
    arbitrary behaviour for each call, and every property proved elsewhere holds
    for every such behaviour. Each call may throw, so each returns a `Result`. */
module Adapter {
  import opened Results

  /** An absolute instant: milliseconds since the Unix epoch (a JS `Date`). */
  type Instant = int

  /** An IANA timezone identifier such as "Europe/London". */
  type Zone = string

  /** Calendar and clock fields local to one zone; `month` is 1-based. */
  datatype TimeParts = TimeParts(year: int, month: int, day: int, hour: int, minute: int, second: int)

  /** Preferred abbreviations; `dst` may be absent. */
  datatype Abbreviations = Abbreviations(standard: string, dst: Option<string>)

  /** Zone metadata; offsets are whole minutes east of UTC. */
  datatype Metadata = Metadata(
    standardOffset: int,
    dstOffset: Option<int>,
    preferredAbbreviations: Option<Abbreviations>)

  /** The two DST transition instants of one year. */
  datatype DstTransitions = DstTransitions(start: Instant, end: Instant)

  datatype Library = Library(
    toTimezoneParts: (Instant, Zone) -> Result<TimeParts>,
    fromTimezoneParts: (TimeParts, Zone) -> Result<Instant>,
    isDST: (Instant, Zone) -> Result<bool>,
    inWorkingHours: (Instant, Zone) -> Result<bool>,
    getTimezoneMetadata: Zone -> Result<Metadata>,
    // `None` is the library's `null`: a zone without daylight saving
    dstTransitionDates: (int, Zone) -> Result<Option<DstTransitions>>)

  /** The library reads back the wall-clock parts `parts` after resolving them
      in `zone` (or throws on them). This holds for parts that name a wall-clock
      time that exists once in `zone`, and for the earlier or later reading of a
      repeated hour; it fails for parts the library rolls over (month 13, minute
      75) or moves out of a daylight-saving gap, unless it throws on those. */
  ghost predicate ReadsBack(lib: Library, parts: TimeParts, zone: Zone)
  {
    lib.fromTimezoneParts(parts, zone).Ok? ==>
      lib.toTimezoneParts(lib.fromTimezoneParts(parts, zone).value, zone) == Ok(parts)
  }

  /** The library resolves the wall-clock parts of `t` in `zone` back to `t`.
      This fails for an instant in the hour that repeats when clocks go back,
      when the library resolves that hour to its other occurrence. */
  ghost predicate ResolvesBack(lib: Library, t: Instant, zone: Zone)
  {
    lib.toTimezoneParts(t, zone).Ok? ==>
      lib.fromTimezoneParts(lib.toTimezoneParts(t, zone).value, zone) == Ok(t)
  }
}
