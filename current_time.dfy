/** The ticking clock behind every live view: the current time, captured at
    start, on every tick of a recurring timer, and on demand. The host's clock
    is the `now` argument of each step and the timer is driven by explicit
    `Tick` calls. */
module CurrentTime {
  import opened Results
  import opened Constants

  /** The interval the clock asks for: the caller's, or `REAL_TIME` when omitted. */
  function RequestedInterval(interval: Option<int>): (r: int)
    ensures interval.None? ==> r == REAL_TIME == 1000
    ensures interval.Some? ==> r == interval.value
  {
    if interval.Some? then interval.value else REAL_TIME
  }

  /** A non-positive interval is a mistake that is reported and replaced by the default. */
  predicate Warns(interval: int) { interval <= 0 }

  /** The interval actually used: always positive. */
  function EffectiveInterval(interval: int): (r: int)
    ensures r > 0
    ensures Warns(interval) ==> r == REAL_TIME
    ensures !Warns(interval) ==> r == interval
  {
    if interval <= 0 then REAL_TIME else interval
  }

  /** A recurring timer is set up only for an effective interval of at least 100 ms. */
  predicate Schedules(interval: int) { EffectiveInterval(interval) >= 100 }

  /** Which requested intervals tick: the non-positive ones (through the default)
      and those of 100 ms or more; 1 to 99 ms neither ticks nor warns. */
  lemma ScheduleCases(interval: int)
    ensures Schedules(interval) <==> interval <= 0 || interval >= 100
    ensures 0 < interval < 100 ==> !Schedules(interval) && !Warns(interval)
  {
  }

  class Clock {
    var currentTime: int
    /** The id of the recurring timer, `None` for null; a set id is positive. */
    var intervalHandle: Option<nat>
    /** The period of the recurring timer, present exactly when there is one. */
    var tickEvery: Option<int>
    /** How many interval warnings have been written to the console. */
    var warnings: nat

    ghost predicate Valid()
      reads this
    {
      && (intervalHandle.Some? <==> tickEvery.Some?)
      && (intervalHandle.Some? ==> intervalHandle.value > 0 && tickEvery.value >= 100)
    }

    /** The state before the effect first runs: the time of the first render, no timer. */
    constructor (now: int)
      ensures Valid()
      ensures currentTime == now && intervalHandle == None && tickEvery == None && warnings == 0
    {
      currentTime := now;
      intervalHandle := None;
      tickEvery := None;
      warnings := 0;
    }

    /** The effect: validate the interval, capture the time, and set up the
        recurring timer (whose id the host hands out as `handle`) when the
        interval is long enough. */
    method Start(interval: int, now: int, handle: nat)
      requires Valid() && intervalHandle.None?
      requires handle > 0
      modifies this
      ensures Valid()
      ensures currentTime == now
      ensures warnings == old(warnings) + (if Warns(interval) then 1 else 0)
      ensures Schedules(interval) ==> intervalHandle == Some(handle) && tickEvery == Some(EffectiveInterval(interval))
      ensures !Schedules(interval) ==> intervalHandle == None && tickEvery == None
    {
      var actualInterval := interval;
      if actualInterval <= 0 {
        warnings := warnings + 1;
        actualInterval := REAL_TIME;
      }
      currentTime := now;
      if actualInterval >= 100 {
        intervalHandle := Some(handle);
        tickEvery := Some(actualInterval);
      }
    }

    /** The timer fires: only a scheduled timer does, and it captures the time. */
    method Tick(now: int)
      requires Valid()
      modifies this`currentTime
      ensures currentTime == if intervalHandle.Some? then now else old(currentTime)
    {
      if intervalHandle.Some? {
        currentTime := now;
      }
    }

    /** `refresh()`: capture the time whatever the timer is doing. */
    method Refresh(now: int)
      modifies this`currentTime
      ensures currentTime == now
    {
      currentTime := now;
    }

    /** The effect's cleanup: clear the timer it set up, if any, and forget its
        id. Returns the id handed to `clearInterval`, `None` when none was. */
    method Cleanup() returns (cleared: Option<nat>)
      requires Valid()
      modifies this`intervalHandle, this`tickEvery
      ensures Valid()
      ensures cleared == old(intervalHandle)
      ensures intervalHandle == None && tickEvery == None
    {
      cleared := None;
      if intervalHandle.Some? && intervalHandle.value != 0 {
        cleared := intervalHandle;
        intervalHandle := None;
        tickEvery := None;
      }
    }
  }

  /** A default clock started at `t1`, ticking at `t2`, refreshed at `t3` and
      then unmounted shows `t3` even when a late tick arrives at `t4`. */
  method TickRefreshStop(t0: int, t1: int, t2: int, t3: int, t4: int) returns (shown: int, scheduled: bool)
    ensures scheduled
    ensures shown == t3
  {
    var clock := new Clock(t0);
    clock.Start(RequestedInterval(None), t1, 1);
    scheduled := clock.intervalHandle.Some?;
    clock.Tick(t2);
    clock.Refresh(t3);
    var cleared := clock.Cleanup();
    clock.Tick(t4);
    shown := clock.currentTime;
  }

  /** A clock asked for a period of 1 to 99 ms captures the time once at
      start, sets up no timer, warns nothing, and so ignores ticks. */
  method TooFastNeverTicks(interval: int, t0: int, t1: int, t2: int) returns (shown: int, warned: nat, scheduled: bool)
    requires 0 < interval < 100
    ensures shown == t1 && warned == 0 && !scheduled
  {
    var clock := new Clock(t0);
    clock.Start(interval, t1, 1);
    scheduled := clock.intervalHandle.Some?;
    clock.Tick(t2);
    shown := clock.currentTime;
    warned := clock.warnings;
  }

  /** A non-positive period is reported once and runs on the default period. */
  method NonPositiveFallsBack(interval: int, t0: int, t1: int) returns (period: Option<int>, warned: nat)
    requires interval <= 0
    ensures period == Some(REAL_TIME) && warned == 1
  {
    var clock := new Clock(t0);
    clock.Start(interval, t1, 1);
    period := clock.tickEvery;
    warned := clock.warnings;
  }
}
