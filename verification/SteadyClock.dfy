module SteadyClock {
  import opened MachineInts

  /** A sleep: the instant at which it was asked for, and the one it is to last to. */
  datatype Sleep = Sleep(from: int, until: int)

  /** A steady clock counting nanoseconds from a non-negative epoch. It may advance by any amount
      between two readings and never goes back. `slept` records the sleeps asked for. */
  class Clock {
    var now: int64
    ghost var slept: seq<Sleep>

    ghost predicate Valid()
      reads this`now
    {
      0 <= now
    }

    constructor (epoch: int64)
      requires 0 <= epoch
      ensures Valid() && now == epoch && slept == []
    {
      now := epoch;
      slept := [];
    }

    method Now() returns (t: int64)
      requires Valid()
      modifies this`now
      ensures Valid() && old(now) <= now == t
    {
      var later: int64 := *;
      if now < later {
        now := later;
      }
      t := now;
    }

    /** The end of a sleep of `wait` that began at `from`: at least `wait` has passed. A sleep that
        would end past the last instant the clock can represent does not end. */
    method WakeFrom(from: int64, wait: int64) returns (woke: bool)
      requires Valid() && 0 <= from <= now && 0 <= wait
      modifies this
      ensures Valid() && old(now) <= now
      ensures slept == old(slept) + [Sleep(from as int, from as int + wait as int)]
      ensures woke <==> from as int + wait as int < INT64_MAX as int
      ensures woke ==> from as int + wait as int <= now as int
    {
      slept := slept + [Sleep(from as int, from as int + wait as int)];
      if wait >= INT64_MAX - from {
        return false;
      }
      if now < from + wait {
        now := from + wait;
      }
      var oversleep := Now();
      woke := true;
    }

    /** A sleep of `ms` milliseconds from now. */
    method Pause(ms: int64) returns (woke: bool)
      requires Valid() && 0 <= ms
      modifies this
      ensures Valid() && old(now) <= now
      ensures slept == old(slept) + [Sleep(old(now) as int, old(now) as int + ms as int * 1_000_000)]
      ensures woke <==> old(now) as int + ms as int * 1_000_000 < INT64_MAX as int
      ensures woke ==> old(now) as int + ms as int * 1_000_000 <= now as int
    {
      if ms > (INT64_MAX - now) / 1_000_000 {
        slept := slept + [Sleep(now as int, now as int + ms as int * 1_000_000)];
        return false;
      }
      woke := WakeFrom(now, ms * 1_000_000);
    }
  }
}
