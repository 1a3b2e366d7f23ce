/** The token-bucket limiter as its threads use it: two fields updated in place under a mutex, a
    clock that is read anew each time, and a loop that sleeps and retries. Field and clock
    arithmetic is done in the machine's own integer widths, so every intermediate value is proved
    to stay in range. */
module RateLimiting {
  import opened MachineInts
  import opened Sequences
  import opened Scheduler
  import opened TokenBucket
  import opened LimiterRuns
  import opened SteadyClock
  import opened Waiting

  class RateLimiter {
    const config: Config
    var tokens: uint16
    var lastRefill: int64

    ghost const start: int
    ghost var history: History
    ghost var mine: set<int>  // the events of the calling thread's own attempts

    ghost function State(): Bucket
      reads this
    {
      Bucket(tokens as int, lastRefill as int)
    }

    /** The fields are what the observed history left, and the history is one the specification
        allows. */
    ghost predicate Valid(clock: Clock)
      reads this, clock
    {
      && clock.Valid() && 0 <= lastRefill <= clock.now && 0 <= start
      && Sane(config)
      && Legal(config, start, history)
      && EndTime(start, history) <= clock.now as int
      && State() == After(config, start, history)
    }

    constructor (requested: Config, clock: Clock)
      requires clock.Valid()
      modifies clock`now
      ensures config == Sanitized(requested) && history == [] && mine == {} && start == clock.now as int
      ensures Valid(clock) && old(clock.now) <= clock.now
    {
      var sane := Sanitized(requested);
      var now := clock.Now();
      config := sane;
      tokens := sane.initialTokens;
      lastRefill := now;
      start := now as int;
      history, mine := [], {};
    }

    /** The body of `refill` once it has read the clock. Each intermediate stays in 64 bits. */
    method RefillAt(now: int64)
      requires Sane(config) && 0 <= lastRefill <= now && tokens <= config.maxTokens
      modifies this`tokens, this`lastRefill
      ensures State() == Refill(config, old(State()), now as int)
      ensures 0 <= lastRefill <= now && tokens <= config.maxTokens
    {
      EarnedFits(config, State(), now as int);
      if tokens >= config.maxTokens {
        lastRefill := now;
        return;
      }
      var earned := EarnedBy(config, tokens, lastRefill, now);
      if earned <= 0 {
        return;
      }
      var total: int64 := tokens as int64 + earned;
      if total >= config.maxTokens as int64 {
        tokens := config.maxTokens;
        lastRefill := now;
      } else {
        tokens := total as uint16;
        var credit: int64 := earned * config.refillMs * 1_000_000;
        lastRefill := lastRefill + credit;
      }
    }

    /** One locked section that tries to take a token at the instant it reads: on failure it
        reports how long to wait, from a second reading of the clock. */
    method TakeOrWaitTime(clock: Clock) returns (wait: Option<int64>)
      requires Valid(clock)
      modifies this`tokens, this`lastRefill, this`history, this`mine, clock`now
      ensures Valid(clock) && old(clock.now) <= clock.now
      ensures |history| == |old(history)| + 1 && history[..|old(history)|] == old(history)
      ensures mine == old(mine) + {|old(history)|}
      ensures Last(history).Took? && Last(history).granted == wait.None?
      ensures old(clock.now) as int <= Last(history).at <= clock.now as int
      ensures wait.Some? ==> tokens == 0
      ensures wait.Some? ==> wait.value as int == Max(WaitInterval(config) - (clock.now as int - lastRefill as int), 0)
    {
      AlwaysConsistent(config, start, history);
      var now := clock.Now();
      TakeIsScheduled(config, State(), now as int);
      var taken := tokens;
      RefillAt(now);
      Extend(config, start, history, Took(now as int, tokens > 0));
      mine, history := mine + {|history|}, history + [Took(now as int, tokens > 0)];
      if tokens > 0 {
        tokens := tokens - 1;
        return None;
      }
      var interval := if config.refillMs >= INT64_MAX / 1_000_000 then INT64_MAX else config.refillMs * 1_000_000;
      var later := clock.Now();
      var left := interval - (later - lastRefill);
      wait := Some(if left > 0 then left else 0);
    }

    method TryAcquire(clock: Clock) returns (ok: bool)
      requires Valid(clock)
      modifies this`tokens, this`lastRefill, this`history, this`mine, clock`now
      ensures Valid(clock) && old(clock.now) <= clock.now
      ensures |history| == |old(history)| + 1 && history[..|old(history)|] == old(history)
      ensures mine == old(mine) + {|old(history)|}
      ensures Last(history).Took? && Last(history).granted == ok
      ensures old(clock.now) as int <= Last(history).at <= clock.now as int
    {
      var wait := TakeOrWaitTime(clock);
      ok := wait.None?;
    }

    /** Reads the count that a refill would leave, without refilling. */
    method AvailableTokens(clock: Clock) returns (n: uint16)
      requires Valid(clock)
      modifies clock`now
      ensures Valid(clock) && old(clock.now) <= clock.now
      ensures n as int == Refill(config, State(), clock.now as int).tokens
      ensures n > 0 <==> Take(config, State(), clock.now as int).1
    {
      AlwaysConsistent(config, start, history);
      var now := clock.Now();
      AvailableFits(config, State(), now as int);
      var earned := EarnedBy(config, tokens, lastRefill, now);
      n := WithEarned(tokens, earned, config.maxTokens);
    }

    method Reset(clock: Clock)
      requires Valid(clock)
      modifies this`tokens, this`lastRefill, this`history, this`mine, clock`now
      ensures Valid(clock) && old(clock.now) <= clock.now
      ensures history == old(history) + [WasReset(clock.now as int)] && mine == old(mine)
      ensures tokens == config.initialTokens && lastRefill == clock.now
    {
      var now := clock.Now();
      Extend(config, start, history, WasReset(now as int));
      history := history + [WasReset(now as int)];
      tokens := config.initialTokens;
      lastRefill := now;
    }

    /** Other threads run while this one does not hold the mutex: any number of locked sections of
        any kind, of which at most `budget` are grants or resets. */
    method OthersRun(clock: Clock, budget: nat) returns (left: nat)
      requires Valid(clock)
      modifies this`tokens, this`lastRefill, this`history, this`mine, clock`now
      ensures Valid(clock) && old(clock.now) <= clock.now
      ensures left <= budget && old(history) <= history
      ensures Charges(history) == Charges(old(history)) + (budget - left) && mine == old(mine)
    {
      left := budget;
      var sections: nat := *;
      while sections > 0
        invariant Valid(clock) && old(clock.now) <= clock.now && mine == old(mine)
        invariant left <= budget && old(history) <= history
        invariant Charges(history) == Charges(old(history)) + (budget - left)
      {
        sections := sections - 1;
        ghost var before := history;
        var choice: int := *;
        if choice == 0 {
          var n := AvailableTokens(clock);
        } else if left == 0 {
          PollInVain(clock);
        } else if choice == 1 {
          Reset(clock);
          ChargesExtend(before, Last(history));
          left := left - 1;
        } else {
          var ok := OtherAttempt(clock);
          left := if ok then left - 1 else left;
        }
      }
    }

    /** Another thread's attempt. */
    method OtherAttempt(clock: Clock) returns (ok: bool)
      requires Valid(clock)
      modifies this`tokens, this`lastRefill, this`history, this`mine, clock`now
      ensures Valid(clock) && old(clock.now) <= clock.now && mine == old(mine)
      ensures old(history) <= history && Charges(history) == Charges(old(history)) + (if ok then 1 else 0)
    {
      ghost var before := history;
      ok := TryAcquire(clock);
      assert history == before + [Last(history)];
      ChargesExtend(before, Last(history));
      mine := old(mine);
    }

    /** Another thread's attempt, if it happens to find the bucket empty. */
    method PollInVain(clock: Clock)
      requires Valid(clock)
      modifies this`tokens, this`lastRefill, this`history, this`mine, clock`now
      ensures Valid(clock) && old(clock.now) <= clock.now
      ensures old(history) <= history && Charges(history) == Charges(old(history)) && mine == old(mine)
    {
      AlwaysConsistent(config, start, history);
      var now := clock.Now();
      if !Take(config, Bucket(tokens as int, lastRefill as int), now as int).1 {
        var e := Took(now as int, false);
        RefillAt(now);
        Extend(config, start, history, e);
        ChargesExtend(history, e);
        history := history + [e];
      }
    }

    /** One attempt of a waiting thread, other threads running before it gets the mutex. If the
        thread has `failed` before at `seen` and slept since, failing again is paid for. */
    method Attempt(clock: Clock, budget: nat, ghost failed: bool, ghost seen: nat, ghost mark: int)
        returns (wait: Option<int64>, left: nat)
      requires Valid(clock)
      requires failed ==> FailedBefore(config, start, history, clock.now as int, seen, mark, budget)
      modifies this`tokens, this`lastRefill, this`history, this`mine, clock`now
      ensures Valid(clock) && old(clock.now) <= clock.now
      ensures left <= budget && old(history) <= history
      ensures Charges(history) == Charges(old(history)) + (budget - left) + (if wait.None? then 1 else 0)
      ensures |history| > |old(history)| && Last(history).Took? && Last(history).granted == wait.None?
      ensures mine == old(mine) + {|history| - 1}
      ensures old(clock.now) as int <= Last(history).at <= clock.now as int
      ensures failed && wait.Some? ==> left < mark
      ensures wait.Some? ==> tokens == 0
      ensures wait.Some? ==> wait.value as int == Max(WaitInterval(config) - (clock.now as int - lastRefill as int), 0)
    {
      left := OthersRun(clock, budget);
      ghost var h, now := history, clock.now;
      if failed {
        FailedBeforeExtends(config, start, old(history), old(clock.now) as int, seen, mark, budget,
                            h, now as int, left);
      }
      wait := TakeOrWaitTime(clock);
      assert history == h + [Last(history)];
      assert Front(history) == h;
      ChargesExtend(h, Last(history));
      if failed && wait.Some? {
        SecondFailureIsCharged(config, start, h, now as int, seen, mark, left, Last(history).at);
      }
    }

    /** Sleep, other threads running meanwhile, after an attempt that left `empty` behind at `seen`. */
    method SleepFor(from: int64, wait: int64, clock: Clock, budget: nat, ghost seen: nat, ghost mark: int)
        returns (woke: bool, left: nat)
      requires Valid(clock) && 0 <= from <= clock.now && 0 <= wait && budget <= mark
      requires seen <= |history| && Charges(history) == Charges(history[..seen]) + (mark - budget)
      requires After(config, start, history[..seen]).tokens == 0
      requires from as int + wait as int < INT64_MAX as int ==>
                 After(config, start, history[..seen]).last + Interval(config) <= from as int + wait as int
      modifies this`tokens, this`lastRefill, this`history, this`mine, clock
      ensures Valid(clock) && old(clock.now) <= clock.now
      ensures clock.slept == old(clock.slept) + [Sleep(from as int, from as int + wait as int)] && mine == old(mine)
      ensures left <= budget && old(history) <= history
      ensures Charges(history) == Charges(old(history)) + (budget - left)
      ensures woke ==> FailedBefore(config, start, history, clock.now as int, seen, mark, left)
      ensures woke <==> from as int + wait as int < INT64_MAX as int
      ensures woke ==> from as int + wait as int <= clock.now as int
    {
      left := OthersRun(clock, budget);
      assert history[..seen] == old(history)[..seen];
      woke := clock.WakeFrom(from, wait);
    }

    /** A call on this limiter, for `Waiting`. */
    ghost function CallOf(since: int, from: nat, deadline: Option<int64>): Call {
      Call(config, start, since, from, if deadline.Some? then Some(deadline.value as int) else None)
    }

    /** Retry until a token is taken or the next sleep would overrun the deadline. `tries` are the refused
        attempts and `sleeps` the sleeps of the call; how they and the outcome hang together is `Ends`.
        Every pass after the second is paid for by a grant or reset of another thread since the pass before
        it, which is why the loop ends. */
    method AcquireUntil(deadline: Option<int64>, clock: Clock, budget: nat)
        returns (r: Waited, left: nat, ghost tries: seq<Try>, ghost sleeps: seq<Sleep>)
      requires Valid(clock) && (deadline.Some? ==> 0 <= deadline.value)
      modifies this`tokens, this`lastRefill, this`history, this`mine, clock
      ensures Valid(clock) && old(clock.now) <= clock.now && clock.slept == old(clock.slept) + sleeps
      ensures left <= budget && old(history) <= history
      ensures Charges(history) == Charges(old(history)) + (budget - left) + (if r == Acquired then 1 else 0)
      ensures Ends(CallOf(old(clock.now) as int, |old(history)|, deadline),
                   history, clock.now as int, tries, sleeps, r)
      ensures |tries| + (if r == Acquired then 1 else 0) <= 2 + (budget - left)
      ensures OnRecord(old(mine), tries, mine, r == Acquired, |history|)
    {
      left := budget;
      ghost var call := CallOf(clock.now as int, |history|, deadline);
      ghost var w := Wait(0, budget + 1, [], [], mine, clock.slept);
      while true
        invariant Valid(clock) && old(clock.now) <= clock.now
        invariant left <= budget && old(history) <= history
        invariant Charges(history) == Charges(old(history)) + (budget - left)
        invariant Going(call, history, clock.now as int, w, left, budget)
        invariant OnRecord(old(mine), w.tries, mine, false, |history|) && w.mine == old(mine)
        invariant clock.slept == old(clock.slept) + w.sleeps && w.slept == old(clock.slept)
        decreases w.mark
      {
        var done;
        done, left, w := RecordedPass(deadline, clock, left, call, w, budget);
        if done.Some? {
          r, tries, sleeps := done.value, w.tries, w.sleeps;
          return;
        }
      }
    }

    /** One pass of the loop, with the record of the thread's own attempts. `None`: another is to follow. */
    method RecordedPass(deadline: Option<int64>, clock: Clock, budget: nat, ghost call: Call, ghost w: Wait,
                        ghost all: nat)
        returns (done: Option<Waited>, left: nat, ghost w': Wait)
      requires Valid(clock) && (deadline.Some? ==> 0 <= deadline.value)
      requires call == CallOf(call.since, call.from, deadline)
      requires call.since <= clock.now as int && call.from <= |history|
      requires Going(call, history, clock.now as int, w, budget, all)
      requires OnRecord(w.mine, w.tries, mine, false, |history|) && clock.slept == w.slept + w.sleeps
      modifies this`tokens, this`lastRefill, this`history, this`mine, clock
      ensures Valid(clock) && old(clock.now) <= clock.now
      ensures SameStart(w, w') && clock.slept == w.slept + w'.sleeps
      ensures OnRecord(w.mine, w'.tries, mine, done == Some(Acquired), |history|)
      ensures left <= budget && old(history) <= history
      ensures Charges(history) == Charges(old(history)) + (budget - left) + (if done == Some(Acquired) then 1 else 0)
      ensures Passed(call, history, clock.now as int, w', left, all, done)
      ensures done.None? ==> w'.mark < w.mark
    {
      ghost var own, event := mine, 0;
      done, left, w', event := Pass(deadline, clock, budget, call, w, all);
      Recorded(w.mine, w.tries, own, w'.tries, mine, event, done == Some(Acquired), |history|);
    }

    /** The pass itself; its attempt is `event`. */
    method Pass(deadline: Option<int64>, clock: Clock, budget: nat, ghost call: Call, ghost w: Wait, ghost all: nat)
        returns (done: Option<Waited>, left: nat, ghost w': Wait, ghost event: int)
      requires Valid(clock) && (deadline.Some? ==> 0 <= deadline.value)
      requires call == CallOf(call.since, call.from, deadline)
      requires call.since <= clock.now as int && call.from <= |history|
      requires Going(call, history, clock.now as int, w, budget, all)
      requires clock.slept == w.slept + w.sleeps
      modifies this`tokens, this`lastRefill, this`history, this`mine, clock
      ensures Valid(clock) && old(clock.now) <= clock.now
      ensures SameStart(w, w') && clock.slept == w.slept + w'.sleeps
      ensures mine == old(mine) + {event}
      ensures done == Some(Acquired) ==> w' == w && event == |history| - 1
      ensures done != Some(Acquired) ==> OneTryMore(w.tries, w'.tries, event)
      ensures left <= budget && old(history) <= history
      ensures Charges(history) == Charges(old(history)) + (budget - left) + (if done == Some(Acquired) then 1 else 0)
      ensures Passed(call, history, clock.now as int, w', left, all, done)
      ensures done.None? ==> w'.mark < w.mark
    {
      ghost var h, at := history, clock.now as int;
      var wait;
      wait, left := TryOnce(clock, budget, call, w, all);
      event := |history| - 1;
      if wait.None? {
        done, w' := Some(Acquired), w;
        return;
      }
      done, left, w' := AfterRefusal(deadline, wait.value, clock, left, call, h, at, w, all);
    }

    /** The attempt of one pass. */
    method TryOnce(clock: Clock, budget: nat, ghost call: Call, ghost w: Wait, ghost all: nat)
        returns (wait: Option<int64>, left: nat)
      requires Valid(clock) && call.config == config && call.start == start
      requires call.since <= clock.now as int && call.from <= |history|
      requires Going(call, history, clock.now as int, w, budget, all)
      modifies this`tokens, this`lastRefill, this`history, this`mine, clock`now
      ensures Valid(clock) && old(clock.now) <= clock.now
      ensures left <= budget && old(history) <= history && |old(history)| < |history|
      ensures mine == old(mine) + {|history| - 1}
      ensures Charges(history) == Charges(old(history)) + (budget - left) + (if wait.None? then 1 else 0)
      ensures wait.None? ==> Passed(call, history, clock.now as int, w, left, all, Some(Acquired))
      ensures wait.Some? ==> Last(history).Took? && !Last(history).granted
      ensures wait.Some? ==> old(clock.now) as int <= Last(history).at <= clock.now as int
      ensures wait.Some? ==> left < w.mark && tokens == 0
      ensures wait.Some? ==> wait.value as int == Max(WaitInterval(config) - (clock.now as int - lastRefill as int), 0)
    {
      ghost var h, at := history, clock.now as int;
      wait, left := Attempt(clock, budget, w.tries != [], w.seen, w.mark);
      if wait.None? {
        GrantEnds(call, h, at, w.tries, w.sleeps, history, clock.now as int);
      }
    }

    /** What an attempt that was refused leads to: giving up, a sleep that does not end, or (`None`) one
        that does. */
    method AfterRefusal(deadline: Option<int64>, wait: int64, clock: Clock, budget: nat, ghost call: Call,
                        ghost h: History, ghost at: int, ghost w: Wait, ghost all: nat)
        returns (done: Option<Waited>, left: nat, ghost w': Wait)
      requires Valid(clock) && (deadline.Some? ==> 0 <= deadline.value)
      requires call == CallOf(call.since, call.from, deadline) && call.since <= at && call.from <= |h|
      requires Awake(call, h, at, w.tries, w.sleeps) && h <= history && |h| < |history|
      requires Last(history).Took? && !Last(history).granted && at <= Last(history).at <= clock.now as int
      requires tokens == 0 && 0 <= wait && budget <= all && budget < w.mark && |w.tries| <= 1 + (all - w.mark)
      requires wait as int == Max(WaitInterval(config) - (clock.now as int - lastRefill as int), 0)
      requires clock.slept == w.slept + w.sleeps
      modifies this`tokens, this`lastRefill, this`history, this`mine, clock
      ensures Valid(clock) && old(clock.now) <= clock.now
      ensures SameStart(w, w') && clock.slept == w.slept + w'.sleeps
      ensures mine == old(mine) && OneTryMore(w.tries, w'.tries, |old(history)| - 1)
      ensures left <= budget && old(history) <= history && w'.mark == budget
      ensures Charges(history) == Charges(old(history)) + (budget - left)
      ensures Passed(call, history, clock.now as int, w', left, all, done) && done != Some(Acquired)
    {
      ghost var seen, last, read, refused := |history|, lastRefill as int, clock.now as int, history;
      assert history[..seen] == history;
      var now;
      now, left := ReadAfterUnlock(clock, budget, seen);
      ghost var t := Try(seen - 1, read, now as int);
      assert history[..seen] == refused;
      w' := w.(seen := seen, mark := budget, tries := w.tries + [t]);
      TryAppends(call, h, at, w.tries, w.sleeps, history, clock.now as int, t);
      assert WakeAt(call, history, t) == now as int + wait as int;
      if deadline.Some? && wait > deadline.value - now {
        done := Some(TimedOut);
        return;
      }
      if now as int + wait as int < INT64_MAX as int {
        SleepReachesTheToken(config, last, read, now as int, wait as int);
      }
      done, left, w' := SleepOut(now, wait, clock, left, call, w');
    }

    /** The sleep itself. */
    method SleepOut(now: int64, wait: int64, clock: Clock, budget: nat, ghost call: Call, ghost w: Wait)
        returns (done: Option<Waited>, left: nat, ghost w': Wait)
      requires Valid(clock) && 0 <= now <= clock.now && 0 <= wait && budget <= w.mark
      requires call.config == config && call.start == start
      requires Deciding(call, history, clock.now as int, w.tries, w.sleeps)
      requires !Overruns(call, history, LastTry(w.tries))
      requires LastTry(w.tries).now == now as int && WakeAt(call, history, LastTry(w.tries)) == now as int + wait as int
      requires w.seen <= |history| && Charges(history) == Charges(history[..w.seen]) + (w.mark - budget)
      requires After(config, start, history[..w.seen]).tokens == 0
      requires now as int + wait as int < INT64_MAX as int ==>
                 After(config, start, history[..w.seen]).last + Interval(config) <= now as int + wait as int
      requires clock.slept == w.slept + w.sleeps
      modifies this`tokens, this`lastRefill, this`history, this`mine, clock
      ensures Valid(clock) && old(clock.now) <= clock.now
      ensures w' == w.(sleeps := w'.sleeps) && clock.slept == w.slept + w'.sleeps && mine == old(mine)
      ensures left <= budget && old(history) <= history
      ensures Charges(history) == Charges(old(history)) + (budget - left)
      ensures done.None? ==> FailedBefore(config, start, history, clock.now as int, w.seen, w.mark, left)
      ensures done.None? ==> Awake(call, history, clock.now as int, w.tries, w'.sleeps)
      ensures done.Some? ==> done.value == Asleep
      ensures done.Some? ==> Ends(call, history, clock.now as int, w.tries, w'.sleeps, Asleep)
    {
      ghost var h, at := history, clock.now as int;
      var woke;
      woke, left := SleepFor(now, wait, clock, budget, w.seen, w.mark);
      ghost var s := Sleep(now as int, now as int + wait as int);
      w' := w.(sleeps := w.sleeps + [s]);
      Assoc(w.slept, w.sleeps, [s]);
      DecidingStays(call, h, at, w.tries, w.sleeps, history, clock.now as int);
      SleepAppends(call, history, clock.now as int, w.tries, w.sleeps, s);
      done := if woke then None else Some(Asleep);
    }

    /** The reading of the clock that the deadline is compared with, after the mutex was released:
        other threads may run first. */
    method ReadAfterUnlock(clock: Clock, budget: nat, ghost seen: nat) returns (now: int64, left: nat)
      requires Valid(clock) && seen <= |history|
      modifies this`tokens, this`lastRefill, this`history, this`mine, clock`now
      ensures Valid(clock) && old(clock.now) <= now == clock.now
      ensures left <= budget && old(history) <= history && history[..seen] == old(history)[..seen]
      ensures mine == old(mine)
      ensures Charges(history) == Charges(old(history)) + (budget - left)
    {
      left := OthersRun(clock, budget);
      now := clock.Now();
    }

    /** Wait at most `maxWaitMs`: the deadline is that far from the instant of entry, cut off at the
        last instant the clock can represent. */
    method AcquireFor(maxWaitMs: int64, clock: Clock, budget: nat)
        returns (r: Waited, left: nat, ghost entered: int,
                 ghost tries: seq<Try>, ghost sleeps: seq<Sleep>)
      requires Valid(clock)
      modifies this`tokens, this`lastRefill, this`history, this`mine, clock
      ensures Valid(clock) && old(clock.now) as int <= entered <= clock.now as int
      ensures clock.slept == old(clock.slept) + sleeps
      ensures left <= budget && old(history) <= history
      ensures Charges(history) == Charges(old(history)) + (budget - left) + (if r == Acquired then 1 else 0)
      ensures Ends(Call(config, start, entered, |old(history)|, Some(DeadlineOf(entered, maxWaitMs as int))),
                   history, clock.now as int, tries, sleeps, r)
      ensures |tries| + (if r == Acquired then 1 else 0) <= 2 + (budget - left)
      ensures OnRecord(old(mine), tries, mine, r == Acquired, |history|)
      ensures forall k :: 0 <= k < |sleeps| ==>
                && sleeps[k].until < entered + (Max(maxWaitMs as int, 0) + 1) * 1_000_000
                && (maxWaitMs <= 0 ==> sleeps[k].until <= entered)
      ensures r != Acquired ==> tries != [] && LastTry(tries).event < |history|
      ensures r == TimedOut ==> LastWake(tries, |old(history)|, entered)
                                  > Min(entered + Max(maxWaitMs as int, 0) * 1_000_000, INT64_MAX as int)
      ensures r == Asleep ==> LastWake(tries, |old(history)|, entered)
                                < entered + (Max(maxWaitMs as int, 0) + 1) * 1_000_000
    {
      var now := clock.Now();
      var until := now;
      if maxWaitMs > 0 {
        var remaining := (INT64_MAX - now) / 1_000_000;
        until := if maxWaitMs >= remaining then INT64_MAX else now + maxWaitMs * 1_000_000;
      }
      entered := now as int;
      r, left, tries, sleeps := AcquireUntil(Some(until), clock, budget);
      KeepsToItsWait(config, start, entered, |old(history)|, maxWaitMs as int, history, clock.now as int, tries,
                     sleeps, r);
    }

    /** Where the sleep after the last refused attempt of a call would end. */
    ghost function LastWake(tries: seq<Try>, from: nat, entered: int): int
      requires tries != [] && LastTry(tries).event < |history| && config.refillMs > 0
      reads this
    {
      WakeAt(Call(config, start, entered, from, None), history, LastTry(tries))
    }

    /** Take a token, waiting as long as the configuration allows. */
    method Acquire(clock: Clock, budget: nat)
        returns (r: Waited, left: nat, ghost entered: int,
                 ghost tries: seq<Try>, ghost sleeps: seq<Sleep>)
      requires Valid(clock)
      modifies this`tokens, this`lastRefill, this`history, this`mine, clock
      ensures Valid(clock) && old(clock.now) as int <= entered <= clock.now as int
      ensures clock.slept == old(clock.slept) + sleeps
      ensures left <= budget && old(history) <= history
      ensures Charges(history) == Charges(old(history)) + (budget - left) + (if r == Acquired then 1 else 0)
      ensures Ends(Call(config, start, entered, |old(history)|, DeadlineFor(config, entered)),
                   history, clock.now as int, tries, sleeps, r)
      ensures |tries| + (if r == Acquired then 1 else 0) <= 2 + (budget - left)
      ensures OnRecord(old(mine), tries, mine, r == Acquired, |history|)
      ensures config.maxWaitMs.None? ==> r != TimedOut
      ensures config.maxWaitMs.Some? ==> forall k :: 0 <= k < |sleeps| ==>
                && sleeps[k].until < entered + (Max(config.maxWaitMs.value as int, 0) + 1) * 1_000_000
                && (config.maxWaitMs.value <= 0 ==> sleeps[k].until <= entered)
      ensures r != Acquired ==> tries != [] && LastTry(tries).event < |history|
      ensures config.maxWaitMs.Some? && r == TimedOut ==>
                LastWake(tries, |old(history)|, entered)
                  > Min(entered + Max(config.maxWaitMs.value as int, 0) * 1_000_000, INT64_MAX as int)
      ensures config.maxWaitMs.Some? && r == Asleep ==>
                LastWake(tries, |old(history)|, entered)
                  < entered + (Max(config.maxWaitMs.value as int, 0) + 1) * 1_000_000
    {
      entered := clock.now as int;
      if config.maxWaitMs.Some? {
        r, left, entered, tries, sleeps := AcquireFor(config.maxWaitMs.value, clock, budget);
      } else {
        r, left, tries, sleeps := AcquireUntil(None, clock, budget);
        NeverTimesOut(CallOf(entered, |old(history)|, None), history, clock.now as int, tries, sleeps, r);
      }
    }
  }

  /** The deadline of a wait of at most `ms` milliseconds: that far away, or at once, or the end of the
      clock if it is nearer than a whole millisecond more than that. */
  function DeadlineOf(entered: int, ms: int): int {
    if ms <= 0 then entered
    else if ms >= (INT64_MAX as int - entered) / NS_PER_MS then INT64_MAX as int
    else entered + ms * NS_PER_MS
  }

  /** Cutting off never adds a millisecond to the wait, nor takes anything from it that is on the clock; a
      wait of zero or less ends at once. */
  lemma DeadlineIsNear(entered: int, ms: int)
    requires 0 <= entered <= INT64_MAX as int
    ensures entered <= DeadlineOf(entered, ms) <= INT64_MAX as int
    ensures DeadlineOf(entered, ms) < entered + (Max(ms, 0) + 1) * 1_000_000
    ensures DeadlineOf(entered, ms) >= Min(entered + Max(ms, 0) * 1_000_000, INT64_MAX as int)
    ensures ms <= 0 ==> DeadlineOf(entered, ms) == entered
  {
    DivisionBrackets(INT64_MAX as int - entered, NS_PER_MS);
  }

  /** A call with that deadline keeps to its wait: no sleep ends a whole millisecond too late, none ends
      after the entry when no wait is allowed, and it gives up only where the next sleep would end too
      late, or past the end of the clock. */
  lemma {:induction false} KeepsToItsWait(c: Config, start: int, entered: int, from: nat, ms: int, h: History,
                                          upTo: int, tries: seq<Try>, sleeps: seq<Sleep>, r: Waited)
    requires Sane(c) && 0 <= entered <= INT64_MAX as int
    requires Ends(Call(c, start, entered, from, Some(DeadlineOf(entered, ms))), h, upTo, tries, sleeps, r)
    ensures forall k :: 0 <= k < |sleeps| ==>
              && sleeps[k].until < entered + (Max(ms, 0) + 1) * 1_000_000
              && (ms <= 0 ==> sleeps[k].until <= entered)
    ensures r != Acquired ==> tries != [] && LastTry(tries).event < |h|
    ensures r == TimedOut ==> WakeAt(Call(c, start, entered, from, None), h, LastTry(tries))
                                > Min(entered + Max(ms, 0) * 1_000_000, INT64_MAX as int)
    ensures r == Asleep ==> WakeAt(Call(c, start, entered, from, None), h, LastTry(tries))
                              < entered + (Max(ms, 0) + 1) * 1_000_000
  {
    var call := Call(c, start, entered, from, Some(DeadlineOf(entered, ms)));
    DeadlineIsNear(entered, ms);
    OutcomeIsDecided(call, h, upTo, tries, sleeps, r);
    if r != Acquired {
      assert Refused(call, h, upTo, LastTry(tries));
    }
  }

  lemma {:induction false} NeverTimesOut(call: Call, h: History, upTo: int, tries: seq<Try>, sleeps: seq<Sleep>,
                                         r: Waited)
    requires call.config.refillMs > 0 && Ends(call, h, upTo, tries, sleeps, r)
    ensures call.deadline.None? ==> r != TimedOut
    ensures r != Acquired ==> tries != [] && LastTry(tries).event < |h|
  {
    if r != Acquired {
      assert Refused(call, h, upTo, LastTry(tries));
    }
  }

  /** With no maximum wait there is no deadline. */
  function DeadlineFor(c: Config, entered: int): Option<int> {
    if c.maxWaitMs.None? then None else Some(DeadlineOf(entered, c.maxWaitMs.value as int))
  }

  /** THE RATE BOUND for a limiter object: it holds of whatever its threads have done to it so far. */
  lemma LimiterKeepsItsRate(l: RateLimiter, clock: Clock, s: int, t: int)
    requires l.Valid(clock) && s <= t
    ensures l.config.refillMs > 0
    ensures GrantsIn(l.history, s, t) <= l.config.maxTokens as int + (t - s) / (l.config.refillMs as int * 1_000_000)
                                         + ResetsIn(l.history, s, t) * l.config.initialTokens as int
  {
    RateBound(l.config, l.start, l.history, s, t);
  }

  /** At position `seen` of the history a thread found the bucket empty, by `now` it has slept past
      the instant the next token was due, and every grant or reset since is counted in
      `mark - left`. */
  ghost predicate FailedBefore(c: Config, start: int, h: History, now: int, seen: nat, mark: int, left: int)
    requires Sane(c)
  {
    && seen <= |h| && 0 <= left <= mark
    && After(c, start, h[..seen]).tokens == 0
    && After(c, start, h[..seen]).last + Interval(c) <= now
    && Charges(h) == Charges(h[..seen]) + (mark - left)
  }

  /** A waiting call between passes: where it last failed, what was left of the budget then, what it tried
      and slept, and the records of the thread's attempts and sleeps before it. */
  datatype Wait = Wait(seen: nat, mark: int, tries: seq<Try>, sleeps: seq<Sleep>, mine: set<int>, slept: seq<Sleep>)

  predicate SameStart(w: Wait, w': Wait) { w.mine == w'.mine && w.slept == w'.slept }

  /** The thread's own attempts, on record as `mine`, are those before the call, its refusals, and its
      grant, the last event, if it has one. */
  ghost predicate OnRecord(before: set<int>, tries: seq<Try>, mine: set<int>, granted: bool, n: nat) {
    mine == if granted then OwnEvents(before, tries) + {n - 1} else OwnEvents(before, tries)
  }

  ghost predicate Going(call: Call, h: History, now: int, w: Wait, left: nat, all: nat)
    requires Sane(call.config)
  {
    && left <= w.mark && left <= all && |w.tries| <= 1 + (all - w.mark)
    && (w.tries == [] ==> w.mark == all + 1)
    && (w.tries != [] ==> FailedBefore(call.config, call.start, h, now, w.seen, w.mark, left))
    && Awake(call, h, now, w.tries, w.sleeps)
  }

  lemma {:induction false} Recorded(start: set<int>, tries: seq<Try>, mine: set<int>, tries': seq<Try>,
                                    mine': set<int>, event: int, granted: bool, n: nat)
    requires mine == OwnEvents(start, tries) && mine' == mine + {event}
    requires if granted then tries' == tries && event == n - 1 else OneTryMore(tries, tries', event)
    ensures OnRecord(start, tries', mine', granted, n)
  {
    if !granted {
      OwnRefusal(start, tries, tries', event);
    }
  }

  /** What a pass leaves: another is to follow, or the call ends, after no more passes than are paid for. */
  ghost predicate Passed(call: Call, h: History, now: int, w: Wait, left: nat, all: nat, done: Option<Waited>)
    requires Sane(call.config)
  {
    match done
    case None => Going(call, h, now, w, left, all)
    case Some(r) =>
      && Ends(call, h, now, w.tries, w.sleeps, r)
      && |w.tries| + (if r == Acquired then 1 else 0) <= 2 + (all - left)
  }

  /** Other threads running in between only lengthens the history and spends the budget. */
  lemma FailedBeforeExtends(c: Config, start: int, h: History, now: int, seen: nat, mark: int, left: int,
                            h': History, now': int, left': int)
    requires Sane(c) && FailedBefore(c, start, h, now, seen, mark, left)
    requires h <= h' && now <= now' && 0 <= left' <= left && Charges(h') == Charges(h) + (left - left')
    ensures FailedBefore(c, start, h', now', seen, mark, left')
  {
    assert h'[..seen] == h[..seen];
  }

  /** A second failure is paid for. */
  lemma SecondFailureIsCharged(c: Config, start: int, h: History, now: int, seen: nat, mark: int, left: int, at: int)
    requires Sane(c) && Legal(c, start, h) && FailedBefore(c, start, h, now, seen, mark, left)
    requires now <= at && EndTime(start, h) <= at && !Take(c, After(c, start, h), at).1
    ensures left < mark
  {
    RefusalIsCharged(c, start, h, seen, at);
  }

  /** A sleep that ends on this clock ends no earlier than the next token's instant. */
  lemma SleepReachesTheToken(c: Config, last: int, now: int, from: int, wait: int)
    requires Sane(c) && 0 <= last <= now <= from
    requires wait == Max(WaitInterval(c) - (now - last), 0) && from + wait < INT64_MAX as int
    ensures last + Interval(c) <= from + wait
  {
  }

  /** Intervals earned since the last credit, in the clock's own integers. */
  function EarnedBy(c: Config, tokens: uint16, last: int64, now: int64): (earned: int64)
    requires Sane(c) && 0 <= last <= now && tokens <= c.maxTokens
    ensures earned as int == Earned(c, Bucket(tokens as int, last as int), now as int)
    ensures 0 <= earned <= now - last && earned < 0x1000_0000_0000_0000
  {
    EarnedFits(c, Bucket(tokens as int, last as int), now as int);
    (now - last) / 1_000_000 / c.refillMs
  }

  /** Tokens and earned ones, up to the maximum. */
  function WithEarned(tokens: uint16, earned: int64, max: uint16): (n: uint16)
    requires earned < 0x1000_0000_0000_0000
    ensures n as int == Min(tokens as int + Max(earned as int, 0), max as int)
  {
    var total: int64 := tokens as int64 + (if earned > 0 then earned else 0);
    if total <= max as int64 then total as uint16 else max
  }

  lemma AvailableFits(c: Config, b: Bucket, now: int)
    requires Sane(c) && Consistent(c, b, now)
    ensures Earned(c, b, now) >= 0
    ensures Min(b.tokens + Earned(c, b, now), c.maxTokens as int) == Refill(c, b, now).tokens
    ensures Refill(c, b, now).tokens > 0 <==> Take(c, b, now).1
  {
    EarnedFits(c, b, now);
    AvailableIsWhatARefillLeaves(c, b, now);
  }

  /** Counting earned intervals, and converting the credited ones back to nanoseconds, stays within
      the elapsed time at every step. */
  lemma EarnedFits(c: Config, b: Bucket, now: int)
    requires Sane(c) && Consistent(c, b, now)
    ensures var earned := Earned(c, b, now);
            && earned == (now - b.last) / 1_000_000 / c.refillMs as int
            && 0 <= earned <= earned * 1_000_000 <= now - b.last
            && 0 <= earned * c.refillMs as int <= earned * c.refillMs as int * 1_000_000 <= now - b.last
            && earned * c.refillMs as int * 1_000_000 == earned * (c.refillMs as int * NS_PER_MS)
  {
    var ms := (now - b.last) / NS_PER_MS;
    DivisionBrackets(now - b.last, NS_PER_MS);
    DivisionBrackets(ms, c.refillMs as int);
    MulMonotone(1, c.refillMs as int, ms / c.refillMs as int);
    MulMonotone(0, ms / c.refillMs as int, c.refillMs as int);
  }
}
