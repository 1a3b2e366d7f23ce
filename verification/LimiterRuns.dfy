/** Whole runs of the rate limiter: any number of threads, in whatever order the mutex admits
    them. One event is one locked section; since the mutex orders them and the clock is monotone,
    the instants at which they read the clock never go back. */
module LimiterRuns {
  import opened MachineInts
  import opened Scheduler
  import opened TokenBucket

  function Step(c: Config, b: Bucket, e: Event): Bucket
    requires c.refillMs > 0
  {
    match e
    case Took(at, _) => Take(c, b, at).0
    case WasReset(at) => Fresh(c, at)
  }

  /** The bucket of a limiter constructed at `start`, after the history. */
  function After(c: Config, start: int, h: History): Bucket
    requires c.refillMs > 0
  {
    if h == [] then Fresh(c, start) else Step(c, After(c, start, Front(h)), Last(h))
  }

  /** A history that a limiter constructed at `start` can produce. */
  ghost predicate Legal(c: Config, start: int, h: History)
    requires c.refillMs > 0
  {
    h == [] ||
    (&& Legal(c, start, Front(h))
     && EndTime(start, Front(h)) <= Last(h).at
     && (Last(h).Took? ==> Last(h).granted == Take(c, After(c, start, Front(h)), Last(h).at).1))
  }

  lemma Extend(c: Config, start: int, h: History, e: Event)
    requires c.refillMs > 0 && Legal(c, start, h) && EndTime(start, h) <= e.at
    requires e.Took? ==> e.granted == Take(c, After(c, start, h), e.at).1
    ensures Legal(c, start, h + [e])
    ensures After(c, start, h + [e]) == Step(c, After(c, start, h), e)
  {
    assert Front(h + [e]) == h;
  }

  lemma {:induction false} LegalPrefix(c: Config, start: int, h: History, m: nat)
    requires c.refillMs > 0 && Legal(c, start, h) && m <= |h|
    ensures Legal(c, start, h[..m])
    ensures EndTime(start, h[..m]) <= EndTime(start, h)
    decreases |h|
  {
    if m == |h| {
      assert h[..m] == h;
    } else {
      assert Front(h)[..m] == h[..m];
      LegalPrefix(c, start, Front(h), m);
    }
  }

  /** The bucket stays within its bounds after every legal history, resets included. */
  lemma {:induction false} AlwaysConsistent(c: Config, start: int, h: History)
    requires Sane(c) && Legal(c, start, h)
    ensures Consistent(c, After(c, start, h), EndTime(start, h))
    ensures start <= EndTime(start, h)
  {
    if h != [] {
      AlwaysConsistent(c, start, Front(h));
      if Last(h).Took? {
        TakeIsScheduled(c, After(c, start, Front(h)), Last(h).at);
      }
    }
  }

  /** REFINEMENT. Over whole runs the limiter grants in exactly the events in which the one-number
      scheduler does, and its bucket always stands for the scheduler's number. */
  lemma {:induction false} RunIsScheduled(c: Config, start: int, h: History)
    requires Sane(c) && Legal(c, start, h)
    ensures SaneRate(RateOf(c)) && Scheduled(RateOf(c), start, h)
    ensures EmptyAt(c, After(c, start, h)) == EmptyAfter(RateOf(c), start, h)
  {
    RateOfIsSane(c);
    if h != [] {
      RunIsScheduled(c, start, Front(h));
      AlwaysConsistent(c, start, Front(h));
      if Last(h).Took? {
        TakeIsScheduled(c, After(c, start, Front(h)), Last(h).at);
      }
    }
  }

  /** THE RATE BOUND. Whatever the threads do, the tokens handed out at clock times in [s, t]
      number at most a full bucket plus one per whole interval in the window, plus what each reset
      in the window put back. Without resets this is the limiter's promise as documented. */
  lemma RateBound(c: Config, start: int, h: History, s: int, t: int)
    requires Sane(c) && Legal(c, start, h) && s <= t
    ensures GrantsIn(h, s, t) <= c.maxTokens as int + (t - s) / (c.refillMs as int * 1_000_000)
                                 + ResetsIn(h, s, t) * c.initialTokens as int
  {
    RunIsScheduled(c, start, h);
    WindowBound(RateOf(c), start, h, s, t);
    BoundInTokens(GrantsIn(h, s, t), c.maxTokens as int, ResetsIn(h, s, t), c.initialTokens as int, t - s, Interval(c));
  }

  lemma BoundInTokens(grants: int, most: int, resets: int, initial: int, window: int, interval: int)
    requires interval > 0
    requires grants * interval <= most * interval + window + resets * (initial * interval)
    ensures grants <= most + window / interval + resets * initial
  {
    assert resets * (initial * interval) == (resets * initial) * interval;
    var put := resets * initial;
    Distribute(grants, -most, interval);
    Distribute(grants - most, -put, interval);
    QuotientBounds(window, interval, grants - most - put);
  }

  /** The rate bound cannot be improved: a limiter that starts full can hand out `n` tokens in the
      shortest window the bound permits for them, for every `n`. */
  lemma {:induction false} RateBoundIsTight(c: Config, start: int, n: nat)
    requires Sane(c) && c.initialTokens == c.maxTokens
    ensures var h := Greedy(Interval(c), c.maxTokens as int, start, n);
            && Legal(c, start, h)
            && GrantsIn(h, start, start + Max(0, n - c.maxTokens as int) * (c.refillMs as int * 1_000_000)) == n
  {
    var i, most := Interval(c), c.maxTokens as int;
    RateOfIsSane(c);
    GreedyIsScheduled(RateOf(c), most, start, n);
    if n > 0 {
      RateBoundIsTight(c, start, n - 1);
      ScheduledGrantIsLegal(c, start, Greedy(i, most, start, n));
    }
  }

  /** An event the scheduler would grant is one the limiter grants. */
  lemma ScheduledGrantIsLegal(c: Config, start: int, h: History)
    requires Sane(c) && h != [] && Legal(c, start, Front(h)) && Scheduled(RateOf(c), start, h) && IsGrant(Last(h))
    ensures Legal(c, start, h)
  {
    AlwaysConsistent(c, start, Front(h));
    RunIsScheduled(c, start, Front(h));
    TakeIsScheduled(c, After(c, start, Front(h)), Last(h).at);
  }

  // ---------------------------------------------------------------- conservation

  ghost predicate NeverSaturates(c: Config, start: int, h: History)
    requires Sane(c)
  {
    h == [] || (NeverSaturates(c, start, Front(h))
                && (Last(h).Took? ==> !Saturates(c, After(c, start, Front(h)), Last(h).at)))
  }

  lemma {:induction false} NothingForfeited(c: Config, start: int, h: History)
    requires Sane(c) && Legal(c, start, h) && NoResets(h) && NeverSaturates(c, start, h)
    ensures Forfeited(RateOf(c), start, h) == 0
  {
    if h != [] {
      var p, e := Front(h), Last(h);
      assert e == h[|h| - 1];
      NothingForfeited(c, start, p);
      AlwaysConsistent(c, start, p);
      RunIsScheduled(c, start, p);
      OnlySaturationForfeits(c, After(c, start, p), e.at);
    }
  }

  /** Time thrown away up to and including a refill at `t`. */
  ghost function Lost(c: Config, start: int, h: History, t: int): int
    requires c.refillMs > 0
  {
    Forfeited(RateOf(c), start, h) + ForfeitedAt(c, After(c, start, h), t)
  }

  /** CONSERVATION. Without resets, tokens granted so far plus tokens a refill at `t` leaves are
      exactly the initial tokens plus one per whole interval of the time that was not thrown away
      at a full bucket. So the two truncating divisions lose no fractional time, and nothing at all
      is lost as long as no refill saturates. */
  lemma Conservation(c: Config, start: int, h: History, t: int)
    requires Sane(c) && Legal(c, start, h) && NoResets(h) && EndTime(start, h) <= t
    ensures Lost(c, start, h, t) >= 0
    ensures GrantsIn(h, start, t) + Refill(c, After(c, start, h), t).tokens
              == c.initialTokens as int + (t - start - Lost(c, start, h, t)) / (c.refillMs as int * 1_000_000)
    ensures NeverSaturates(c, start, h) && !Saturates(c, After(c, start, h), t) ==> Lost(c, start, h, t) == 0
  {
    var b, i, g, initial := After(c, start, h), Interval(c), GrantsIn(h, start, t), c.initialTokens as int;
    AlwaysConsistent(c, start, h);
    RunIsScheduled(c, start, h);
    TimeIsConserved(RateOf(c), start, h);
    WindowCoversHistory(RateOf(c), start, h, t);
    OnlySaturationForfeits(c, b, t);
    RefillIsCatchUp(c, b, t);
    if NeverSaturates(c, start, h) {
      NothingForfeited(c, start, h);
    }
    TokensFromTime(t - CatchUp(RateOf(c), EmptyAt(c, b), t), t - start - Lost(c, start, h, t), initial, g, i);
  }

  lemma TokensFromTime(credit: int, kept: int, initial: int, granted: int, i: int)
    requires i > 0 && credit == kept + initial * i - granted * i
    ensures granted + credit / i == initial + kept / i
  {
    var net := initial - granted;
    Distribute(initial, -granted, i);
    assert credit == kept + net * i;
    QuotientShift(kept, i, net);
  }

  /** The bound since construction, and when it binds: an attempt is refused exactly when the whole
      allowance for the time kept has been handed out. */
  lemma {:induction false} RefusedOnlyWhenSpent(c: Config, start: int, h: History, t: int)
    requires Sane(c) && Legal(c, start, h) && NoResets(h) && EndTime(start, h) <= t
    ensures GrantsIn(h, start, t) <= c.initialTokens as int + (t - start) / (c.refillMs as int * 1_000_000)
    ensures !Take(c, After(c, start, h), t).1 <==>
            GrantsIn(h, start, t)
              == c.initialTokens as int + (t - start - Lost(c, start, h, t)) / (c.refillMs as int * 1_000_000)
  {
    Conservation(c, start, h, t);
    AlwaysConsistent(c, start, h);
    RefusedWhenEmpty(c, After(c, start, h), t);
    QuotientMonotone(t - start - Lost(c, start, h, t), t - start, Interval(c));
  }

  lemma RefusedWhenEmpty(c: Config, b: Bucket, t: int)
    requires Sane(c) && Consistent(c, b, t)
    ensures Refill(c, b, t).tokens >= 0
    ensures !Take(c, b, t).1 <==> Refill(c, b, t).tokens == 0
  {
    RefillIsCatchUp(c, b, t);
  }

  // ---------------------------------------------------------------- failed polls

  /** The history without its unsuccessful attempts. */
  function WithoutFailures(h: History): History {
    if h == [] then []
    else WithoutFailures(Front(h)) + (if Last(h).Took? && !Last(h).granted then [] else [Last(h)])
  }

  /** Polling in vain is invisible over whole runs: dropping every unsuccessful attempt leaves a
      history the limiter could equally have produced, and a bucket that refills to the same. */
  lemma {:induction false} FailuresAreInvisible(c: Config, start: int, h: History, t: int)
    requires Sane(c) && Legal(c, start, h) && EndTime(start, h) <= t
    ensures Legal(c, start, WithoutFailures(h)) && EndTime(start, WithoutFailures(h)) <= EndTime(start, h)
    ensures Refill(c, After(c, start, WithoutFailures(h)), t) == Refill(c, After(c, start, h), t)
    decreases |h|
  {
    if h != [] {
      var p, e, q := Front(h), Last(h), WithoutFailures(Front(h));
      AlwaysConsistent(c, start, p);
      if e.Took? && !e.granted {
        assert WithoutFailures(h) == q;
        FailuresAreInvisible(c, start, p, t);
        FailedStepRefills(c, After(c, start, p), e, t);
      } else {
        assert WithoutFailures(h) == q + [e];
        FailuresAreInvisible(c, start, p, e.at);
        SameStep(c, After(c, start, q), After(c, start, p), e);
        Extend(c, start, q, e);
      }
    }
  }

  lemma FailedStepRefills(c: Config, b: Bucket, e: Event, t: int)
    requires Sane(c) && Consistent(c, b, e.at) && e.at <= t && e.Took? && !Take(c, b, e.at).1
    ensures Refill(c, Step(c, b, e), t) == Refill(c, b, t)
  {
    RefillIsPathIndependent(c, b, e.at, t);
  }

  lemma SameStep(c: Config, b: Bucket, b': Bucket, e: Event)
    requires c.refillMs > 0 && Refill(c, b, e.at) == Refill(c, b', e.at)
    ensures Step(c, b, e) == Step(c, b', e) && Take(c, b, e.at) == Take(c, b', e.at)
  {
  }

  // ---------------------------------------------------------------- charging a waiting thread

  /** If nothing was granted and nothing reset between two points of a run, the bucket only
      refilled between them. */
  lemma {:induction false} QuietStretchOnlyRefills(c: Config, start: int, h: History, m: nat, t: int)
    requires Sane(c) && Legal(c, start, h) && EndTime(start, h) <= t
    requires m <= |h| && Charges(h) == Charges(h[..m])
    ensures Refill(c, After(c, start, h), t) == Refill(c, After(c, start, h[..m]), t)
    decreases |h|
  {
    if m == |h| {
      assert h[..m] == h;
    } else {
      var p, e := Front(h), Last(h);
      assert p[..m] == h[..m];
      ChargesMonotone(p, m);
      QuietStretchOnlyRefills(c, start, p, m, t);
      AlwaysConsistent(c, start, p);
      RefillIsPathIndependent(c, After(c, start, p), e.at, t);
    }
  }

  lemma {:induction false} ChargesMonotone(h: History, m: nat)
    requires m <= |h|
    ensures Charges(h[..m]) <= Charges(h)
    decreases |h|
  {
    if m == |h| {
      assert h[..m] == h;
    } else {
      assert Front(h)[..m] == h[..m];
      ChargesMonotone(Front(h), m);
    }
  }

  /** A thread whose attempt at position `m` found the bucket empty, and which tries again once the
      next token was due, can be refused only because another locked section was granted a token or
      reset the bucket in between. */
  lemma RefusalIsCharged(c: Config, start: int, h: History, m: nat, t: int)
    requires Sane(c) && Legal(c, start, h) && EndTime(start, h) <= t && m <= |h|
    requires After(c, start, h[..m]).tokens == 0 && After(c, start, h[..m]).last + Interval(c) <= t
    requires !Take(c, After(c, start, h), t).1
    ensures Charges(h) > Charges(h[..m])
  {
    LegalPrefix(c, start, h, m);
    ChargesMonotone(h, m);
    AlwaysConsistent(c, start, h[..m]);
    NextTokenInstant(c, After(c, start, h[..m]), t);
    if Charges(h) == Charges(h[..m]) {
      QuietStretchOnlyRefills(c, start, h, m, t);
    }
  }
}
