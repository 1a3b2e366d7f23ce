/** What one call that waits for a token does, in terms of what can be observed of it: the refused
    attempts in the limiter's history, the sleeps in the clock's record, and the outcome. */
module Waiting {
  import opened MachineInts
  import opened Scheduler
  import opened TokenBucket
  import opened LimiterRuns
  import opened SteadyClock

  /** `Asleep`: the call sleeps past the end of the clock and does not return. */
  datatype Waited = Acquired | TimedOut | Asleep

  /** How long an empty bucket waits from its credited instant: one interval, capped where a
      64-bit count of nanoseconds ends. */
  function WaitInterval(c: Config): int {
    if c.refillMs >= INT64_MAX / 1_000_000 then INT64_MAX as int else c.refillMs as int * 1_000_000
  }

  /** A waiting call: on which limiter, from which instant and which length of its history on, and
      until when. */
  datatype Call = Call(config: Config, start: int, since: int, from: nat, deadline: Option<int>)

  /** A refused attempt: its event, the second reading that its wait is computed from, and the third
      that the deadline is compared at. */
  datatype Try = Try(event: nat, read: int, now: int)

  ghost predicate Refused(call: Call, h: History, upTo: int, t: Try) {
    && call.from <= t.event < |h| && h[t.event].Took? && !h[t.event].granted
    && call.since <= h[t.event].at <= t.read <= t.now <= upTo
  }

  /** Where the sleep after a refused attempt would end. */
  ghost function WakeAt(call: Call, h: History, t: Try): int
    requires call.config.refillMs > 0 && t.event < |h|
  {
    t.now + Max(WaitInterval(call.config) - (t.read - After(call.config, call.start, h[..t.event + 1]).last), 0)
  }

  ghost predicate Overruns(call: Call, h: History, t: Try)
    requires call.config.refillMs > 0 && t.event < |h|
  {
    call.deadline.Some? && WakeAt(call, h, t) > call.deadline.value
  }

  /** Attempt after attempt was refused, each no earlier than the sleep after the one before was to end. */
  ghost predicate Tried(call: Call, h: History, upTo: int, tries: seq<Try>)
    requires call.config.refillMs > 0
  {
    && (forall k :: 0 <= k < |tries| ==> Refused(call, h, upTo, tries[k]))
    && (forall k :: 1 <= k < |tries| ==> InTurn(call, h, tries, k))
  }

  ghost predicate InTurn(call: Call, h: History, tries: seq<Try>, k: nat)
    requires call.config.refillMs > 0 && 1 <= k < |tries|
  {
    && tries[k - 1].event < tries[k].event < |h|
    && WakeAt(call, h, tries[k - 1]) <= h[tries[k].event].at
  }

  /** The sleeps are those after the first attempts, none of which would overrun the deadline. */
  ghost predicate SleptAfter(call: Call, h: History, upTo: int, tries: seq<Try>, sleeps: seq<Sleep>)
    requires call.config.refillMs > 0 && Tried(call, h, upTo, tries)
  {
    && |sleeps| <= |tries|
    && forall k :: 0 <= k < |sleeps| ==>
         !Overruns(call, h, tries[k]) && sleeps[k] == Sleep(tries[k].now, WakeAt(call, h, tries[k]))
  }

  function LastTry(tries: seq<Try>): Try
    requires tries != []
  {
    tries[|tries| - 1]
  }

  /** The events of a thread's own attempts: those before the call, and its refusals. */
  function OwnEvents(before: set<int>, tries: seq<Try>): set<int> {
    if tries == [] then before
    else OwnEvents(before, tries[..|tries| - 1]) + {tries[|tries| - 1].event}
  }

  /** Besides those before the call there is one event per refusal: none is left out. */
  lemma {:induction false} OwnEventsAre(before: set<int>, tries: seq<Try>, e: int)
    ensures e in OwnEvents(before, tries) <==> e in before || exists k :: 0 <= k < |tries| && tries[k].event == e
  {
    if tries != [] {
      OwnEventsAre(before, tries[..|tries| - 1], e);
    }
  }

  ghost predicate OneTryMore(tries: seq<Try>, more: seq<Try>, event: int) {
    more != [] && more == tries + [LastTry(more)] && LastTry(more).event == event
  }

  lemma {:induction false} OwnRefusal(before: set<int>, tries: seq<Try>, more: seq<Try>, event: int)
    requires OneTryMore(tries, more, event)
    ensures OwnEvents(before, more) == OwnEvents(before, tries) + {event}
  {
    assert more[..|tries|] == tries;
  }

  /** Between passes: every refused attempt was slept after, and the last sleep is over. */
  ghost predicate Awake(call: Call, h: History, upTo: int, tries: seq<Try>, sleeps: seq<Sleep>)
    requires call.config.refillMs > 0
  {
    && Tried(call, h, upTo, tries) && SleptAfter(call, h, upTo, tries, sleeps) && |sleeps| == |tries|
    && (tries != [] ==> WakeAt(call, h, LastTry(tries)) <= upTo)
  }

  /** After a refused attempt that was not slept after yet. */
  ghost predicate Deciding(call: Call, h: History, upTo: int, tries: seq<Try>, sleeps: seq<Sleep>)
    requires call.config.refillMs > 0
  {
    Tried(call, h, upTo, tries) && SleptAfter(call, h, upTo, tries, sleeps) && |tries| == |sleeps| + 1
  }

  /** How the call ends. With a token: the last event is its grant, no earlier than the last sleep was to
      end. Timed out: the sleep after the last attempt would overrun the deadline. Asleep: that sleep
      would not, but ends past the end of the clock. */
  ghost predicate Ends(call: Call, h: History, upTo: int, tries: seq<Try>, sleeps: seq<Sleep>, r: Waited)
    requires call.config.refillMs > 0
  {
    match r
    case Acquired =>
      && Tried(call, h, upTo, tries) && SleptAfter(call, h, upTo, tries, sleeps) && |sleeps| == |tries|
      && |h| > call.from && IsGrant(Last(h)) && call.since <= Last(h).at
      && (tries != [] ==> LastTry(tries).event < |h| - 1 && WakeAt(call, h, LastTry(tries)) <= Last(h).at)
    case TimedOut =>
      Deciding(call, h, upTo, tries, sleeps) && Overruns(call, h, LastTry(tries))
    case Asleep =>
      && Tried(call, h, upTo, tries) && SleptAfter(call, h, upTo, tries, sleeps) && |sleeps| == |tries|
      && tries != [] && WakeAt(call, h, LastTry(tries)) >= INT64_MAX as int
  }

  // ---------------------------------------------------------------- the call step by step

  /** Later events and instants do not change what was tried. */
  lemma {:induction false} TriedStays(call: Call, h: History, upTo: int, tries: seq<Try>, h': History, upTo': int)
    requires call.config.refillMs > 0 && Tried(call, h, upTo, tries) && h <= h' && upTo <= upTo'
    ensures Tried(call, h', upTo', tries)
    ensures forall k :: 0 <= k < |tries| ==> WakeAt(call, h', tries[k]) == WakeAt(call, h, tries[k])
  {
    forall k | 0 <= k < |tries|
      ensures Refused(call, h', upTo', tries[k]) && WakeAt(call, h', tries[k]) == WakeAt(call, h, tries[k])
    {
      assert Refused(call, h, upTo, tries[k]);
      assert h'[..tries[k].event + 1] == h[..tries[k].event + 1];
    }
    forall k | 1 <= k < |tries| ensures InTurn(call, h', tries, k) {
      assert InTurn(call, h, tries, k);
      assert WakeAt(call, h', tries[k - 1]) == WakeAt(call, h, tries[k - 1]);
    }
  }

  lemma {:induction false} SleptStays(call: Call, h: History, upTo: int, tries: seq<Try>, sleeps: seq<Sleep>,
                                      h': History, upTo': int)
    requires call.config.refillMs > 0 && h <= h' && upTo <= upTo'
    requires Tried(call, h, upTo, tries) && SleptAfter(call, h, upTo, tries, sleeps)
    ensures Tried(call, h', upTo', tries) && SleptAfter(call, h', upTo', tries, sleeps)
    ensures forall k :: 0 <= k < |tries| ==> WakeAt(call, h', tries[k]) == WakeAt(call, h, tries[k])
  {
    TriedStays(call, h, upTo, tries, h', upTo');
  }

  lemma {:induction false} AwakeStays(call: Call, h: History, upTo: int, tries: seq<Try>, sleeps: seq<Sleep>,
                                      h': History, upTo': int)
    requires call.config.refillMs > 0 && Awake(call, h, upTo, tries, sleeps) && h <= h' && upTo <= upTo'
    ensures Awake(call, h', upTo', tries, sleeps)
  {
    SleptStays(call, h, upTo, tries, sleeps, h', upTo');
  }

  lemma {:induction false} DecidingStays(call: Call, h: History, upTo: int, tries: seq<Try>,
                                         sleeps: seq<Sleep>, h': History, upTo': int)
    requires call.config.refillMs > 0 && Deciding(call, h, upTo, tries, sleeps) && h <= h' && upTo <= upTo'
    ensures Deciding(call, h', upTo', tries, sleeps)
    ensures WakeAt(call, h', LastTry(tries)) == WakeAt(call, h, LastTry(tries))
  {
    SleptStays(call, h, upTo, tries, sleeps, h', upTo');
  }

  /** One more attempt that is refused. */
  lemma {:induction false} TryAppends(call: Call, h: History, upTo: int, tries: seq<Try>, sleeps: seq<Sleep>,
                   h': History, upTo': int, t: Try)
    requires call.config.refillMs > 0 && Awake(call, h, upTo, tries, sleeps) && h <= h' && upTo <= upTo'
    requires |h| <= t.event && Refused(call, h', upTo', t) && upTo <= h'[t.event].at
    ensures Deciding(call, h', upTo', tries + [t], sleeps)
    ensures LastTry(tries + [t]) == t
  {
    AwakeStays(call, h, upTo, tries, sleeps, h', upTo');
    var more := tries + [t];
    forall k | 1 <= k < |more| ensures InTurn(call, h', more, k) {
      if k == |tries| {
        assert Refused(call, h, upTo, LastTry(tries));
        TriedStays(call, h, upTo, tries, h', upTo');
      } else {
        assert InTurn(call, h', tries, k);
      }
    }
  }

  /** The attempt that is granted. */
  lemma {:induction false} GrantEnds(call: Call, h: History, upTo: int, tries: seq<Try>, sleeps: seq<Sleep>,
                                     h': History, upTo': int)
    requires call.config.refillMs > 0 && Awake(call, h, upTo, tries, sleeps) && h <= h' && upTo <= upTo'
    requires |h'| > |h| >= call.from && IsGrant(Last(h')) && upTo <= Last(h').at && call.since <= upTo
    ensures Ends(call, h', upTo', tries, sleeps, Acquired)
  {
    SleptStays(call, h, upTo, tries, sleeps, h', upTo');
    if tries != [] {
      assert Refused(call, h, upTo, LastTry(tries));
    }
  }

  /** The sleep after a refused attempt that does not overrun the deadline. */
  lemma {:induction false} SleepAppends(call: Call, h: History, upTo: int, tries: seq<Try>, sleeps: seq<Sleep>,
                                        s: Sleep)
    requires call.config.refillMs > 0 && Deciding(call, h, upTo, tries, sleeps)
    requires !Overruns(call, h, LastTry(tries))
    requires s == Sleep(LastTry(tries).now, WakeAt(call, h, LastTry(tries)))
    ensures s.until <= upTo ==> Awake(call, h, upTo, tries, sleeps + [s])
    ensures s.until >= INT64_MAX as int ==> Ends(call, h, upTo, tries, sleeps + [s], Asleep)
  {
    assert SleptAfter(call, h, upTo, tries, sleeps + [s]);
  }

  // ---------------------------------------------------------------- what the outcome means

  /** A call without a token has timed out if and only if the sleep after its last attempt would overrun
      the deadline, and is asleep if and only if it would not; and no sleep ends past the deadline. */
  lemma {:induction false} OutcomeIsDecided(call: Call, h: History, upTo: int, tries: seq<Try>,
                                            sleeps: seq<Sleep>, r: Waited)
    requires call.config.refillMs > 0 && Ends(call, h, upTo, tries, sleeps, r)
    ensures !r.Acquired? ==> tries != []
    ensures r.TimedOut? <==> !r.Acquired? && Overruns(call, h, LastTry(tries))
    ensures call.deadline.Some? ==> forall k :: 0 <= k < |sleeps| ==> sleeps[k].until <= call.deadline.value
  {
    if call.deadline.Some? {
      forall k | 0 <= k < |sleeps| ensures sleeps[k].until <= call.deadline.value {
        assert !Overruns(call, h, tries[k]);
      }
    }
    if r.Asleep? {
      assert !Overruns(call, h, tries[|tries| - 1]);
    }
  }

  /** The credited instant after a refused attempt is at most the instant of the attempt, and more than
      one interval before it never. */
  lemma {:induction false} RefusedBucket(call: Call, h: History, t: Try, upTo: int)
    requires Sane(call.config) && Legal(call.config, call.start, h) && Refused(call, h, upTo, t)
    ensures var b := After(call.config, call.start, h[..t.event + 1]);
            && b.tokens == 0 && b.last <= h[t.event].at < b.last + Interval(call.config)
  {
    var before, p := h[..t.event], h[..t.event + 1];
    LegalPrefix(call.config, call.start, h, t.event + 1);
    assert Front(p) == before && Last(p) == h[t.event];
    AlwaysConsistent(call.config, call.start, before);
    TakeIsScheduled(call.config, After(call.config, call.start, before), h[t.event].at);
  }

  /** No sleep is longer than the interval from where it starts: so a call that timed out had a deadline
      less than an interval away, and one that is asleep is less than an interval from the end of the clock. */
  lemma {:induction false} WakesWithinInterval(call: Call, h: History, upTo: int, t: Try)
    requires Sane(call.config) && Legal(call.config, call.start, h) && Refused(call, h, upTo, t)
    ensures t.now <= WakeAt(call, h, t) <= upTo + WaitInterval(call.config)
  {
    RefusedBucket(call, h, t, upTo);
  }

  lemma {:induction false} OutcomeHasCause(call: Call, h: History, upTo: int, tries: seq<Try>,
                                           sleeps: seq<Sleep>, r: Waited)
    requires Sane(call.config) && Legal(call.config, call.start, h) && Ends(call, h, upTo, tries, sleeps, r)
    ensures r.TimedOut? ==> call.deadline.Some? && call.deadline.value < upTo + WaitInterval(call.config)
    ensures r.Asleep? ==> upTo + WaitInterval(call.config) >= INT64_MAX as int
  {
    if !r.Acquired? {
      assert Refused(call, h, upTo, LastTry(tries));
      WakesWithinInterval(call, h, upTo, LastTry(tries));
    }
  }

  /** WHEN A CALL GIVES UP. With an interval below the cap, a call gives up after a refused attempt if and
      only if its deadline comes before the next token's instant, put off by the time between the two
      readings. If no time passes between them, it gives up before its deadline exactly when the token
      comes after it. */
  lemma {:induction false} GivesUpExactlyWhen(call: Call, h: History, upTo: int, t: Try)
    requires Sane(call.config) && Legal(call.config, call.start, h) && Refused(call, h, upTo, t)
    requires call.config.refillMs < INT64_MAX / 1_000_000 && call.deadline.Some?
    ensures var due := After(call.config, call.start, h[..t.event + 1]).last + Interval(call.config);
            && (Overruns(call, h, t) <==> call.deadline.value < Max(due, t.read) + (t.now - t.read))
            && (t.read == t.now < call.deadline.value ==> (Overruns(call, h, t) <==> call.deadline.value < due))
  {
    RefusedBucket(call, h, t, upTo);
  }

  /** A call on which no time passes, nothing else happening, is known beforehand from the bucket alone:
      it takes a token at once if and only if one is there ... */
  lemma {:induction false} UncontendedGrant(call: Call, h: History, at: int)
    requires Sane(call.config) && Legal(call.config, call.start, h) && EndTime(call.start, h) <= at
    requires call.since == at && call.from == |h|
    requires Available(call.config, After(call.config, call.start, h), at) > 0
    ensures Legal(call.config, call.start, h + [Took(at, true)])
    ensures Ends(call, h + [Took(at, true)], at, [], [], Acquired)
  {
    AlwaysConsistent(call.config, call.start, h);
    AvailableIsWhatARefillLeaves(call.config, After(call.config, call.start, h), at);
    Extend(call.config, call.start, h, Took(at, true));
  }

  /** ... and otherwise gives up at once if and only if the next token is due after the deadline. Giving up
      never waits, although the wait that was allowed is not over. */
  lemma {:induction false} UncontendedRefusal(call: Call, h: History, at: int)
    requires Sane(call.config) && Legal(call.config, call.start, h) && EndTime(call.start, h) <= at
    requires call.since == at && call.from == |h| && call.config.refillMs < INT64_MAX / 1_000_000
    requires call.deadline.Some? && Available(call.config, After(call.config, call.start, h), at) == 0
    ensures var (h', t) := (h + [Took(at, false)], Try(|h|, at, at));
            && Legal(call.config, call.start, h')
            && WakeAt(call, h', t) == NextToken(call.config, After(call.config, call.start, h), at) > at
            && (Ends(call, h', at, [t], [], TimedOut) <==> call.deadline.value < WakeAt(call, h', t))
  {
    var b := After(call.config, call.start, h);
    var h', t := h + [Took(at, false)], Try(|h|, at, at);
    AlwaysConsistent(call.config, call.start, h);
    AvailableIsWhatARefillLeaves(call.config, b, at);
    RefillIsCatchUp(call.config, b, at);
    Extend(call.config, call.start, h, Took(at, false));
    assert h'[..|h| + 1] == h';
    assert Refused(call, h', at, t);
  }

  /** When the next token of a bucket found empty at `at` is due. */
  ghost function NextToken(c: Config, b: Bucket, at: int): int
    requires c.refillMs > 0
  {
    Refill(c, b, at).last + Interval(c)
  }

  const HALF_WAY := Config(1, 1000, 0, Some(500))

  const HALF_SECOND := Call(HALF_WAY, 0, 0, 0, Some(500_000_000))

  lemma EmptyAtFirst()
    ensures Available(HALF_WAY, After(HALF_WAY, 0, []), 0) == 0
    ensures NextToken(HALF_WAY, After(HALF_WAY, 0, []), 0) == 1_000_000_000
  {
  }

  /** An empty bucket, one token a second, a wait of at most half a second: the call gives up without
      having waited at all. */
  lemma {:induction false} GivesUpWithoutWaiting()
    ensures Legal(HALF_WAY, 0, [Took(0, false)])
    ensures Ends(HALF_SECOND, [Took(0, false)], 0, [Try(0, 0, 0)], [], TimedOut)
    ensures WakeAt(HALF_SECOND, [Took(0, false)], Try(0, 0, 0)) == 1_000_000_000
  {
    var none: History := [];
    EmptyAtFirst();
    UncontendedRefusal(HALF_SECOND, none, 0);
    assert none + [Took(0, false)] == [Took(0, false)];
  }
}
