/** Histories of the rate limiter as an observer sees them, and the one-number scheduler that its
    runs are compared with. Nothing here mentions buckets, tokens kept or truncating division. */
module Scheduler {
  import opened MachineInts

  datatype Event = Took(at: int, granted: bool) | WasReset(at: int)

  /** The history records only what can be observed: when, and whether a token was handed out. */
  type History = seq<Event>

  function Front(h: History): History requires h != [] { h[..|h| - 1] }

  function Last(h: History): Event requires h != [] { h[|h| - 1] }

  function EndTime(start: int, h: History): int { if h == [] then start else Last(h).at }

  // ---------------------------------------------------------------- observations

  predicate IsGrant(e: Event) { e.Took? && e.granted }

  function GrantsIn(h: History, s: int, t: int): (n: nat)
    ensures n <= |h|
  {
    if h == [] then 0
    else GrantsIn(Front(h), s, t) + (if IsGrant(Last(h)) && s <= Last(h).at <= t then 1 else 0)
  }

  function ResetsIn(h: History, s: int, t: int): (n: nat)
    ensures n <= |h|
  {
    if h == [] then 0
    else ResetsIn(Front(h), s, t) + (if Last(h).WasReset? && s <= Last(h).at <= t then 1 else 0)
  }

  /** Everything that moves the next token further away for a waiting thread. */
  function Charges(h: History): (n: nat)
    ensures n <= |h|
  {
    if h == [] then 0
    else Charges(Front(h)) + (if IsGrant(Last(h)) || Last(h).WasReset? then 1 else 0)
  }

  lemma ChargesExtend(h: History, e: Event)
    ensures Charges(h + [e]) == Charges(h) + (if IsGrant(e) || e.WasReset? then 1 else 0)
  {
    assert Front(h + [e]) == h;
  }

  /** The grants in a window are the events in it that took a token. */
  lemma {:induction false} GrantsAreNumber(h: History, s: int, t: int)
    ensures GrantsIn(h, s, t) == |set i | 0 <= i < |h| && h[i].Took? && h[i].granted && s <= h[i].at <= t|
  {
    if h != [] {
      var p, n := Front(h), |h| - 1;
      GrantsAreNumber(p, s, t);
      var before := set i | 0 <= i < n && p[i].Took? && p[i].granted && s <= p[i].at <= t;
      var all := set i | 0 <= i < |h| && h[i].Took? && h[i].granted && s <= h[i].at <= t;
      assert all == before + (if h[n].Took? && h[n].granted && s <= h[n].at <= t then {n} else {});
    }
  }

  /** The resets in a window likewise. */
  lemma {:induction false} ResetsAreNumber(h: History, s: int, t: int)
    ensures ResetsIn(h, s, t) == |set i | 0 <= i < |h| && h[i].WasReset? && s <= h[i].at <= t|
  {
    if h != [] {
      var p, n := Front(h), |h| - 1;
      ResetsAreNumber(p, s, t);
      var before := set i | 0 <= i < n && p[i].WasReset? && s <= p[i].at <= t;
      var all := set i | 0 <= i < |h| && h[i].WasReset? && s <= h[i].at <= t;
      assert all == before + (if h[n].WasReset? && s <= h[n].at <= t then {n} else {});
    }
  }

  /** Grants and resets together. */
  lemma {:induction false} ChargesAreNumber(h: History)
    ensures Charges(h) == |set i | 0 <= i < |h| && (h[i].WasReset? || h[i].granted)|
  {
    if h != [] {
      var p, n := Front(h), |h| - 1;
      ChargesAreNumber(p);
      var before := set i | 0 <= i < n && (p[i].WasReset? || p[i].granted);
      var all := set i | 0 <= i < |h| && (h[i].WasReset? || h[i].granted);
      assert all == before + (if h[n].WasReset? || h[n].granted then {n} else {});
    }
  }

  // ---------------------------------------------------------------- the scheduler

  /** `interval` is the time one token is worth, `burst` that of a full bucket, `refund` that of
      the tokens a reset puts back. */
  datatype Rate = Rate(interval: int, burst: int, refund: int)

  ghost predicate SaneRate(r: Rate) { 0 < r.interval && 0 <= r.refund <= r.burst }

  /** Never fall behind the clock by more than a full bucket. */
  ghost function CatchUp(r: Rate, emptyAt: int, now: int): int { Max(emptyAt, now - r.burst) }

  /** The scheduler's number: the instant at which the bucket is empty. */
  ghost function EmptyAfter(r: Rate, start: int, h: History): int {
    if h == [] then start - r.refund
    else
      match Last(h)
      case Took(at, granted) => CatchUp(r, EmptyAfter(r, start, Front(h)), at) + (if granted then r.interval else 0)
      case WasReset(at) => at - r.refund
  }

  /** The clock never goes back, and a token is granted exactly when one interval has passed since
      the caught-up empty instant. */
  ghost predicate Scheduled(r: Rate, start: int, h: History) {
    h == [] ||
    (&& Scheduled(r, start, Front(h))
     && EndTime(start, Front(h)) <= Last(h).at
     && (Last(h).Took? ==>
           (Last(h).granted <==> CatchUp(r, EmptyAfter(r, start, Front(h)), Last(h).at) + r.interval <= Last(h).at)))
  }

  lemma {:induction false} EmptyInstantIsPast(r: Rate, start: int, h: History)
    requires SaneRate(r) && Scheduled(r, start, h)
    ensures EmptyAfter(r, start, h) <= EndTime(start, h)
  {
    if h != [] {
      EmptyInstantIsPast(r, start, Front(h));
    }
  }

  lemma {:induction false} NothingBefore(r: Rate, start: int, h: History, s: int, t: int)
    requires Scheduled(r, start, h) && (h == [] || Last(h).at < s)
    ensures GrantsIn(h, s, t) == 0 == ResetsIn(h, s, t)
  {
    if h != [] {
      NothingBefore(r, start, Front(h), s, t);
    }
  }

  /** After any event in the window, the scheduler's number has moved by one interval for every
      token handed out in it, less what resets put back. */
  lemma {:induction false} WindowPotential(r: Rate, start: int, h: History, s: int, t: int)
    requires SaneRate(r) && Scheduled(r, start, h)
    requires h != [] && s <= Last(h).at <= t
    ensures EmptyAfter(r, start, h) >= s - r.burst + GrantsIn(h, s, t) * r.interval - ResetsIn(h, s, t) * r.refund
  {
    var p := Front(h);
    EmptyInstantIsPast(r, start, p);
    Distribute(GrantsIn(p, s, t), 1, r.interval);
    Distribute(ResetsIn(p, s, t), 1, r.refund);
    if p != [] && s <= Last(p).at {
      WindowPotential(r, start, p, s, t);
    } else {
      NothingBefore(r, start, p, s, t);
    }
  }

  /** The time that the tokens handed out in [s, t] are worth is at most a full bucket, plus the
      window, plus what resets in the window put back. */
  lemma {:induction false} WindowBound(r: Rate, start: int, h: History, s: int, t: int)
    requires SaneRate(r) && Scheduled(r, start, h) && s <= t
    ensures GrantsIn(h, s, t) * r.interval <= r.burst + (t - s) + ResetsIn(h, s, t) * r.refund
  {
    if h != [] {
      if Last(h).at > t {
        WindowBound(r, start, Front(h), s, t);
      } else if Last(h).at < s {
        NothingBefore(r, start, h, s, t);
      } else {
        WindowPotential(r, start, h, s, t);
        EmptyInstantIsPast(r, start, h);
      }
    }
  }

  // ---------------------------------------------------------------- time accounting

  ghost predicate NoResets(h: History) {
    forall k :: 0 <= k < |h| ==> h[k].Took?
  }

  /** Total time thrown away because the bucket was full. */
  ghost function Forfeited(r: Rate, start: int, h: History): int {
    if h == [] then 0
    else
      var z := EmptyAfter(r, start, Front(h));
      Forfeited(r, start, Front(h)) + CatchUp(r, z, Last(h).at) - z
  }

  lemma {:induction false} WindowCoversHistory(r: Rate, start: int, h: History, t: int)
    requires Scheduled(r, start, h) && EndTime(start, h) <= t
    ensures GrantsIn(h, start, t) == GrantsIn(h, start, EndTime(start, h))
    ensures start <= EndTime(start, h)
    decreases |h|
  {
    if h != [] {
      WindowCoversHistory(r, start, Front(h), t);
      WindowCoversHistory(r, start, Front(h), Last(h).at);
    }
  }

  /** Without resets the scheduler's number is the initial one, plus an interval per token ever
      granted, plus the time thrown away: every nanosecond is accounted for. */
  lemma {:induction false} TimeIsConserved(r: Rate, start: int, h: History)
    requires SaneRate(r) && Scheduled(r, start, h) && NoResets(h)
    ensures EmptyAfter(r, start, h)
              == start - r.refund + GrantsIn(h, start, EndTime(start, h)) * r.interval + Forfeited(r, start, h)
    ensures Forfeited(r, start, h) >= 0
  {
    if h != [] {
      assert Last(h) == h[|h| - 1];
      TimeIsConserved(r, start, Front(h));
      WindowCoversHistory(r, start, Front(h), Last(h).at);
      Distribute(GrantsIn(Front(h), start, Last(h).at), 1, r.interval);
    }
  }

  // ---------------------------------------------------------------- the bound is reached

  /** Attempts as greedy as the bound allows: a full burst of `most` at `start`, then one per
      interval. */
  function Greedy(interval: int, most: nat, start: int, n: nat): History {
    if n == 0 then []
    else Greedy(interval, most, start, n - 1) + [Took(start + Max(0, n - most) * interval, true)]
  }

  lemma GreedyArithmetic(i: int, most: int, n: int, start: int)
    requires i > 0 && most >= 1 && n >= 1
    ensures var z, at := start + (n - 1 - most) * i, start + Max(0, n - most) * i;
            && Max(z, at - most * i) == z
            && z + i == start + (n - most) * i <= at
            && start <= start + Max(0, n - 1 - most) * i <= at
  {
    Distribute(n - 1 - most, 1, i);
    Distribute(Max(0, n - most), -most, i);
    MulMonotone(Max(0, n - most) - most, n - 1 - most, i);
    MulMonotone(n - most, Max(0, n - most), i);
    MulMonotone(Max(0, n - 1 - most), Max(0, n - most), i);
    MulMonotone(0, Max(0, n - 1 - most), i);
  }

  /** A scheduled history of `n` grants that ends at `end` and leaves the scheduler's number at `empty`. */
  ghost predicate Leaves(r: Rate, start: int, h: History, empty: int, end: int, n: nat) {
    && Scheduled(r, start, h) && EmptyAfter(r, start, h) == empty
    && EndTime(start, h) == end && GrantsIn(h, start, end) == n
  }

  lemma {:induction false} GreedyIsScheduled(r: Rate, most: nat, start: int, n: nat)
    requires SaneRate(r) && r.burst == most * r.interval == r.refund && most >= 1
    ensures Leaves(r, start, Greedy(r.interval, most, start, n),
                   start + (n - most) * r.interval, start + Max(0, n - most) * r.interval, n)
  {
    if n == 0 {
      GreedyBegins(r, most, start);
    } else {
      GreedyIsScheduled(r, most, start, n - 1);
      GreedyGoesOn(r, most, start, n);
    }
  }

  lemma {:induction false} GreedyBegins(r: Rate, most: nat, start: int)
    requires r.burst == most * r.interval == r.refund
    ensures Leaves(r, start, [], start + (0 - most) * r.interval, start + Max(0, 0 - most) * r.interval, 0)
  {
    NegatedProduct(most, r.interval);
  }

  lemma {:induction false} GreedyGoesOn(r: Rate, most: nat, start: int, n: nat)
    requires SaneRate(r) && r.burst == most * r.interval && most >= 1 && n >= 1
    requires Leaves(r, start, Greedy(r.interval, most, start, n - 1),
                    start + (n - 1 - most) * r.interval, start + Max(0, n - 1 - most) * r.interval, n - 1)
    ensures Leaves(r, start, Greedy(r.interval, most, start, n),
                   start + (n - most) * r.interval, start + Max(0, n - most) * r.interval, n)
  {
    var p := Greedy(r.interval, most, start, n - 1);
    var z, end := start + (n - 1 - most) * r.interval, start + Max(0, n - 1 - most) * r.interval;
    GreedyArithmetic(r.interval, most, n, start);
    OneGrantMore(r, start, p, z, end, n - 1, start + Max(0, n - most) * r.interval);
  }

  lemma NegatedProduct(a: int, k: int)
    ensures (0 - a) * k == -(a * k)
  {
  }

  lemma {:induction false} OneGrantMore(r: Rate, start: int, p: History, z: int, end: int, n: nat, at: int)
    requires Leaves(r, start, p, z, end, n) && start <= end <= at
    requires Max(z, at - r.burst) == z && z + r.interval <= at
    ensures Leaves(r, start, p + [Took(at, true)], z + r.interval, at, n + 1)
  {
    assert Front(p + [Took(at, true)]) == p;
    WindowCoversHistory(r, start, p, at);
  }
}
