/** What the locked sections of the rate limiter do to its two fields, as functions of one clock
    reading, and the one-number scheduler they implement.

    The limiter refills lazily: it keeps a token count and the instant up to which refills have
    been credited. A much simpler device grants the same tokens: keep only the instant at which
    the bucket was (or will have been) empty, never let it fall further behind the clock than a
    full bucket is worth, and grant when one interval has passed since. The lemmas below prove
    that correspondence, and everything about runs of the limiter is argued on the simple form. */
module TokenBucket {
  import opened MachineInts
  import opened Scheduler

  const NS_PER_MS: int := 1_000_000

  datatype Config = Config(maxTokens: uint16, refillMs: int64, initialTokens: uint16, maxWaitMs: Option<int64>)

  ghost predicate Sane(c: Config) {
    c.maxTokens >= 1 && c.initialTokens <= c.maxTokens && c.refillMs > 0
  }

  /** The configuration a limiter really runs with. */
  function Sanitized(c: Config): (r: Config)
    ensures Sane(r) && r.maxWaitMs == c.maxWaitMs
    ensures Sane(c) ==> r == c
    ensures r.maxTokens as int == Max(c.maxTokens as int, 1)
    ensures r.initialTokens as int == Min(c.initialTokens as int, r.maxTokens as int)
    ensures r.refillMs == if c.refillMs > 0 then c.refillMs else 1000
  {
    var refill := if c.refillMs <= 0 then 1000 else c.refillMs;
    var most := if c.maxTokens < 1 then 1 else c.maxTokens;
    var initial := if c.initialTokens <= most then c.initialTokens else most;
    Config(most, refill, initial, c.maxWaitMs)
  }

  /** Nanoseconds per token. */
  ghost function Interval(c: Config): int { c.refillMs as int * NS_PER_MS }

  /** The scheduler this limiter implements. */
  ghost function RateOf(c: Config): Rate {
    Rate(Interval(c), c.maxTokens as int * Interval(c), c.initialTokens as int * Interval(c))
  }

  lemma RateOfIsSane(c: Config)
    requires Sane(c)
    ensures SaneRate(RateOf(c))
  {
    MulMonotone(c.initialTokens as int, c.maxTokens as int, Interval(c));
  }

  /** `last` is the instant up to which elapsed time has been turned into tokens. */
  datatype Bucket = Bucket(tokens: int, last: int)

  function Fresh(c: Config, now: int): Bucket { Bucket(c.initialTokens as int, now) }

  ghost predicate Consistent(c: Config, b: Bucket, now: int) {
    0 <= b.tokens <= c.maxTokens as int && b.last <= now
  }

  /** Tokens earned since the last credit: nanoseconds to milliseconds, then to intervals. */
  function Earned(c: Config, b: Bucket, now: int): int
    requires c.refillMs > 0
  {
    TruncDiv(TruncDiv(now - b.last, NS_PER_MS), c.refillMs as int)
  }

  function Refill(c: Config, b: Bucket, now: int): Bucket
    requires c.refillMs > 0
  {
    if b.tokens >= c.maxTokens as int then
      b.(last := now)
    else
      var earned := Earned(c, b, now);
      if earned <= 0 then b
      else if b.tokens + earned >= c.maxTokens as int then
        Bucket(c.maxTokens as int, now)
      else
        Bucket(b.tokens + earned, b.last + earned * (c.refillMs as int * NS_PER_MS))
  }

  /** One attempt to take a token, refill included. */
  function Take(c: Config, b: Bucket, now: int): (Bucket, bool)
    requires c.refillMs > 0
  {
    var r := Refill(c, b, now);
    if r.tokens > 0 then (r.(tokens := r.tokens - 1), true) else (r, false)
  }

  /** What `available_tokens` reports, leaving the bucket alone. */
  function Available(c: Config, b: Bucket, now: int): int
    requires c.refillMs > 0
  {
    Min(b.tokens + Max(Earned(c, b, now), 0), c.maxTokens as int)
  }

  // ---------------------------------------------------------------- the one-number scheduler

  /** The instant at which this bucket held nothing, counting back one interval per token. */
  ghost function EmptyAt(c: Config, b: Bucket): int { b.last - b.tokens * Interval(c) }

  /** The bucket a given empty instant stands for at `now`: whole intervals are tokens, the
      remainder is time not yet credited. */
  ghost function BucketFor(c: Config, emptyAt: int, now: int): Bucket
    requires Sane(c)
  {
    var tokens := (now - emptyAt) / Interval(c);
    Bucket(tokens, emptyAt + tokens * Interval(c))
  }

  lemma EarnedIsWholeIntervals(c: Config, b: Bucket, now: int)
    requires Sane(c) && Consistent(c, b, now)
    ensures Interval(c) > 0
    ensures Earned(c, b, now) == (now - b.last) / Interval(c) >= 0
  {
    NestedDivision(now - b.last, NS_PER_MS, c.refillMs as int);
    DivisionBrackets(now - b.last, Interval(c));
  }

  /** The branches of a refill on plain numbers, `i` nanoseconds a token. */
  ghost function RefillNumbers(tokens: int, last: int, most: int, i: int, now: int): Bucket
    requires i > 0
  {
    var total := tokens + (now - last) / i;
    if total >= most then Bucket(most, now) else Bucket(total, last + (now - last) / i * i)
  }

  lemma RefillNumbersCatchUp(tokens: int, last: int, most: int, i: int, now: int)
    requires i > 0 && 0 <= tokens <= most && last <= now
    ensures var z := Max(last - tokens * i, now - most * i);
            var r := RefillNumbers(tokens, last, most, i, now);
            r.last - r.tokens * i == z && r.tokens == (now - z) / i
            && 0 <= r.tokens <= most && r.last <= now < r.last + i
  {
    var earned := (now - last) / i;
    DivisionBrackets(now - last, i);
    var total := tokens + earned;
    Distribute(tokens, earned, i);
    if total >= most {
      MulMonotone(most, total, i);
      Distribute(most, 1, i);
      QuotientIsUnique(most * i, i, most);
    } else {
      MulMonotone(total + 1, most, i);
      Distribute(total, 1, i);
      QuotientIsUnique(now - (last - tokens * i), i, total);
    }
  }

  lemma RefillOnNumbers(c: Config, b: Bucket, now: int)
    requires Sane(c) && Consistent(c, b, now)
    ensures Interval(c) > 0
    ensures Refill(c, b, now) == RefillNumbers(b.tokens, b.last, c.maxTokens as int, Interval(c), now)
  {
    EarnedIsWholeIntervals(c, b, now);
  }

  /** A refill, with its three branches and nested divisions, is exactly `CatchUp`: the whole
      resulting bucket is determined by the caught-up empty instant and the clock. */
  lemma RefillIsCatchUp(c: Config, b: Bucket, now: int)
    requires Sane(c) && Consistent(c, b, now)
    ensures var z := CatchUp(RateOf(c), EmptyAt(c, b), now);
            Refill(c, b, now) == BucketFor(c, z, now) && EmptyAt(c, Refill(c, b, now)) == z <= now
    ensures Consistent(c, Refill(c, b, now), now)
    ensures Refill(c, b, now).last <= now < Refill(c, b, now).last + Interval(c)
  {
    RefillOnNumbers(c, b, now);
    RefillNumbersCatchUp(b.tokens, b.last, c.maxTokens as int, Interval(c), now);
    MulMonotone(0, Refill(c, b, now).tokens, Interval(c));
  }

  /** A token is granted exactly when one interval has passed since the caught-up empty instant,
      and a grant moves that instant by one interval. */
  lemma TakeIsScheduled(c: Config, b: Bucket, now: int)
    requires Sane(c) && Consistent(c, b, now)
    ensures var z := CatchUp(RateOf(c), EmptyAt(c, b), now);
            var (after, granted) := Take(c, b, now);
            && (granted <==> z + Interval(c) <= now)
            && EmptyAt(c, after) == (if granted then z + Interval(c) else z) <= now
            && Consistent(c, after, now)
            && now < after.last + Interval(c)
            && (!granted ==> after.tokens == 0)
  {
    RefillIsCatchUp(c, b, now);
    var z := CatchUp(RateOf(c), EmptyAt(c, b), now);
    EarnedIsWholeIntervals(c, b, now);
    QuotientBounds(now - z, Interval(c), 1);
    Distribute(Refill(c, b, now).tokens, -1, Interval(c));
  }

  // ---------------------------------------------------------------- polling is invisible

  /** Refilling on the way does not change where a later refill ends up. */
  lemma RefillIsPathIndependent(c: Config, b: Bucket, t1: int, t2: int)
    requires Sane(c) && Consistent(c, b, t1) && t1 <= t2
    ensures Refill(c, Refill(c, b, t1), t2) == Refill(c, b, t2)
  {
    RefillIsCatchUp(c, b, t1);
    RefillIsCatchUp(c, b, t2);
    RefillIsCatchUp(c, Refill(c, b, t1), t2);
  }

  /** An unsuccessful attempt changes the outcome of no later attempt, nor the state it leaves. */
  lemma FailedPollIsInvisible(c: Config, b: Bucket, t1: int, t2: int)
    requires Sane(c) && Consistent(c, b, t1) && t1 <= t2
    requires !Take(c, b, t1).1
    ensures Take(c, Take(c, b, t1).0, t2) == Take(c, b, t2)
  {
    RefillIsPathIndependent(c, b, t1, t2);
  }

  /** The reported count is what a refill at that instant would leave, so it is positive exactly
      when an attempt at that instant would succeed. */
  lemma AvailableIsWhatARefillLeaves(c: Config, b: Bucket, now: int)
    requires Sane(c) && Consistent(c, b, now)
    ensures Available(c, b, now) == Refill(c, b, now).tokens
    ensures Available(c, b, now) > 0 <==> Take(c, b, now).1
    ensures 0 <= Available(c, b, now) <= c.maxTokens as int
  {
    EarnedIsWholeIntervals(c, b, now);
  }

  // ---------------------------------------------------------------- waiting

  /** The instant at which an empty bucket will next hold a token is one interval after the
      credited instant: attempts fail strictly before it and succeed from it on. */
  lemma NextTokenInstant(c: Config, b: Bucket, now: int)
    requires Sane(c) && Consistent(c, b, now) && b.tokens == 0
    ensures Take(c, b, now).1 <==> b.last + Interval(c) <= now
  {
    TakeIsScheduled(c, b, now);
    MulMonotone(1, c.maxTokens as int, Interval(c));
  }

  /** Time a refill throws away because the bucket is full. */
  ghost function ForfeitedAt(c: Config, b: Bucket, now: int): int {
    CatchUp(RateOf(c), EmptyAt(c, b), now) - EmptyAt(c, b)
  }

  ghost predicate Saturates(c: Config, b: Bucket, now: int)
    requires Sane(c)
  {
    b.tokens + Earned(c, b, now) >= c.maxTokens as int
  }

  /** Only a refill that fills the bucket can throw time away. */
  lemma OnlySaturationForfeits(c: Config, b: Bucket, now: int)
    requires Sane(c) && Consistent(c, b, now)
    ensures ForfeitedAt(c, b, now) >= 0
    ensures !Saturates(c, b, now) ==> ForfeitedAt(c, b, now) == 0
  {
    EarnedIsWholeIntervals(c, b, now);
    RefillIsCatchUp(c, b, now);
    if !Saturates(c, b, now) {
      Distribute(b.tokens, Earned(c, b, now), Interval(c));
    }
  }
}
