/** One HTTP attempt under the rate limiter, and the loop that repeats it. The server is an oracle:
    its log records every request that reached it, with the instant its token was granted. */
module HttpRetry {
  import opened MachineInts
  import opened Sequences
  import opened SteadyClock
  import opened Scheduler
  import TokenBucket
  import LimiterRuns
  import opened Waiting
  import opened RateLimiting
  import opened RetryPolicies

  datatype Exchange = Exchange(path: string, tokenAt: int, outcome: Outcome)

  function SentIn(sent: seq<Exchange>, s: int, t: int): (n: nat)
    ensures n <= |sent|
  {
    if sent == [] then 0
    else SentIn(sent[..|sent| - 1], s, t) + (if s <= sent[|sent| - 1].tokenAt <= t then 1 else 0)
  }

  /** The count is the number of exchanges. */
  lemma {:induction false} SentIsNumber(sent: seq<Exchange>, s: int, t: int)
    ensures SentIn(sent, s, t) == |set i | 0 <= i < |sent| && s <= sent[i].tokenAt <= t|
  {
    if sent != [] {
      var p, n := sent[..|sent| - 1], |sent| - 1;
      SentIsNumber(p, s, t);
      var before := set i | 0 <= i < n && s <= p[i].tokenAt <= t;
      var all := set i | 0 <= i < |sent| && s <= sent[i].tokenAt <= t;
      assert all == before + (if s <= sent[n].tokenAt <= t then {n} else {});
    }
  }

  /** No window holds more requests than tokens granted in it. */
  ghost predicate Backed(sent: seq<Exchange>, h: History) {
    forall s, t :: SentIn(sent, s, t) <= GrantsIn(h, s, t)
  }

  lemma {:induction false} GrantsMonotone(h: History, m: nat, s: int, t: int)
    requires m <= |h|
    ensures GrantsIn(h[..m], s, t) <= GrantsIn(h, s, t)
    decreases |h|
  {
    if m == |h| {
      assert h[..m] == h;
    } else {
      assert Front(h)[..m] == h[..m];
      GrantsMonotone(Front(h), m, s, t);
    }
  }

  lemma BackedStays(sent: seq<Exchange>, h: History, h': History)
    requires Backed(sent, h) && h <= h'
    ensures Backed(sent, h')
  {
    forall s, t ensures SentIn(sent, s, t) <= GrantsIn(h', s, t) {
      assert h'[..|h|] == h;
      GrantsMonotone(h', |h|, s, t);
    }
  }

  /** A request paid for with the grant that ends `h'` keeps the log backed. */
  lemma BackedGrows(sent: seq<Exchange>, h: History, h': History, x: Exchange)
    requires Backed(sent, h) && h <= h' && |h'| > |h|
    requires IsGrant(Last(h')) && x.tokenAt == Last(h').at
    ensures Backed(sent + [x], h')
  {
    BackedStays(sent, h, Front(h'));
    assert (sent + [x])[..|sent|] == sent;
  }

  class HttpServer {
    const answer: string -> string  // the body of a successful response, by path
    const reliable: bool            // a server that never fails
    ghost var sent: seq<Exchange>

    /** Every successful response carries the one answer to its path, and a reliable server has given
        no other response. */
    ghost predicate Honest()
      reads this
    {
      forall i :: 0 <= i < |sent| ==> HonestExchange(sent[i])
    }

    ghost predicate HonestExchange(x: Exchange) {
      && (x.outcome.Response? && x.outcome.status == 200 ==> x.outcome.body == answer(x.path))
      && (reliable ==> x.outcome == Response(200, answer(x.path)))
    }

    constructor (answer: string -> string, reliable: bool)
      ensures this.answer == answer && this.reliable == reliable && sent == [] && Honest()
    {
      this.answer, this.reliable := answer, reliable;
      sent := [];
    }

    method Get(path: string, ghost tokenAt: int) returns (o: Outcome)
      requires Honest()
      modifies this
      ensures sent == old(sent) + [Exchange(path, tokenAt, o)] && Honest()
    {
      var failed: bool := *;
      var status: int := *;
      var code: ErrorCode := *;
      var body: string := *;
      if reliable || (!failed && status == 200) {
        o := Response(200, answer(path));
      } else {
        o := if failed then Failure(code) else Response(status, body);
      }
      sent := sent + [Exchange(path, tokenAt, o)];
    }
  }

  // ---------------------------------------------------------------- what a request did

  /** One whole wait for a token: the stretch of the limiter's history it covers, when it began and ended,
      its refused attempts, its sleeps, and how it ended. */
  datatype TokenWait = TokenWait(from: nat, to: nat, entered: int, upTo: int, tries: seq<Try>, sleeps: seq<Sleep>,
                                 r: Waiting.Waited)

  /** A sleep before another attempt, and the delay in milliseconds that it was asked for. */
  datatype Pause = Pause(sleep: Sleep, ms: int)

  /** One attempt: its wait, the instant of its token if it got one, its outcome unless the wait does not
      end, and the pause that followed it, if any. */
  datatype Step = Step(wait: TokenWait, tokenAt: int, outcome: Option<Outcome>, pause: Option<Pause>)

  /** A request: the limiter and policy it runs under, its path, and what was on record when it began. */
  datatype Request = Request(config: TokenBucket.Config, start: int, policy: RetryPolicy, path: string,
                             from: nat, since: int, sent: seq<Exchange>, slept: seq<Sleep>, mine: set<int>)

  ghost predicate WaitHappened(c: TokenBucket.Config, start: int, h: History, w: TokenWait)
    requires c.refillMs > 0
  {
    && w.from <= w.to <= |h| && w.entered <= w.upTo
    && Ends(Call(c, start, w.entered, w.from, DeadlineFor(c, w.entered)), h[..w.to], w.upTo, w.tries, w.sleeps, w.r)
  }

  /** A token is used for one request, a wait that times out is an error of its own, and one that does not
      end has no outcome. */
  ghost predicate OutcomeFits(h: History, s: Step) {
    && s.wait.to <= |h|
    && match s.wait.r
       case Acquired => s.outcome.Some? && s.wait.to > 0 && s.tokenAt == h[s.wait.to - 1].at
       case TimedOut => s.outcome == Some(Failure(RateLimited))
       case Asleep => s.outcome.None?
  }

  /** The pause after attempt `i + 1` is one of the delays the policy allows there. */
  ghost predicate PauseFits(p: RetryPolicy, i: nat, s: Step) {
    s.pause.Some? ==>
      && PossibleDelay(p, i, s.pause.value.ms) && s.wait.upTo <= s.pause.value.sleep.from
      && s.pause.value.sleep.until == s.pause.value.sleep.from + s.pause.value.ms * 1_000_000
  }

  predicate CallsForAnother(p: RetryPolicy, s: Step) { s.outcome.Some? && ShouldRetry(s.outcome.value, p) }

  /** The attempt before the `i`-th called for another; after it came a pause, and when that was over the
      `i`-th began. */
  ghost predicate Follows(p: RetryPolicy, story: seq<Step>, i: nat)
    requires 1 <= i < |story|
  {
    var s, next := story[i - 1], story[i];
    && CallsForAnother(p, s) && s.pause.Some?
    && s.wait.to <= next.wait.from && s.pause.value.sleep.until <= next.wait.entered
  }

  ghost predicate StepHappened(req: Request, h: History, upTo: int, i: nat, s: Step)
    requires req.config.refillMs > 0
  {
    && WaitHappened(req.config, req.start, h, s.wait) && OutcomeFits(h, s) && PauseFits(req.policy, i, s)
    && req.from <= s.wait.from && req.since <= s.wait.entered && s.wait.upTo <= upTo
    && (s.pause.Some? ==> CallsForAnother(req.policy, s) && s.pause.value.sleep.from <= upTo)
  }

  /** The requests sent, one per token. */
  function Sends(path: string, story: seq<Step>): seq<Exchange> {
    if story == [] then []
    else Sends(path, story[..|story| - 1]) + StepSends(path, story[|story| - 1])
  }

  function StepSends(path: string, s: Step): seq<Exchange> {
    if s.wait.r.Acquired? && s.outcome.Some? then [Exchange(path, s.tokenAt, s.outcome.value)] else []
  }

  /** The sleeps made: those of each wait and then the pause after it. */
  function Sleeps(story: seq<Step>): seq<Sleep> {
    if story == [] then []
    else Sleeps(story[..|story| - 1]) + StepSleeps(story[|story| - 1])
  }

  function StepSleeps(s: Step): seq<Sleep> {
    s.wait.sleeps + (if s.pause.Some? then [s.pause.value.sleep] else [])
  }

  function Outcomes(story: seq<Step>): seq<Outcome> {
    if story == [] then []
    else
      var last := story[|story| - 1].outcome;
      Outcomes(story[..|story| - 1]) + (if last.Some? then [last.value] else [])
  }

  /** The thread's own attempts on record: those before, and then the refusals and the grant of each wait. */
  function Events(before: set<int>, story: seq<Step>): set<int> {
    if story == [] then before
    else StepEvents(Events(before, story[..|story| - 1]), story[|story| - 1])
  }

  function StepEvents(before: set<int>, s: Step): set<int> {
    OwnEvents(before, s.wait.tries) + (if s.wait.r.Acquired? then {s.wait.to - 1} else {})
  }

  lemma {:induction false} OneStepMore(path: string, story: seq<Step>, s: Step)
    ensures Sends(path, story + [s]) == Sends(path, story) + StepSends(path, s)
    ensures Sleeps(story + [s]) == Sleeps(story) + StepSleeps(s)
    ensures Outcomes(story + [s]) == Outcomes(story) + (if s.outcome.Some? then [s.outcome.value] else [])
    ensures forall before: set<int> :: Events(before, story + [s]) == StepEvents(Events(before, story), s)
  {
    assert (story + [s])[..|story|] == story;
  }

  /** The story is what happened between the records the request found and those it leaves: the limiter
      granted and refused as the waits say, and nothing else was sent or slept. */
  ghost predicate Happened(req: Request, h: History, upTo: int, sent: seq<Exchange>, slept: seq<Sleep>,
                           story: seq<Step>)
    requires req.config.refillMs > 0
  {
    && sent == req.sent + Sends(req.path, story) && slept == req.slept + Sleeps(story)
    && (forall i :: 0 <= i < |story| ==> StepHappened(req, h, upTo, i, story[i]))
    && (forall i :: 1 <= i < |story| ==> Follows(req.policy, story, i))
  }

  /** Between rounds: every attempt so far called for another, and the pause after it is over. */
  ghost predicate GoesOn(req: Request, upTo: int, story: seq<Step>) {
    story != [] ==>
      var s := story[|story| - 1];
      CallsForAnother(req.policy, s) && s.pause.Some? && s.pause.value.sleep.until <= upTo
  }

  /** How the request ends. With an outcome: that of the last attempt, which called for no other or was the
      last allowed, every one before having called for another. Without: some wait does not end. */
  ghost predicate Concluded(req: Request, story: seq<Step>, r: Option<Outcome>) {
    if req.policy.maxAttempts == 0 then story == [] && r == Some(Failure(NetworkError))
    else
      && 1 <= |story| <= req.policy.maxAttempts as int
      && var last := story[|story| - 1];
         match r
         case Some(o) =>
           && last.outcome == r && last.pause.None?
           && (ShouldRetry(o, req.policy) ==> |story| == req.policy.maxAttempts as int)
         case None => last.outcome.None? || (last.pause.Some? && last.pause.value.sleep.until >= INT64_MAX as int)
  }

  // ---------------------------------------------------------------- the story grows

  lemma {:induction false} WaitStays(c: TokenBucket.Config, start: int, h: History, w: TokenWait, h': History)
    requires c.refillMs > 0 && WaitHappened(c, start, h, w) && h <= h'
    ensures WaitHappened(c, start, h', w)
  {
    assert h'[..w.to] == h[..w.to];
  }

  lemma {:induction false} StepStays(req: Request, h: History, upTo: int, i: nat, s: Step, h': History, upTo': int)
    requires req.config.refillMs > 0 && StepHappened(req, h, upTo, i, s) && h <= h' && upTo <= upTo'
    ensures StepHappened(req, h', upTo', i, s)
  {
    WaitStays(req.config, req.start, h, s.wait, h');
  }

  lemma {:induction false} StoryGrows(req: Request, h: History, upTo: int, sent: seq<Exchange>, slept: seq<Sleep>,
                                      story: seq<Step>, h': History, upTo': int, s: Step)
    requires req.config.refillMs > 0 && Happened(req, h, upTo, sent, slept, story) && h <= h' && upTo <= upTo'
    requires GoesOn(req, upTo, story) && |h| <= s.wait.from && upTo <= s.wait.entered
    requires StepHappened(req, h', upTo', |story|, s)
    ensures Happened(req, h', upTo', sent + StepSends(req.path, s), slept + StepSleeps(s), story + [s])
  {
    OneStepMore(req.path, story, s);
    Assoc(req.sent, Sends(req.path, story), StepSends(req.path, s));
    Assoc(req.slept, Sleeps(story), StepSleeps(s));
    var more := story + [s];
    forall i | 0 <= i < |more| ensures StepHappened(req, h', upTo', i, more[i]) {
      if i < |story| {
        StepStays(req, h, upTo, i, story[i], h', upTo');
      }
    }
    forall i | 1 <= i < |more| ensures Follows(req.policy, more, i) {
      if i < |story| {
        assert Follows(req.policy, story, i);
      }
    }
  }

  // ---------------------------------------------------------------- what the story says

  /** Outcomes a retry loop went through: every one but the last called for a retry, and it stopped
      at the last because that one did not or because the attempts ran out. */
  ghost predicate StoppedRight(outs: seq<Outcome>, p: RetryPolicy) {
    && 1 <= |outs| <= p.maxAttempts as int
    && (forall i :: 0 <= i < |outs| - 1 ==> ShouldRetry(outs[i], p))
    && (ShouldRetry(outs[|outs| - 1], p) ==> |outs| == p.maxAttempts as int)
  }

  /** A step that got a token and used it. */
  predicate Paid(s: Step) { s.wait.r.Acquired? && s.outcome.Some? }

  /** Only an attempt that got a token calls for another. */
  lemma {:induction false} RetriedIsPaid(req: Request, h: History, upTo: int, i: nat, s: Step)
    requires req.config.refillMs > 0 && StepHappened(req, h, upTo, i, s) && CallsForAnother(req.policy, s)
    ensures Paid(s)
  {
  }

  lemma {:induction false} EachSent(path: string, story: seq<Step>)
    requires forall i :: 0 <= i < |story| ==> Paid(story[i])
    ensures |Sends(path, story)| == |story|
    ensures forall i :: 0 <= i < |story| ==> story[i].outcome == Some(Sends(path, story)[i].outcome)
  {
    if story != [] {
      EachSent(path, story[..|story| - 1]);
    }
  }

  lemma {:induction false} EachSpoke(story: seq<Step>)
    requires forall i :: 0 <= i < |story| ==> story[i].outcome.Some?
    ensures |Outcomes(story)| == |story|
    ensures forall i :: 0 <= i < |story| ==> story[i].outcome == Some(Outcomes(story)[i])
  {
    if story != [] {
      EachSpoke(story[..|story| - 1]);
    }
  }

  /** The outcomes of the exchanges made since the log held `n`. */
  function OutcomesSince(sent: seq<Exchange>, n: nat): (outs: seq<Outcome>)
    requires n <= |sent|
    ensures |outs| == |sent| - n && forall i :: 0 <= i < |outs| ==> outs[i] == sent[n + i].outcome
  {
    seq(|sent| - n, i requires 0 <= i < |sent| - n => sent[n + i].outcome)
  }

  /** What a request came to, seen from the server: the outcomes of the exchanges made since the log held
      `n`, and after them that of a wait that timed out, if one did. */
  function Seen(sent: seq<Exchange>, n: nat, timedOut: bool): seq<Outcome>
    requires n <= |sent|
  {
    OutcomesSince(sent, n) + (if timedOut then [Failure(RateLimited)] else [])
  }

  /** These outcomes are those of a retry loop that went on and stopped where it should, with the last of
      them; or of one still going on when a wait did not end. */
  ghost predicate Retried(p: RetryPolicy, outs: seq<Outcome>, r: Option<Outcome>) {
    if p.maxAttempts == 0 then outs == [] && r == Some(Failure(NetworkError))
    else
      match r
      case Some(o) => StoppedRight(outs, p) && o == outs[|outs| - 1]
      case None => |outs| <= p.maxAttempts as int && forall i :: 0 <= i < |outs| ==> ShouldRetry(outs[i], p)
  }

  ghost predicate TimedOutLast(story: seq<Step>) { story != [] && story[|story| - 1].wait.r.TimedOut? }

  /** Every attempt but the last was paid for and called for another. */
  ghost predicate WentOn(p: RetryPolicy, story: seq<Step>) {
    forall i :: 0 <= i < |story| - 1 ==> Paid(story[i]) && CallsForAnother(p, story[i])
  }

  /** How the last one ended decides its outcome. */
  ghost predicate LastFits(story: seq<Step>) {
    story != [] ==>
      match story[|story| - 1].wait.r
      case Acquired => Paid(story[|story| - 1])
      case TimedOut => story[|story| - 1].outcome == Some(Failure(RateLimited))
      case Asleep => story[|story| - 1].outcome.None?
  }

  lemma {:induction false} StoryWentOn(req: Request, h: History, upTo: int, sent: seq<Exchange>, slept: seq<Sleep>,
                                       story: seq<Step>)
    requires req.config.refillMs > 0 && Happened(req, h, upTo, sent, slept, story)
    ensures WentOn(req.policy, story) && LastFits(story)
    ensures story != [] && story[|story| - 1].pause.Some? ==> CallsForAnother(req.policy, story[|story| - 1])
  {
    forall i | 0 <= i < |story| - 1 ensures Paid(story[i]) && CallsForAnother(req.policy, story[i]) {
      assert Follows(req.policy, story, i + 1);
      RetriedIsPaid(req, h, upTo, i, story[i]);
    }
    if story != [] {
      assert StepHappened(req, h, upTo, |story| - 1, story[|story| - 1]);
    }
  }

  /** RETRY EXACTNESS. */
  lemma {:induction false} StoryIsRetried(req: Request, story: seq<Step>, r: Option<Outcome>)
    requires WentOn(req.policy, story) && Concluded(req, story, r)
    requires story != [] && story[|story| - 1].pause.Some? ==> CallsForAnother(req.policy, story[|story| - 1])
    ensures Retried(req.policy, Outcomes(story), r)
  {
    if story != [] {
      EachSpoke(story[..|story| - 1]);
    }
  }

  lemma {:induction false} SentIsTold(path: string, before: seq<Exchange>, story: seq<Step>)
    requires forall i :: 0 <= i < |story| ==> Paid(story[i])
    ensures OutcomesSince(before + Sends(path, story), |before|) == Outcomes(story)
  {
    EachSent(path, story);
    EachSpoke(story);
  }

  /** What the server saw is what the story tells. */
  lemma {:induction false} SeenIsTold(p: RetryPolicy, path: string, before: seq<Exchange>, story: seq<Step>)
    requires WentOn(p, story) && LastFits(story)
    ensures Seen(before + Sends(path, story), |before|, TimedOutLast(story)) == Outcomes(story)
  {
    if story != [] {
      var n := |story| - 1;
      SentIsTold(path, before, story[..n]);
      OneSeenMore(before + Sends(path, story[..n]), |before|, StepSends(path, story[n]));
      Assoc(before, Sends(path, story[..n]), StepSends(path, story[n]));
    }
  }

  lemma {:induction false} OneSeenMore(sent: seq<Exchange>, n: nat, more: seq<Exchange>)
    requires n <= |sent| && |more| <= 1
    ensures OutcomesSince(sent + more, n) == OutcomesSince(sent, n) + (if more == [] then [] else [more[0].outcome])
  {
  }

  /** The pause after an attempt is one the policy allows after that many. */
  lemma PausesFit(req: Request, h: History, upTo: int, sent: seq<Exchange>, slept: seq<Sleep>, story: seq<Step>)
    requires req.config.refillMs > 0 && Happened(req, h, upTo, sent, slept, story)
    ensures forall i :: 0 <= i < |story| && story[i].pause.Some? ==>
              var pause := story[i].pause.value;
              && PossibleDelay(req.policy, i, pause.ms)
              && pause.sleep.until == pause.sleep.from + pause.ms * 1_000_000
  {
    forall i | 0 <= i < |story| ensures PauseFits(req.policy, i, story[i]) {
      assert StepHappened(req, h, upTo, i, story[i]);
    }
  }

  /** Unless a wait timed out, the result is the outcome of the last exchange. */
  lemma {:induction false} LastIsSeen(p: RetryPolicy, sent: seq<Exchange>, n: nat, timedOut: bool, o: Outcome)
    requires n <= |sent| && p.maxAttempts > 0 && Retried(p, Seen(sent, n, timedOut), Some(o))
    ensures if timedOut then o == Failure(RateLimited) else n < |sent| && o == sent[|sent| - 1].outcome
  {
  }

  /** WHEN THE LOOP GOES ON. Short of the last attempt allowed, an exchange is followed by another attempt
      exactly if it was throttled (429 or 503) and the policy retries that, or the server failed otherwise
      (500 to 599) and the policy retries that, or the network did and the policy retries that. */
  lemma {:induction false} GoesOnExactlyWhen(p: RetryPolicy, sent: seq<Exchange>, n: nat, timedOut: bool,
                                             r: Option<Outcome>, i: nat)
    requires n <= i < |sent| && p.maxAttempts > 0 && Retried(p, Seen(sent, n, timedOut), r)
    ensures var worthIt := match sent[i].outcome
                           case Response(status, _) =>
                             if status == 429 || status == 503 then p.retryOnRateLimit
                             else 500 <= status < 600 && p.retryOnServerError
                           case Failure(code) => code == NetworkError && p.retryOnNetworkError;
            && (r.None? ==> worthIt)
            && (r.Some? && i - n + 1 < p.maxAttempts as int ==> ((i + 1 < |sent| || timedOut) <==> worthIt))
  {
    var outs := Seen(sent, n, timedOut);
    assert outs[i - n] == sent[i].outcome;
  }

  lemma {:induction false} SendsGoTo(path: string, story: seq<Step>)
    ensures |Sends(path, story)| <= |story|
    ensures forall i :: 0 <= i < |Sends(path, story)| ==> Sends(path, story)[i].path == path
  {
    if story != [] {
      SendsGoTo(path, story[..|story| - 1]);
    }
  }

  /** Time asked for in pauses, and how many there were. */
  function PauseTime(story: seq<Step>): int {
    if story == [] then 0
    else
      var p := story[|story| - 1].pause;
      PauseTime(story[..|story| - 1]) + (if p.Some? then p.value.sleep.until - p.value.sleep.from else 0)
  }

  function Pauses(story: seq<Step>): (n: nat)
    ensures n <= |story|
  {
    if story == [] then 0
    else Pauses(story[..|story| - 1]) + (if story[|story| - 1].pause.Some? then 1 else 0)
  }

  /** What the last step of a story ended with: its pause, or else its wait. */
  function EndedAt(story: seq<Step>): int
    requires story != []
  {
    var s := story[|story| - 1];
    if s.pause.Some? then s.pause.value.sleep.until else s.wait.upTo
  }

  /** TOTAL SLEEP. The recorded pauses of a request add up to at most the maximum delay for each. */
  lemma {:induction false} TotalSleepIsBounded(p: RetryPolicy, story: seq<Step>)
    requires forall i :: 0 <= i < |story| ==> PauseFits(p, i, story[i])
    ensures 0 <= PauseTime(story) <= Pauses(story) * (MaxDelay(p) as int * 1_000_000)
  {
    if story != [] {
      var n := |story| - 1;
      assert PauseFits(p, n, story[n]);
      TotalSleepIsBounded(p, story[..n]);
      if story[n].pause.Some? {
        PossibleDelayRange(p, n, story[n].pause.value.ms);
        Distribute(Pauses(story[..n]), 1, MaxDelay(p) as int * 1_000_000);
      }
    }
  }

  lemma {:induction false} EachPaused(story: seq<Step>)
    requires forall i :: 0 <= i < |story| ==> story[i].pause.Some?
    ensures Pauses(story) == |story|
  {
    if story != [] {
      EachPaused(story[..|story| - 1]);
    }
  }

  /** A step takes place after `since`, its pause after its wait. */
  ghost predicate InTime(since: int, s: Step) {
    && since <= s.wait.entered <= s.wait.upTo
    && (s.pause.Some? ==> s.wait.upTo <= s.pause.value.sleep.from)
  }

  /** The pauses really elapse. */
  lemma {:induction false} PausesElapse(p: RetryPolicy, since: int, story: seq<Step>)
    requires story != []
    requires forall i :: 0 <= i < |story| ==> InTime(since, story[i])
    requires forall i :: 1 <= i < |story| ==> Follows(p, story, i)
    ensures since + PauseTime(story) <= EndedAt(story)
  {
    var n := |story| - 1;
    assert InTime(since, story[n]);
    assert PauseTime(story[..0]) == 0;
    if n > 0 {
      assert Follows(p, story, n);
      forall i | 1 <= i < n ensures Follows(p, story[..n], i) {
        assert Follows(p, story, i);
      }
      PausesElapse(p, since, story[..n]);
    }
  }

  lemma {:induction false} WaitHasCause(c: TokenBucket.Config, start: int, h: History, w: TokenWait)
    requires TokenBucket.Sane(c) && LimiterRuns.Legal(c, start, h) && WaitHappened(c, start, h, w)
    ensures w.r.Asleep? ==> w.upTo + WaitInterval(c) >= INT64_MAX as int
    ensures w.r.TimedOut? ==> c.maxWaitMs.Some?
  {
    LimiterRuns.LegalPrefix(c, start, h, w.to);
    OutcomeHasCause(Call(c, start, w.entered, w.from, DeadlineFor(c, w.entered)), h[..w.to], w.upTo,
                    w.tries, w.sleeps, w.r);
  }

  /** The clock is so near its end that some wait of a client's call would end past it. */
  predicate NearClockEnd(limit: TokenBucket.Config, p: RetryPolicy, now: int) {
    now + Max(WaitInterval(limit), MaxDelay(p) as int * 1_000_000) >= INT64_MAX as int
  }

  /** Without a maximum wait no wait times out. */
  lemma {:induction false} TimesOutOnlyWithLimit(req: Request, h: History, upTo: int, sent: seq<Exchange>,
                                                 slept: seq<Sleep>, story: seq<Step>)
    requires TokenBucket.Sane(req.config) && LimiterRuns.Legal(req.config, req.start, h)
    requires Happened(req, h, upTo, sent, slept, story) && TimedOutLast(story)
    ensures req.config.maxWaitMs.Some?
  {
    assert StepHappened(req, h, upTo, |story| - 1, story[|story| - 1]);
    WaitHasCause(req.config, req.start, h, story[|story| - 1].wait);
  }

  lemma NearEndByWait(c: TokenBucket.Config, start: int, h: History, w: TokenWait, p: RetryPolicy)
    requires TokenBucket.Sane(c) && LimiterRuns.Legal(c, start, h) && WaitHappened(c, start, h, w)
    ensures w.r.Asleep? ==> NearClockEnd(c, p, w.upTo)
  {
    WaitHasCause(c, start, h, w);
  }

  /** The operation a request repeats: take a token, then GET. */
  class Operation {
    const limiter: RateLimiter
    const http: HttpServer
    const clock: Clock
    const path: string

    ghost predicate Valid()
      reads this, limiter, http, clock
    {
      limiter.Valid(clock) && http.Honest() && Backed(http.sent, limiter.history)
    }

    constructor (limiter: RateLimiter, http: HttpServer, clock: Clock, path: string)
      requires limiter.Valid(clock) && http.Honest() && Backed(http.sent, limiter.history)
      ensures this.limiter == limiter && this.http == http && this.clock == clock && this.path == path
      ensures Valid()
    {
      this.limiter, this.http, this.clock, this.path := limiter, http, clock, path;
    }

    /** One attempt: a whole wait for a token, with one of its three ends. A timed-out wait is an error of
        its own and sends nothing; every request sent consumed exactly one token. `None`: the wait does not
        return. */
    method Call(budget: nat) returns (o: Option<Outcome>, left: nat, ghost step: Step)
      requires Valid()
      modifies limiter`tokens, limiter`lastRefill, limiter`history, limiter`mine, clock, http
      ensures Valid() && old(clock.now) <= clock.now
      ensures left <= budget && old(limiter.history) <= limiter.history
      ensures WaitHappened(limiter.config, limiter.start, limiter.history, step.wait)
      ensures OutcomeFits(limiter.history, step) && step.outcome == o && step.pause.None?
      ensures step.wait.from == |old(limiter.history)| && step.wait.to == |limiter.history|
      ensures old(clock.now) as int <= step.wait.entered && step.wait.upTo == clock.now as int
      ensures http.sent == old(http.sent) + StepSends(path, step)
      ensures clock.slept == old(clock.slept) + StepSleeps(step)
      ensures limiter.mine == StepEvents(old(limiter.mine), step)
      ensures Charges(limiter.history)
                == Charges(old(limiter.history)) + (budget - left) + (|http.sent| - |old(http.sent)|)
    {
      var acquired;
      ghost var entered, tries, sleeps;
      acquired, left, entered, tries, sleeps := limiter.Acquire(clock, budget);
      ghost var h := limiter.history;
      assert h[..|h|] == h;
      ghost var wait := TokenWait(|old(limiter.history)|, |h|, entered, clock.now as int, tries, sleeps, acquired);
      step := Step(wait, 0, None, None);
      assert StepSleeps(step) == sleeps;
      match acquired {
        case Asleep =>
          BackedStays(http.sent, old(limiter.history), limiter.history);
          o := None;
        case TimedOut =>
          BackedStays(http.sent, old(limiter.history), limiter.history);
          o := Some(Failure(RateLimited));
        case Acquired =>
          ghost var tokenAt := Last(limiter.history).at;
          var outcome := http.Get(path, tokenAt);
          BackedGrows(old(http.sent), old(limiter.history), limiter.history, Exchange(path, tokenAt, outcome));
          o := Some(outcome);
          step := step.(tokenAt := tokenAt);
      }
      step := step.(outcome := o);
    }
  }

  /** How many attempts a given sequence of outcomes deserves: up to the first that does not call for
      a retry, or as many as are allowed. */
  function AttemptsFor(script: seq<Outcome>, p: RetryPolicy): nat
    requires |script| >= p.maxAttempts as int > 0
  {
    FirstFinal(script[..p.maxAttempts], p)
  }

  function FirstFinal(script: seq<Outcome>, p: RetryPolicy): (n: nat)
    requires script != []
    ensures 1 <= n <= |script|
    ensures forall i :: 0 <= i < n - 1 ==> ShouldRetry(script[i], p)
    ensures ShouldRetry(script[n - 1], p) ==> n == |script|
  {
    if |script| == 1 || !ShouldRetry(script[0], p) then 1 else 1 + FirstFinal(script[1..], p)
  }

  /** RETRY EXACTNESS. If the operation's outcomes would be `script`, the loop makes exactly the number
      of attempts that script deserves: any outcomes it can have gone through are that prefix. */
  lemma AttemptsAreDetermined(outs: seq<Outcome>, script: seq<Outcome>, p: RetryPolicy)
    requires |script| >= p.maxAttempts as int > 0
    requires StoppedRight(outs, p) && outs <= script
    ensures |outs| == AttemptsFor(script, p)
  {
    var n := AttemptsFor(script, p);
    assert forall i :: 0 <= i < |outs| ==> outs[i] == script[..p.maxAttempts][i];
  }

  /** What a request by this operation finds on record when it begins. */
  ghost function RequestNow(op: Operation, p: RetryPolicy): Request
    reads op, op.limiter, op.http, op.clock
  {
    Request(op.limiter.config, op.limiter.start, p, op.path, |op.limiter.history|, op.clock.now as int,
            op.http.sent, op.clock.slept, op.limiter.mine)
  }

  /** The story so far is what this operation did. */
  ghost predicate Told(op: Operation, req: Request, story: seq<Step>)
    reads op, op.limiter, op.http, op.clock
    requires req.config.refillMs > 0
  {
    && Happened(req, op.limiter.history, op.clock.now as int, op.http.sent, op.clock.slept, story)
    && req.config == op.limiter.config && req.start == op.limiter.start && req.path == op.path
    && req.from <= |op.limiter.history| && req.since <= op.clock.now as int
    && op.limiter.mine == Events(req.mine, story)
  }

  /** `with_retry` around one operation. The counter is eight bits wide and the loop guard cannot fail
      at 255; it never wraps, because the last attempt returns. `story` is all that happened; `None` means
      some wait does not return. */
  method WithRetry(op: Operation, p: RetryPolicy, budget: nat)
      returns (r: Option<Outcome>, left: nat, ghost story: seq<Step>)
    requires op.Valid()
    modifies op.limiter`tokens, op.limiter`lastRefill, op.limiter`history, op.limiter`mine, op.clock, op.http
    ensures op.Valid() && old(op.clock.now) <= op.clock.now
    ensures left <= budget && old(op.limiter.history) <= op.limiter.history
    ensures Told(op, old(RequestNow(op, p)), story) && Concluded(old(RequestNow(op, p)), story, r)
    ensures 0 <= PauseTime(story) <= Pauses(story) * (MaxDelay(p) as int * 1_000_000)
    ensures r.Some? && p.maxAttempts > 0 ==>
              Pauses(story) == |story| - 1 && old(op.clock.now) as int + PauseTime(story) <= op.clock.now as int
    ensures story != [] ==> old(op.clock.now) as int + PauseTime(story) <= EndedAt(story)
    ensures Retried(p, Outcomes(story), r)
    ensures |old(op.http.sent)| <= |op.http.sent|
    ensures Seen(op.http.sent, |old(op.http.sent)|, TimedOutLast(story)) == Outcomes(story)
    ensures forall i :: |old(op.http.sent)| <= i < |op.http.sent| ==>
              var worthIt := match op.http.sent[i].outcome
                             case Response(status, _) =>
                               if status == 429 || status == 503 then p.retryOnRateLimit
                               else 500 <= status < 600 && p.retryOnServerError
                             case Failure(code) => code == NetworkError && p.retryOnNetworkError;
              && (r.None? ==> worthIt)
              && (r.Some? && i - |old(op.http.sent)| + 1 < p.maxAttempts as int ==>
                    ((i + 1 < |op.http.sent| || TimedOutLast(story)) <==> worthIt))
    ensures |op.http.sent| - |old(op.http.sent)| <= |story| <= p.maxAttempts as int
    ensures r.Some? && p.maxAttempts > 0 ==>
              if TimedOutLast(story) then r.value == Failure(RateLimited)
              else |old(op.http.sent)| < |op.http.sent| && r.value == op.http.sent[|op.http.sent| - 1].outcome
    ensures p.maxAttempts == 0 ==> r == Some(Failure(NetworkError)) && op.clock.slept == old(op.clock.slept)
    ensures forall i :: 0 <= i < |story| && story[i].pause.Some? ==>
              var pause := story[i].pause.value;
              PossibleDelay(p, i, pause.ms) && pause.sleep.until == pause.sleep.from + pause.ms * 1_000_000
    ensures r.None? ==> NearClockEnd(op.limiter.config, p, op.clock.now as int)
    ensures Charges(op.limiter.history)
              == Charges(old(op.limiter.history)) + (budget - left) + (|op.http.sent| - |old(op.http.sent)|)
  {
    r, left, story := RetryLoop(op, p, budget);
    ghost var n := |old(op.http.sent)|;
    SendsGoTo(op.path, story);
    PausesFit(old(RequestNow(op, p)), op.limiter.history, op.clock.now as int, op.http.sent, op.clock.slept, story);
    if p.maxAttempts > 0 {
      if r.Some? {
        LastIsSeen(p, op.http.sent, n, TimedOutLast(story), r.value);
      }
      forall i | n <= i < |op.http.sent| {
        GoesOnExactlyWhen(p, op.http.sent, n, TimedOutLast(story), r, i);
      }
    }
  }

  /** The loop. */
  method RetryLoop(op: Operation, p: RetryPolicy, budget: nat)
      returns (r: Option<Outcome>, left: nat, ghost story: seq<Step>)
    requires op.Valid()
    modifies op.limiter`tokens, op.limiter`lastRefill, op.limiter`history, op.limiter`mine, op.clock, op.http
    ensures op.Valid() && old(op.clock.now) <= op.clock.now
    ensures left <= budget && old(op.limiter.history) <= op.limiter.history
    ensures Told(op, old(RequestNow(op, p)), story) && Concluded(old(RequestNow(op, p)), story, r)
    ensures 0 <= PauseTime(story) <= Pauses(story) * (MaxDelay(p) as int * 1_000_000)
    ensures r.Some? && p.maxAttempts > 0 ==>
              Pauses(story) == |story| - 1 && old(op.clock.now) as int + PauseTime(story) <= op.clock.now as int
    ensures story != [] ==> old(op.clock.now) as int + PauseTime(story) <= EndedAt(story)
    ensures Retried(p, Outcomes(story), r)
    ensures |old(op.http.sent)| <= |op.http.sent|
    ensures Seen(op.http.sent, |old(op.http.sent)|, TimedOutLast(story)) == Outcomes(story)
    ensures r.None? ==> NearClockEnd(op.limiter.config, p, op.clock.now as int)
    ensures Charges(op.limiter.history)
              == Charges(old(op.limiter.history)) + (budget - left) + (|op.http.sent| - |old(op.http.sent)|)
  {
    left, story := budget, [];
    ghost var req := RequestNow(op, p);
    var attempt: uint8 := 1;
    while attempt <= p.maxAttempts
      invariant op.Valid() && old(op.clock.now) <= op.clock.now
      invariant left <= budget && old(op.limiter.history) <= op.limiter.history
      invariant 1 <= attempt as int <= Max(p.maxAttempts as int, 1) && |story| == attempt as int - 1
      invariant Told(op, req, story) && GoesOn(req, op.clock.now as int, story)
      invariant Charges(op.limiter.history)
                == Charges(old(op.limiter.history)) + (budget - left) + (|op.http.sent| - |old(op.http.sent)|)
      decreases p.maxAttempts as int - attempt as int
    {
      var again;
      r, again, left, story := Round(op, attempt, p, left, req, story);
      if !again {
        StoryIsComplete(req, op.limiter.history, op.clock.now as int, op.http.sent, op.clock.slept, story, r);
        return;
      }
      attempt := attempt + 1;
    }
    r := Some(Failure(NetworkError));
    StoryIsComplete(req, op.limiter.history, op.clock.now as int, op.http.sent, op.clock.slept, story, r);
  }

  /** One round of the loop: an attempt and, if another is to follow, the pause before it. */
  method Round(op: Operation, attempt: uint8, p: RetryPolicy, budget: nat, ghost req: Request, ghost story: seq<Step>)
      returns (r: Option<Outcome>, again: bool, left: nat, ghost story': seq<Step>)
    requires op.Valid() && 1 <= attempt <= p.maxAttempts && |story| == attempt as int - 1
    requires req.config == op.limiter.config && req.policy == p
    requires Told(op, req, story) && GoesOn(req, op.clock.now as int, story)
    modifies op.limiter`tokens, op.limiter`lastRefill, op.limiter`history, op.limiter`mine, op.clock, op.http
    ensures op.Valid() && old(op.clock.now) <= op.clock.now
    ensures left <= budget && old(op.limiter.history) <= op.limiter.history
    ensures Told(op, req, story') && |story'| == attempt as int
    ensures again ==> attempt < p.maxAttempts && GoesOn(req, op.clock.now as int, story')
    ensures !again ==> Concluded(req, story', r)
    ensures !again && r.None? ==> NearClockEnd(op.limiter.config, p, op.clock.now as int)
    ensures Charges(op.limiter.history)
              == Charges(old(op.limiter.history)) + (budget - left) + (|op.http.sent| - |old(op.http.sent)|)
  {
    ghost var step;
    r, left, step := Attempt(op, p, budget, req, story);
    story' := story + [step];
    again := r.Some? && ShouldRetry(r.value, p) && attempt < p.maxAttempts;
    if again {
      again, left, story' := PauseBetween(op, attempt, p, left, req, story, step);
      if !again {
        r := None;
      }
    } else {
      LastConcludes(req, story, step);
    }
  }

  lemma {:induction false} LastConcludes(req: Request, story: seq<Step>, s: Step)
    requires |story| < req.policy.maxAttempts as int && s.pause.None?
    requires CallsForAnother(req.policy, s) ==> |story| + 1 == req.policy.maxAttempts as int
    ensures Concluded(req, story + [s], s.outcome)
  {
  }

  /** The attempt of a round, on record. */
  method Attempt(op: Operation, p: RetryPolicy, budget: nat, ghost req: Request, ghost story: seq<Step>)
      returns (r: Option<Outcome>, left: nat, ghost step: Step)
    requires op.Valid() && req.config == op.limiter.config && req.policy == p
    requires Told(op, req, story) && GoesOn(req, op.clock.now as int, story)
    modifies op.limiter`tokens, op.limiter`lastRefill, op.limiter`history, op.limiter`mine, op.clock, op.http
    ensures op.Valid() && old(op.clock.now) <= op.clock.now
    ensures left <= budget && old(op.limiter.history) <= op.limiter.history
    ensures Told(op, req, story + [step]) && step.outcome == r && step.pause.None?
    ensures r.None? ==> NearClockEnd(op.limiter.config, p, op.clock.now as int)
    ensures Charges(op.limiter.history)
              == Charges(old(op.limiter.history)) + (budget - left) + (|op.http.sent| - |old(op.http.sent)|)
  {
    ghost var h, now, sent, slept := op.limiter.history, op.clock.now as int, op.http.sent, op.clock.slept;
    r, left, step := op.Call(budget);
    ghost var h', now' := op.limiter.history, op.clock.now as int;
    NearEndByWait(req.config, req.start, h', step.wait, p);
    assert StepHappened(req, h', now', |story|, step);
    StoryGrows(req, h, now, sent, slept, story, h', now', step);
    OneStepMore(req.path, story, step);
  }

  /** The pause after it, on record. */
  method PauseBetween(op: Operation, attempt: uint8, p: RetryPolicy, budget: nat, ghost req: Request,
                      ghost story: seq<Step>, ghost step: Step)
      returns (woke: bool, left: nat, ghost story': seq<Step>)
    requires op.Valid() && 1 <= attempt < p.maxAttempts && |story| == attempt as int - 1
    requires req.config == op.limiter.config && req.policy == p
    requires Told(op, req, story + [step]) && CallsForAnother(p, step) && step.pause.None?
    modifies op.limiter`tokens, op.limiter`lastRefill, op.limiter`history, op.limiter`mine, op.clock
    ensures op.Valid() && old(op.clock.now) <= op.clock.now
    ensures left <= budget && old(op.limiter.history) <= op.limiter.history
    ensures Told(op, req, story') && |story'| == attempt as int
    ensures woke ==> GoesOn(req, op.clock.now as int, story')
    ensures !woke ==> Concluded(req, story', None)
    ensures !woke ==> NearClockEnd(op.limiter.config, p, op.clock.now as int)
    ensures Charges(op.limiter.history) == Charges(old(op.limiter.history)) + (budget - left)
  {
    ghost var h, now, sent, slept := op.limiter.history, op.clock.now as int, op.http.sent, op.clock.slept;
    ghost var pause;
    woke, left, pause := PauseBeforeRetry(op, attempt, p, budget);
    PauseIsTold(req, h, now, sent, slept, story, step, op.limiter.history, op.clock.now as int, pause);
    OneStepMore(req.path, story, step);
    OneStepMore(req.path, story, step.(pause := Some(pause)));
    story' := story + [step.(pause := Some(pause))];
  }

  lemma {:induction false} StepWithPause(req: Request, h: History, upTo: int, i: nat, s: Step,
                                         h': History, upTo': int, pause: Pause)
    requires req.config.refillMs > 0 && StepHappened(req, h, upTo, i, s) && h <= h' && upTo <= upTo'
    requires CallsForAnother(req.policy, s) && s.pause.None? && PossibleDelay(req.policy, i, pause.ms)
    requires s.wait.upTo <= pause.sleep.from <= upTo'
    requires pause.sleep.until == pause.sleep.from + pause.ms * 1_000_000
    ensures StepHappened(req, h', upTo', i, s.(pause := Some(pause)))
  {
    StepStays(req, h, upTo, i, s, h', upTo');
  }

  lemma {:induction false} PausedSteps(req: Request, h: History, upTo: int, story: seq<Step>, s: Step,
                                       h': History, upTo': int, pause: Pause)
    requires req.config.refillMs > 0 && h <= h' && upTo <= upTo'
    requires forall i :: 0 <= i < |story| ==> StepHappened(req, h, upTo, i, story[i])
    requires StepHappened(req, h', upTo', |story|, s.(pause := Some(pause)))
    ensures var now := story + [s.(pause := Some(pause))];
            forall i :: 0 <= i < |now| ==> StepHappened(req, h', upTo', i, now[i])
  {
    forall i | 0 <= i < |story| ensures StepHappened(req, h', upTo', i, story[i]) {
      StepStays(req, h, upTo, i, story[i], h', upTo');
    }
  }

  /** The pause after the last step. */
  lemma {:induction false} PauseIsTold(req: Request, h: History, upTo: int, sent: seq<Exchange>, slept: seq<Sleep>,
                                       story: seq<Step>, s: Step, h': History, upTo': int, pause: Pause)
    requires req.config.refillMs > 0 && Happened(req, h, upTo, sent, slept, story + [s])
    requires h <= h' && upTo <= upTo' && CallsForAnother(req.policy, s) && s.pause.None?
    requires PossibleDelay(req.policy, |story|, pause.ms) && upTo <= pause.sleep.from <= upTo'
    requires pause.sleep.until == pause.sleep.from + pause.ms * 1_000_000
    ensures Happened(req, h', upTo', sent, slept + [pause.sleep], story + [s.(pause := Some(pause))])
  {
    var n, s' := |story|, s.(pause := Some(pause));
    var was, now := story + [s], story + [s'];
    assert StepHappened(req, h, upTo, n, was[n]);
    StepWithPause(req, h, upTo, n, s, h', upTo', pause);
    forall i | 0 <= i < n ensures StepHappened(req, h, upTo, i, story[i]) {
      assert was[i] == story[i];
    }
    PausedSteps(req, h, upTo, story, s, h', upTo', pause);
    forall i | 1 <= i < |now| ensures Follows(req.policy, now, i) {
      assert Follows(req.policy, was, i);
    }
    PauseIsSlept(req.path, story, s, pause);
    Assoc(req.slept, Sleeps(was), [pause.sleep]);
  }

  lemma {:induction false} PauseIsSlept(path: string, story: seq<Step>, s: Step, pause: Pause)
    requires s.pause.None?
    ensures Sends(path, story + [s.(pause := Some(pause))]) == Sends(path, story + [s])
    ensures Sleeps(story + [s.(pause := Some(pause))]) == Sleeps(story + [s]) + [pause.sleep]
  {
    OneStepMore(path, story, s);
    OneStepMore(path, story, s.(pause := Some(pause)));
    NothingMore(s.wait.sleeps);
    Assoc(Sleeps(story), s.wait.sleeps, [pause.sleep]);
  }

  /** What a concluded request's pauses add up to, and what the server saw of it. */
  lemma {:induction false} StoryIsComplete(req: Request, h: History, upTo: int, sent: seq<Exchange>,
                                           slept: seq<Sleep>, story: seq<Step>, r: Option<Outcome>)
    requires req.config.refillMs > 0
    requires Happened(req, h, upTo, sent, slept, story) && Concluded(req, story, r)
    ensures 0 <= PauseTime(story) <= Pauses(story) * (MaxDelay(req.policy) as int * 1_000_000)
    ensures story != [] ==> req.since + PauseTime(story) <= EndedAt(story)
    ensures r.Some? && story != [] ==> Pauses(story) == |story| - 1 && req.since + PauseTime(story) <= upTo
    ensures Retried(req.policy, Outcomes(story), r)
    ensures |req.sent| <= |sent| && Seen(sent, |req.sent|, TimedOutLast(story)) == Outcomes(story)
  {
    forall i | 0 <= i < |story| ensures PauseFits(req.policy, i, story[i]) && InTime(req.since, story[i]) {
      assert StepHappened(req, h, upTo, i, story[i]);
    }
    TotalSleepIsBounded(req.policy, story);
    if story != [] {
      PausesElapse(req.policy, req.since, story);
      forall i | 0 <= i < |story| - 1 ensures story[i].pause.Some? {
        assert Follows(req.policy, story, i + 1);
      }
      EachPaused(story[..|story| - 1]);
    }
    StoryWentOn(req, h, upTo, sent, slept, story);
    StoryIsRetried(req, story, r);
    SeenIsTold(req.policy, req.path, req.sent, story);
  }

  /** Draw the jitter, sleep; other threads run meanwhile. */
  method PauseBeforeRetry(op: Operation, attempt: uint8, p: RetryPolicy, budget: nat)
      returns (woke: bool, left: nat, ghost pause: Pause)
    requires op.Valid() && attempt >= 1
    modifies op.limiter`tokens, op.limiter`lastRefill, op.limiter`history, op.limiter`mine, op.clock
    ensures op.Valid() && old(op.clock.now) <= op.clock.now
    ensures left <= budget && old(op.limiter.history) <= op.limiter.history
    ensures Charges(op.limiter.history) == Charges(old(op.limiter.history)) + (budget - left)
    ensures op.clock.slept == old(op.clock.slept) + [pause.sleep] && op.limiter.mine == old(op.limiter.mine)
    ensures PossibleDelay(p, attempt as int - 1, pause.ms) && pause.ms <= MaxDelay(p) as int
    ensures pause.sleep.until == pause.sleep.from + pause.ms * 1_000_000
    ensures old(op.clock.now) as int <= pause.sleep.from <= op.clock.now as int
    ensures woke <==> pause.sleep.until < INT64_MAX as int
    ensures woke ==> pause.sleep.until <= op.clock.now as int
    ensures !woke ==> NearClockEnd(op.limiter.config, p, op.clock.now as int)
  {
    var draw: real := *;
    if !(1.0 - Spread(p) <= draw <= 1.0 + Spread(p)) {
      draw := 1.0;
    }
    var ms := CalculateRetryDelay(attempt, p, draw);
    left := op.limiter.OthersRun(op.clock, budget);
    BackedStays(op.http.sent, old(op.limiter.history), op.limiter.history);
    ghost var now := op.clock.now as int;
    woke := op.clock.Pause(ms);
    pause := Pause(Sleep(now, now + ms as int * 1_000_000), ms as int);
  }
}
