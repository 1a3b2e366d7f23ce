/** The client: every request goes through the retry loop and the rate limiter, and point lookups go
    through the cache first. */
module NwsClient {
  import opened MachineInts
  import opened SteadyClock
  import opened Scheduler
  import TokenBucket
  import opened RateLimiting
  import opened RetryPolicies
  import opened HttpRetry
  import opened Sequences
  import opened LruModel
  import opened LruInclusion
  import opened LruCaching
  import opened PointLookup

  datatype Coordinate = Coordinate(latitude: Double, longitude: Double)

  predicate InRange(c: Coordinate) {
    && c.latitude.Finite? && c.longitude.Finite?
    && -90.0 <= c.latitude.value <= 90.0 && -180.0 <= c.longitude.value <= 180.0
  }

  /** `Threw`: the cache could not allocate. `NoReturn`: some wait does not end on this clock. */
  datatype PointResult<V> = Found(value: V) | Failed(code: ErrorCode) | Threw | NoReturn

  function ErrorFor(status: int): ErrorCode {
    if status == 404 then NotFound
    else if status == 400 then InvalidRequest
    else if status == 503 || status == 429 then RateLimited
    else if 500 <= status < 600 then ServerError
    else Unknown
  }

  function ValueOf<V>(r: PointResult<V>): Option<V> { if r.Found? then Some(r.value) else None }

  predicate Abnormal<V>(r: PointResult<V>) { r.Threw? || r.NoReturn? }

  /** The points of a session that are in range, in order, and the results for them. */
  function PointsIn(cs: seq<Coordinate>): seq<Coordinate> {
    if cs == [] then []
    else PointsIn(cs[..|cs| - 1]) + (if InRange(cs[|cs| - 1]) then [cs[|cs| - 1]] else [])
  }

  function ValuesIn<V>(cs: seq<Coordinate>, rs: seq<PointResult<V>>): seq<Option<V>>
    requires |cs| == |rs|
  {
    if cs == [] then []
    else
      var n := |cs| - 1;
      ValuesIn(cs[..n], rs[..n]) + (if InRange(cs[n]) then [ValueOf(rs[n])] else [])
  }

  function KeysOf<V>(calls: seq<Call<Coordinate, V>>): (keys: seq<Coordinate>)
    ensures |keys| == |calls| && forall i :: 0 <= i < |calls| ==> keys[i] == calls[i].key
  {
    seq(|calls|, i requires 0 <= i < |calls| => calls[i].key)
  }

  function WithCall<V>(calls: seq<Call<Coordinate, V>>, call: Call<Coordinate, V>): seq<Call<Coordinate, V>> {
    if InRange(call.key) then calls + [call] else calls
  }

  /** A request on record: its attempts, what it came to, and when. */
  datatype Asked = Asked(story: seq<Step>, response: Option<Outcome>, at: int)

  /** What limiter, server and clock have on record. */
  datatype Records = Records(history: History, sent: seq<Exchange>, slept: seq<Sleep>, mine: set<int>)

  /** `req` was made as `asked` tells, and nothing else was sent, slept or tried. Seen from the server, the
      outcomes are those of a retry loop that went on and stopped where it should. */
  ghost predicate Made(req: Request, on: Records, asked: Asked)
    requires req.config.refillMs > 0
  {
    && Happened(req, on.history, asked.at, on.sent, on.slept, asked.story)
    && Concluded(req, asked.story, asked.response) && on.mine == Events(req.mine, asked.story)
    && Retried(req.policy, Outcomes(asked.story), asked.response)
    && |req.sent| <= |on.sent| && Seen(on.sent, |req.sent|, TimedOutLast(asked.story)) == Outcomes(asked.story)
  }

  class Client<V> {
    const limiter: RateLimiter
    const http: HttpServer
    const clock: Clock
    const policy: RetryPolicy
    const cache: LruCache?<Coordinate, V>
    const pathOf: Coordinate -> string
    const parse: string -> Option<V>

    /** What a successful request for a point parses to. */
    ghost function Truth(c: Coordinate): Option<V> { parse(http.answer(pathOf(c))) }

    ghost function CacheConfig(): Option<Config> { if cache == null then None else Some(cache.config) }

    ghost function CacheNodes(): set<object>
      reads cache, if cache == null then {} else {cache.order}
    {
      if cache == null then {} else {cache, cache.order} + cache.order.Repr
    }

    ghost function Entries(): seq<Entry<Coordinate, V>>
      reads cache
    {
      if cache == null then [] else cache.contents
    }

    /** A cached entry is a parsed answer of the server for a point in range. */
    ghost predicate HonestEntry(e: Entry<Coordinate, V>) {
      InRange(e.key) && Truth(e.key) == Some(e.value)
    }

    ghost predicate Valid()
      reads limiter, http, clock, cache, if cache == null then {} else {cache.order}, CacheNodes()
    {
      && limiter.Valid(clock) && http.Honest() && Backed(http.sent, limiter.history)
      && (cache != null ==> cache.Valid())
      && forall e :: e in Entries() ==> HonestEntry(e)
    }

    constructor (limiter: RateLimiter, http: HttpServer, clock: Clock, policy: RetryPolicy,
                 cacheConfig: Option<Config>, pathOf: Coordinate -> string, parse: string -> Option<V>)
      requires limiter.Valid(clock) && http.Honest() && Backed(http.sent, limiter.history)
      ensures Valid() && Entries() == [] && CacheConfig() == cacheConfig && fresh(CacheNodes())
      ensures this.limiter == limiter && this.http == http && this.clock == clock && this.policy == policy
      ensures this.pathOf == pathOf && this.parse == parse
    {
      this.limiter, this.http, this.clock, this.policy := limiter, http, clock, policy;
      this.pathOf, this.parse := pathOf, parse;
      if cacheConfig.Some? {
        cache := new LruCache(cacheConfig.value);
      } else {
        cache := null;
      }
    }

    /** What a request for a path made now finds on record. */
    ghost function RequestFor(path: string): Request
      reads limiter, http, clock
    {
      Request(limiter.config, limiter.start, policy, path, |limiter.history|, clock.now as int,
              http.sent, clock.slept, limiter.mine)
    }

    ghost function OnRecord(): Records
      reads limiter`history, limiter`mine, http`sent, clock`slept
    {
      Records(limiter.history, http.sent, clock.slept, limiter.mine)
    }

    /** `do_get`: the retry loop around a token and a GET. At most `maxAttempts` requests are sent,
        every one to this path and for exactly one token, each but the last with an outcome that called for
        another; a wait for a token that times out ends the call without a further request. It returns
        unless the clock is near its end. */
    method DoGet(path: string, budget: nat) returns (r: Option<Outcome>, left: nat, ghost story: seq<Step>)
      requires limiter.Valid(clock) && http.Honest() && Backed(http.sent, limiter.history)
      modifies limiter`tokens, limiter`lastRefill, limiter`history, limiter`mine, clock, http
      ensures limiter.Valid(clock) && http.Honest() && Backed(http.sent, limiter.history)
      ensures old(clock.now) <= clock.now
      ensures left <= budget && old(limiter.history) <= limiter.history
      ensures Made(old(RequestFor(path)), OnRecord(), Asked(story, r, clock.now as int))
      ensures OnlySent(old(http.sent), http.sent, path)
      ensures forall i :: |old(http.sent)| <= i < |http.sent| ==>
                var worthIt := match http.sent[i].outcome
                               case Response(status, _) =>
                                 if status == 429 || status == 503 then policy.retryOnRateLimit
                                 else 500 <= status < 600 && policy.retryOnServerError
                               case Failure(code) => code == NetworkError && policy.retryOnNetworkError;
                && (r.None? ==> worthIt)
                && (r.Some? && i - |old(http.sent)| + 1 < policy.maxAttempts as int ==>
                      ((i + 1 < |http.sent| || TimedOutLast(story)) <==> worthIt))
      ensures |http.sent| - |old(http.sent)| <= policy.maxAttempts as int
      ensures r.Some? && policy.maxAttempts > 0 ==>
                if TimedOutLast(story) then r.value == Failure(RateLimited)
                else |old(http.sent)| < |http.sent| && r.value == http.sent[|http.sent| - 1].outcome
      ensures r.None? ==> NearEnd(clock.now as int)
      ensures TimedOutLast(story) ==> limiter.config.maxWaitMs.Some?
      ensures Succeeded(r) ==> r.value.body == http.answer(path)
      ensures Reachable() && !NearEnd(clock.now as int) ==>
                r == Some(Response(200, http.answer(path)))
      ensures Charges(limiter.history)
                == Charges(old(limiter.history)) + (budget - left) + (|http.sent| - |old(http.sent)|)
    {
      var op := new Operation(limiter, http, clock, path);
      ghost var req := RequestFor(path);
      r, left, story := WithRetry(op, policy, budget);
      if TimedOutLast(story) {
        TimesOutOnlyWithLimit(req, limiter.history, clock.now as int, http.sent, clock.slept, story);
      }
      SendsGoTo(path, story);
      if r.Some? && policy.maxAttempts > 0 {
        if !TimedOutLast(story) {
          assert http.HonestExchange(http.sent[|http.sent| - 1]);
        }
      }
    }

    /** Some wait of a call made now could end past the end of the clock. */
    predicate NearEnd(now: int) { NearClockEnd(limiter.config, policy, now) }

    predicate Succeeded(r: Option<Outcome>) { r.Some? && r.value.Response? && r.value.status == 200 }

    /** What a response means for the point: its status is checked and its body parsed. */
    function PointOf(response: Option<Outcome>): PointResult<V> {
      match response
      case None => NoReturn
      case Some(Failure(code)) => Failed(code)
      case Some(Response(status, body)) =>
        if status != 200 then Failed(ErrorFor(status))
        else if parse(body).Some? then Found(parse(body).value)
        else Failed(ParseError)
    }

    /** The request behind a point lookup that missed the cache. */
    method FetchPoint(c: Coordinate, budget: nat) returns (r: PointResult<V>, left: nat, ghost asked: Asked)
      requires limiter.Valid(clock) && http.Honest() && Backed(http.sent, limiter.history)
      modifies limiter`tokens, limiter`lastRefill, limiter`history, limiter`mine, clock, http
      ensures limiter.Valid(clock) && http.Honest() && Backed(http.sent, limiter.history)
      ensures old(clock.now) <= clock.now
      ensures left <= budget && old(limiter.history) <= limiter.history
      ensures OnlySent(old(http.sent), http.sent, pathOf(c))
      ensures Made(old(RequestFor(pathOf(c))), OnRecord(), asked) && r == PointOf(asked.response)
      ensures asked.at == clock.now as int
      ensures asked.response.Some? ==>
                match asked.response.value
                case Failure(code) => r == Failed(code)
                case Response(status, body) =>
                  && (status == 200 ==> r == if parse(body).Some? then Found(parse(body).value) else Failed(ParseError))
                  && (status == 400 ==> r == Failed(InvalidRequest)) && (status == 404 ==> r == Failed(NotFound))
                  && (status == 429 || status == 503 ==> r == Failed(RateLimited))
                  && (500 <= status < 600 && status != 503 ==> r == Failed(ServerError))
                  && ((status < 500 && status !in {200, 400, 404, 429}) || status >= 600 ==> r == Failed(Unknown))
      ensures r.NoReturn? ==> NearEnd(clock.now as int)
      ensures !r.Threw? && (InRange(c) ==> Faithful(c, r)) && (r.Found? ==> Truth(c) == Some(r.value))
      ensures Reachable() && Truth(c).Some? && !NearEnd(clock.now as int) ==> r == Found(Truth(c).value)
      ensures Reachable() && Truth(c).Some? ==> !r.Failed?
      ensures Charges(limiter.history)
                == Charges(old(limiter.history)) + (budget - left) + (|http.sent| - |old(http.sent)|)
    {
      var response;
      ghost var story;
      response, left, story := DoGet(pathOf(c), budget);
      asked := Asked(story, response, clock.now as int);
      match response {
        case None => r := NoReturn;
        case Some(Failure(code)) => r := Failed(code);
        case Some(Response(status, body)) =>
          if status != 200 {
            return Failed(ErrorFor(status)), left, asked;
          }
          var parsed := parse(body);
          r := if parsed.Some? then Found(parsed.value) else Failed(ParseError);
      }
    }

    /** Nothing stands between the client and a successful answer. */
    ghost predicate Reachable() {
      http.reliable && limiter.config.maxWaitMs.None? && policy.maxAttempts > 0
    }

    /** `get_point`. `call` is what happened in the terms of `PointLookup`: one step of the read-through
        specification, at instants of this call. */
    method GetPoint(c: Coordinate, allocationFails: bool, budget: nat)
        returns (r: PointResult<V>, left: nat, ghost call: Call<Coordinate, V>, ghost asked: Option<Asked>)
      requires Valid()
      modifies limiter`tokens, limiter`lastRefill, limiter`history, limiter`mine, clock, http, CacheNodes()
      ensures Valid() && fresh(CacheNodes() - old(CacheNodes())) && old(clock.now) <= clock.now
      ensures left <= budget && old(limiter.history) <= limiter.history
      ensures OnlySent(old(http.sent), http.sent, pathOf(c))
      ensures Charges(limiter.history)
                == Charges(old(limiter.history)) + (budget - left) + (|http.sent| - |old(http.sent)|)
      ensures Faithful(c, r)
      ensures InRange(c) ==> Stepped(c, old(Entries()), Entries(), r, call)
      ensures call.key == c && FixedCall(call)
      ensures old(clock.now) as int <= call.gotAt <= call.putAt <= clock.now as int
      ensures if c.latitude.Finite? && c.longitude.Finite?
                 && -90.0 <= c.latitude.value <= 90.0 && -180.0 <= c.longitude.value <= 180.0
              then asked.None? ==>
                     cache != null && r.Found? && Looked(CacheConfig(), old(Entries()), c, call.gotAt).0 == ValueOf(r)
              else asked.None? && r == Failed(InvalidRequest)
                   && OnRecord() == old(OnRecord()) && Entries() == old(Entries())
      ensures asked.None? <==> !InRange(c) || Looked(CacheConfig(), old(Entries()), c, call.gotAt).0.Some?
      ensures asked.None? ==> OnRecord() == old(OnRecord())
      ensures asked.Some? ==>
                && Made(old(RequestFor(pathOf(c))).(since := call.gotAt), OnRecord(), asked.value)
                && CameTo(asked.value, r) && asked.value.at <= call.putAt
      ensures r.NoReturn? ==> NearEnd(clock.now as int)
      ensures r.Threw? ==> CanThrow(allocationFails)
    {
      left, call, asked := budget, Call(c, clock.now as int, None, clock.now as int), None;
      if !InRange(c) {
        return Failed(InvalidRequest), left, call, asked;
      }
      r, left, call, asked := LookUp(c, allocationFails, budget);
      if asked.Some? {
        MadeSends(old(RequestFor(pathOf(c))).(since := call.gotAt), OnRecord(), asked.value);
      }
    }

    /** The lookup of a point in range. */
    method LookUp(c: Coordinate, allocationFails: bool, budget: nat)
        returns (r: PointResult<V>, left: nat, ghost call: Call<Coordinate, V>, ghost asked: Option<Asked>)
      requires Valid() && InRange(c)
      modifies limiter`tokens, limiter`lastRefill, limiter`history, limiter`mine, clock, http, CacheNodes()
      ensures Valid() && fresh(CacheNodes() - old(CacheNodes())) && old(clock.now) <= clock.now
      ensures left <= budget && old(limiter.history) <= limiter.history
      ensures Charges(limiter.history)
                == Charges(old(limiter.history)) + (budget - left) + (|http.sent| - |old(http.sent)|)
      ensures Faithful(c, r)
      ensures Stepped(c, old(Entries()), Entries(), r, call) && call.key == c && FixedCall(call)
      ensures old(clock.now) as int <= call.gotAt <= call.putAt <= clock.now as int
      ensures asked.None? ==>
                cache != null && r.Found? && Looked(CacheConfig(), old(Entries()), c, call.gotAt).0 == ValueOf(r)
      ensures asked.None? <==> Looked(CacheConfig(), old(Entries()), c, call.gotAt).0.Some?
      ensures asked.None? ==> OnRecord() == old(OnRecord())
      ensures asked.Some? ==>
                && Made(old(RequestFor(pathOf(c))).(since := call.gotAt), OnRecord(), asked.value)
                && CameTo(asked.value, r) && asked.value.at <= call.putAt
      ensures r.NoReturn? ==> NearEnd(clock.now as int)
      ensures r.Threw? ==> CanThrow(allocationFails)
    {
      ghost var nodes := CacheNodes();
      var hit := CachedPoint(c);
      left, call, asked := budget, Call(c, clock.now as int, None, clock.now as int), None;
      if hit.Some? {
        return Found(hit.value), left, call, asked;
      }
      ghost var request;
      r, left, call, request := MissedStep(c, allocationFails, budget, old(Entries()));
      assert fresh(CacheNodes() - nodes);
      asked := Some(request);
    }

    /** A lookup that missed, as a step. */
    method MissedStep(c: Coordinate, allocationFails: bool, budget: nat, ghost before: seq<Entry<Coordinate, V>>)
        returns (r: PointResult<V>, left: nat, ghost call: Call<Coordinate, V>, ghost asked: Asked)
      requires Valid() && InRange(c)
      requires (None, Entries()) == Looked(CacheConfig(), before, c, clock.now as int)
      modifies limiter`tokens, limiter`lastRefill, limiter`history, limiter`mine, clock, http, CacheNodes()
      ensures Valid() && fresh(CacheNodes() - old(CacheNodes()))
      ensures left <= budget && old(limiter.history) <= limiter.history
      ensures Charges(limiter.history)
                == Charges(old(limiter.history)) + (budget - left) + (|http.sent| - |old(http.sent)|)
      ensures Faithful(c, r)
      ensures Stepped(c, before, Entries(), r, call) && call.key == c && FixedCall(call)
      ensures old(clock.now) as int == call.gotAt <= call.putAt <= clock.now as int
      ensures CameTo(asked, r) && Made(old(RequestFor(pathOf(c))), OnRecord(), asked) && asked.at <= call.putAt
      ensures r.NoReturn? ==> NearEnd(clock.now as int)
      ensures r.Threw? ==> CanThrow(allocationFails)
    {
      ghost var putAt;
      ghost var looked, gotAt := Entries(), clock.now as int;
      r, left, putAt, asked := MissedPoint(c, allocationFails, budget);
      call := Call(c, gotAt, ValueOf(PointOf(asked.response)), putAt);
      MissIsStep(c, before, looked, Entries(), r, asked, call);
    }

    lemma {:induction false} MissIsStep(c: Coordinate, before: seq<Entry<Coordinate, V>>,
                                        looked: seq<Entry<Coordinate, V>>, after: seq<Entry<Coordinate, V>>,
                                        r: PointResult<V>, asked: Asked, call: Call<Coordinate, V>)
      requires (None, looked) == Looked(CacheConfig(), before, c, call.gotAt) && call.key == c
      requires after == Kept(looked, c, r, call.putAt) && CameTo(asked, r)
      requires call.fetched == ValueOf(PointOf(asked.response))
      ensures Stepped(c, before, after, r, call)
    {
    }

    lemma {:induction false} MadeSends(req: Request, on: Records, asked: Asked)
      requires req.config.refillMs > 0 && Made(req, on, asked) && req.policy == policy
      ensures OnlySent(req.sent, on.sent, req.path)
    {
      SendsGoTo(req.path, asked.story);
    }

    lemma {:induction false} MadeExplains(c: Coordinate, req: Request, on: Records, asked: Asked, r: PointResult<V>)
      requires req.config.refillMs > 0 && Made(req, on, asked) && req.policy == policy && CameTo(asked, r)
      ensures Explains(c, Some(asked), r)
    {
    }

    /** The result and the entries afterwards are those of the read-through specification; a call that
        does not come back normally leaves what the lookup left. */
    ghost predicate Stepped(c: Coordinate, before: seq<Entry<Coordinate, V>>, after: seq<Entry<Coordinate, V>>,
                            r: PointResult<V>, call: Call<Coordinate, V>) {
      if Abnormal(r) then after == Looked(CacheConfig(), before, c, call.gotAt).1
      else (ValueOf(r), after) == Answer(CacheConfig(), before, call)
    }

    /** Only putting a point in a cache can throw. */
    predicate CanThrow(allocationFails: bool) { allocationFails && cache != null }

    /** The result is what the response means, unless putting it in the cache threw. */
    ghost predicate CameTo(asked: Asked, r: PointResult<V>) {
      r == PointOf(asked.response) || (r.Threw? && PointOf(asked.response).Found?)
    }

    /** Fetching leaves the cache as it is. */
    method FetchBeside(c: Coordinate, budget: nat) returns (r: PointResult<V>, left: nat, ghost asked: Asked)
      requires Valid() && InRange(c)
      modifies limiter`tokens, limiter`lastRefill, limiter`history, limiter`mine, clock, http
      ensures Valid() && CacheNodes() == old(CacheNodes()) && Entries() == old(Entries())
      ensures old(clock.now) <= clock.now
      ensures left <= budget && old(limiter.history) <= limiter.history
      ensures Made(old(RequestFor(pathOf(c))), OnRecord(), asked) && r == PointOf(asked.response)
      ensures Faithful(c, r) && asked.at == clock.now as int
      ensures r.NoReturn? ==> NearEnd(clock.now as int)
      ensures Charges(limiter.history)
                == Charges(old(limiter.history)) + (budget - left) + (|http.sent| - |old(http.sent)|)
    {
      r, left, asked := FetchPoint(c, budget);
    }

    /** A lookup that missed: fetch, and put what was fetched. */
    method MissedPoint(c: Coordinate, allocationFails: bool, budget: nat)
        returns (r: PointResult<V>, left: nat, ghost putAt: int, ghost asked: Asked)
      requires Valid() && InRange(c)
      modifies limiter`tokens, limiter`lastRefill, limiter`history, limiter`mine, clock, http, CacheNodes()
      ensures Valid() && fresh(CacheNodes() - old(CacheNodes()))
      ensures old(clock.now) as int <= putAt <= clock.now as int
      ensures left <= budget && old(limiter.history) <= limiter.history
      ensures Charges(limiter.history)
                == Charges(old(limiter.history)) + (budget - left) + (|http.sent| - |old(http.sent)|)
      ensures Faithful(c, r) && Faithful(c, PointOf(asked.response))
      ensures Entries() == Kept(old(Entries()), c, r, putAt)
      ensures Made(old(RequestFor(pathOf(c))), OnRecord(), asked) && CameTo(asked, r) && asked.at <= putAt
      ensures r.NoReturn? ==> NearEnd(clock.now as int)
      ensures r.Threw? ==> CanThrow(allocationFails)
    {
      r, left, asked := FetchBeside(c, budget);
      r, putAt := KeepPoint(c, r, allocationFails);
    }

    /** Put what was found, if there is a cache. */
    method KeepPoint(c: Coordinate, found: PointResult<V>, allocationFails: bool)
        returns (r: PointResult<V>, ghost putAt: int)
      requires Valid() && InRange(c) && Faithful(c, found)
      modifies clock`now, CacheNodes()
      ensures Valid() && fresh(CacheNodes() - old(CacheNodes()))
      ensures old(clock.now) as int <= putAt == clock.now as int && OnRecord() == old(OnRecord())
      ensures (r == found || (found.Found? && r.Threw? && CanThrow(allocationFails))) && Faithful(c, r)
      ensures Entries() == Kept(old(Entries()), c, r, putAt)
    {
      r := found;
      if found.Found? && cache != null {
        var threw := StorePoint(c, found.value, allocationFails);
        if threw {
          r := Threw;
        }
      }
      putAt := clock.now as int;
    }

    /** What is found is put in the cache. */
    ghost function Kept(entries: seq<Entry<Coordinate, V>>, c: Coordinate, r: PointResult<V>, at: int)
      : seq<Entry<Coordinate, V>>
    {
      if r.Found? then Stored(CacheConfig(), entries, c, r.value, at) else entries
    }

    /** What was sent went to one path, and no more often than one call may. */
    ghost predicate OnlySent(before: seq<Exchange>, sent: seq<Exchange>, path: string) {
      && before <= sent && |sent| - |before| <= policy.maxAttempts as int
      && forall i :: |before| <= i < |sent| ==> sent[i].path == path
    }

    /** What is found is the server's answer; out of range is refused; and nothing that can be reached
        fails. */
    ghost predicate Faithful(c: Coordinate, r: PointResult<V>) {
      && (r.Found? ==> InRange(c) && Truth(c) == Some(r.value))
      && (!InRange(c) ==> r == Failed(InvalidRequest))
      && (InRange(c) && Reachable() && Truth(c).Some? ==> !r.Failed?)
    }

    ghost predicate FixedCall(call: Call<Coordinate, V>) {
      call.fetched.Some? ==> call.fetched == Truth(call.key)
    }

    // -------------------------------------------------------------- sessions

    /** What one lookup asked the server explains its result; only a cached point is found without asking. */
    ghost predicate Explains(c: Coordinate, asked: Option<Asked>, r: PointResult<V>) {
      match asked
      case Some(a) => Retried(policy, Outcomes(a.story), a.response) && CameTo(a, r)
      case None => if InRange(c) then cache != null && r.Found? else r == Failed(InvalidRequest)
    }

    /** What it asked was sent and slept. */
    ghost predicate Added(path: string, on: Records, asked: Option<Asked>, on': Records) {
      match asked
      case Some(a) => on'.sent == on.sent + Sends(path, a.story) && on'.slept == on.slept + Sleeps(a.story)
      case None => on'.sent == on.sent && on'.slept == on.slept
    }

    ghost function SentFor(cs: seq<Coordinate>, asked: seq<Option<Asked>>): seq<Exchange>
      requires |cs| == |asked|
    {
      if cs == [] then []
      else
        var n := |cs| - 1;
        SentFor(cs[..n], asked[..n]) + (if asked[n].Some? then Sends(pathOf(cs[n]), asked[n].value.story) else [])
    }

    ghost function SleptFor(asked: seq<Option<Asked>>): seq<Sleep> {
      if asked == [] then []
      else
        var n := |asked| - 1;
        SleptFor(asked[..n]) + (if asked[n].Some? then Sleeps(asked[n].value.story) else [])
    }

    /** All that the lookups sent and slept, one after the other. */
    ghost predicate AllAsked(cs: seq<Coordinate>, rs: seq<PointResult<V>>, asked: seq<Option<Asked>>,
                             was: Records, on: Records) {
      && |cs| == |rs| == |asked|
      && on.sent == was.sent + SentFor(cs, asked) && on.slept == was.slept + SleptFor(asked)
      && forall i :: 0 <= i < |rs| ==> Explains(cs[i], asked[i], rs[i])
    }

    /** The same for the next of the session's points. */
    lemma {:induction false} NextAsked(cs: seq<Coordinate>, rs: seq<PointResult<V>>, asked: seq<Option<Asked>>,
                                       was: Records, on: Records, r: PointResult<V>, a: Option<Asked>, on': Records)
      requires |rs| < |cs| && AllAsked(cs[..|rs|], rs, asked, was, on) && Explains(cs[|rs|], a, r)
      requires Added(pathOf(cs[|rs|]), on, a, on')
      ensures AllAsked(cs[..|rs| + 1], rs + [r], asked + [a], was, on')
    {
      OneMoreAsked(cs[..|rs|], rs, asked, was, on, cs[|rs|], r, a, on');
      assert cs[..|rs| + 1] == cs[..|rs|] + [cs[|rs|]];
    }

    lemma {:induction false} OneMoreAsked(cs: seq<Coordinate>, rs: seq<PointResult<V>>, asked: seq<Option<Asked>>,
                                          was: Records, on: Records, c: Coordinate, r: PointResult<V>,
                                          a: Option<Asked>, on': Records)
      requires AllAsked(cs, rs, asked, was, on) && Explains(c, a, r)
      requires Added(pathOf(c), on, a, on')
      ensures AllAsked(cs + [c], rs + [r], asked + [a], was, on')
    {
      assert (cs + [c])[..|cs|] == cs && (asked + [a])[..|asked|] == asked;
      if a.Some? {
        Assoc(was.sent, SentFor(cs, asked), Sends(pathOf(c), a.value.story));
        Assoc(was.slept, SleptFor(asked), Sleeps(a.value.story));
      }
    }

    /** Calls follow one another within the session, and fetch only the server's answers. */
    ghost predicate InOrder(calls: seq<Call<Coordinate, V>>, since: int, upTo: int) {
      && (forall i :: 0 <= i < |calls| ==> since <= calls[i].gotAt <= calls[i].putAt <= upTo && FixedCall(calls[i]))
      && (forall i :: 1 <= i < |calls| ==> Follows(calls, i))
    }

    ghost predicate Follows(calls: seq<Call<Coordinate, V>>, i: nat)
      requires 1 <= i < |calls|
    {
      calls[i - 1].putAt <= calls[i].gotAt
    }

    ghost predicate AllNormal(cs: seq<Coordinate>, rs: seq<PointResult<V>>)
      requires |cs| == |rs|
    {
      forall i :: 0 <= i < |rs| ==> Faithful(cs[i], rs[i]) && !Abnormal(rs[i])
    }

    /** The calls are those of the points in range, each answered as the read-through specification says;
        no result so far is abnormal. */
    ghost predicate SessionOf(cs: seq<Coordinate>, rs: seq<PointResult<V>>, calls: seq<Call<Coordinate, V>>,
                              since: int, upTo: int) {
      && |cs| == |rs| && AllNormal(cs, rs)
      && KeysOf(calls) == PointsIn(cs) && Answers(CacheConfig(), calls) == ValuesIn(cs, rs)
      && InOrder(calls, since, upTo)
    }

    /** One more point of the session `cs`, its result normal. */
    lemma {:induction false} SessionGrows(cs: seq<Coordinate>, rs: seq<PointResult<V>>, calls: seq<Call<Coordinate, V>>,
                                          since: int, upTo: int, r: PointResult<V>, call: Call<Coordinate, V>,
                                          upTo': int)
      requires |rs| < |cs| && SessionOf(cs[..|rs|], rs, calls, since, upTo) && since <= upTo <= upTo'
      requires Faithful(cs[|rs|], r) && !Abnormal(r) && call.key == cs[|rs|]
      requires InRange(cs[|rs|]) ==>
                 && FixedCall(call) && upTo <= call.gotAt <= call.putAt <= upTo'
                 && Answer(CacheConfig(), Contents(CacheConfig(), calls), call).0 == ValueOf(r)
      ensures SessionOf(cs[..|rs| + 1], rs + [r], WithCall(calls, call), since, upTo')
      ensures Contents(CacheConfig(), WithCall(calls, call)) ==
              if InRange(call.key) then Answer(CacheConfig(), Contents(CacheConfig(), calls), call).1
              else Contents(CacheConfig(), calls)
    {
      var n := |rs|;
      assert cs[..n + 1] == cs[..n] + [cs[n]];
      if InRange(cs[n]) {
        OneMoreCall(CacheConfig(), calls, call);
        SessionWith(cs[..n], rs, calls, since, upTo, r, call, upTo');
      } else {
        SessionWithout(cs[..n], rs, calls, since, upTo, cs[n], r, upTo');
      }
    }

    lemma {:induction false} SessionWith(cs: seq<Coordinate>, rs: seq<PointResult<V>>, calls: seq<Call<Coordinate, V>>,
                                         since: int, upTo: int, r: PointResult<V>, call: Call<Coordinate, V>,
                                         upTo': int)
      requires SessionOf(cs, rs, calls, since, upTo) && since <= upTo <= upTo'
      requires InRange(call.key) && Faithful(call.key, r) && !Abnormal(r)
      requires FixedCall(call) && upTo <= call.gotAt <= call.putAt <= upTo'
      requires Answer(CacheConfig(), Contents(CacheConfig(), calls), call).0 == ValueOf(r)
      ensures SessionOf(cs + [call.key], rs + [r], calls + [call], since, upTo')
    {
      ResultsGrow(cs, rs, call.key, r);
      OneMoreCall(CacheConfig(), calls, call);
      OrderGrows(calls, since, upTo, call, upTo');
      assert KeysOf(calls + [call]) == KeysOf(calls) + [call.key];
    }

    lemma {:induction false} SessionWithout(cs: seq<Coordinate>, rs: seq<PointResult<V>>,
                                            calls: seq<Call<Coordinate, V>>, since: int, upTo: int,
                                            c: Coordinate, r: PointResult<V>, upTo': int)
      requires SessionOf(cs, rs, calls, since, upTo) && since <= upTo <= upTo'
      requires !InRange(c) && Faithful(c, r) && !Abnormal(r)
      ensures SessionOf(cs + [c], rs + [r], calls, since, upTo')
    {
      ResultsGrow(cs, rs, c, r);
      StillInOrder(cs, rs, calls, since, upTo, upTo');
    }

    lemma {:induction false} ResultsGrow(cs: seq<Coordinate>, rs: seq<PointResult<V>>, c: Coordinate, r: PointResult<V>)
      requires |cs| == |rs|
      requires AllNormal(cs, rs) && Faithful(c, r) && !Abnormal(r)
      ensures AllNormal(cs + [c], rs + [r])
      ensures PointsIn(cs + [c]) == if InRange(c) then PointsIn(cs) + [c] else PointsIn(cs)
      ensures ValuesIn(cs + [c], rs + [r]) == if InRange(c) then ValuesIn(cs, rs) + [ValueOf(r)] else ValuesIn(cs, rs)
    {
      assert (cs + [c])[..|cs|] == cs && (rs + [r])[..|rs|] == rs;
    }

    lemma {:induction false} OrderGrows(calls: seq<Call<Coordinate, V>>, since: int, upTo: int,
                                        call: Call<Coordinate, V>, upTo': int)
      requires InOrder(calls, since, upTo) && FixedCall(call)
      requires since <= upTo <= call.gotAt <= call.putAt <= upTo'
      ensures InOrder(calls + [call], since, upTo')
    {
      forall i | 1 <= i < |calls + [call]| ensures Follows(calls + [call], i) {
        assert i < |calls| ==> Follows(calls, i);
      }
    }

    lemma StillInOrder(cs: seq<Coordinate>, rs: seq<PointResult<V>>, calls: seq<Call<Coordinate, V>>,
                       since: int, upTo: int, upTo': int)
      requires SessionOf(cs, rs, calls, since, upTo) && upTo <= upTo'
      ensures SessionOf(cs, rs, calls, since, upTo')
    {
    }

    /** The next point of the session `cs`, of which `rs` are the results so far. */
    method NextPoint(cs: seq<Coordinate>, rs: seq<PointResult<V>>, allocationFails: bool, budget: nat,
                     ghost calls: seq<Call<Coordinate, V>>, ghost since: int,
                     ghost asked: seq<Option<Asked>>, ghost was: Records)
        returns (r: PointResult<V>, left: nat, ghost calls': seq<Call<Coordinate, V>>, ghost a: Option<Asked>)
      requires Valid() && |rs| < |cs| && since <= clock.now as int
      requires SessionOf(cs[..|rs|], rs, calls, since, clock.now as int)
      requires Entries() == Contents(CacheConfig(), calls) && AllAsked(cs[..|rs|], rs, asked, was, OnRecord())
      modifies limiter`tokens, limiter`lastRefill, limiter`history, limiter`mine, clock, http, CacheNodes()
      ensures Valid() && fresh(CacheNodes() - old(CacheNodes())) && old(clock.now) <= clock.now && left <= budget
      ensures Charges(limiter.history)
                == Charges(old(limiter.history)) + (budget - left) + (|http.sent| - |old(http.sent)|)
      ensures Faithful(cs[|rs|], r)
      ensures !Abnormal(r) ==> SessionOf(cs[..|rs| + 1], rs + [r], calls', since, clock.now as int)
      ensures !Abnormal(r) ==> Entries() == Contents(CacheConfig(), calls')
      ensures Abnormal(r) ==> calls' == calls && SessionOf(cs[..|rs|], rs, calls, since, clock.now as int)
      ensures AllAsked(cs[..|rs| + 1], rs + [r], asked + [a], was, OnRecord())
      ensures r.Threw? ==> CanThrow(allocationFails)
      ensures r.NoReturn? ==> NearEnd(clock.now as int)
    {
      ghost var before, on, req := clock.now as int, OnRecord(), RequestFor(pathOf(cs[|rs|]));
      ghost var call;
      r, left, call, a := GetPoint(cs[|rs|], allocationFails, budget);
      if a.Some? {
        MadeExplains(cs[|rs|], req.(since := call.gotAt), OnRecord(), a.value, r);
      }
      NextAsked(cs, rs, asked, was, on, r, a, OnRecord());
      if Abnormal(r) {
        StillInOrder(cs[..|rs|], rs, calls, since, before, clock.now as int);
        calls' := calls;
      } else {
        SessionGrows(cs, rs, calls, since, before, r, call, clock.now as int);
        calls' := WithCall(calls, call);
      }
    }

    /** A session: lookups one after the other, on a cache that starts empty, until one does not come
        back normally; `failures` tells when the cache cannot allocate. The normal results are a session of
        the read-through specification; the abnormal one that ended it, if any, has its cause. */
    method GetPoints(cs: seq<Coordinate>, failures: seq<bool>, budget: nat)
        returns (rs: seq<PointResult<V>>, stopped: Option<PointResult<V>>, left: nat,
                 ghost calls: seq<Call<Coordinate, V>>, ghost asked: seq<Option<Asked>>)
      requires Valid() && Entries() == [] && |failures| == |cs|
      modifies limiter`tokens, limiter`lastRefill, limiter`history, limiter`mine, clock, http, CacheNodes()
      ensures Valid() && fresh(CacheNodes() - old(CacheNodes())) && old(clock.now) <= clock.now
      ensures left <= budget && |rs| <= |cs|
      ensures SessionOf(cs[..|rs|], rs, calls, old(clock.now) as int, clock.now as int)
      ensures stopped.None? ==> |rs| == |cs| && Entries() == Contents(CacheConfig(), calls)
      ensures stopped.Some? ==> |rs| < |cs| && Stopped(cs[|rs|], stopped.value, failures[|rs|], clock.now as int)
      ensures AskedInAll(cs, rs, stopped, asked, old(OnRecord()), OnRecord())
      ensures Charges(limiter.history)
                == Charges(old(limiter.history)) + (budget - left) + (|http.sent| - |old(http.sent)|)
    {
      rs, stopped, left, calls, asked :=
        GetMorePoints(cs, failures, [], budget, [], clock.now as int, [], OnRecord());
    }

    ghost predicate AskedInAll(cs: seq<Coordinate>, rs: seq<PointResult<V>>, stopped: Option<PointResult<V>>,
                               asked: seq<Option<Asked>>, was: Records, on: Records) {
      && |AllOf(rs, stopped)| <= |cs|
      && AllAsked(cs[..|AllOf(rs, stopped)|], AllOf(rs, stopped), asked, was, on)
    }

    /** All the results of a session, the abnormal one that ended it included. */
    function AllOf(rs: seq<PointResult<V>>, stopped: Option<PointResult<V>>): seq<PointResult<V>> {
      if stopped.Some? then rs + [stopped.value] else rs
    }

    /** The session from `done` results on. */
    method GetMorePoints(cs: seq<Coordinate>, failures: seq<bool>, done: seq<PointResult<V>>, budget: nat,
                         ghost sofar: seq<Call<Coordinate, V>>, ghost since: int,
                         ghost before: seq<Option<Asked>>, ghost was: Records)
        returns (rs: seq<PointResult<V>>, stopped: Option<PointResult<V>>, left: nat,
                 ghost calls: seq<Call<Coordinate, V>>, ghost asked: seq<Option<Asked>>)
      requires Valid() && |done| <= |cs| == |failures| && since <= clock.now as int
      requires SessionOf(cs[..|done|], done, sofar, since, clock.now as int)
      requires Entries() == Contents(CacheConfig(), sofar) && AllAsked(cs[..|done|], done, before, was, OnRecord())
      modifies limiter`tokens, limiter`lastRefill, limiter`history, limiter`mine, clock, http, CacheNodes()
      ensures Valid() && fresh(CacheNodes() - old(CacheNodes())) && old(clock.now) <= clock.now
      ensures left <= budget && |rs| <= |cs|
      ensures SessionOf(cs[..|rs|], rs, calls, since, clock.now as int)
      ensures stopped.None? ==> |rs| == |cs| && Entries() == Contents(CacheConfig(), calls)
      ensures stopped.Some? ==> |rs| < |cs| && Stopped(cs[|rs|], stopped.value, failures[|rs|], clock.now as int)
      ensures AskedInAll(cs, rs, stopped, asked, was, OnRecord())
      ensures Charges(limiter.history)
                == Charges(old(limiter.history)) + (budget - left) + (|http.sent| - |old(http.sent)|)
      decreases |cs| - |done|
    {
      rs, stopped, left, calls, asked := done, None, budget, sofar, before;
      if |rs| == |cs| {
        assert AllOf(rs, stopped) == rs;
        return;
      }
      var r;
      ghost var a, nodes := None, CacheNodes();
      r, left, calls, a := NextPoint(cs, rs, failures[|rs|], left, calls, since, asked, was);
      asked := asked + [a];
      if Abnormal(r) {
        stopped := Some(r);
        assert AllOf(rs, stopped) == rs + [r];
        return;
      }
      rs, stopped, left, calls, asked :=
        GetMorePoints(cs, failures, rs + [r], left, calls, since, asked, was);
      assert fresh(CacheNodes() - nodes);
    }

    /** An abnormal result, for a point in range, with its cause. */
    ghost predicate Stopped(c: Coordinate, r: PointResult<V>, allocationFails: bool, now: int) {
      Abnormal(r) && InRange(c) && (r.Threw? ==> CanThrow(allocationFails)) && (r.NoReturn? ==> NearEnd(now))
    }

    /** Consult the cache, if there is one. */
    method CachedPoint(c: Coordinate) returns (hit: Option<V>)
      requires Valid() && InRange(c)
      modifies clock`now, CacheNodes()
      ensures Valid() && old(clock.now) <= clock.now && CacheNodes() == old(CacheNodes())
      ensures OnRecord() == old(OnRecord())
      ensures (hit, Entries()) == Looked(CacheConfig(), old(Entries()), c, clock.now as int)
      ensures hit.Some? ==> cache != null && Truth(c) == hit
    {
      hit := None;
      if cache != null {
        ghost var before := Entries();
        hit := cache.Lookup(c, clock);
        LookupBringsNothing(cache.config, before, c, clock.now as int);
      }
    }

    method StorePoint(c: Coordinate, value: V, allocationFails: bool) returns (threw: bool)
      requires cache != null && Valid() && InRange(c) && Truth(c) == Some(value)
      modifies clock`now, CacheNodes()
      ensures Valid() && old(clock.now) <= clock.now && fresh(CacheNodes() - old(CacheNodes()))
      ensures OnRecord() == old(OnRecord())
      ensures threw ==> allocationFails && Entries() == old(Entries())
      ensures !threw ==> Entries() == Put(cache.config, old(Entries()), c, value, clock.now as int)
    {
      ghost var before := Entries();
      threw := cache.Insert(c, value, allocationFails, clock);
      PutBringsOne(cache.config, before, c, value, clock.now as int);
    }
  }

  lemma {:induction false} FoundValues<V>(cs: seq<Coordinate>, rs: seq<PointResult<V>>)
    requires |cs| == |rs| && forall i :: 0 <= i < |rs| ==> rs[i].Found?
    ensures forall i :: 0 <= i < |ValuesIn(cs, rs)| ==> ValuesIn(cs, rs)[i].Some?
  {
    if cs != [] {
      FoundValues(cs[..|cs| - 1], rs[..|rs| - 1]);
    }
  }

  /** INCLUSION for two clients asked for the same points and finding them all: the recency list of the
      smaller cache is the front of that of the larger one, whatever their clocks and limiters did. */
  lemma {:induction false} ClientsAreIncluded<V>(small: Client<V>, large: Client<V>, cs: seq<Coordinate>,
                                                 xs: seq<PointResult<V>>, ys: seq<PointResult<V>>,
                                                 calls: seq<Call<Coordinate, V>>, calls': seq<Call<Coordinate, V>>,
                                                 from: int, upTo: int, from': int, upTo': int)
    requires small.cache != null && large.cache != null
    requires small.cache.config.maxEntries > 0 && small.cache.config.ttl > 0
    requires large.cache.config.maxEntries > 0 && large.cache.config.ttl > 0
    requires small.cache.config.maxEntries <= large.cache.config.maxEntries
    requires small.SessionOf(cs, xs, calls, from, upTo) && small.Entries() == Contents(small.CacheConfig(), calls)
    requires large.SessionOf(cs, ys, calls', from', upTo') && large.Entries() == Contents(large.CacheConfig(), calls')
    requires forall i :: 0 <= i < |cs| ==> xs[i].Found? && ys[i].Found?
    ensures Recency(small.Entries()) == Truncate(Recency(large.Entries()), small.cache.config.maxEntries)
  {
    FoundValues(cs, xs);
    FoundValues(cs, ys);
    assert KeysOf(calls) == KeysOf(calls');
    assert forall i :: 0 <= i < |calls| ==> Answers(small.CacheConfig(), calls)[i].Some?;
    assert forall i :: 0 <= i < |calls'| ==> Answers(large.CacheConfig(), calls')[i].Some?;
    assert forall i :: 0 <= i < |calls| ==> KeysOf(calls)[i] == KeysOf(calls')[i];
    SessionsAreIncluded(small.cache.config, large.cache.config, calls, calls');
  }

  /** THE CLIENT'S RATE BOUND. Requests that reached the server, counted at the instants their tokens
      were granted, obey the limiter's bound in every window, whatever calls were made. */
  lemma ClientKeepsItsRate<V>(client: Client<V>, s: int, t: int)
    requires client.Valid() && s <= t
    ensures client.limiter.config.refillMs > 0
    ensures var sent, h, c := client.http.sent, client.limiter.history, client.limiter.config;
            |set i | 0 <= i < |sent| && s <= sent[i].tokenAt <= t|
              <= c.maxTokens as int + (t - s) / (c.refillMs as int * 1_000_000)
                 + |set i | 0 <= i < |h| && h[i].WasReset? && s <= h[i].at <= t| * c.initialTokens as int
  {
    LimiterKeepsItsRate(client.limiter, client.clock, s, t);
    ResetsAreNumber(client.limiter.history, s, t);
    SentIsNumber(client.http.sent, s, t);
    assert SentIn(client.http.sent, s, t) <= GrantsIn(client.limiter.history, s, t);
  }
}
