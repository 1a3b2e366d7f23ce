# nws-cpp: a verified model of the client engine and the text products

nws-cpp is a C++ client for the National Weather Service API. This project models the parts of it
that keep state or recognise text, and proves what they promise:

* the **token-bucket rate limiter**, refilled lazily by nested truncating division on a monotone
  nanosecond clock, used by any number of threads, with its sleep-and-retry loop and its deadlines;
* the **LRU cache**, a doubly linked recency list plus a table that holds positions in that list,
  with lifetimes, eviction and rollback;
* the **retry loop** and the **client** that composes it with the limiter, the server and the cache;
* the **pagination iterator** over an arbitrary source of pages;
* the **query builders** and their percent-encoding;
* the **NBP bulletin parser** and the **CF6 and CLI climate report parsers**.

## How the model is built

Objects that the library updates in place are classes with the same fields, loops are loops, and the
limiter's, the cache's and the retry loop's integers have the library's widths. Each method is proved
against a specification function; what the library promises is then proved about that function, for
every input, history or run.

`MachineInts`, `Sequences` (integer widths, division, sequence surgery) · `Scheduler`, `TokenBucket`,
`LimiterRuns` (what the limiter means) · `SteadyClock`, `Waiting`, `RateLimiting` (the limiter and a call
that waits on it) · `RetryPolicies`, `HttpRetry` (retrying) · `LruModel`, `LruInclusion`, `PointLookup`
(what the cache means) · `RecencyLists`, `LruCaching` (the cache) · `NwsClient` (the composition) ·
`Pagination` · `Text`, `UrlEncoding`, `Decimal`, `Query` · `NbpBulletin`, `NbpPrinting` · `CliScanning`,
`CliReports`, `Cf6Report` · `PrintedLines`, `CliPrinting`, `Cf6Printing`.

**The limiter** is compared with a device that keeps one number: the instant at which the bucket is
empty. It never lets that instant fall further behind the clock than a full bucket is worth, grants a
token when one interval has passed since, and adds one interval per token. `RunIsScheduled` proves that
the limiter, with its two fields, three refill branches and two truncating divisions, grants in exactly
the events in which that device does. The bound on every time window, its tightness, and conservation
of time follow from the simple form.

**The parsers** are automata with flags and partly built records. What a text means is defined
separately, block by block or over all rows, and each automaton is proved to compute it through an
invariant of the form "what has been delivered, completed with what the remaining lines mean, is what
the whole text means". For all three products a round trip then says what a printed product means without
any of the parser's notions: which letters stand where on a line, in which order the lines come, and which
of them count.

Modelling decisions:

* Each locked section is one atomic step. Each `Clock::now()` is a separate reading; the clock is a
  signed 64-bit count that starts at or above zero, never goes back and may advance by any amount
  between two readings. Sleeps last at least as long as asked. A sleep that would end past the last
  instant of the clock does not return (`Asleep`, `NoReturn`, or `None` from the retry loop); each of
  these outcomes is proved to occur only when the clock is that near its end. The clock records the
  sleeps asked for, the limiter its locked sections and which of them are the calling thread's own, the
  server its exchanges: what a call did, and that it did nothing else, is stated about those records.
* Other threads run before every locked section and during every sleep: any number of locked sections,
  of which at most `budget` in all are grants or resets. The budget is what makes an unfair, unbounded
  competition terminate; `left` says how much of it was spent, and every bound is in those terms.
* `double` is `real`; not-a-number and infinities are one case that keeps the special treatment the
  code gives it. In coordinates this makes 0 and -0 the same point, also in its path.
* The random jitter is any factor in its interval. A failing allocation in the cache is a parameter of
  `Insert`. The server is an oracle that records what reached it: any status or error at any time, but
  its successful answer to a path is fixed, as the cache's use requires. The format of a point's path
  and the JSON parser of its answer are parameters of the client.
* The cache compares ages with its lifetime exactly, where the code uses `long double`; the lifetime is
  in clock units. Keys have a lawful equality. `GetPoints` is one `GetPoint` call after another, added
  to state what holds of whole sessions.
* `collect_all` needs no bound on the source to be stated, but ends only if the cursors handed out are
  finitely many; `cursors` is that set.
* A string is a sequence of bytes, white space and letters are those of the C locale, and messages of
  errors are not modelled, only their kind.
* The library has no printer of text products. What a printed one looks like is a relation between the
  text and what it says (`PrintsLines`, `PrintsAll`, `PrintsHead`, `IsTable`, ...), written down letter by
  letter; it leaves open whatever the parser leaves open, such as column widths, other lines and carriage
  returns. The reader of query strings plays the server's part.

Where the code does something other than its comments or one's first reading suggest, the model follows
the code:

* `acquire_for` is described as returning false when the maximum wait is exceeded. It gives up as soon
  as the next sleep would overrun the deadline, so it need not wait at all (`GivesUpWithoutWaiting`). A
  maximum wait that reaches past the last instant of the clock is cut off there, or up to a millisecond
  after (`KeepsToItsWait`, `DeadlineIsNear`). On
  an empty bucket it gives up if and only if the next token is due after the deadline, put off by the
  time between two readings (`GivesUpExactlyWhen`, `UncontendedRefusal`).
* `reset` refills the bucket at once, so the window bound holds with an extra initial allowance for each
  reset in the window (`RateBound`).
* `first_int` is described as finding the first integer token. It does if and only if that token fits
  32 bits; a longer number is read again from its next digit on (`FirstTokenIsFound`, `LongNumberIsCut`).
* A failed fetch loses nothing for `next`, but `collect_all` returns the error alone and the data it had
  fetched is gone: called again, it returns what an undisturbed call would have returned if and only if no
  data had been fetched before the failure (`RetriedCollectionSkips`, `FirstPageIsSkipped`).
* After a repeated cursor, the iterator counts as finished: the error is reported once, and a second
  `collect_all` returns an empty success (`RepeatIsReportedOnce`).
* `lines_of` keeps a carriage return at the end of an unterminated last line; the NBP parser drops it.
* The NBP column row may be labelled DT, besides UTC and FHR.
* A text without stations is an error, and the empty text another, so the NBP round trip is stated with
  these cases.

## Model

| member | source | states |
|---|---|---|
| TokenBucket.Sanitized | src/core/rate_limit.cpp:9-16 | the configuration used is always sane, a sane one is kept, and each field is repaired on its own |
| TokenBucket.RefillIsCatchUp | src/core/rate_limit.cpp:22-42 | a refill with its three branches and nested divisions leaves exactly the bucket determined by the caught-up empty instant, keeping fractions except at saturation |
| TokenBucket.TakeIsScheduled | src/core/rate_limit.cpp:44-49 | a token is granted if and only if one interval has passed since the caught-up empty instant, and a grant moves it by one interval |
| TokenBucket.RefillIsPathIndependent | src/core/rate_limit.cpp:22-42 | refilling at t1 and then at t2 gives the state of refilling once at t2 |
| TokenBucket.FailedPollIsInvisible | src/core/rate_limit.cpp:44-61 | a failed attempt changes neither the outcome nor the state left by any later attempt |
| TokenBucket.AvailableIsWhatARefillLeaves | src/core/rate_limit.cpp:94-102 | the reported count is what a refill then would leave, and is positive exactly when an attempt then would succeed |
| TokenBucket.NextTokenInstant | src/core/rate_limit.cpp:44-56 | from an empty bucket, attempts fail strictly before one interval after the credited instant and succeed from it on |
| TokenBucket.OnlySaturationForfeits | src/core/rate_limit.cpp:24-41 | only a refill that fills the bucket throws time away |
| Scheduler.WindowBound | src/core/rate_limit.cpp:22-56 | the one-number scheduler's grants in any window are worth at most a full bucket plus the window plus what resets put back |
| Scheduler.TimeIsConserved | src/core/rate_limit.cpp:22-56 | without resets, the scheduler's number accounts for every token granted and every nanosecond forfeited |
| Scheduler.GreedyIsScheduled | src/core/rate_limit.cpp:22-56 | the greediest run the bound allows is one the scheduler makes |
| Scheduler.GrantsAreNumber | src/core/rate_limit.cpp:44-49 | the grants of a window are the events in it that took a token, counted |
| Scheduler.ResetsAreNumber | src/core/rate_limit.cpp:104-108 | and its resets the events in it that were one |
| Scheduler.ChargesAreNumber | src/core/rate_limit.cpp:44-108 | and charges are grants and resets together |
| LimiterRuns.AlwaysConsistent | src/core/rate_limit.cpp:22-56 | after every legal history, resets included, the token count is within bounds and the credited instant is past |
| LimiterRuns.RunIsScheduled | src/core/rate_limit.cpp:22-61 | over whole runs the limiter refines the one-number scheduler: same grants, matching state |
| LimiterRuns.RateBound | src/core/rate_limit.cpp:22-56 | for every interleaving, grants at clock times in [s, t] are at most max_tokens plus one per whole interval, plus an initial allowance per reset in the window |
| LimiterRuns.RateBoundIsTight | src/core/rate_limit.cpp:22-56 | a limiter that starts full can hand out n tokens in the shortest window the bound permits, for every n |
| LimiterRuns.Conservation | src/core/rate_limit.cpp:28-41 | without resets, grants plus tokens left after a refill at t are the initial tokens plus one per whole interval of the time not forfeited; nothing is forfeited unless a refill saturates |
| LimiterRuns.RefusedOnlyWhenSpent | src/core/rate_limit.cpp:44-61 | grants since construction are bounded by the whole allowance, and an attempt is refused exactly when the allowance for the time kept has been handed out |
| LimiterRuns.FailuresAreInvisible | src/core/rate_limit.cpp:44-61 | dropping every failed attempt from a history leaves a legal history whose bucket refills to the same |
| LimiterRuns.QuietStretchOnlyRefills | src/core/rate_limit.cpp:22-56 | between two points of a run without grants or resets the bucket only refilled |
| LimiterRuns.RefusalIsCharged | src/core/rate_limit.cpp:77-92 | a thread refused again after its token was due was overtaken by a grant or reset in between |
| SteadyClock.Clock.WakeFrom | src/core/rate_limit.cpp:90 | a sleep lasts at least as long as asked, unless it would end past the last instant of the clock |
| RateLimiting.RateLimiter.constructor | src/core/rate_limit.cpp:19-20 | a new limiter has the sanitized configuration, the initial tokens and an empty history |
| RateLimiting.RateLimiter.RefillAt | src/core/rate_limit.cpp:22-42 | the in-place refill in 64-bit and 16-bit arithmetic is the refill of the specification, without overflow |
| RateLimiting.RateLimiter.TakeOrWaitTime | src/core/rate_limit.cpp:44-56 | one locked section adds one event with the specified outcome; on failure the bucket is empty and the wait runs to one capped interval after the credited instant, from a second clock reading |
| RateLimiting.RateLimiter.TryAcquire | src/core/rate_limit.cpp:58-61 | one event is added to the history and its outcome returned |
| RateLimiting.RateLimiter.AvailableTokens | src/core/rate_limit.cpp:94-102 | returns what a refill at the instant read would leave, changing nothing |
| RateLimiting.RateLimiter.Reset | src/core/rate_limit.cpp:104-108 | back to the initial tokens, credited up to the instant read |
| RateLimiting.RateLimiter.OthersRun | src/core/rate_limit.cpp:58-108 | any locked sections of other threads keep the limiter valid, and grants and resets among them are exactly the budget spent |
| RateLimiting.RateLimiter.Attempt | src/core/rate_limit.cpp:79-86 | one pass of a waiting thread; a second failure in a row is paid for by another thread's grant or reset |
| RateLimiting.RateLimiter.AcquireUntil | src/core/rate_limit.cpp:77-92 | the refused attempts in the history, the sleeps in the clock's record and the outcome fit together: every refused attempt but a timed-out last one was slept after, to the instant its wait reaches, by the deadline, and the next attempt came no earlier; a grant ends it; one token on success, none otherwise; at most two passes plus one per grant or reset by others; the thread made no other attempt and no other sleep |
| RateLimiting.RateLimiter.AfterRefusal | src/core/rate_limit.cpp:87-90 | a refused attempt leads to giving up if the sleep would overrun the deadline, and otherwise to exactly that sleep |
| RateLimiting.RateLimiter.AcquireFor | src/core/rate_limit.cpp:67-75 | such a call, with the deadline counted from the instant of entry: for every maximum wait m in milliseconds, every sleep ends before entry + (max(m, 0) + 1) * 1,000,000; for m <= 0 none ends after entry; a timeout means that the next sleep would end after entry + max(m, 0) * 1,000,000, or after the clock |
| RateLimiting.DeadlineIsNear | src/core/rate_limit.cpp:69-74 | the deadline of any wait is never earlier than the wait allows nor past the clock, cutting it off adds less than a millisecond, and a wait of zero or less ends on entry |
| RateLimiting.KeepsToItsWait | src/core/rate_limit.cpp:67-92 | every call that ended with that deadline keeps these bounds |
| RateLimiting.RateLimiter.Acquire | src/core/rate_limit.cpp:63-65 | such a call with the configured maximum wait, within the same bounds; without one it never times out |
| Waiting.OwnEventsAre | src/core/rate_limit.cpp:77-92 | the refused attempts a call reports are exactly those it added to the thread's own attempts |
| Waiting.OutcomeIsDecided | src/core/rate_limit.cpp:84-90 | a call without a token timed out if and only if the sleep after its last attempt would overrun the deadline; no sleep ends past the deadline |
| Waiting.OutcomeHasCause | src/core/rate_limit.cpp:50-55 | timing out means the deadline was less than one interval away, not returning means the end of the clock was |
| Waiting.GivesUpExactlyWhen | src/core/rate_limit.cpp:87-89 | the exact instant condition under which a refused attempt is the last |
| Waiting.UncontendedGrant | src/core/rate_limit.cpp:77-86 | a call on which no time passes takes a token whenever the reported count is positive |
| Waiting.UncontendedRefusal | src/core/rate_limit.cpp:77-92 | otherwise it gives up at once if and only if the next token is due after the deadline, however long it was allowed to wait |
| Waiting.GivesUpWithoutWaiting | src/core/rate_limit.cpp:67-89 | a concrete call that gives up without having waited: empty bucket, one token a second, half a second allowed |
| RateLimiting.LimiterKeepsItsRate | src/core/rate_limit.cpp:22-92 | the rate bound holds of every limiter object, whatever its threads have done |
| RateLimiting.EarnedFits | src/core/rate_limit.cpp:28-41 | counting intervals and converting them back stays within the elapsed time at every step |
| RateLimiting.SleepReachesTheToken | src/core/rate_limit.cpp:50-55 | a sleep of the reported wait that ends on this clock ends no earlier than the next token's instant |
| RetryPolicies.SaturationStep | include/nws/retry.hpp:68-70 | cutting off at the maximum after every multiplication equals cutting off once at the end |
| RetryPolicies.SaturatingBackoff | include/nws/retry.hpp:64-70 | the loop computes the capped exponential of its attempt number |
| RetryPolicies.CalculateRetryDelay | include/nws/retry.hpp:59-83 | the delay is min(max, floor(min(max, init * mult^(k-1)) * jitter)) after sanitising, and never above the maximum |
| RetryPolicies.ToMilliseconds | include/nws/retry.hpp:78-82 | the conversion stays in range and truncates below the maximum |
| RetryPolicies.PossibleDelayRange | include/nws/retry.hpp:59-83 | no delay that any draw can give is negative or above the maximum |
| RetryPolicies.BackoffRecurs | include/nws/retry.hpp:61-70 | jitter apart, the first delay is the initial one within the maximum and each next one the last times the multiplier, cut off, in the fields as given: negative ones count as zero, a multiplier that is not finite as one |
| RetryPolicies.JitterReaches | include/nws/retry.hpp:72-82 | the draws around it reach exactly as far as the jitter factor says, between none and all of the delay |
| RetryPolicies.DefaultPauses | include/nws/retry.hpp:19-28 | with the default policy the first pause is between 450 and 550 milliseconds and the second twice that |
| RetryPolicies.BackoffGrows | include/nws/retry.hpp:64-70 | with a multiplier of at least one, delays do not shrink, jitter apart |
| HttpRetry.BackedGrows | src/api/client.cpp:46-56 | a request sent for the grant just made keeps every window's requests within its grants |
| HttpRetry.Operation.Call | src/api/client.cpp:48-54 | one whole wait for a token with one of its three ends: a grant and one request, a timeout that sends nothing, or a sleep past the end of the clock; its sleeps and attempts are all that was added to the records |
| HttpRetry.WithRetry | include/nws/retry.hpp:87-112 | `story` is all that happened: the log grew by its requests, the record of sleeps by those of its waits and one allowed delay between attempts, in order, and the thread's attempts by its own; every attempt but the last called for another, and the last either did not or was the last allowed; its outcome is returned; the pauses elapse and add up to at most the maximum delay for each; the 8-bit counter never wraps even at 255, and only the last attempt can lack a request, its wait having timed out; it returns unless the clock is near its end; each exchange short of the last allowed is followed by another attempt exactly for the statuses and errors of `GoesOnExactlyWhen` |
| HttpRetry.Round | include/nws/retry.hpp:88-109 | one round adds one attempt, and a pause only if another is to follow, to the story and to the records |
| HttpRetry.TimesOutOnlyWithLimit | src/core/rate_limit.cpp:63-65 | without a maximum wait no wait times out |
| HttpRetry.PauseBeforeRetry | include/nws/retry.hpp:94-95 | exactly one sleep is added to the record, of a delay allowed after this attempt; it is over if it ends on this clock, and does not return otherwise |
| HttpRetry.FirstFinal | include/nws/retry.hpp:88-109 | the first outcome that calls for no retry, or the last one allowed |
| HttpRetry.AttemptsAreDetermined | include/nws/retry.hpp:87-112 | given what the operation would return, the number of calls is exactly determined |
| HttpRetry.TotalSleepIsBounded | include/nws/retry.hpp:59-106 | the recorded pauses of a request add up to at most the maximum delay for each |
| HttpRetry.PausesElapse | include/nws/retry.hpp:94-95 | the time from the start of a request to the end of its last step is at least that of its pauses |
| HttpRetry.StoryIsRetried | include/nws/retry.hpp:88-109 | the outcomes of a concluded request are those of a loop that went on while they called for it and stopped at the first that did not, or when attempts ran out |
| HttpRetry.SeenIsTold | src/api/client.cpp:46-56 | the exchanges the server recorded, followed by a timeout if the last wait timed out, have exactly the outcomes of the attempts |
| HttpRetry.GoesOnExactlyWhen | include/nws/retry.hpp:37-57 | short of the last attempt allowed, an exchange in the log is followed by another attempt if and only if it got 429 or 503 and these are retried, or another status in 500..599 and these are, or NetworkError and that is |
| HttpRetry.SentIsNumber | src/api/client.cpp:46-56 | the requests of a window are the exchanges in the log with a token of that window, counted |
| LruModel.ReachableShape | include/nws/cache.hpp:27-94 | every reachable cache holds each key once and never more entries than its maximum |
| LruModel.EntriesAreLastPuts | include/nws/cache.hpp:50-94 | every entry is the last value put under its key with the time of that put: hits never extend a life, nothing superseded survives |
| LruModel.HitsAreFresh | include/nws/cache.hpp:35-46 | a hit is the last value put, no older than the lifetime, and not invalidated or cleared since |
| LruModel.WorkingSetIsKept | include/nws/cache.hpp:35-77 | with max_entries > 0 and ttl > 0, an entry put at t is returned up to and including t + ttl if it was not removed and fewer than max_entries other keys were touched since its own last touch |
| LruModel.PutIsReturned | include/nws/cache.hpp:35-77 | the same told operation by operation: after a put and any later operations that neither replace, invalidate, clear nor outlive it, with fewer other keys among them than there is room for, a lookup returns what was put |
| LruModel.WithoutRoomNothingIsKept | include/nws/cache.hpp:51 | with max_entries == 0 or ttl <= 0 the cache is empty after every run |
| LruModel.LookupBringsNothing | include/nws/cache.hpp:27-47 | lookups bring in nothing and a hit is an entry of the cache |
| LruModel.PutBringsOne | include/nws/cache.hpp:50-77 | puts bring in only the entry put |
| LruInclusion.ReadThroughOnKeys | include/nws/cache.hpp:27-77 | on keys, hit, expired entry and miss all do the same: the key goes to the front and the list is cut to the capacity |
| LruInclusion.SmallerIsPrefixOfLarger | include/nws/cache.hpp:27-77 | under get-then-put-on-miss, the recency list of a smaller cache is always the front of that of a larger one fed the same keys, whatever is fetched, when, and whatever expires |
| LruInclusion.LargerHoldsMore | src/api/client.cpp:125-147 | every key a smaller cache holds, a larger one holds |
| PointLookup.ContentsAreAccesses | src/api/client.cpp:125-147 | what answered lookups leave in the cache is what get-then-put-on-miss leaves |
| PointLookup.SessionsAreIncluded | src/api/client.cpp:125-147 | of two sessions over the same points, all answered, the smaller cache's recency list is the front of the larger one's |
| NwsClient.ClientsAreIncluded | src/api/client.cpp:125-147 | the same of two client objects, whatever their clocks and limiters did |
| RecencyLists.RingAround | include/nws/cache.hpp:39 | linking a node's neighbours to each other leaves a ring of the others, both ways round |
| RecencyLists.RingWith | include/nws/cache.hpp:65 | linking a node between the first of a ring and its successor gives a ring with it, both ways round |
| RecencyLists.RecencyList.Erase | include/nws/cache.hpp:39 | unlinking a node through its own pointers removes exactly it from the ring |
| RecencyLists.RecencyList.LinkFront | include/nws/cache.hpp:45 | linking a node in front of the ring keeps every other node in order |
| RecencyLists.RecencyList.PushFront | include/nws/cache.hpp:65 | a fresh node with the key comes first |
| RecencyLists.RecencyList.SpliceToFront | include/nws/cache.hpp:45 | a node moves to the front, the others keep their order, no node is created or destroyed |
| RecencyLists.RecencyList.PopBack | include/nws/cache.hpp:75 | the last node goes |
| LruCaching.CoherentAfterErase | include/nws/cache.hpp:39-40 | dropping a key from both structures leaves list and table coherent |
| LruCaching.CoherentAfterPush | include/nws/cache.hpp:65-68 | a new front node with its table entry leaves list and table coherent |
| LruCaching.CoherentAfterPromotion | include/nws/cache.hpp:45 | moving a key to the front leaves every stored node at its own key |
| LruCaching.TableSize | include/nws/cache.hpp:97-100 | the table has as many keys as the list has nodes |
| LruCaching.LruCache.Lookup | include/nws/cache.hpp:27-47 | refines `Get`: a hit is moved to the front with its time of insertion kept, an expired entry is dropped |
| LruCaching.LruCache.Insert | include/nws/cache.hpp:50-77 | refines `Put`; if the table cannot allocate, list, table and contents are as before and the exception passes on |
| LruCaching.LruCache.EvictToCapacity | include/nws/cache.hpp:73-76 | eviction removes exactly the entries past the maximum, from the back |
| LruCaching.LruCache.Remove | include/nws/cache.hpp:80-87 | refines `Invalidate` |
| LruCaching.LruCache.Clear | include/nws/cache.hpp:90-94 | nothing is left |
| LruCaching.LruCache.Size | include/nws/cache.hpp:97-100 | the number of entries, never above the maximum |
| LruCaching.CacheHitsAreFresh | include/nws/cache.hpp:35-46 | freshness of whatever a cache object would return now |
| LruCaching.CacheKeepsItsWorkingSet | include/nws/cache.hpp:35-77 | the working-set guarantee for a cache object with max_entries > 0 and ttl > 0 |
| LruCaching.CacheWithoutRoomIsEmpty | include/nws/cache.hpp:51 | and so is every such cache object |
| PointLookup.AnswersAreTruthful | src/api/client.cpp:125-149 | against a server with fixed answers, every answer given is the server's, and one is given whenever the server gives one |
| PointLookup.CacheIsTransparent | src/api/client.cpp:125-149 | two clients with any caches, or none, any clocks and any failures answer alike wherever both answer, and identically if the server always answers |
| PointLookup.CacheNeverLosesAnAnswer | src/api/client.cpp:125-149 | a lookup that succeeds without a cache gives the same answer with one |
| PointLookup.RepeatAsksNothing | src/api/client.cpp:125-147 | a point asked for again within the lifetime of its answer, with fewer other points in between than the cache has room for, is answered from the cache |
| NwsClient.Client.DoGet | src/api/client.cpp:46-56 | the exchanges made, followed by a timeout if the last wait timed out, are retried and stopped as the policy says, with the statuses and errors written out, and end in the result; nothing else was sent, slept or attempted; at most max_attempts requests, all to this path and each for exactly one token; a success is the server's answer; away from the end of the clock it returns, and a reliable server with no maximum wait is reached |
| NwsClient.Client.FetchPoint | src/api/client.cpp:133-142 | one such request is made and the result is what its response means, status by status and error by error: 200 is what the body parses to or ParseError, 404 NotFound, 400 InvalidRequest, 429 and 503 RateLimited, other 5xx ServerError, the rest Unknown; what is found is what the server's answer to that path parses to; away from the end of the clock a reachable point is found |
| NwsClient.Client.GetPoint | src/api/client.cpp:118-150 | one step of the read-through specification at instants of this call; if latitude and longitude are finite, within -90..90 and -180..180, the result is a cached point, with nothing sent, slept or attempted, or what exactly one recorded request came to; otherwise it is InvalidRequest and records and cache are unchanged; a found point is the server's; throwing and not returning have their cause |
| NwsClient.Client.GetPoints | src/api/client.cpp:118-150 | whole sessions: the calls are those of the points in range in order, at instants that follow one another, the results and the cache's entries are those of the read-through specification, the log and the sleeps are those of the lookups one after the other, each retried as the policy says, tokens charged equal requests sent plus what others took, and an early end has its cause |
| NwsClient.Client.CachedPoint | src/api/client.cpp:125-131 | a cached point is the server's parsed answer |
| NwsClient.Client.StorePoint | src/api/client.cpp:144-147 | only parsed answers for in-range coordinates enter the cache |
| NwsClient.ClientKeepsItsRate | src/api/client.cpp:46-56 | requests that reached the server, counted at their token times, obey the limiter's bound in every window |
| Pagination.PaginatedIterator.constructor | include/nws/pagination.hpp:48-53 | a non-empty initial cursor counts as seen |
| Pagination.PaginatedIterator.Next | include/nws/pagination.hpp:56-78 | one fetch and one step of the walk; a finished iterator fetches nothing |
| Pagination.PaginatedIterator.CollectAll | include/nws/pagination.hpp:84-95 | refines the recursive walk, and fetches at most once per unseen cursor plus once |
| Pagination.FetchesAreBounded | include/nws/pagination.hpp:56-95 | the walk ends after at most one fetch per cursor not yet seen and one more |
| Pagination.CollectIsExact | include/nws/pagination.hpp:84-95 | data is returned if and only if the chain of cursors ends without repeating and no fetch along it fails, and is then the pages in order |
| Pagination.TransientFailuresAreInvisible | include/nws/pagination.hpp:61-64 | for any pattern of transient failures the successful calls deliver the same pages in the same order as a run without failures |
| Pagination.RepeatIsReportedOnce | include/nws/pagination.hpp:68-71 | a repeated cursor is the only error that finishes the iterator; it is reported once, and collecting again yields an empty success |
| Pagination.RetryContinues | include/nws/pagination.hpp:84-95 | after a failed fetch, an undisturbed walk is the data already fetched followed by what a second call collects |
| Pagination.RetriedCollectionSkips | include/nws/pagination.hpp:84-95 | a second `collect_all` on a recovered connection equals an undisturbed one if and only if nothing had been fetched before the failure |
| Pagination.FirstPageIsSkipped | include/nws/pagination.hpp:84-95 | a concrete source on which the second call succeeds without the first page |
| UrlEncoding.EncodeQueryValue | include/nws/detail/url_encode.hpp:9-25 | the byte loop computes the encoding |
| UrlEncoding.DecodeEncode | include/nws/detail/url_encode.hpp:9-25 | percent-decoding inverts the encoding on all bytes (section 2.1 of RFC 3986) |
| UrlEncoding.ByteByByte | include/nws/detail/url_encode.hpp:9-25 | wherever it stands, a letter, a digit, `-`, `.`, `_` or `~` stands for itself and any other byte becomes a percent sign and its two upper-case hexadecimal digits (sections 2.1 and 2.3 of RFC 3986) |
| UrlEncoding.EncodedIsWellEncoded | include/nws/detail/url_encode.hpp:13-22 | only unreserved characters and %HH are emitted (section 2.3 of RFC 3986) |
| UrlEncoding.EncodedLacks | include/nws/detail/url_encode.hpp:13-22 | nothing but letters, digits, the four marks and percent signs occurs in an encoded value |
| UrlEncoding.EncodeIsIdentity | include/nws/detail/url_encode.hpp:13-18 | a value is left alone if and only if it consists of letters, digits and the four marks |
| Query.QueryString.AppendParam | src/api/client.cpp:60-65 | appends one encoded pair, and everything appended so far can be read back |
| Query.QueryString.AppendVectorParam | src/api/client.cpp:67-83 | appends a comma-separated list, nothing for an empty one, and everything so far can be read back |
| Query.JoinEncoded | src/api/client.cpp:74-81 | the loop builds the comma-separated list of encoded values |
| Query.PairIsRead | src/api/client.cpp:60-83 | cutting a built pair at `=` and `,` and decoding gives back key and values |
| Query.OnePairMore | src/api/client.cpp:62-63 | appending a pair to the text appends its parameter to what is read |
| Query.UnderItsKey | src/api/client.cpp:281-325 | under each key a server finds exactly that key's values, when keys differ |
| Query.BuildAlertsQuery | src/api/client.cpp:281-325 | reading the built query gives exactly the filters set, in order, with empty lists as absent; under each of the thirteen keys stand its own filter's values and nothing else |
| Query.BuildObservationsQuery | src/api/client.cpp:230-246 | the same for observation queries and their four keys |
| Query.BuildPaginatedQuery | include/nws/pagination.hpp:106-118 | the same for the cursor and limit of a page request, an empty cursor being none |
| Decimal.ReadPrinted | src/models/nbp_bulletin.cpp:39-44 | reading a printed integer gives it back and uses up every character if it fits 32 bits, and fails as out of range otherwise |
| Decimal.ReadingBegins | src/models/cli_report.cpp:233-252 | an integer is read if and only if the longest numeral in front is one of 32 bits |
| Decimal.ReadingWhole | src/models/nbp_bulletin.cpp:39-44 | all of a text is used up if and only if it is such a numeral |
| Decimal.PrintIsDecimal | src/api/client.cpp:319-323 | printing is decimal, the last digit last and a minus sign first |
| Text.TokensOf | src/models/nbp_bulletin.cpp:15-32 | the index loops compute the maximal runs of non-blank characters |
| Text.TokensAreSpelled | src/models/nbp_bulletin.cpp:15-32 | the tokens of a line are the words it spells, whatever white space stands around and between them, and no others |
| Text.BlanksPart | src/models/nbp_bulletin.cpp:18-24 | a blank and each of the control characters 9 to 13 parts words, anywhere in a text |
| Text.OneWord | src/models/nbp_bulletin.cpp:18-24 | a text is one word if and only if it is not empty and contains none of these |
| Text.SplitConcat | src/models/nbp_bulletin.cpp:63-72 | cutting a text joined at a separator concatenates the pieces |
| Text.FindFirst | src/models/nbp_bulletin.cpp:47-49 | the search returns the first place where the needle occurs |
| NbpBulletin.StartBlock | src/models/nbp_bulletin.cpp:79-93 | a header line gives the station its name and cycle, and the name is never empty |
| NbpBulletin.BlockLine | src/models/nbp_bulletin.cpp:109-130 | a line inside a block adds to the station exactly what it means, whatever follows |
| NbpBulletin.ScanLine | src/models/nbp_bulletin.cpp:74-131 | one step of the automaton keeps what the bulletin will deliver in the end |
| NbpBulletin.ScanText | src/models/nbp_bulletin.cpp:58-135 | the automaton delivers exactly the bulletin's stations, closed by `$$` or not |
| NbpBulletin.ParseNbpBulletin | src/models/nbp_bulletin.cpp:53-140 | the parser returns the stations of the bulletin or one of its two errors |
| NbpBulletin.OneStationPerHeader | src/models/nbp_bulletin.cpp:74-95 | one station per header line, in order, named and timed by its header |
| NbpBulletin.FailsExactlyWithoutHeader | src/models/nbp_bulletin.cpp:136-138 | the parser fails if and only if the text is empty or no line contains both " NBP " and "GUIDANCE" |
| NbpBulletin.StationsConcat | src/models/nbp_bulletin.cpp:63-135 | the stations of lines followed by lines that end any open block are those of both parts |
| NbpBulletin.JoinedBulletins | src/models/nbp_bulletin.cpp:63-139 | joining two bulletins, the second starting with a header, yields the stations of the first and then of the second, whether or not the first's last block was closed |
| NbpPrinting.ValueIsRead | src/models/nbp_bulletin.cpp:34-45 | a word is read as a value if and only if it is a whole 32-bit numeral and none of 999, -99, NG and **, and then as that value |
| NbpPrinting.TableIsRead | src/models/nbp_bulletin.cpp:109-130 | the first line beginning with UTC, FHR or DT names the columns, and every other line that is not blank is a row, in order |
| NbpPrinting.CycleIsRead | src/models/nbp_bulletin.cpp:87-93 | the cycle is what follows the first GUIDANCE, blanks and tabs aside |
| NbpPrinting.BlockIsRead | src/models/nbp_bulletin.cpp:74-131 | a printed block, closed by a line with `$$` and followed by any lines up to the next header, or not closed, is read as its station |
| NbpPrinting.PrintedBulletinIsParsed | src/models/nbp_bulletin.cpp:53-140 | a text that prints stations, in any of the ways a bulletin may be written and with any lines before the first, parses to exactly these stations in order; without any it is one of the two errors |
| CliScanning.LinesOf | src/models/cli_report.cpp:20-37 | the loop cuts at newlines, dropping a carriage return before each |
| CliScanning.IFind | src/models/cli_report.cpp:39-57 | the first occurrence regardless of letter case, if there is one |
| CliScanning.MonthNum | src/models/cli_report.cpp:86-116 | the index loops find the month and the end of the word that names it |
| CliScanning.MonthIsOfWholeWord | src/models/cli_report.cpp:83-116 | the month is that of the first whole word beginning like one, and is found if and only if there is such a word |
| CliScanning.NextRun | src/models/cli_report.cpp:323-340 | each step of the scan finds the next whole run of digits and loses none |
| CliScanning.DateIsInjective | src/models/cli_report.cpp:264-266 | the ten-character date determines year, month and day |
| PrintedLines.CaseAside | src/models/cli_report.cpp:39-57 | a search regardless of case finds a keyword if and only if its letters occur one after another, up to the case of A to Z |
| PrintedLines.MonthIsRead | src/models/cli_report.cpp:83-116 | a word beginning like a month, with none before it, gives that month, and the rest of the line follows it |
| PrintedLines.DateIsText | src/models/cli_report.cpp:264-266 | the date is written year, month, day, with two digits for the last two |
| Cf6Report.YearIn | src/models/cli_report.cpp:168-188 | the first run of digits between 1900 and 2200 |
| Cf6Report.MonthAndYearAreFirst | src/models/cli_report.cpp:161-188 | month and year are those of the first scanned lines that give one |
| Cf6Report.PrintedRowIsRead | src/models/cli_report.cpp:214-252 | a row printed with a day of the month and two 32-bit temperatures is read back, however wide its columns are and whatever columns follow |
| Cf6Report.MarkedRowGivesNothing | src/models/cli_report.cpp:233-253 | a missing or trace marker for either temperature, or a day out of the month, gives no reading |
| Cf6Printing.RowIsFound | src/models/cli_report.cpp:214-252 | a row gives a reading if and only if its first three words begin with a day of the month and two 32-bit temperatures, and then these |
| Cf6Printing.TitleIsFound | src/models/cli_report.cpp:190-198 | the table begins after the line with DY among its first five places, MAX and MIN |
| Cf6Printing.EndIsFound | src/models/cli_report.cpp:200-213 | it ends at the line that, white space aside, begins with `SM `, `AV `, NOTES, `$$`, `MAX(` or MISC |
| Cf6Report.TableLine | src/models/cli_report.cpp:199-258 | a summary row ends the table; any other line leaves the better of the best reading and its own; blanks and rulers give none |
| Cf6Report.BestIsLatest | src/models/cli_report.cpp:253-257 | the running best ends as the greatest day's reading, the earliest row on ties, and as none exactly when no row gives one |
| Cf6Report.ScanLines | src/models/cli_report.cpp:141-259 | the line loop finds what is defined over the whole text |
| Cf6Report.ParseCf6 | src/models/cli_report.cpp:127-273 | comes to what is defined over the whole text, for which the round trip holds; succeeds if and only if the scanned lines name a month and a year and some table row gives a reading; then carries the latest row's temperatures under a ten-character date |
| Cf6Printing.PrintedTableIsParsed | src/models/cli_report.cpp:127-273 | whatever else is printed around them, station, month and year are those of the first lines that print them, up to the end of the table, and day and temperatures those of the row whose day no earlier row reaches and no later row exceeds |
| CliReports.ScanFirstInt | src/models/cli_report.cpp:64-81 | the loop finds the first place where a 32-bit integer can be read |
| CliReports.FirstTokenIsFound | src/models/cli_report.cpp:63-81 | the first integer token is what is found if and only if it fits 32 bits or there is none |
| CliReports.LongNumberIsCut | src/models/cli_report.cpp:63-81 | a concrete line on which a piece of the first token is returned instead |
| CliReports.ScanDayAndYear | src/models/cli_report.cpp:319-341 | one pass finds the first run that is a day and the first that is a year |
| CliReports.ScanDate | src/models/cli_report.cpp:316-348 | a date needs FOR, a month, and after it a day and a year |
| CliReports.SectionHasHeading | src/models/cli_report.cpp:350-357 | inside a temperature section if and only if a heading came before and nothing has closed it since |
| CliReports.TemperatureIsFirst | src/models/cli_report.cpp:358-363 | the temperature is the one of the first line of a section that gives one, and absent exactly when none does |
| CliReports.TextIsFirst | src/models/cli_report.cpp:299-348 | station and date are those of the first lines that give one |
| CliReports.ReachedIsFound | src/models/cli_report.cpp:294-364 | line by line the loop reaches what is defined over all lines so far |
| CliReports.ScanReport | src/models/cli_report.cpp:293-364 | the line loop finds what is defined over the whole text |
| CliReports.ParseProduct | src/models/cli_report.cpp:277-370 | comes to what is defined over the whole text, for which the round trip holds; the F-6 banner selects the monthly table; otherwise it fails if and only if station, date and both temperatures are all absent |
| CliPrinting.PrintedReportIsParsed | src/models/cli_report.cpp:293-370 | whatever other lines surround them, station and date are those of the first lines that print them, and maximum and minimum those printed after MAXIMUM and MINIMUM on the first such lines of the first temperature section |
| CliPrinting.ShutSectionGivesNothing | src/models/cli_report.cpp:350-363 | with a line about precipitation, wind or relative humidity before them, and no heading after it, both temperatures are absent |

## Left out

- The HTTP transport (libcurl, redirects, TLS, size limits): foreign calls; the server is an oracle.
- The JSON deserialisers and the message part of `Error::from_response`: field copying over a library parser; only the status-to-code mapping is modelled.
- `src/core/units.cpp`, the other endpoint wrappers, `ScopedRateLimit`, `RetryingClient` and `parse_iem_cli_json`: they repeat patterns modelled here or are tables of formulas.
- `RetryResult`: declared by the library and filled in nowhere.
- The mutex and the memory model: each locked section is taken as one step; fairness is not promised by the code and not assumed.
- Floating-point rounding in delays and coordinates, and the random generator's distribution.
- Hashing of coordinates and hash-table internals.
- The labels `source` and `issuance_time` of a climate report, and `is_preliminary` of the daily layout, which is always set.
- Response headers and correlation ids.
- The page-size limit handed through to a fetch by the iterator: constant over a walk, so part of the source of pages.
- RateLimiting.RateLimiter.AcquireUntil: terminates relative to a finite number of grants and resets by other threads; against endless competition the code promises no bound.
- Pagination.PaginatedIterator.CollectAll: requires the cursors a source hands out to be finitely many; with endlessly many the code does not end.
- Query.QueryString.AppendParam: values are byte strings and keys contain neither `&` nor `=`; the library passes only such keys.
