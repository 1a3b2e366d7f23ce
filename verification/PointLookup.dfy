/** Looking a point up through an optional cache, as a function of what the server would answer:
    the cache changes which lookups reach the server, never what they return. */
module PointLookup {
  import opened MachineInts
  import opened Sequences
  import opened LruModel
  import opened LruInclusion

  /** One call: when the cache is consulted, what a request made on a miss comes to (`None`: no usable
      answer), and when that answer is put. */
  datatype Call<+K, +V> = Call(key: K, gotAt: int, fetched: Option<V>, putAt: int)

  /** What consulting the cache gives, and its entries afterwards. */
  function Looked<K(==), V>(c: Option<Config>, s: seq<Entry<K, V>>, k: K, at: int): (Option<V>, seq<Entry<K, V>>) {
    if c.None? then (None, s) else Get(c.value, s, k, at)
  }

  function Stored<K(==), V>(c: Option<Config>, s: seq<Entry<K, V>>, k: K, v: V, at: int): seq<Entry<K, V>> {
    if c.None? then s else Put(c.value, s, k, v, at)
  }

  /** The answer, and the cache's entries afterwards. */
  function Answer<K(==), V>(c: Option<Config>, s: seq<Entry<K, V>>, call: Call<K, V>): (Option<V>, seq<Entry<K, V>>) {
    var (hit, s') := Looked(c, s, call.key, call.gotAt);
    if hit.Some? then (hit, s')
    else if call.fetched.None? then (None, s')
    else (call.fetched, Stored(c, s', call.key, call.fetched.value, call.putAt))
  }

  function Contents<K(==), V>(c: Option<Config>, calls: seq<Call<K, V>>): seq<Entry<K, V>> {
    if calls == [] then []
    else Answer(c, Contents(c, calls[..|calls| - 1]), calls[|calls| - 1]).1
  }

  /** The answer to call `i`, after the calls before it. */
  function AnswerAt<K(==), V>(c: Option<Config>, calls: seq<Call<K, V>>, i: nat): Option<V>
    requires i < |calls|
  {
    Answer(c, Contents(c, calls[..i]), calls[i]).0
  }

  function Answers<K(==), V>(c: Option<Config>, calls: seq<Call<K, V>>): (r: seq<Option<V>>)
    ensures |r| == |calls| && forall i :: 0 <= i < |calls| ==> r[i] == AnswerAt(c, calls, i)
  {
    seq(|calls|, i requires 0 <= i < |calls| => AnswerAt(c, calls, i))
  }

  lemma AnswerAtPrefix<K, V>(c: Option<Config>, calls: seq<Call<K, V>>, n: nat, i: nat)
    requires i < n <= |calls|
    ensures AnswerAt(c, calls[..n], i) == AnswerAt(c, calls, i)
  {
    assert calls[..n][..i] == calls[..i];
  }

  lemma OneMoreCall<K, V>(c: Option<Config>, calls: seq<Call<K, V>>, call: Call<K, V>)
    ensures var (a, s) := Answer(c, Contents(c, calls), call);
            Answers(c, calls + [call]) == Answers(c, calls) + [a] && Contents(c, calls + [call]) == s
  {
    var more := calls + [call];
    assert more[..|calls|] == calls;
    forall i | 0 <= i < |calls| ensures AnswerAt(c, more, i) == AnswerAt(c, calls, i) {
      AnswerAtPrefix(c, more, |calls|, i);
    }
  }

  /** The server's usable answer for a key, whenever it gives one, is `truth` of that key. */
  ghost predicate FixedAnswers<K, V>(calls: seq<Call<K, V>>, truth: K -> V) {
    forall i :: 0 <= i < |calls| ==> FixedAnswer(calls[i], truth)
  }

  ghost predicate FixedAnswer<K, V>(call: Call<K, V>, truth: K -> V) {
    call.fetched.Some? ==> call.fetched.value == truth(call.key)
  }

  ghost predicate Truthful<K, V>(s: seq<Entry<K, V>>, truth: K -> V) {
    forall e :: e in s ==> e.value == truth(e.key)
  }

  lemma {:induction false} AnswerIsTruthful<K, V>(c: Option<Config>, s: seq<Entry<K, V>>, call: Call<K, V>,
                                                  truth: K -> V)
    requires Truthful(s, truth)
    requires FixedAnswer(call, truth)
    ensures Truthful(Answer(c, s, call).1, truth)
    ensures var a := Answer(c, s, call).0; a.Some? ==> a.value == truth(call.key)
    ensures call.fetched.Some? ==> Answer(c, s, call).0 == Some(truth(call.key))
  {
    if c.Some? {
      LookupBringsNothing(c.value, s, call.key, call.gotAt);
      var s' := Get(c.value, s, call.key, call.gotAt).1;
      if call.fetched.Some? {
        PutBringsOne(c.value, s', call.key, call.fetched.value, call.putAt);
      }
    }
  }

  lemma {:induction false} ContentsAreTruthful<K, V>(c: Option<Config>, calls: seq<Call<K, V>>, truth: K -> V)
    requires FixedAnswers(calls, truth)
    ensures Truthful(Contents(c, calls), truth)
  {
    if calls != [] {
      var n := |calls| - 1;
      ContentsAreTruthful(c, calls[..n], truth);
      AnswerIsTruthful(c, Contents(c, calls[..n]), calls[n], truth);
    }
  }

  lemma {:induction false} AnswersAreTruthful<K, V>(c: Option<Config>, calls: seq<Call<K, V>>, truth: K -> V, i: nat)
    requires FixedAnswers(calls, truth) && i < |calls|
    ensures Answers(c, calls)[i].Some? ==> Answers(c, calls)[i].value == truth(calls[i].key)
    ensures calls[i].fetched.Some? ==> Answers(c, calls)[i] == Some(truth(calls[i].key))
  {
    ContentsAreTruthful(c, calls[..i], truth);
    AnswerIsTruthful(c, Contents(c, calls[..i]), calls[i], truth);
  }

  /** CACHE TRANSPARENCY. Against a server whose answer per key is fixed, and whatever two clients'
      caches, clocks and failures are, a lookup that both answer is answered the same; and if the
      server always answers, the two sequences of answers are identical. One of the caches may be
      none at all. */
  lemma {:induction false} CacheIsTransparent<K, V>(c: Option<Config>, d: Option<Config>,
                                                    xs: seq<Call<K, V>>, ys: seq<Call<K, V>>, truth: K -> V)
    requires FixedAnswers(xs, truth) && FixedAnswers(ys, truth)
    requires |xs| == |ys| && forall i :: 0 <= i < |xs| ==> xs[i].key == ys[i].key
    ensures forall i :: 0 <= i < |xs| ==>
              (Answers(c, xs)[i].Some? && Answers(d, ys)[i].Some? ==> Answers(c, xs)[i] == Answers(d, ys)[i])
    ensures (forall i :: 0 <= i < |xs| ==> xs[i].fetched.Some? && ys[i].fetched.Some?) ==>
              Answers(c, xs) == Answers(d, ys)
  {
    forall i | 0 <= i < |xs|
      ensures Answers(c, xs)[i].Some? && Answers(d, ys)[i].Some? ==> Answers(c, xs)[i] == Answers(d, ys)[i]
      ensures xs[i].fetched.Some? && ys[i].fetched.Some? ==> Answers(c, xs)[i] == Answers(d, ys)[i]
    {
      AnswersAreTruthful(c, xs, truth, i);
      AnswersAreTruthful(d, ys, truth, i);
    }
  }

  /** A cache can only help: a lookup that succeeds without one succeeds with one. */
  lemma {:induction false} CacheNeverLosesAnAnswer<K, V>(c: Config, calls: seq<Call<K, V>>, truth: K -> V, i: nat)
    requires FixedAnswers(calls, truth) && i < |calls|
    requires Answers(None, calls)[i].Some?
    ensures Answers(Some(c), calls)[i] == Answers(None, calls)[i]
  {
    AnswersAreTruthful(None, calls, truth, i);
    AnswersAreTruthful(Some(c), calls, truth, i);
  }

  // ---------------------------------------------------------------- what is not asked again

  lemma {:induction false} ContentsAreDistinct<K, V>(c: Config, calls: seq<Call<K, V>>)
    ensures DistinctKeys(Contents(Some(c), calls))
  {
    if calls != [] {
      var n := |calls| - 1;
      var s, call := Contents(Some(c), calls[..n]), calls[n];
      ContentsAreDistinct(c, calls[..n]);
      KeysStayDistinct(c, s, Got(call.key, call.gotAt));
      if call.fetched.Some? {
        KeysStayDistinct(c, Get(c, s, call.key, call.gotAt).1, DidPut(call.key, call.fetched.value, call.putAt));
      }
    }
  }

  /** The other keys of the calls between two. */
  function Between<K(==), V>(calls: seq<Call<K, V>>, i: nat, j: nat): set<K>
    requires i < j <= |calls|
  {
    set m | i < m < j && calls[m].key != calls[i].key :: calls[m].key
  }

  /** Call `i` had to ask, and got an answer; each later call for its key up to `j` comes within the lifetime
      of that answer, and there is room for the other keys. */
  ghost predicate Repeats<K, V>(c: Config, calls: seq<Call<K, V>>, i: nat, j: nat) {
    && i < j < |calls| && calls[j].key == calls[i].key && c.maxEntries > 0 && c.ttl > 0
    && Looked(Some(c), Contents(Some(c), calls[..i]), calls[i].key, calls[i].gotAt).0.None? && calls[i].fetched.Some?
    && (forall m :: i < m <= j && calls[m].key == calls[i].key ==> calls[m].gotAt <= calls[i].putAt + c.ttl)
    && |Between(calls, i, j)| < c.maxEntries
  }

  lemma OtherCallLeavesItPlaced<K, V>(c: Config, s: seq<Entry<K, V>>, e: Entry<K, V>, before: set<K>, call: Call<K, V>)
    requires Placed(s, e, before) && DistinctKeys(s)
    requires call.key != e.key && |before + {call.key}| < c.maxEntries
    ensures Placed(Answer(Some(c), s, call).1, e, before + {call.key})
  {
    var s', with := Get(c, s, call.key, call.gotAt).1, before + {call.key};
    OtherKeyLeavesItPlaced(c, s, e, before, Got(call.key, call.gotAt));
    KeysStayDistinct(c, s, Got(call.key, call.gotAt));
    if call.fetched.Some? {
      assert with + {call.key} == with;
      OtherKeyLeavesItPlaced(c, s', e, with, DidPut(call.key, call.fetched.value, call.putAt));
    }
  }

  lemma BroughtInIsPlaced<K, V>(c: Config, s: seq<Entry<K, V>>, call: Call<K, V>)
    requires c.maxEntries > 0 && c.ttl > 0 && Looked(Some(c), s, call.key, call.gotAt).0.None? && call.fetched.Some?
    ensures forall before :: Placed(Answer(Some(c), s, call).1, Entry(call.key, call.fetched.value, call.putAt), before)
  {
    var s', e := Get(c, s, call.key, call.gotAt).1, Entry(call.key, call.fetched.value, call.putAt);
    assert Put(c, s', call.key, call.fetched.value, call.putAt)[0] == e;
  }

  lemma RepeatLeavesItPlaced<K, V>(c: Config, s: seq<Entry<K, V>>, e: Entry<K, V>, before: set<K>, call: Call<K, V>)
    requires Placed(s, e, before) && call.key == e.key && call.gotAt <= e.insertedAt + c.ttl
    ensures Placed(Answer(Some(c), s, call).1, e, before)
  {
    assert Answer(Some(c), s, call).1[0] == e;
  }

  lemma BetweenGrows<K, V>(calls: seq<Call<K, V>>, i: nat, n: nat, j: nat)
    requires i < n < j <= |calls|
    ensures Between(calls, i, n + 1) ==
            Between(calls, i, n) + (if calls[n].key != calls[i].key then {calls[n].key} else {})
    ensures |Between(calls, i, n + 1)| <= |Between(calls, i, j)|
  {
    SubsetSize(Between(calls, i, n + 1), Between(calls, i, j));
  }

  lemma LaterCallLeavesItPlaced<K, V>(c: Config, s: seq<Entry<K, V>>, e: Entry<K, V>, before: set<K>,
                                      call: Call<K, V>, with: set<K>)
    requires Placed(s, e, before) && DistinctKeys(s) && (call.key == e.key ==> call.gotAt <= e.insertedAt + c.ttl)
    requires with == before + (if call.key != e.key then {call.key} else {}) && |with| < c.maxEntries
    ensures Placed(Answer(Some(c), s, call).1, e, with)
  {
    if call.key == e.key {
      RepeatLeavesItPlaced(c, s, e, with, call);
    } else {
      OtherCallLeavesItPlaced(c, s, e, before, call);
    }
  }

  ghost function Answered<K, V>(call: Call<K, V>): Entry<K, V>
    requires call.fetched.Some?
  {
    Entry(call.key, call.fetched.value, call.putAt)
  }

  /** The entry of call `i`'s answer, with only keys asked for since ahead of it. */
  ghost predicate Keeps<K, V>(c: Config, calls: seq<Call<K, V>>, i: nat, n: nat) {
    && i < n <= |calls| && calls[i].fetched.Some?
    && Placed(Contents(Some(c), calls[..n]), Answered(calls[i]), Between(calls, i, n))
  }

  lemma KeptAtFirst<K, V>(c: Config, calls: seq<Call<K, V>>, i: nat, j: nat)
    requires Repeats(c, calls, i, j)
    ensures Keeps(c, calls, i, i + 1)
  {
    OneCallMore(Some(c), calls, i);
    BroughtInIsPlaced(c, Contents(Some(c), calls[..i]), calls[i]);
  }

  lemma KeptFromThen<K, V>(c: Config, calls: seq<Call<K, V>>, i: nat, j: nat, n: nat)
    requires Repeats(c, calls, i, j) && n < j && Keeps(c, calls, i, n)
    ensures Keeps(c, calls, i, n + 1)
  {
    OneCallMore(Some(c), calls, n);
    BetweenGrows(calls, i, n, j);
    ContentsAreDistinct(c, calls[..n]);
    LaterCallLeavesItPlaced(c, Contents(Some(c), calls[..n]), Answered(calls[i]), Between(calls, i, n), calls[n],
                            Between(calls, i, n + 1));
  }

  /** What a call brought in stays where later calls find it. */
  lemma AnswerStaysPlaced<K, V>(c: Config, calls: seq<Call<K, V>>, i: nat, j: nat)
    requires Repeats(c, calls, i, j)
    ensures Keeps(c, calls, i, j)
  {
    KeptAtFirst(c, calls, i, j);
    for n := i + 1 to j
      invariant Keeps(c, calls, i, n)
    {
      KeptFromThen(c, calls, i, j, n);
    }
  }

  /** NOTHING IS ASKED TWICE. A point asked for again within the lifetime of its answer, with fewer other
      points in between than the cache has room for, is answered from the cache. */
  lemma RepeatAsksNothing<K, V>(c: Config, calls: seq<Call<K, V>>, i: nat, j: nat)
    requires Repeats(c, calls, i, j)
    ensures Looked(Some(c), Contents(Some(c), calls[..j]), calls[j].key, calls[j].gotAt).0 == calls[i].fetched
  {
    AnswerStaysPlaced(c, calls, i, j);
  }

  // ---------------------------------------------------------------- sessions and inclusion

  ghost predicate AllAnswered<K, V>(c: Config, calls: seq<Call<K, V>>) {
    forall i :: 0 <= i < |calls| ==> AnswerAt(Some(c), calls, i).Some?
  }

  /** The cache access that an answered call amounts to. */
  function AccessAt<K(==), V>(c: Config, calls: seq<Call<K, V>>, i: nat): Access<K, V>
    requires i < |calls| && AnswerAt(Some(c), calls, i).Some?
  {
    Access(calls[i].key, AnswerAt(Some(c), calls, i).value, calls[i].gotAt, calls[i].putAt)
  }

  ghost function AccessesOf<K, V>(c: Config, calls: seq<Call<K, V>>): (r: seq<Access<K, V>>)
    requires AllAnswered(c, calls)
    ensures |r| == |calls| && forall i :: 0 <= i < |calls| ==> r[i] == AccessAt(c, calls, i)
  {
    seq(|calls|, i requires 0 <= i < |calls| => AccessAt(c, calls, i))
  }

  /** What the first calls of a session leave in the cache is what get-then-put-on-miss leaves. */
  lemma {:induction false} ContentsAreAccesses<K, V>(c: Config, calls: seq<Call<K, V>>, n: nat)
    requires AllAnswered(c, calls) && n <= |calls|
    ensures Contents(Some(c), calls[..n]) == Accesses(c, AccessesOf(c, calls)[..n])
  {
    if n > 0 {
      ContentsAreAccesses(c, calls, n - 1);
      assert AnswerAt(Some(c), calls, n - 1).Some?;
      AnsweredCallIsAccess(c, Contents(Some(c), calls[..n - 1]), calls[n - 1]);
      OneCallMore(Some(c), calls, n - 1);
      OneAccessMore(c, AccessesOf(c, calls), n - 1);
    }
  }

  lemma OneCallMore<K, V>(c: Option<Config>, calls: seq<Call<K, V>>, n: nat)
    requires n < |calls|
    ensures Contents(c, calls[..n + 1]) == Answer(c, Contents(c, calls[..n]), calls[n]).1
  {
    assert calls[..n + 1][..n] == calls[..n];
  }

  lemma OneAccessMore<K, V>(c: Config, accesses: seq<Access<K, V>>, n: nat)
    requires n < |accesses|
    ensures Accesses(c, accesses[..n + 1]) == ReadThrough(c, Accesses(c, accesses[..n]), accesses[n])
  {
    assert accesses[..n + 1][..n] == accesses[..n];
  }

  /** One answered call does to the cache what one access does. */
  lemma AnsweredCallIsAccess<K, V>(c: Config, s: seq<Entry<K, V>>, call: Call<K, V>)
    requires Answer(Some(c), s, call).0.Some?
    ensures Answer(Some(c), s, call).1 ==
            ReadThrough(c, s, Access(call.key, Answer(Some(c), s, call).0.value, call.gotAt, call.putAt))
  {
  }

  /** INCLUSION FOR SESSIONS. Two clients asked for the same points, all of them answered: the recency
      list of the smaller cache is the front of that of the larger one. */
  lemma {:induction false} SessionsAreIncluded<K, V>(small: Config, large: Config,
                                                     xs: seq<Call<K, V>>, ys: seq<Call<K, V>>)
    requires small.maxEntries > 0 && small.ttl > 0 && large.maxEntries > 0 && large.ttl > 0
    requires small.maxEntries <= large.maxEntries
    requires |xs| == |ys| && forall i :: 0 <= i < |xs| ==> xs[i].key == ys[i].key
    requires AllAnswered(small, xs) && AllAnswered(large, ys)
    ensures Recency(Contents(Some(small), xs)) == Truncate(Recency(Contents(Some(large), ys)), small.maxEntries)
  {
    ContentsAreAccesses(small, xs, |xs|);
    ContentsAreAccesses(large, ys, |ys|);
    assert xs[..|xs|] == xs && AccessesOf(small, xs)[..|xs|] == AccessesOf(small, xs);
    assert ys[..|ys|] == ys && AccessesOf(large, ys)[..|ys|] == AccessesOf(large, ys);
    SmallerIsPrefixOfLarger(small, large, AccessesOf(small, xs), AccessesOf(large, ys));
  }
}
