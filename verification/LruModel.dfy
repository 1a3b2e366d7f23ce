/** The cache as a plain sequence of stamped entries, most recently used first, and what its
    users can rely on over whole runs: how long a key survives, how fresh a hit is, and that a
    larger cache always holds what a smaller one holds. */
module LruModel {
  import opened MachineInts
  import opened Sequences

  datatype Entry<+K, +V> = Entry(key: K, value: V, insertedAt: int)

  /** Capacity, and lifetime of an entry in clock units. */
  datatype Config = Config(maxEntries: nat, ttl: int)

  ghost predicate DistinctKeys<K, V>(s: seq<Entry<K, V>>) {
    forall i, j :: 0 <= i < j < |s| ==> s[i].key != s[j].key
  }

  /** Position of a key; the length when it is absent. */
  function Find<K(==), V>(s: seq<Entry<K, V>>, k: K): (i: nat)
    ensures i <= |s|
    ensures i < |s| ==> s[i].key == k
    ensures forall j :: 0 <= j < i ==> s[j].key != k
  {
    if s == [] then 0 else if s[0].key == k then 0 else 1 + Find(s[1..], k)
  }

  predicate Expired<K, V>(c: Config, e: Entry<K, V>, now: int) { now - e.insertedAt > c.ttl }

  // ---------------------------------------------------------------- the operations

  function Get<K(==), V>(c: Config, s: seq<Entry<K, V>>, k: K, now: int): (Option<V>, seq<Entry<K, V>>) {
    var i := Find(s, k);
    if i == |s| then (None, s)
    else if Expired(c, s[i], now) then (None, RemoveAt(s, i))
    else (Some(s[i].value), [s[i]] + RemoveAt(s, i))
  }

  function Put<K(==), V>(c: Config, s: seq<Entry<K, V>>, k: K, v: V, now: int): seq<Entry<K, V>> {
    if c.maxEntries == 0 || c.ttl <= 0 then s
    else
      var i := Find(s, k);
      if i < |s| then [Entry(k, v, now)] + RemoveAt(s, i)
      else Truncate([Entry(k, v, now)] + s, c.maxEntries)
  }

  function Invalidate<K(==), V>(s: seq<Entry<K, V>>, k: K): seq<Entry<K, V>> {
    var i := Find(s, k);
    if i == |s| then s else RemoveAt(s, i)
  }

  /** Lookups bring nothing into the cache, and a hit is an entry of it. */
  lemma {:induction false} LookupBringsNothing<K, V>(c: Config, s: seq<Entry<K, V>>, k: K, now: int)
    ensures forall e :: e in Get(c, s, k, now).1 ==> e in s
    ensures Get(c, s, k, now).0.Some? ==> exists e :: e in s && e.key == k && Get(c, s, k, now).0 == Some(e.value)
  {
    var i := Find(s, k);
    if i < |s| {
      assert s[i] in s;
      assert forall e :: e in RemoveAt(s, i) ==> e in s;
    }
  }

  /** Puts bring in only the entry put. */
  lemma {:induction false} PutBringsOne<K, V>(c: Config, s: seq<Entry<K, V>>, k: K, v: V, now: int)
    ensures forall e :: e in Put(c, s, k, v, now) ==> e in s || e == Entry(k, v, now)
  {
    var i := Find(s, k);
    if i < |s| {
      assert forall e :: e in RemoveAt(s, i) ==> e in s;
    } else {
      assert forall e :: e in Truncate([Entry(k, v, now)] + s, c.maxEntries) ==> e in [Entry(k, v, now)] + s;
    }
  }

  // ---------------------------------------------------------------- runs

  datatype Op<+K, +V> =
    | Got(key: K, at: int)
    | DidPut(key: K, value: V, at: int)
    | NotPut(key: K)  // a put whose allocation failed
    | Invalidated(key: K)
    | Cleared

  function Apply<K(==), V>(c: Config, s: seq<Entry<K, V>>, op: Op<K, V>): seq<Entry<K, V>> {
    match op
    case Got(k, at) => Get(c, s, k, at).1
    case DidPut(k, v, at) => Put(c, s, k, v, at)
    case NotPut(_) => s
    case Invalidated(k) => Invalidate(s, k)
    case Cleared => []
  }

  function Run<K(==), V>(c: Config, ops: seq<Op<K, V>>): seq<Entry<K, V>> {
    if ops == [] then [] else Apply(c, Run(c, ops[..|ops| - 1]), ops[|ops| - 1])
  }

  lemma RunSnoc<K, V>(c: Config, ops: seq<Op<K, V>>, op: Op<K, V>)
    ensures Run(c, ops + [op]) == Apply(c, Run(c, ops), op)
  {
    assert (ops + [op])[..|ops|] == ops;
  }

  lemma KeysStayDistinct<K, V>(c: Config, s: seq<Entry<K, V>>, op: Op<K, V>)
    requires DistinctKeys(s)
    ensures DistinctKeys(Apply(c, s, op))
  {
    if op.Got? || op.DidPut? || op.Invalidated? {
      RemovedKeyIsGone(s, op.key);
    }
  }

  lemma {:induction false} RemovalKeepsDistinct<K, V>(s: seq<Entry<K, V>>, i: nat)
    requires DistinctKeys(s) && i < |s|
    ensures DistinctKeys(RemoveAt(s, i))
  {
    var t := RemoveAt(s, i);
    forall j, l | 0 <= j < l < |t| ensures t[j].key != t[l].key {
      assert t[j] == s[if j < i then j else j + 1] && t[l] == s[if l < i then l else l + 1];
    }
  }

  /** Removing the one entry of a key leaves no entry of that key. */
  lemma {:induction false} RemovedKeyIsGone<K, V>(s: seq<Entry<K, V>>, k: K)
    requires DistinctKeys(s)
    ensures Find(s, k) < |s| ==> DistinctKeys(RemoveAt(s, Find(s, k)))
    ensures Find(s, k) < |s| ==> forall j :: 0 <= j < |s| - 1 ==> RemoveAt(s, Find(s, k))[j].key != k
  {
    var i := Find(s, k);
    if i < |s| {
      RemovalKeepsDistinct(s, i);
      var t := RemoveAt(s, i);
      forall j | 0 <= j < |t| ensures t[j].key != k {
        assert t[j] == s[if j < i then j else j + 1];
      }
    }
  }

  /** Every reachable cache holds each key once and never more entries than it may. */
  lemma {:induction false} ReachableShape<K, V>(c: Config, ops: seq<Op<K, V>>)
    ensures DistinctKeys(Run(c, ops)) && |Run(c, ops)| <= c.maxEntries
  {
    if ops != [] {
      ReachableShape(c, ops[..|ops| - 1]);
      KeysStayDistinct(c, Run(c, ops[..|ops| - 1]), ops[|ops| - 1]);
    }
  }

  /** A cache without room, or whose entries have no life, stays empty. */
  lemma {:induction false} WithoutRoomNothingIsKept<K, V>(c: Config, ops: seq<Op<K, V>>)
    requires c.maxEntries == 0 || c.ttl <= 0
    ensures Run(c, ops) == []
  {
    if ops != [] {
      WithoutRoomNothingIsKept(c, ops[..|ops| - 1]);
    }
  }

  // ---------------------------------------------------------------- freshness

  /** The last value put under `k` and when, unless it was invalidated or cleared since. */
  function LastPut<K(==), V>(c: Config, ops: seq<Op<K, V>>, k: K): Option<(V, int)> {
    if ops == [] then None
    else
      var before := LastPut(c, ops[..|ops| - 1], k);
      match ops[|ops| - 1]
      case DidPut(k', v, at) => if k' == k && c.maxEntries > 0 && c.ttl > 0 then Some((v, at)) else before
      case Invalidated(k') => if k' == k then None else before
      case Cleared => None
      case _ => before
  }

  /** Whatever is in a reachable cache is the last value put under its key, stamped with the time
      of that put: hits never extend a life and nothing superseded survives. */
  lemma {:induction false} EntriesAreLastPuts<K, V>(c: Config, ops: seq<Op<K, V>>, e: Entry<K, V>)
    requires e in Run(c, ops)
    ensures LastPut(c, ops, e.key) == Some((e.value, e.insertedAt))
  {
    if ops != [] {
      var before, op := ops[..|ops| - 1], ops[|ops| - 1];
      ReachableShape(c, before);
      var s := Run(c, before);
      if e in s {
        EntriesAreLastPuts(c, before, e);
      }
      if op.Got? || op.DidPut? || op.Invalidated? {
        RemovedKeyIsGone(s, op.key);
      }
    }
  }

  /** FRESHNESS. A hit returns the last value put under the key, put no longer than the lifetime ago
      and not invalidated or cleared since. */
  lemma HitsAreFresh<K, V>(c: Config, ops: seq<Op<K, V>>, k: K, now: int)
    requires Get(c, Run(c, ops), k, now).0.Some?
    ensures LastPut(c, ops, k).Some?
    ensures Get(c, Run(c, ops), k, now).0 == Some(LastPut(c, ops, k).value.0)
    ensures now - LastPut(c, ops, k).value.1 <= c.ttl
  {
    var s := Run(c, ops);
    EntriesAreLastPuts(c, ops, s[Find(s, k)]);
  }

  // ---------------------------------------------------------------- the working set

  /** Other keys looked up or put since `k` itself last was. */
  function Touched<K(==), V>(ops: seq<Op<K, V>>, k: K): set<K> {
    if ops == [] then {}
    else
      var before := Touched(ops[..|ops| - 1], k);
      match ops[|ops| - 1]
      case Got(k', _) => if k' == k then {} else before + {k'}
      case DidPut(k', _, _) => if k' == k then {} else before + {k'}
      case _ => before
  }

  /** `v` was put under `k` at `t` and nothing since should cost it its place: no later put,
      invalidation or clearing, no lookup past its lifetime, and at each point fewer other keys
      touched since its own last touch than the cache has room for. */
  ghost predicate Undisturbed<K, V>(c: Config, ops: seq<Op<K, V>>, k: K, v: V, t: int) {
    && ops != []
    && |Touched(ops, k)| < c.maxEntries
    && var op := ops[|ops| - 1];
       if op.DidPut? && op.key == k then op.value == v && op.at == t
       else
         && Undisturbed(c, ops[..|ops| - 1], k, v, t)
         && !op.Cleared? && (op.Invalidated? ==> op.key != k)
         && (op.Got? && op.key == k ==> op.at <= t + c.ttl)
  }

  /** The entry of `k`, with only keys of `before` ahead of it. */
  ghost predicate Placed<K, V>(s: seq<Entry<K, V>>, e: Entry<K, V>, before: set<K>) {
    var i := Find(s, e.key);
    i < |s| && s[i] == e && forall j :: 0 <= j < i ==> s[j].key in before
  }

  lemma {:induction false} PrefixFits<K, V>(s: seq<Entry<K, V>>, i: nat, keys: set<K>)
    requires DistinctKeys(s) && i <= |s| && forall j :: 0 <= j < i ==> s[j].key in keys
    ensures i <= |keys|
  {
    if i > 0 {
      PrefixFits(s, i - 1, keys - {s[i - 1].key});
    }
  }

  lemma PlacedAfterRemoval<K, V>(s: seq<Entry<K, V>>, e: Entry<K, V>, before: set<K>, q: nat)
    requires Placed(s, e, before) && q < |s| && s[q].key != e.key
    ensures Placed(RemoveAt(s, q), e, before)
  {
    var i, t := Find(s, e.key), RemoveAt(s, q);
    assert t[if q < i then i - 1 else i] == e;
  }

  lemma PlacedBehind<K, V>(s: seq<Entry<K, V>>, e: Entry<K, V>, before: set<K>, first: Entry<K, V>)
    requires Placed(s, e, before) && first.key != e.key
    ensures Placed([first] + s, e, before + {first.key})
  {
    var i, t := Find(s, e.key), [first] + s;
    assert t[i + 1] == e;
    assert forall j :: 0 < j < |t| ==> t[j] == s[j - 1];
  }

  lemma PlacedTruncated<K, V>(s: seq<Entry<K, V>>, e: Entry<K, V>, before: set<K>, n: nat)
    requires Placed(s, e, before) && DistinctKeys(s) && |before| < n
    ensures Placed(Truncate(s, n), e, before)
  {
    PrefixFits(s, Find(s, e.key), before);
    assert Truncate(s, n)[Find(s, e.key)] == e;
  }

  lemma OtherKeyLeavesItPlaced<K, V>(c: Config, s: seq<Entry<K, V>>, e: Entry<K, V>, before: set<K>, op: Op<K, V>)
    requires Placed(s, e, before) && DistinctKeys(s)
    requires (op.Got? || op.DidPut?) && op.key != e.key && |before + {op.key}| < c.maxEntries
    ensures Placed(Apply(c, s, op), e, before + {op.key})
  {
    var q := Find(s, op.key);
    if q < |s| {
      PlacedAfterRemoval(s, e, before, q);
      PlacedBehind(RemoveAt(s, q), e, before, if op.Got? then s[q] else Entry(op.key, op.value, op.at));
    } else if op.DidPut? && c.maxEntries > 0 && c.ttl > 0 {
      var first := Entry(op.key, op.value, op.at);
      PlacedBehind(s, e, before, first);
      assert DistinctKeys([first] + s);
      PlacedTruncated([first] + s, e, before + {op.key}, c.maxEntries);
    }
  }

  lemma {:induction false} StaysPlaced<K, V>(c: Config, ops: seq<Op<K, V>>, k: K, v: V, t: int)
    requires c.maxEntries > 0 && c.ttl > 0 && Undisturbed(c, ops, k, v, t)
    ensures Placed(Run(c, ops), Entry(k, v, t), Touched(ops, k))
  {
    var past, op, e := ops[..|ops| - 1], ops[|ops| - 1], Entry(k, v, t);
    var s := Run(c, past);
    ReachableShape(c, past);
    if !(op.DidPut? && op.key == k) {
      StaysPlaced(c, past, k, v, t);
      if (op.Got? || op.DidPut?) && op.key != k {
        OtherKeyLeavesItPlaced(c, s, e, Touched(past, k), op);
      } else if op.Invalidated? && Find(s, op.key) < |s| {
        PlacedAfterRemoval(s, e, Touched(past, k), Find(s, op.key));
      }
    }
  }

  /** WORKING SET. An undisturbed entry is returned, with its last-put value, at every instant up to
      and including the end of its lifetime. */
  lemma WorkingSetIsKept<K, V>(c: Config, ops: seq<Op<K, V>>, k: K, v: V, t: int, now: int)
    requires c.maxEntries > 0 && c.ttl > 0 && Undisturbed(c, ops, k, v, t) && now <= t + c.ttl
    ensures Get(c, Run(c, ops), k, now).0 == Some(v)
  {
    StaysPlaced(c, ops, k, v, t);
  }

  /** Other keys looked up or put in the course of `later`. */
  function Others<K(==), V>(later: seq<Op<K, V>>, k: K): set<K> {
    set i | 0 <= i < |later| && (later[i].Got? || later[i].DidPut?) && later[i].key != k :: later[i].key
  }

  /** Nothing in `later` replaces, invalidates or clears what was put under `k` at `t`, or looks it up
      when its life is over. */
  ghost predicate Spares<K, V>(c: Config, later: seq<Op<K, V>>, k: K, t: int) {
    forall i :: 0 <= i < |later| ==>
      && !later[i].Cleared? && (later[i].DidPut? || later[i].Invalidated? ==> later[i].key != k)
      && (later[i].Got? && later[i].key == k ==> later[i].at <= t + c.ttl)
  }

  lemma {:induction false} SparedIsUndisturbed<K, V>(c: Config, past: seq<Op<K, V>>, k: K, v: V, t: int,
                                                     later: seq<Op<K, V>>)
    requires Spares(c, later, k, t) && |Others(later, k)| < c.maxEntries
    ensures var ops := past + [DidPut(k, v, t)] + later;
            Undisturbed(c, ops, k, v, t) && Touched(ops, k) <= Others(later, k)
  {
    var ops := past + [DidPut(k, v, t)] + later;
    if later == [] {
      assert ops[|ops| - 1] == DidPut(k, v, t);
    } else {
      var before, op := later[..|later| - 1], later[|later| - 1];
      assert ops[..|ops| - 1] == past + [DidPut(k, v, t)] + before && ops[|ops| - 1] == op;
      assert Others(before, k) <= Others(later, k);
      SubsetSize(Others(before, k), Others(later, k));
      SparedIsUndisturbed(c, past, k, v, t, before);
      assert (op.Got? || op.DidPut?) && op.key != k ==> op.key in Others(later, k);
      SubsetSize(Touched(ops, k), Others(later, k));
    }
  }

  lemma SubsetSize<T>(a: set<T>, b: set<T>)
    requires a <= b
    ensures |a| <= |b|
  {
    assert b == a + (b - a);
  }

  /** WORKING SET, operation by operation. A cache with room whose entries live returns what was put for
      as long as it lives, unless that is replaced, invalidated or cleared, or as many other keys as there
      is room for are looked up or put meanwhile. */
  lemma PutIsReturned<K, V>(c: Config, past: seq<Op<K, V>>, k: K, v: V, t: int, later: seq<Op<K, V>>, now: int)
    requires c.maxEntries > 0 && c.ttl > 0 && now <= t + c.ttl
    requires Spares(c, later, k, t) && |Others(later, k)| < c.maxEntries
    ensures Get(c, Run(c, past + [DidPut(k, v, t)] + later), k, now).0 == Some(v)
  {
    SparedIsUndisturbed(c, past, k, v, t, later);
    WorkingSetIsKept(c, past + [DidPut(k, v, t)] + later, k, v, t, now);
  }
}
