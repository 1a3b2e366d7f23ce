/** Read-through use of the cache: look a key up, and put it on a miss. */
module LruInclusion {
  import opened MachineInts
  import opened Sequences
  import opened LruModel

  /** One lookup at `gotAt`; on a miss the fetched value is put at `putAt`. */
  datatype Access<+K, +V> = Access(key: K, fetched: V, gotAt: int, putAt: int)

  function ReadThrough<K(==), V>(c: Config, s: seq<Entry<K, V>>, a: Access<K, V>): seq<Entry<K, V>> {
    var (hit, s') := Get(c, s, a.key, a.gotAt);
    if hit.Some? then s' else Put(c, s', a.key, a.fetched, a.putAt)
  }

  function Accesses<K(==), V>(c: Config, accesses: seq<Access<K, V>>): seq<Entry<K, V>> {
    if accesses == [] then []
    else ReadThrough(c, Accesses(c, accesses[..|accesses| - 1]), accesses[|accesses| - 1])
  }

  /** The recency list: keys only, most recently used first. */
  function Recency<K, V>(s: seq<Entry<K, V>>): (ks: seq<K>)
    ensures |ks| == |s| && forall i :: 0 <= i < |s| ==> ks[i] == s[i].key
  {
    if s == [] then [] else [s[0].key] + Recency(s[1..])
  }

  function Without<K(==)>(ks: seq<K>, k: K): seq<K> {
    if ks == [] then [] else if ks[0] == k then ks[1..] else [ks[0]] + Without(ks[1..], k)
  }

  lemma {:induction false} RecencyWithout<K, V>(s: seq<Entry<K, V>>, k: K)
    ensures Find(s, k) < |s| ==> Recency(RemoveAt(s, Find(s, k))) == Without(Recency(s), k)
    ensures Find(s, k) == |s| ==> Recency(s) == Without(Recency(s), k)
  {
    if s != [] {
      var rest, i := s[1..], Find(s, k);
      assert s == [s[0]] + rest;
      assert Recency(s)[1..] == Recency(rest);
      if i == 0 {
        assert RemoveAt(s, 0) == rest;
      } else {
        RecencyWithout(rest, k);
        if i < |s| {
          RemoveBehind(s, i);
          RecencyBehind(s[0], RemoveAt(rest, i - 1));
        }
      }
    }
  }

  lemma RemoveBehind<T>(s: seq<T>, i: nat)
    requires 0 < i < |s|
    ensures RemoveAt(s, i) == [s[0]] + RemoveAt(s[1..], i - 1)
  {
  }

  /** On keys alone, a lookup that hits, one that finds an expired entry and one that misses all do
      the same: the key goes to the front and the list is cut to the capacity. */
  lemma ReadThroughOnKeys<K, V>(c: Config, s: seq<Entry<K, V>>, a: Access<K, V>)
    requires c.maxEntries > 0 && c.ttl > 0 && DistinctKeys(s) && |s| <= c.maxEntries
    ensures Recency(ReadThrough(c, s, a)) == Truncate([a.key] + Without(Recency(s), a.key), c.maxEntries)
    ensures DistinctKeys(ReadThrough(c, s, a)) && |ReadThrough(c, s, a)| <= c.maxEntries
  {
    ReadThroughIsFront(c, s, a);
    ReadThroughKeepsDistinct(c, s, a);
    var i, first := Find(s, a.key), Entry(a.key, a.fetched, a.putAt);
    RecencyWithout(s, a.key);
    if i < |s| {
      RecencyBehind(if Expired(c, s[i], a.gotAt) then first else s[i], RemoveAt(s, i));
    } else {
      RecencyBehind(first, s);
      RecencyTruncated([first] + s, c.maxEntries);
    }
  }

  lemma ReadThroughIsFront<K, V>(c: Config, s: seq<Entry<K, V>>, a: Access<K, V>)
    requires c.maxEntries > 0 && c.ttl > 0 && DistinctKeys(s)
    ensures var i, first := Find(s, a.key), Entry(a.key, a.fetched, a.putAt);
            ReadThrough(c, s, a) ==
            if i == |s| then Truncate([first] + s, c.maxEntries)
            else if !Expired(c, s[i], a.gotAt) then [s[i]] + RemoveAt(s, i)
            else Truncate([first] + RemoveAt(s, i), c.maxEntries)
  {
    RemovedKeyIsGone(s, a.key);
    var i := Find(s, a.key);
    if i < |s| {
      assert Find(RemoveAt(s, i), a.key) == |RemoveAt(s, i)|;
    }
  }

  lemma ReadThroughKeepsDistinct<K, V>(c: Config, s: seq<Entry<K, V>>, a: Access<K, V>)
    requires DistinctKeys(s)
    ensures DistinctKeys(ReadThrough(c, s, a))
  {
    var got := Got(a.key, a.gotAt);
    KeysStayDistinct(c, s, got);
    KeysStayDistinct(c, Apply(c, s, got), DidPut(a.key, a.fetched, a.putAt));
  }

  lemma {:induction false} RecencyTruncated<K, V>(s: seq<Entry<K, V>>, n: nat)
    ensures Recency(Truncate(s, n)) == Truncate(Recency(s), n)
  {
  }

  lemma RecencyBehind<K, V>(e: Entry<K, V>, s: seq<Entry<K, V>>)
    ensures Recency([e] + s) == [e.key] + Recency(s)
  {
  }

  lemma {:induction false} WithoutCommutesWithTruncation<K>(ks: seq<K>, k: K, n: nat)
    requires n > 0
    ensures Truncate(Without(Truncate(ks, n), k), n - 1) == Truncate(Without(ks, k), n - 1)
  {
    if |ks| > n > 1 && ks[0] != k {
      var first, rest := ks[0], ks[1..];
      WithoutCommutesWithTruncation(rest, k, n - 1);
      assert ks[..n][1..] == rest[..n - 1] == Truncate(rest, n - 1);
      TruncateBehind(first, Without(Truncate(rest, n - 1), k), n - 1);
      TruncateBehind(first, Without(rest, k), n - 1);
    }
  }

  lemma {:induction false} ShapeOfAccesses<K, V>(c: Config, accesses: seq<Access<K, V>>)
    requires c.maxEntries > 0 && c.ttl > 0
    ensures DistinctKeys(Accesses(c, accesses)) && |Accesses(c, accesses)| <= c.maxEntries
  {
    if accesses != [] {
      ShapeOfAccesses(c, accesses[..|accesses| - 1]);
      ReadThroughOnKeys(c, Accesses(c, accesses[..|accesses| - 1]), accesses[|accesses| - 1]);
    }
  }

  lemma TouchKeepsPrefix<K>(ks: seq<K>, k: K, n: nat, m: nat)
    requires 0 < n <= m
    ensures Truncate([k] + Without(Truncate(ks, n), k), n) == Truncate(Truncate([k] + Without(ks, k), m), n)
  {
    WithoutCommutesWithTruncation(ks, k, n);
    TruncateBehind(k, Without(Truncate(ks, n), k), n);
    TruncateBehind(k, Without(ks, k), n);
    TruncateTwice([k] + Without(ks, k), n, m);
  }

  lemma TruncateBehind<K>(k: K, ks: seq<K>, n: nat)
    requires n > 0
    ensures Truncate([k] + ks, n) == [k] + Truncate(ks, n - 1)
  {
  }

  lemma TruncateTwice<K>(ks: seq<K>, n: nat, m: nat)
    requires n <= m
    ensures Truncate(Truncate(ks, m), n) == Truncate(ks, n)
  {
  }

  /** INCLUSION. Fed the same keys, the recency list of a smaller cache is at all times the front of
      that of a larger one, whatever is fetched, however long it takes, and whatever expires. */
  lemma {:induction false} SmallerIsPrefixOfLarger<K, V>(small: Config, large: Config,
                                                         xs: seq<Access<K, V>>, ys: seq<Access<K, V>>)
    requires small.maxEntries > 0 && small.ttl > 0 && large.maxEntries > 0 && large.ttl > 0
    requires small.maxEntries <= large.maxEntries
    requires |xs| == |ys| && forall i :: 0 <= i < |xs| ==> xs[i].key == ys[i].key
    ensures Recency(Accesses(small, xs)) == Truncate(Recency(Accesses(large, ys)), small.maxEntries)
  {
    if xs != [] {
      var xs', ys', k := xs[..|xs| - 1], ys[..|ys| - 1], ys[|ys| - 1].key;
      SmallerIsPrefixOfLarger(small, large, xs', ys');
      ShapeOfAccesses(small, xs');
      ShapeOfAccesses(large, ys');
      ReadThroughOnKeys(small, Accesses(small, xs'), xs[|xs| - 1]);
      ReadThroughOnKeys(large, Accesses(large, ys'), ys[|ys| - 1]);
      TouchKeepsPrefix(Recency(Accesses(large, ys')), k, small.maxEntries, large.maxEntries);
    }
  }

  /** So a larger cache never evicts what a smaller one keeps: any key present in the smaller is
      present in the larger. */
  lemma {:induction false} LargerHoldsMore<K, V>(small: Config, large: Config, xs: seq<Access<K, V>>,
                                                 ys: seq<Access<K, V>>, k: K)
    requires small.maxEntries > 0 && small.ttl > 0 && large.maxEntries > 0 && large.ttl > 0
    requires small.maxEntries <= large.maxEntries
    requires |xs| == |ys| && forall i :: 0 <= i < |xs| ==> xs[i].key == ys[i].key
    requires Find(Accesses(small, xs), k) < |Accesses(small, xs)|
    ensures Find(Accesses(large, ys), k) < |Accesses(large, ys)|
  {
    SmallerIsPrefixOfLarger(small, large, xs, ys);
    var i := Find(Accesses(small, xs), k);
    assert Recency(Accesses(small, xs))[i] == k;
    assert Recency(Accesses(large, ys))[i] == k;
  }
}
