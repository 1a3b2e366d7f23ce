/** The cache itself: a recency list, and a table from each key to its value, its time of
    insertion and its node in the list. Both are changed in place; `contents` is the sequence of
    entries they stand for. */
module LruCaching {
  import opened MachineInts
  import opened Sequences
  import opened SteadyClock
  import opened LruModel
  import opened RecencyLists

  datatype CacheEntry<K, V> = CacheEntry(value: V, insertedAt: int64, node: Node<K>)

  /** Entry `i` is the one the table has under its key, and the table's node for that key is the one
      at the entry's place in the list. */
  ghost predicate Mirrors<K, V>(contents: seq<Entry<K, V>>, ring: seq<Node<K>>, table: map<K, CacheEntry<K, V>>, i: nat)
    requires i < |contents| && i + 1 < |ring|
  {
    var e, n := contents[i], ring[i + 1];
    && n.key == Some(e.key) && e.key in table
    && table[e.key].node == n && table[e.key].value == e.value && table[e.key].insertedAt as int == e.insertedAt
  }

  /** The list, its sentinel first, holds the keys of `contents` in order, and the table maps exactly
      those keys, each to its entry's data and to its own node. */
  ghost predicate Coherent<K, V>(contents: seq<Entry<K, V>>, ring: seq<Node<K>>, table: map<K, CacheEntry<K, V>>) {
    && |ring| == |contents| + 1
    && DistinctKeys(contents)
    && (forall i :: 0 <= i < |contents| ==> Mirrors(contents, ring, table, i))
    && (forall k :: k in table ==> Find(contents, k) < |contents|)
  }

  lemma FindIs<K, V>(s: seq<Entry<K, V>>, i: nat)
    requires DistinctKeys(s) && i < |s|
    ensures Find(s, s[i].key) == i
  {
  }

  lemma {:induction false} CoherentAfterErase<K, V>(contents: seq<Entry<K, V>>, ring: seq<Node<K>>,
                                                    table: map<K, CacheEntry<K, V>>, i: nat)
    requires Coherent(contents, ring, table) && i < |contents|
    ensures Coherent(RemoveAt(contents, i), RemoveAt(ring, i + 1), table - {contents[i].key})
  {
    var c', r', t', key := RemoveAt(contents, i), RemoveAt(ring, i + 1), table - {contents[i].key}, contents[i].key;
    FindIs(contents, i);
    RemovedKeyIsGone(contents, key);
    forall j | 0 <= j < |c'| ensures Mirrors(c', r', t', j) {
      assert Mirrors(contents, ring, table, if j < i then j else j + 1);
      assert c'[j].key != key;
    }
    forall k | k in t' ensures Find(c', k) < |c'| {
      var q := Find(contents, k);
      assert c'[if q < i then q else q - 1] == contents[q];
    }
  }

  lemma {:induction false} CoherentAfterPush<K, V>(contents: seq<Entry<K, V>>, ring: seq<Node<K>>,
                                                   table: map<K, CacheEntry<K, V>>, n: Node<K>, entry: CacheEntry<K, V>)
    requires Coherent(contents, ring, table)
    requires n.key.Some? && n.key.value !in table && entry.node == n
    ensures Coherent([Entry(n.key.value, entry.value, entry.insertedAt as int)] + contents,
                     InFront(ring, n), table[n.key.value := entry])
  {
    var key := n.key.value;
    var first := Entry(key, entry.value, entry.insertedAt as int);
    var c', r', t' := [first] + contents, InFront(ring, n), table[key := entry];
    forall j | 0 <= j < |contents| ensures contents[j].key != key && Mirrors(c', r', t', j + 1) {
      assert Mirrors(contents, ring, table, j);
      MirrorsBehind(contents, ring, table, j, first, n, entry);
    }
    assert Mirrors(c', r', t', 0);
    forall i | 0 <= i < |c'| ensures Mirrors(c', r', t', i) {
      assert i > 0 ==> Mirrors(c', r', t', i - 1 + 1);
    }
    forall k | k in t' ensures Find(c', k) < |c'| {
      FoundBehind(first, contents, k);
    }
    DistinctBehind(first, contents);
  }

  lemma FoundBehind<K, V>(first: Entry<K, V>, contents: seq<Entry<K, V>>, k: K)
    requires k == first.key || Find(contents, k) < |contents|
    ensures Find([first] + contents, k) < 1 + |contents|
  {
    if k != first.key {
      assert ([first] + contents)[Find(contents, k) + 1].key == k;
    }
  }

  lemma DistinctBehind<K, V>(first: Entry<K, V>, contents: seq<Entry<K, V>>)
    requires DistinctKeys(contents) && forall j :: 0 <= j < |contents| ==> contents[j].key != first.key
    ensures DistinctKeys([first] + contents)
  {
  }

  lemma MirrorsBehind<K, V>(contents: seq<Entry<K, V>>, ring: seq<Node<K>>, table: map<K, CacheEntry<K, V>>, j: nat,
                            first: Entry<K, V>, n: Node<K>, entry: CacheEntry<K, V>)
    requires j < |contents| && |ring| == |contents| + 1 && Mirrors(contents, ring, table, j)
    requires contents[j].key != first.key
    ensures Mirrors([first] + contents, InFront(ring, n), table[first.key := entry], j + 1)
  {
  }

  lemma {:induction false} CoherentAfterPromotion<K, V>(contents: seq<Entry<K, V>>, ring: seq<Node<K>>,
                                                        table: map<K, CacheEntry<K, V>>, i: nat)
    requires Coherent(contents, ring, table) && i < |contents|
    ensures Mirrors(contents, ring, table, i)
    ensures Coherent([contents[i]] + RemoveAt(contents, i), InFront(RemoveAt(ring, i + 1), ring[i + 1]), table)
  {
    var e := contents[i];
    assert Mirrors(contents, ring, table, i);
    CoherentAfterErase(contents, ring, table, i);
    CoherentAfterPush(RemoveAt(contents, i), RemoveAt(ring, i + 1), table - {e.key}, ring[i + 1], table[e.key]);
    assert (table - {e.key})[e.key := table[e.key]] == table;
  }

  /** The table has as many keys as the list has nodes. */
  lemma {:induction false} TableSize<K, V>(contents: seq<Entry<K, V>>, ring: seq<Node<K>>,
                                           table: map<K, CacheEntry<K, V>>)
    requires Coherent(contents, ring, table)
    ensures |table| == |contents|
    decreases |contents|
  {
    if contents == [] {
      assert table.Keys == {};
    } else {
      assert Mirrors(contents, ring, table, 0);
      CoherentAfterErase(contents, ring, table, 0);
      TableSize(RemoveAt(contents, 0), RemoveAt(ring, 1), table - {contents[0].key});
      assert (table - {contents[0].key}).Keys == table.Keys - {contents[0].key};
    }
  }

  class LruCache<K(==), V> {
    const config: Config
    const order: RecencyList<K>
    var table: map<K, CacheEntry<K, V>>
    ghost var contents: seq<Entry<K, V>>
    ghost var ops: seq<Op<K, V>>  // every operation so far, with the time it read

    ghost predicate Sound()
      reads this, order, order.Repr
    {
      order.Valid() && Coherent(contents, order.ring, table)
    }

    ghost predicate Valid()
      reads this, order, order.Repr
    {
      Sound() && |contents| <= config.maxEntries && contents == Run(config, ops)
    }

    constructor (config: Config)
      ensures Valid() && this.config == config && contents == [] && ops == [] && fresh(order) && fresh(order.Repr)
    {
      this.config := config;
      order := new RecencyList();
      table := map[];
      contents, ops := [], [];
    }

    /** Drop a key from both structures. */
    method EraseEntry(key: K, ghost i: nat)
      requires Sound() && i < |contents| && contents[i].key == key
      modifies this`table, this`contents, order, order.Repr
      ensures Sound() && contents == RemoveAt(old(contents), i) && order.Repr == old(order.Repr)
      ensures order.ring == RemoveAt(old(order.ring), i + 1)
    {
      assert Mirrors(contents, order.ring, table, i);
      CoherentAfterErase(contents, order.ring, table, i);
      order.Erase(table[key].node, i + 1);
      table := table - {key};
      contents := RemoveAt(contents, i);
    }

    /** Move the node of a present key to the front. */
    method Promote(key: K, ghost i: nat)
      requires Sound() && i < |contents| && contents[i].key == key
      modifies this`contents, order, order.Repr
      ensures Sound() && contents == [old(contents)[i]] + RemoveAt(old(contents), i) && order.Repr == old(order.Repr)
      ensures order.ring == InFront(RemoveAt(old(order.ring), i + 1), old(order.ring)[i + 1])
    {
      CoherentAfterPromotion(contents, order.ring, table, i);
      order.SpliceToFront(table[key].node, i + 1);
      contents := [contents[i]] + RemoveAt(contents, i);
    }

    /** `get`: a hit moves the key to the front and keeps its time of insertion; an entry past its
        lifetime is dropped. */
    method Lookup(key: K, clock: Clock) returns (r: Option<V>)
      requires Valid() && clock.Valid()
      modifies this, order, order.Repr, clock`now
      ensures Valid() && order.Repr == old(order.Repr)
      ensures clock.Valid() && old(clock.now) <= clock.now
      ensures (r, contents) == Get(config, old(contents), key, clock.now as int)
      ensures ops == old(ops) + [Got(key, clock.now as int)]
    {
      r := LookupSound(key, clock);
      RunSnoc(config, ops, Got(key, clock.now as int));
      ReachableShape(config, ops + [Got(key, clock.now as int)]);
      ops := ops + [Got(key, clock.now as int)];
    }

    method LookupSound(key: K, clock: Clock) returns (r: Option<V>)
      requires Sound() && clock.Valid()
      modifies this`table, this`contents, order, order.Repr, clock`now
      ensures Sound() && order.Repr == old(order.Repr)
      ensures clock.Valid() && old(clock.now) <= clock.now
      ensures (r, contents) == Get(config, old(contents), key, clock.now as int)
    {
      ghost var i := Find(contents, key);
      if key !in table {
        assert i < |contents| ==> Mirrors(contents, order.ring, table, i);
        return None;
      }
      assert Mirrors(contents, order.ring, table, i);
      var entry := table[key];
      var now := clock.Now();
      if now as int - entry.insertedAt as int > config.ttl {
        EraseEntry(key, i);
        return None;
      }
      Promote(key, i);
      r := Some(entry.value);
    }

    /** `put`. When the table cannot allocate (`allocationFails`), the node already pushed is taken
        back and the exception passes on, leaving the cache as it was. */
    method Insert(key: K, value: V, allocationFails: bool, clock: Clock) returns (threw: bool)
      requires Valid() && clock.Valid()
      modifies this, order, order.Repr, clock`now
      ensures Valid() && fresh(order.Repr - old(order.Repr))
      ensures clock.Valid() && old(clock.now) <= clock.now
      ensures threw <==>
              allocationFails && config.maxEntries > 0 && config.ttl > 0 && Find(old(contents), key) == |old(contents)|
      ensures threw ==> contents == old(contents) && order.ring == old(order.ring) && table == old(table)
      ensures !threw ==> contents == Put(config, old(contents), key, value, clock.now as int)
      ensures ops == old(ops) + [if threw then NotPut(key) else DidPut(key, value, clock.now as int)]
    {
      threw := InsertSound(key, value, allocationFails, clock);
      ghost var op := if threw then NotPut(key) else DidPut(key, value, clock.now as int);
      RunSnoc(config, ops, op);
      ReachableShape(config, ops + [op]);
      ops := ops + [op];
    }

    method InsertSound(key: K, value: V, allocationFails: bool, clock: Clock) returns (threw: bool)
      requires Sound() && clock.Valid() && |contents| <= config.maxEntries
      modifies this`table, this`contents, order, order.Repr, clock`now
      ensures Sound() && fresh(order.Repr - old(order.Repr))
      ensures clock.Valid() && old(clock.now) <= clock.now
      ensures threw <==>
              allocationFails && config.maxEntries > 0 && config.ttl > 0 && Find(old(contents), key) == |old(contents)|
      ensures threw ==> contents == old(contents) && order.ring == old(order.ring) && table == old(table)
      ensures !threw ==> contents == Put(config, old(contents), key, value, clock.now as int)
    {
      if config.maxEntries == 0 || config.ttl <= 0 {
        return false;
      }
      ghost var i := Find(contents, key);
      assert i < |contents| ==> Mirrors(contents, order.ring, table, i);
      if key in table {
        ReplaceEntry(key, value, clock, i);
        threw := false;
      } else {
        threw := PushEntry(key, value, allocationFails, clock);
        if !threw {
          EvictToCapacity();
        }
      }
    }

    method ReplaceEntry(key: K, value: V, clock: Clock, ghost i: nat)
      requires Sound() && clock.Valid() && i < |contents| && contents[i].key == key
      modifies this`table, this`contents, order, order.Repr, clock`now
      ensures Sound() && order.Repr == old(order.Repr)
      ensures clock.Valid() && old(clock.now) <= clock.now
      ensures contents == [Entry(key, value, clock.now as int)] + RemoveAt(old(contents), i)
    {
      var now := clock.Now();
      UpdateEntry(key, value, now, i);
      assert RemoveAt(contents, i) == RemoveAt(old(contents), i);
      Promote(key, i);
    }

    method UpdateEntry(key: K, value: V, now: int64, ghost i: nat)
      requires Sound() && i < |contents| && contents[i].key == key
      modifies this`table, this`contents
      ensures Sound() && contents == old(contents)[i := Entry(key, value, now as int)]
    {
      assert Mirrors(contents, order.ring, table, i);
      table := table[key := table[key].(value := value, insertedAt := now)];
      contents := contents[i := Entry(key, value, now as int)];
      assert forall j :: 0 <= j < |contents| ==> contents[j].key == old(contents)[j].key;
      forall j | 0 <= j < |contents| ensures Mirrors(contents, order.ring, table, j) {
        assert Mirrors(old(contents), order.ring, old(table), j);
      }
      forall k | k in table ensures Find(contents, k) < |contents| {
        assert contents[Find(old(contents), k)].key == k;
      }
    }

    method PushEntry(key: K, value: V, allocationFails: bool, clock: Clock) returns (threw: bool)
      requires Sound() && key !in table && clock.Valid()
      modifies this`table, this`contents, order, order.Repr, clock`now
      ensures Sound() && fresh(order.Repr - old(order.Repr))
      ensures clock.Valid() && old(clock.now) <= clock.now
      ensures threw == allocationFails
      ensures threw ==> contents == old(contents) && order.ring == old(order.ring) && table == old(table)
      ensures !threw ==> contents == [Entry(key, value, clock.now as int)] + old(contents)
    {
      var node := order.PushFront(key);
      var now := clock.Now();
      if allocationFails {
        order.PopFront();
        assert order.ring == old(order.ring);
        return true;
      }
      EnterEntry(key, CacheEntry(value, now, node), old(order.ring));
      threw := false;
    }

    /** Enter the key whose node has just been pushed. */
    method EnterEntry(key: K, entry: CacheEntry<K, V>, ghost before: seq<Node<K>>)
      requires order.Valid() && Coherent(contents, before, table) && key !in table
      requires entry.node.key == Some(key) && before != [] && order.ring == InFront(before, entry.node)
      modifies this`table, this`contents
      ensures Sound() && contents == [Entry(key, entry.value, entry.insertedAt as int)] + old(contents)
    {
      CoherentAfterPush(contents, before, table, entry.node, entry);
      table := table[key := entry];
      contents := [Entry(key, entry.value, entry.insertedAt as int)] + contents;
    }

    /** The eviction loop: least recently used entries go until the table fits. */
    method EvictToCapacity()
      requires Sound()
      modifies this`table, this`contents, order, order.Repr
      ensures Sound() && order.Repr == old(order.Repr)
      ensures contents == Truncate(old(contents), config.maxEntries)
    {
      TableSize(contents, order.ring, table);
      while |table| > config.maxEntries
        invariant Sound() && order.Repr == old(order.Repr) && |table| == |contents|
        invariant |contents| <= |old(contents)| && contents == old(contents)[..|contents|]
        invariant |contents| >= config.maxEntries || contents == old(contents)
        decreases |contents|
      {
        ghost var before := contents;
        EvictBack();
        assert contents == before[..|contents|] == old(contents)[..|contents|];
        TableSize(contents, order.ring, table);
      }
    }

    method EvictBack()
      requires Sound() && contents != []
      modifies this`table, this`contents, order, order.Repr
      ensures Sound() && contents == old(contents)[..|old(contents)| - 1]
      ensures order.Repr == old(order.Repr)
    {
      ghost var i := |contents| - 1;
      assert Mirrors(contents, order.ring, table, i);
      CoherentAfterErase(contents, order.ring, table, i);
      var back := order.Back();
      order.PopBack();
      table := table - {back};
      assert contents[..i] == RemoveAt(contents, i);
      contents := contents[..i];
    }

    /** `invalidate`. */
    method Remove(key: K)
      requires Valid()
      modifies this, order, order.Repr
      ensures Valid() && order.Repr == old(order.Repr)
      ensures contents == Invalidate(old(contents), key) && ops == old(ops) + [Invalidated(key)]
    {
      ghost var i := Find(contents, key);
      RunSnoc(config, ops, Invalidated(key));
      assert i < |contents| ==> Mirrors(contents, order.ring, table, i);
      if key in table {
        EraseEntry(key, i);
      }
      ops := ops + [Invalidated(key)];
    }

    method Clear()
      requires Valid()
      modifies this, order, order.Repr
      ensures Valid() && order.Repr == old(order.Repr)
      ensures contents == [] && ops == old(ops) + [Cleared]
    {
      RunSnoc(config, ops, Cleared);
      table := map[];
      order.Clear();
      contents := [];
      ops := ops + [Cleared];
    }

    method Size() returns (n: nat)
      requires Valid()
      ensures n == |contents| <= config.maxEntries
    {
      TableSize(contents, order.ring, table);
      n := |table|;
    }
  }

  /** FRESHNESS for a cache object: what a lookup would return now is the last value put under the key,
      put no longer than the lifetime ago and neither invalidated nor cleared since. */
  lemma {:induction false} CacheHitsAreFresh<K, V>(cache: LruCache<K, V>, key: K, now: int)
    requires cache.Valid() && Get(cache.config, cache.contents, key, now).0.Some?
    ensures LastPut(cache.config, cache.ops, key).Some?
    ensures var (v, at) := LastPut(cache.config, cache.ops, key).value;
            Get(cache.config, cache.contents, key, now).0 == Some(v) && now - at <= cache.config.ttl
  {
    HitsAreFresh(cache.config, cache.ops, key, now);
  }

  /** WORKING SET for a cache object: an undisturbed entry is still returned at the end of its life. */
  lemma {:induction false} CacheKeepsItsWorkingSet<K, V>(cache: LruCache<K, V>, key: K, v: V, at: int, now: int)
    requires cache.Valid() && cache.config.maxEntries > 0 && cache.config.ttl > 0
    requires Undisturbed(cache.config, cache.ops, key, v, at) && now <= at + cache.config.ttl
    ensures Get(cache.config, cache.contents, key, now).0 == Some(v)
  {
    WorkingSetIsKept(cache.config, cache.ops, key, v, at, now);
  }

  /** A cache object without room, or whose entries have no life, holds nothing and never has. */
  lemma CacheWithoutRoomIsEmpty<K, V>(cache: LruCache<K, V>)
    requires cache.Valid() && (cache.config.maxEntries == 0 || cache.config.ttl <= 0)
    ensures cache.contents == []
  {
    WithoutRoomNothingIsKept(cache.config, cache.ops);
  }
}
