/** The doubly linked list that keeps the cache's keys in order of use. Like a standard-library
    list it is a ring through a sentinel node that the list owns and that carries no key, so every
    node always has two neighbours. A node stands for the iterator that points at it. */
module RecencyLists {
  import opened MachineInts
  import opened Sequences

  class Node<K> {
    const key: Option<K>
    var prev: Node<K>
    var next: Node<K>

    /** A node linked to itself only. */
    constructor (key: Option<K>)
      ensures this.key == key && prev == this && next == this
    {
      this.key := key;
      prev, next := this, this;
    }
  }

  ghost predicate DistinctNodes<K>(ring: seq<Node<K>>) {
    forall i, j :: 0 <= i < j < |ring| ==> ring[i] != ring[j]
  }

  /** The position after the `k`-th of a ring of `n`, and the one before it. */
  function After(k: nat, n: nat): nat { if k + 1 == n then 0 else k + 1 }

  function Before(k: nat, n: nat): nat
    requires k < n
  {
    if k == 0 then n - 1 else k - 1
  }

  /** Following `nexts` from node to node visits `ring` in order and comes back, and `prevs` the other
      way round. */
  ghost predicate IsRing<K>(ring: seq<Node<K>>, nexts: seq<Node<K>>, prevs: seq<Node<K>>) {
    && ring != [] && |ring| == |nexts| == |prevs|
    && (forall k {:trigger nexts[k]} :: 0 <= k < |ring| ==> nexts[k] == ring[After(k, |ring|)])
    && (forall k {:trigger prevs[k]} :: 0 <= k < |ring| ==> prevs[k] == ring[Before(k, |ring|)])
  }

  /** Those are the nodes' pointers. */
  ghost predicate PointsAs<K>(ring: seq<Node<K>>, nexts: seq<Node<K>>, prevs: seq<Node<K>>)
    requires |ring| == |nexts| == |prevs|
    reads ring
  {
    && (forall k {:trigger ring[k].next} :: 0 <= k < |ring| ==> ring[k].next == nexts[k])
    && (forall k {:trigger ring[k].prev} :: 0 <= k < |ring| ==> ring[k].prev == prevs[k])
  }

  function InFront<T>(s: seq<T>, x: T): (r: seq<T>)
    requires s != []
    ensures IsWith(r, s, x)
  {
    [s[0], x] + s[1..]
  }

  ghost predicate IsWith<T>(r: seq<T>, s: seq<T>, x: T) {
    && |r| == |s| + 1 > 1 && r[0] == s[0] && r[1] == x
    && forall k {:trigger r[k]} :: 2 <= k < |r| ==> r[k] == s[k - 1]
  }

  /** A sentinel, then distinct nodes with keys, all of them known. */
  ghost predicate WellShaped<K>(ring: seq<Node<K>>, sentinel: Node<K>, known: set<Node<K>>) {
    && ring != [] && ring[0] == sentinel && DistinctNodes(ring)
    && (forall k :: 0 <= k < |ring| ==> ring[k] in known)
    && (forall k :: 1 <= k < |ring| ==> ring[k].key.Some?)
  }

  lemma {:induction false} ShapeWithout<K>(ring: seq<Node<K>>, sentinel: Node<K>, known: set<Node<K>>, i: nat,
                                            t: seq<Node<K>>)
    requires WellShaped(ring, sentinel, known) && 1 <= i && IsWithout(t, ring, i)
    ensures WellShaped(t, sentinel, known)
  {
    forall j, l | 0 <= j < l < |t| ensures t[j] != t[l] {
      assert ring[Skip(i, j)] != ring[Skip(i, l)];
    }
  }

  lemma {:induction false} ShapeWith<K>(ring: seq<Node<K>>, sentinel: Node<K>, known: set<Node<K>>, n: Node<K>,
                                         t: seq<Node<K>>)
    requires WellShaped(ring, sentinel, known) && n !in ring && n.key.Some? && IsWith(t, ring, n)
    ensures WellShaped(t, sentinel, known + {n})
  {
    forall j, l | 0 <= j < l < |t| ensures t[j] != t[l] {
      assert j > 1 ==> ring[j - 1] != ring[l - 1];
      assert j == 0 && l > 1 ==> ring[0] != ring[l - 1];
    }
  }

  lemma {:induction false} PointsWithout<K>(ring: seq<Node<K>>, nexts: seq<Node<K>>, prevs: seq<Node<K>>, i: nat,
                                             t: seq<Node<K>>, nexts': seq<Node<K>>, prevs': seq<Node<K>>)
    requires |ring| == |nexts| == |prevs| && PointsAs(ring, nexts, prevs)
    requires IsWithout(t, ring, i) && IsWithout(nexts', nexts, i) && IsWithout(prevs', prevs, i)
    ensures PointsAs(t, nexts', prevs')
  {
    forall k | 0 <= k < |t| ensures t[k].next == nexts'[k] && t[k].prev == prevs'[k] {
      assert t[k] == ring[Skip(i, k)];
    }
  }

  lemma {:induction false} PointsWith<K>(ring: seq<Node<K>>, nexts: seq<Node<K>>, prevs: seq<Node<K>>, n: Node<K>,
                                          t: seq<Node<K>>, nexts': seq<Node<K>>, prevs': seq<Node<K>>)
    requires |ring| == |nexts| == |prevs| && PointsAs(ring, nexts, prevs)
    requires IsWith(t, ring, n) && IsWith(nexts', nexts, n.next) && IsWith(prevs', prevs, n.prev)
    ensures PointsAs(t, nexts', prevs')
  {
    forall k | 0 <= k < |t| ensures t[k].next == nexts'[k] && t[k].prev == prevs'[k] {
      assert k != 1 ==> t[k] == ring[if k == 0 then 0 else k - 1];
    }
  }

  lemma NeighboursWithout(n: nat, i: nat, k: nat)
    requires 1 <= i < n && k < n - 1
    ensures Skip(i, After(k, n - 1)) == if Skip(i, k) == Before(i, n) then After(i, n) else After(Skip(i, k), n)
    ensures Skip(i, Before(k, n - 1)) == if Skip(i, k) == After(i, n) then Before(i, n) else Before(Skip(i, k), n)
  {
  }

  /** When the neighbours of a node are linked to each other, the other nodes form a ring. */
  lemma {:induction false} RingAround<K>(ring: seq<Node<K>>, nexts: seq<Node<K>>, prevs: seq<Node<K>>, i: nat,
                                          t: seq<Node<K>>, nexts': seq<Node<K>>, prevs': seq<Node<K>>)
    requires 1 <= i < |ring| && IsRing(ring, nexts, prevs) && IsWithout(t, ring, i)
    requires var (b, a) := (Before(i, |ring|), After(i, |ring|));
             IsWithout(nexts', nexts[b := ring[a]], i) && IsWithout(prevs', prevs[a := ring[b]], i)
    ensures IsRing(t, nexts', prevs')
  {
    forall k | 0 <= k < |t| ensures nexts'[k] == t[After(k, |t|)] && prevs'[k] == t[Before(k, |t|)] {
      NeighboursWithout(|ring|, i, k);
    }
  }

  /** When a node is linked between the first of a ring and its successor, it is in the ring. */
  lemma {:induction false} RingWith<K>(ring: seq<Node<K>>, nexts: seq<Node<K>>, prevs: seq<Node<K>>, x: Node<K>,
                                        t: seq<Node<K>>, nexts': seq<Node<K>>, prevs': seq<Node<K>>)
    requires IsRing(ring, nexts, prevs) && IsWith(t, ring, x)
    requires var a := After(0, |ring|);
             IsWith(nexts', nexts[0 := x], ring[a]) && IsWith(prevs', prevs[a := x], ring[0])
    ensures IsRing(t, nexts', prevs')
  {
    forall k | 0 <= k < |t| ensures nexts'[k] == t[After(k, |t|)] && prevs'[k] == t[Before(k, |t|)] {
      if k > 1 {
        assert nexts'[k] == nexts[k - 1];
        assert k > 2 ==> prevs'[k] == prevs[k - 1];
      }
    }
  }

  class RecencyList<K> {
    const sentinel: Node<K>
    ghost var ring: seq<Node<K>>  // the sentinel, then the nodes from front to back
    ghost var nexts: seq<Node<K>> // where each of them points
    ghost var prevs: seq<Node<K>>
    ghost var Repr: set<Node<K>>  // every node that ever was in the ring

    ghost predicate Valid()
      reads this, Repr
    {
      WellShaped(ring, sentinel, Repr) && IsRing(ring, nexts, prevs) && PointsAs(ring, nexts, prevs)
    }

    constructor ()
      ensures Valid() && fresh(Repr) && ring == [sentinel]
    {
      sentinel := new Node(None);
      new;
      ring, nexts, prevs := [sentinel], [sentinel], [sentinel];
      Repr := {sentinel};
    }

    /** Take the node at position `i` out of the ring. The node itself is left as it is. */
    method Erase(n: Node<K>, ghost i: nat)
      requires Valid() && 1 <= i < |ring| && ring[i] == n
      modifies this`ring, this`nexts, this`prevs, Repr
      ensures Valid() && ring == RemoveAt(old(ring), i)
    {
      ghost var was, b, a := ring, Before(i, |ring|), After(i, |ring|);
      ghost var nexts', prevs' := nexts[b := ring[a]], prevs[a := ring[b]];
      ghost var t, ns, ps := RemoveAt(ring, i), RemoveAt(nexts', i), RemoveAt(prevs', i);
      assert n.prev == ring[b] && n.next == ring[a];
      ShapeWithout(ring, sentinel, Repr, i, t);
      RingAround(ring, nexts, prevs, i, t, ns, ps);
      ring, nexts, prevs := t, ns, ps;
      n.prev.next := n.next;
      n.next.prev := n.prev;
      assert PointsAs(was, nexts', prevs');
      PointsWithout(was, nexts', prevs', i, t, ns, ps);
    }

    method LinkFront(n: Node<K>)
      requires Valid() && n !in ring && n.key.Some?
      modifies this, Repr, n
      ensures Valid() && ring == InFront(old(ring), n) && Repr == old(Repr) + {n}
    {
      ghost var was, a := ring, After(0, |ring|);
      ghost var nexts', prevs' := nexts[0 := n], prevs[a := n];
      ghost var t, ns, ps := InFront(ring, n), InFront(nexts', ring[a]), InFront(prevs', sentinel);
      assert sentinel.next == ring[a];
      ShapeWith(ring, sentinel, Repr, n, t);
      RingWith(ring, nexts, prevs, n, t, ns, ps);
      ring, nexts, prevs, Repr := t, ns, ps, Repr + {n};
      n.prev, n.next := sentinel, sentinel.next;
      sentinel.next.prev := n;
      sentinel.next := n;
      assert PointsAs(was, nexts', prevs');
      PointsWith(was, nexts', prevs', n, t, ns, ps);
    }

    method PushFront(k: K) returns (n: Node<K>)
      requires Valid()
      modifies this, Repr
      ensures Valid() && fresh(n) && n.key == Some(k)
      ensures ring == InFront(old(ring), n) && Repr == old(Repr) + {n}
    {
      n := new Node(Some(k));
      LinkFront(n);
    }

    /** Move a node to the front: every other node keeps its relative place, and no node is created
        or destroyed. */
    method SpliceToFront(n: Node<K>, ghost i: nat)
      requires Valid() && 1 <= i < |ring| && ring[i] == n
      modifies this, Repr
      ensures Valid() && ring == InFront(RemoveAt(old(ring), i), n) && Repr == old(Repr)
    {
      if sentinel.next == n {
        assert ring[0].next == ring[1];
        assert i == 1;
        assert ring == InFront(RemoveAt(ring, i), n);
        return;
      }
      Erase(n, i);
      LinkFront(n);
    }

    method PopFront()
      requires Valid() && |ring| > 1
      modifies this`ring, this`nexts, this`prevs, Repr
      ensures Valid() && ring == RemoveAt(old(ring), 1)
    {
      Erase(sentinel.next, 1);
    }

    method Back() returns (k: K)
      requires Valid() && |ring| > 1
      ensures ring[|ring| - 1].key == Some(k)
    {
      k := sentinel.prev.key.value;
    }

    method PopBack()
      requires Valid() && |ring| > 1
      modifies this`ring, this`nexts, this`prevs, Repr
      ensures Valid() && ring == RemoveAt(old(ring), |old(ring)| - 1)
    {
      Erase(sentinel.prev, |ring| - 1);
    }

    method Clear()
      requires Valid()
      modifies this`ring, this`nexts, this`prevs, Repr
      ensures Valid() && ring == [sentinel]
    {
      sentinel.prev, sentinel.next := sentinel, sentinel;
      ring, nexts, prevs := [sentinel], [sentinel], [sentinel];
    }
  }
}
