/** Sequence surgery, and the rearrangements of concatenations that proofs about it need. */
module Sequences {

  /** Where the `k`-th of the others was, before the `i`-th was taken out. */
  function Skip(i: nat, k: nat): nat { if k < i then k else k + 1 }

  function RemoveAt<T>(s: seq<T>, i: nat): (r: seq<T>)
    requires i < |s|
    ensures IsWithout(r, s, i)
  {
    s[..i] + s[i + 1..]
  }

  ghost predicate IsWithout<T>(r: seq<T>, s: seq<T>, i: nat) {
    i < |s| == |r| + 1 && forall k {:trigger r[k]} :: 0 <= k < |r| ==> r[k] == s[Skip(i, k)]
  }

  function Truncate<T>(s: seq<T>, n: nat): seq<T> { if |s| <= n then s else s[..n] }

  lemma Regroup<T>(a: seq<T>, b: seq<T>)
    requires a != []
    ensures a == [a[0]] + a[1..] && a + b == [a[0]] + (a[1..] + b)
  {
  }

  lemma Assoc<T>(a: seq<T>, b: seq<T>, c: seq<T>)
    ensures a + (b + c) == (a + b) + c
  {
  }

  lemma HeadAndTail<T>(a: seq<T>, b: seq<T>)
    requires a != []
    ensures (a + b)[0] == a[0] && (a + b)[1..] == a[1..] + b
  {
  }

  lemma NothingMore<T>(a: seq<T>)
    ensures a + [] == a == [] + a
  {
  }

  /** The values of a function at the elements of a sequence. */
  function Each<T, U>(s: seq<T>, f: T -> U): (r: seq<U>)
    ensures |r| == |s|
  {
    if s == [] then [] else [f(s[0])] + Each(s[1..], f)
  }

  lemma {:induction false} EachIs<T, U>(s: seq<T>, f: T -> U, i: nat)
    requires i < |s|
    ensures Each(s, f)[i] == f(s[i])
  {
    if i > 0 {
      EachIs(s[1..], f, i - 1);
    }
  }

  lemma EachCons<T, U>(x: T, s: seq<T>, f: T -> U)
    ensures Each([x] + s, f) == [f(x)] + Each(s, f)
  {
    assert ([x] + s)[1..] == s;
  }

  lemma {:induction false} EachJoined<T, U>(a: seq<T>, b: seq<T>, f: T -> U)
    ensures Each(a + b, f) == Each(a, f) + Each(b, f)
  {
    if a == [] {
      NothingMore(b);
    } else {
      EachJoined(a[1..], b, f);
      HeadAndTail(a, b);
      Assoc([f(a[0])], Each(a[1..], f), Each(b, f));
    }
  }

  lemma CutAt<T>(s: seq<T>, k: nat)
    requires k <= |s|
    ensures s == s[..k] + s[k..]
  {
  }

  lemma CutAround<T>(s: seq<T>, k: nat)
    requires k < |s|
    ensures s == s[..k] + [s[k]] + s[k + 1..]
  {
  }

  lemma EachWith<T, U>(a: seq<T>, x: T, b: seq<T>, f: T -> U)
    ensures Each(a + [x] + b, f) == Each(a, f) + [f(x)] + Each(b, f)
  {
    EachJoined(a + [x], b, f);
    EachJoined(a, [x], f);
    assert Each([x], f) == [f(x)];
  }

  lemma EachAround<T, U>(s: seq<T>, f: T -> U, k: nat)
    requires k < |s|
    ensures Each(s, f) == Each(s[..k], f) + [f(s[k])] + Each(s[k + 1..], f)
  {
    CutAround(s, k);
    EachWith(s[..k], s[k], s[k + 1..], f);
  }

  lemma SliceOfRest<T>(s: seq<T>, i: nat, j: nat)
    requires 0 < i <= j <= |s|
    ensures s[i..j] == s[1..][i - 1..j - 1]
  {
    assert |s[i..j]| == |s[1..][i - 1..j - 1]|;
  }
}
