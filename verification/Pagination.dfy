/** Walking a paginated collection: an iterator that follows continuation cursors, refuses to follow
    one twice, and keeps its place when a fetch fails. */
module Pagination {
  import opened MachineInts

  type Cursor = string

  datatype Page<+T> = Page(data: seq<T>, next: Option<Cursor>)

  datatype Reply<+T> = Got(page: Page<T>) | Failed(error: string)

  datatype Result<+T> = Ok(data: seq<T>) | Err(error: string)

  const REPEATED: string := "Pagination cursor repeated"

  predicate HasMore<T>(p: Page<T>) { p.next.Some? && p.next.value != "" }

  /** The iterator's state: cursors followed so far, where to fetch next, and whether it is done. */
  datatype Place = Place(seen: set<Cursor>, cursor: Option<Cursor>, exhausted: bool)

  function Start(cursor: Option<Cursor>): Place {
    Place(if cursor.Some? && cursor.value != "" then {cursor.value} else {}, cursor, false)
  }

  /** What one fetched reply does to the iterator, and what `next` returns for it. */
  function Advance<T>(p: Place, reply: Reply<T>): (Place, Result<T>) {
    match reply
    case Failed(e) => (p, Err(e))
    case Got(page) =>
      if !HasMore(page) then (p.(exhausted := true), Ok(page.data))
      else if page.next.value in p.seen then (p.(exhausted := true), Err(REPEATED))
      else (p.(seen := p.seen + {page.next.value}, cursor := page.next), Ok(page.data))
  }

  // ---------------------------------------------------------------- the collection behind it

  /** A fixed page (or permanent error) per cursor, behind a connection on which the `n`-th fetch may
      fail of itself. */
  datatype Collection<!T> = Collection(graph: Option<Cursor> -> Reply<T>, flaky: nat -> Option<string>)

  function Fetched<T>(c: Collection<T>, n: nat, cursor: Option<Cursor>): Reply<T> {
    if c.flaky(n).Some? then Failed(c.flaky(n).value) else c.graph(cursor)
  }

  /** Every cursor that any page hands out is one of `cursors`; an empty one is none. */
  ghost predicate Closed<T>(c: Collection<T>, cursors: set<Cursor>) {
    forall at :: c.graph(at).Got? && c.graph(at).page.next !in {None, Some("")} ==>
                   c.graph(at).page.next.value in cursors
  }

  lemma OneCursorFewer(cursors: set<Cursor>, seen: set<Cursor>, next: Cursor)
    requires next in cursors && next !in seen
    ensures |cursors - (seen + {next})| < |cursors - seen|
  {
    assert cursors - (seen + {next}) == (cursors - seen) - {next};
  }

  /** `collect_all` from place `p`, its next fetch being the `n`-th: the result, the final place and
      the number of fetches made by then. */
  ghost function Collect<T>(c: Collection<T>, cursors: set<Cursor>, p: Place, n: nat): (Result<T>, Place, nat)
    requires Closed(c, cursors)
    decreases |cursors - p.seen|, if p.exhausted then 0 else 1
  {
    if p.exhausted then (Ok([]), p, n)
    else
      var (q, r) := Advance(p, Fetched(c, n, p.cursor));
      if r.Err? then (r, q, n + 1)
      else if q.exhausted then (r, q, n + 1)
      else
        OneCursorFewer(cursors, p.seen, q.cursor.value);
        var (rest, last, m) := Collect(c, cursors, q, n + 1);
        (if rest.Ok? then Ok(r.data + rest.data) else rest, last, m)
  }

  class Source<T(!new)> {
    const collection: Collection<T>
    var fetches: nat

    constructor (collection: Collection<T>)
      ensures this.collection == collection && fetches == 0
    {
      this.collection := collection;
      fetches := 0;
    }

    method Fetch(cursor: Option<Cursor>) returns (reply: Reply<T>)
      modifies this
      ensures reply == Fetched(collection, old(fetches), cursor) && fetches == old(fetches) + 1
    {
      reply := Fetched(collection, fetches, cursor);
      fetches := fetches + 1;
    }
  }

  class PaginatedIterator<T(!new)> {
    const source: Source<T>
    var seenCursors: set<Cursor>
    var cursor: Option<Cursor>
    var exhausted: bool

    ghost function At(): Place
      reads this
    {
      Place(seenCursors, cursor, exhausted)
    }

    constructor (source: Source<T>, initial: Option<Cursor>)
      ensures this.source == source && At() == Start(initial)
      ensures cursor == initial && !exhausted
      ensures seenCursors == if initial in {None, Some("")} then {} else {initial.value}
    {
      this.source := source;
      cursor, exhausted := initial, false;
      seenCursors := if initial.Some? && initial.value != "" then {initial.value} else {};
    }

    method Next() returns (r: Result<T>)
      modifies this, source
      ensures old(exhausted) ==> r == Ok([]) && At() == old(At()) && source.fetches == old(source.fetches)
      ensures !old(exhausted) ==>
                && source.fetches == old(source.fetches) + 1
                && (At(), r) == Advance(old(At()), Fetched(source.collection, old(source.fetches), old(cursor)))
                && match Fetched(source.collection, old(source.fetches), old(cursor))
                   case Failed(e) => r == Err(e) && At() == old(At())
                   case Got(Page(data, next)) =>
                     if next in {None, Some("")} then r == Ok(data) && At() == old(At()).(exhausted := true)
                     else if next.value in old(seenCursors) then r.Err? && At() == old(At()).(exhausted := true)
                     else r == Ok(data) && At() == Place(old(seenCursors) + {next.value}, next, false)
    {
      if exhausted {
        return Ok([]);
      }
      var reply := source.Fetch(cursor);
      if reply.Failed? {
        return Err(reply.error);
      }
      var page := reply.page;
      if HasMore(page) {
        if page.next.value in seenCursors {
          exhausted := true;
          return Err(REPEATED);
        }
        seenCursors := seenCursors + {page.next.value};
        cursor := page.next;
      } else {
        exhausted := true;
      }
      r := Ok(page.data);
    }

    /** Pages are fetched until the last one; the loop ends because every page but the last uses up a
        cursor that was not seen before. */
    method CollectAll(ghost cursors: set<Cursor>) returns (r: Result<T>)
      requires Closed(source.collection, cursors)
      modifies this, source
      ensures (r, At(), source.fetches) == Collect(source.collection, cursors, old(At()), old(source.fetches))
      ensures source.fetches - old(source.fetches) <= |cursors - old(seenCursors)| + 1 <= |cursors| + 1
    {
      var all := [];
      ghost var c, p, n := source.collection, At(), source.fetches;
      ghost var goal := Collect(c, cursors, p, n);
      FetchesAreBounded(c, cursors, p, n);
      SetOut(c, cursors, p, n);
      while !exhausted
        invariant source.collection == c && p == At() && n == source.fetches
        invariant OnCourse(c, cursors, p, n, all, goal)
        decreases Room(cursors, p)
      {
        var page := Next();
        assert (At(), page) == Advance(p, Fetched(c, n, p.cursor));
        CollectStep(c, cursors, p, n, all, At(), page, goal);
        if page.Err? {
          return page;
        }
        p, n := At(), n + 1;
        all := all + page.data;
      }
      NothingLeft(c, cursors, p, n, all, goal);
      r := Ok(all);
    }
  }

  /** What has been collected, completed with what the rest of the walk collects, is the goal. */
  ghost predicate OnCourse<T>(c: Collection<T>, cursors: set<Cursor>, p: Place, n: nat, all: seq<T>,
                              goal: (Result<T>, Place, nat)) {
    Closed(c, cursors) && PrependedTo(all, Collect(c, cursors, p, n)) == goal
  }

  lemma SetOut<T>(c: Collection<T>, cursors: set<Cursor>, p: Place, n: nat)
    requires Closed(c, cursors)
    ensures OnCourse(c, cursors, p, n, [], Collect(c, cursors, p, n))
  {
    PrependNothing(Collect(c, cursors, p, n));
  }

  lemma NothingLeft<T>(c: Collection<T>, cursors: set<Cursor>, p: Place, n: nat, all: seq<T>,
                       goal: (Result<T>, Place, nat))
    requires OnCourse(c, cursors, p, n, all, goal) && p.exhausted
    ensures goal == (Ok(all), p, n)
  {
    assert all + [] == all;
  }

  /** At most one fetch per cursor not seen before, and one more. */
  lemma {:induction false} FetchesAreBounded<T>(c: Collection<T>, cursors: set<Cursor>, p: Place, n: nat)
    requires Closed(c, cursors)
    ensures n <= Collect(c, cursors, p, n).2 <= n + |cursors - p.seen| + 1 <= n + |cursors| + 1
    decreases |cursors - p.seen|
  {
    FewerThanAll(cursors, p.seen);
    if !p.exhausted {
      var (q, r) := Advance(p, Fetched(c, n, p.cursor));
      if r.Ok? && !q.exhausted {
        OneCursorFewer(cursors, p.seen, q.cursor.value);
        FetchesAreBounded(c, cursors, q, n + 1);
      }
    }
  }

  lemma FewerThanAll(cursors: set<Cursor>, seen: set<Cursor>)
    ensures |cursors - seen| <= |cursors|
  {
    assert cursors == (cursors - seen) + (cursors * seen);
    assert |cursors| == |cursors - seen| + |cursors * seen|;
  }

  ghost function PrependedTo<T>(all: seq<T>, x: (Result<T>, Place, nat)): (Result<T>, Place, nat) {
    (if x.0.Ok? then Ok(all + x.0.data) else x.0, x.1, x.2)
  }

  /** What is left to walk: cursors not yet seen, and whether another fetch is due. */
  ghost function Room(cursors: set<Cursor>, p: Place): nat {
    2 * |cursors - p.seen| + (if p.exhausted then 0 else 1)
  }

  /** One page more: what remains to collect is behind what that page adds, and there is less of it. */
  lemma CollectStep<T>(c: Collection<T>, cursors: set<Cursor>, p: Place, n: nat, all: seq<T>, q: Place, r: Result<T>,
                       goal: (Result<T>, Place, nat))
    requires OnCourse(c, cursors, p, n, all, goal) && !p.exhausted && (q, r) == Advance(p, Fetched(c, n, p.cursor))
    ensures r.Err? ==> goal == (r, q, n + 1)
    ensures r.Ok? ==> OnCourse(c, cursors, q, n + 1, all + r.data, goal)
    ensures r.Ok? ==> Room(cursors, q) < Room(cursors, p)
  {
    if r.Ok? {
      if q.exhausted {
        assert all + r.data + [] == all + r.data;
      } else {
        OneCursorFewer(cursors, p.seen, q.cursor.value);
        var rest := Collect(c, cursors, q, n + 1).0;
        if rest.Ok? {
          assert all + r.data + rest.data == all + (r.data + rest.data);
        }
      }
    }
  }

  lemma PrependNothing<T>(x: (Result<T>, Place, nat))
    ensures PrependedTo([], x) == x
  {
    if x.0.Ok? {
      assert [] + x.0.data == x.0.data;
    }
  }

  // ---------------------------------------------------------------- exactness

  /** The page at `from` hands out `to`, which is not among the cursors seen. */
  ghost predicate LeadsTo<T>(c: Collection<T>, seen: set<Cursor>, from: Option<Cursor>, to: Option<Cursor>) {
    var reply := c.graph(from);
    reply.Got? && to == reply.page.next && to !in {None, Some("")} && to.value !in seen
  }

  /** A walk from `first` to a last page: each page leads to the next stop, no continuation was seen
      before or is met twice, and the last page is there and has no continuation. */
  ghost predicate CompleteWalk<T>(c: Collection<T>, seen: set<Cursor>, first: Option<Cursor>,
                                  path: seq<Option<Cursor>>) {
    && path != [] && path[0] == first
    && (forall i :: 0 <= i < |path| - 1 ==> LeadsTo(c, seen, path[i], path[i + 1]))
    && (forall i, j :: 1 <= i < j < |path| ==> path[i] != path[j])
    && c.graph(path[|path| - 1]).Got? && c.graph(path[|path| - 1]).page.next in {None, Some("")}
  }

  ghost predicate NoneFails<T>(c: Collection<T>, n: nat, count: nat) {
    forall i: nat :: n <= i < n + count ==> c.flaky(i).None?
  }

  /** The pages along a path, one after the other. */
  ghost function PagesOf<T>(c: Collection<T>, path: seq<Option<Cursor>>): seq<T> {
    if path == [] then []
    else (if c.graph(path[0]).Got? then c.graph(path[0]).page.data else []) + PagesOf(c, path[1..])
  }

  lemma {:induction false} CompleteWalkIsCollected<T>(c: Collection<T>, cursors: set<Cursor>, p: Place, n: nat,
                                                      path: seq<Option<Cursor>>)
    requires Closed(c, cursors) && !p.exhausted
    requires CompleteWalk(c, p.seen, p.cursor, path) && NoneFails(c, n, |path|)
    ensures Collect(c, cursors, p, n).0 == Ok(PagesOf(c, path))
    ensures Collect(c, cursors, p, n).2 == n + |path|
    decreases |path|
  {
    assert Fetched(c, n, p.cursor) == c.graph(path[0]);
    if |path| == 1 {
      LastStop(c, path);
    } else {
      assert LeadsTo(c, p.seen, path[0], path[1]);
      var (q, r) := Advance(p, c.graph(path[0]));
      OneCursorFewer(cursors, p.seen, path[1].value);
      WalkOn(c, p.seen, path);
      CompleteWalkIsCollected(c, cursors, q, n + 1, path[1..]);
    }
  }

  lemma LastStop<T>(c: Collection<T>, path: seq<Option<Cursor>>)
    requires |path| == 1 && c.graph(path[0]).Got?
    ensures PagesOf(c, path) == c.graph(path[0]).page.data
  {
    assert path[1..] == [];
    assert c.graph(path[0]).page.data + [] == c.graph(path[0]).page.data;
  }

  lemma WalkOn<T>(c: Collection<T>, seen: set<Cursor>, path: seq<Option<Cursor>>)
    requires path != [] && CompleteWalk(c, seen, path[0], path) && |path| > 1
    ensures path[1].Some? && CompleteWalk(c, seen + {path[1].value}, path[1], path[1..])
  {
    var rest := path[1..];
    assert LeadsTo(c, seen, path[0], path[1]);
    forall i | 0 <= i < |rest| - 1
      ensures LeadsTo(c, seen + {path[1].value}, rest[i], rest[i + 1])
    {
      assert LeadsTo(c, seen, path[i + 1], path[i + 2]);
      assert path[1] != path[i + 2];
    }
  }

  lemma {:induction false} CollectedIsCompleteWalk<T>(c: Collection<T>, cursors: set<Cursor>, p: Place, n: nat)
      returns (path: seq<Option<Cursor>>)
    requires Closed(c, cursors) && !p.exhausted && Collect(c, cursors, p, n).0.Ok?
    ensures CompleteWalk(c, p.seen, p.cursor, path) && NoneFails(c, n, |path|)
    decreases |cursors - p.seen|
  {
    var (q, r) := Advance(p, Fetched(c, n, p.cursor));
    if q.exhausted {
      path := [p.cursor];
    } else {
      OneCursorFewer(cursors, p.seen, q.cursor.value);
      var rest := CollectedIsCompleteWalk(c, cursors, q, n + 1);
      path := [p.cursor] + rest;
      WalkBefore(c, p.seen, path);
    }
  }

  lemma WalkBefore<T>(c: Collection<T>, seen: set<Cursor>, path: seq<Option<Cursor>>)
    requires |path| > 1 && LeadsTo(c, seen, path[0], path[1])
    requires CompleteWalk(c, seen + {path[1].value}, path[1], path[1..])
    ensures CompleteWalk(c, seen, path[0], path)
  {
    var rest := path[1..];
    forall i | 0 <= i < |path| - 1 ensures LeadsTo(c, seen, path[i], path[i + 1]) {
      if i > 0 {
        assert LeadsTo(c, seen + {path[1].value}, rest[i - 1], rest[i]);
      }
    }
    forall i, j | 1 <= i < j < |path| ensures path[i] != path[j] {
      assert path[i] == rest[i - 1] && path[j] == rest[j - 1];
      assert LeadsTo(c, seen + {path[1].value}, rest[j - 2], rest[j - 1]);
    }
  }

  /** EXACTNESS. `collect_all` on an unfinished iterator returns data exactly when the chain of cursors
      ends without repeating one and no fetch along it fails; the data is then the pages along the
      chain in order. Otherwise it returns an error. */
  lemma CollectIsExact<T(!new)>(c: Collection<T>, cursors: set<Cursor>, p: Place, n: nat, data: seq<T>)
    requires Closed(c, cursors) && !p.exhausted
    ensures Collect(c, cursors, p, n).0 == Ok(data) <==>
            exists path :: CompleteWalk(c, p.seen, p.cursor, path) && NoneFails(c, n, |path|)
                           && PagesOf(c, path) == data
  {
    if Collect(c, cursors, p, n).0.Ok? {
      var path := CollectedIsCompleteWalk(c, cursors, p, n);
      CompleteWalkIsCollected(c, cursors, p, n, path);
    }
    forall path | CompleteWalk(c, p.seen, p.cursor, path) && NoneFails(c, n, |path|)
      ensures Collect(c, cursors, p, n).0 == Ok(PagesOf(c, path))
    {
      CompleteWalkIsCollected(c, cursors, p, n, path);
    }
  }

  // ---------------------------------------------------------------- retry safety

  /** Calls of `next` in a row on a graph of pages, `fails[i]` telling whether the connection fails
      during the `i`-th: the final place and the pages delivered. A finished iterator fetches and
      delivers no more. */
  function Deliver<T>(graph: Option<Cursor> -> Reply<T>, p: Place, fails: seq<bool>): (Place, seq<seq<T>>)
    decreases |fails|
  {
    if fails == [] || p.exhausted then (p, [])
    else
      var (q, r) := Advance(p, if fails[0] then Failed("transient") else graph(p.cursor));
      var (last, pages) := Deliver(graph, q, fails[1..]);
      (last, (if r.Ok? then [r.data] else []) + pages)
  }

  function Successes(fails: seq<bool>): (ok: seq<bool>)
    ensures forall i :: 0 <= i < |ok| ==> !ok[i]
  {
    if fails == [] then [] else (if fails[0] then [] else [false]) + Successes(fails[1..])
  }

  /** RETRY SAFETY. Whatever the pattern of transient failures, the calls that got through deliver the
      same pages in the same order, and leave the iterator in the same place, as that many calls on a
      connection that never fails: nothing is skipped and nothing repeated. */
  lemma {:induction false} TransientFailuresAreInvisible<T>(graph: Option<Cursor> -> Reply<T>, p: Place,
                                                            fails: seq<bool>)
    ensures Deliver(graph, p, fails) == Deliver(graph, p, Successes(fails))
    decreases |fails|
  {
    if fails != [] && !p.exhausted {
      if fails[0] {
        assert Successes(fails) == [] + Successes(fails[1..]) == Successes(fails[1..]);
        var (last, pages) := Deliver(graph, p, fails[1..]);
        assert [] + pages == pages;
        TransientFailuresAreInvisible(graph, p, fails[1..]);
      } else {
        assert Successes(fails)[1..] == Successes(fails[1..]);
        TransientFailuresAreInvisible(graph, Advance(p, graph(p.cursor)).0, fails[1..]);
      }
    }
  }

  /** A repeated cursor ends the iteration, and is the only error that does: it is reported once, and
      the iterator then answers as if it had reached the end, so asking again for everything succeeds
      with nothing. */
  lemma {:induction false} RepeatIsReportedOnce<T>(c: Collection<T>, cursors: set<Cursor>, p: Place, n: nat, m: nat)
    requires Closed(c, cursors) && Collect(c, cursors, p, n).0.Err? && Collect(c, cursors, p, n).1.exhausted
    ensures Collect(c, cursors, p, n).0 == Err(REPEATED)
    ensures Collect(c, cursors, Collect(c, cursors, p, n).1, m).0 == Ok([])
    decreases |cursors - p.seen|
  {
    var (q, r) := Advance(p, Fetched(c, n, p.cursor));
    if r.Ok? {
      OneCursorFewer(cursors, p.seen, q.cursor.value);
      RepeatIsReportedOnce(c, cursors, q, n + 1, m);
    }
  }

  // ---------------------------------------------------------------- retrying collect_all

  /** The same pages behind a connection that never fails of itself. */
  function Calm<T>(c: Collection<T>): Collection<T> { Collection(c.graph, (n: nat) => None) }

  /** Data already fetched when `collect_all` stops at an error: it is not returned. */
  ghost function Dropped<T>(c: Collection<T>, cursors: set<Cursor>, p: Place, n: nat): seq<T>
    requires Closed(c, cursors)
    decreases |cursors - p.seen|
  {
    if p.exhausted then []
    else
      var (q, r) := Advance(p, Fetched(c, n, p.cursor));
      if r.Err? || q.exhausted then []
      else
        OneCursorFewer(cursors, p.seen, q.cursor.value);
        r.data + Dropped(c, cursors, q, n + 1)
  }

  lemma {:induction false} CalmIsTimeless<T>(c: Collection<T>, cursors: set<Cursor>, p: Place, m: nat, n: nat)
    requires Closed(c, cursors)
    ensures Collect(Calm(c), cursors, p, m).0 == Collect(Calm(c), cursors, p, n).0
    decreases |cursors - p.seen|
  {
    if !p.exhausted {
      var (q, r) := Advance(p, c.graph(p.cursor));
      if r.Ok? && !q.exhausted {
        OneCursorFewer(cursors, p.seen, q.cursor.value);
        CalmIsTimeless(c, cursors, q, m + 1, n + 1);
      }
    }
  }

  lemma OnePageMore<T>(c: Collection<T>, cursors: set<Cursor>, p: Place, n: nat, q: Place, r: Result<T>)
    requires Closed(c, cursors) && !p.exhausted && (q, r) == Advance(p, Fetched(c, n, p.cursor))
    requires r.Ok? && !q.exhausted
    ensures Collect(c, cursors, p, n) == PrependedTo(r.data, Collect(c, cursors, q, n + 1))
    ensures Dropped(c, cursors, p, n) == r.data + Dropped(c, cursors, q, n + 1)
    ensures |cursors - q.seen| < |cursors - p.seen|
  {
    OneCursorFewer(cursors, p.seen, q.cursor.value);
  }

  lemma PrependTwice<T>(a: seq<T>, b: seq<T>, x: (Result<T>, Place, nat))
    ensures PrependedTo(a, PrependedTo(b, x)).0 == PrependedTo(a + b, x).0
  {
    if x.0.Ok? {
      assert a + (b + x.0.data) == a + b + x.0.data;
    }
  }

  lemma {:induction false} RetryContinues<T>(c: Collection<T>, cursors: set<Cursor>, p: Place, n: nat, m: nat)
    requires Closed(c, cursors)
    requires Collect(c, cursors, p, n).0.Err? && !Collect(c, cursors, p, n).1.exhausted
    ensures Collect(Calm(c), cursors, p, m).0
              == PrependedTo(Dropped(c, cursors, p, n), Collect(Calm(c), cursors, Collect(c, cursors, p, n).1, m)).0
    decreases |cursors - p.seen|
  {
    var (q, r) := Advance(p, Fetched(c, n, p.cursor));
    if r.Err? {
      PrependNothing(Collect(Calm(c), cursors, p, m));
    } else {
      OnePageMore(c, cursors, p, n, q, r);
      OnePageMore(Calm(c), cursors, p, m, q, r);
      RetryContinues(c, cursors, q, n + 1, m + 1);
      var again := Collect(c, cursors, p, n).1;
      CalmIsTimeless(c, cursors, again, m, m + 1);
      PrependTwice(r.data, Dropped(c, cursors, q, n + 1), Collect(Calm(c), cursors, again, m));
    }
  }

  /** What `next` promises, `collect_all` does not. Called again after a failed fetch, on a connection
      that has recovered, it returns what an undisturbed call would have returned if and only if no data
      had been fetched before the failure: what had been is skipped. */
  lemma RetriedCollectionSkips<T>(c: Collection<T>, cursors: set<Cursor>, p: Place, n: nat, m: nat)
    requires Closed(c, cursors)
    requires Collect(c, cursors, p, n).0.Err? && !Collect(c, cursors, p, n).1.exhausted
    requires Collect(Calm(c), cursors, p, m).0.Ok?
    ensures var retried := Collect(Calm(c), cursors, Collect(c, cursors, p, n).1, m).0;
            && retried.Ok?
            && Collect(Calm(c), cursors, p, m).0.data == Dropped(c, cursors, p, n) + retried.data
            && (retried == Collect(Calm(c), cursors, p, m).0 <==> Dropped(c, cursors, p, n) == [])
  {
    RetryContinues(c, cursors, p, n, m);
    var retried := Collect(Calm(c), cursors, Collect(c, cursors, p, n).1, m).0;
    assert |Dropped(c, cursors, p, n) + retried.data| == |Dropped(c, cursors, p, n)| + |retried.data|;
    assert [] + retried.data == retried.data;
  }

  const TWO_PAGES: Collection<int> := Collection(
    (at: Option<Cursor>) => if at == Some("b") then Got(Page([2], None)) else Got(Page([1], Some("b"))),
    (n: nat) => if n == 1 then Some("timed out") else None)

  /** Two pages, the second fetch timing out once: the second `collect_all` succeeds without the first
      page. */
  lemma FirstPageIsSkipped()
    ensures Closed(TWO_PAGES, {"b"})
    ensures var first := Collect(TWO_PAGES, {"b"}, Start(None), 0);
            && first.0 == Err("timed out") && first.2 == 2
            && Collect(TWO_PAGES, {"b"}, first.1, 2).0 == Ok([2])
  {
    var p := Start(None);
    var q := Advance(p, Fetched(TWO_PAGES, 0, p.cursor)).0;
    assert q == Place({} + {"b"}, Some("b"), false);
    assert Collect(TWO_PAGES, {"b"}, q, 1) == (Err("timed out"), q, 2);
    assert Collect(TWO_PAGES, {"b"}, q, 2).0 == Ok([2]);
  }
}
