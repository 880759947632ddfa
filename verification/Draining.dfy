/** What taking every queued event does while the tree stands still: exactly which directories end up
    watched. */
module Draining {
  import opened Paths
  import opened DirTree
  import opened Watcher
  import opened RootChanges
  import opened WatchRuns

  /** The backend after it has taken every queued event while the tree stands still. */
  function Drained(b: Backend, dirs: Dirs, ignore: set<string>, q: seq<KernelEvent>): Backend
    decreases |q|
  {
    if q == [] then b else Drained(Handled(b, dirs, ignore, q[0]), dirs, ignore, q[1..])
  }

  ghost predicate KernelInBook(b: Backend) {
    forall k :: k in b.kernel ==> k.0 in b.watches && b.watches[k.0] == k.1
  }

  /** A queued walk over `d` has no queued deletion of `d` behind it. */
  ghost predicate WalkLast(q: seq<KernelEvent>, d: Path) {
    exists i :: 0 <= i < |q| && Walks(q[i], d) && !UnwatchAfter(q, i, d)
  }

  /** What decides whether draining leaves `d` watched, read off the bookkeeping and the queue. */
  ghost predicate Destined(b: Backend, dirs: Dirs, q: seq<KernelEvent>, d: Path) {
    if UnwatchPending(q, d) then WalkLast(q, d)
    else if d in b.watches then Watched(b, dirs, d)
    else WalkPending(q, d)
  }

  /** Handling one event, seen from one directory. */
  lemma {:induction false} HandledAt(b: Backend, dirs: Dirs, ignore: set<string>, e: KernelEvent, d: Path)
    requires ParentClosed(dirs) && KernelInBook(b) && d in dirs && !Ignored(d, ignore)
    requires exists r :: r in b.roots && r <= d
    requires Vanishes(e) ==> e.path != []
    ensures var c := Handled(b, dirs, ignore, e);
            KernelInBook(c) && c.roots == b.roots
            && (Unwatches(e, d) ==> d !in c.watches)
            && (Walks(e, d) && d in b.watches ==> d in c.watches && (Watched(c, dirs, d) <==> Watched(b, dirs, d)))
            && (Walks(e, d) && d !in b.watches ==> Watched(c, dirs, d))
            && (!Walks(e, d) && !Unwatches(e, d) ==>
                  (d in c.watches <==> d in b.watches) && (Watched(c, dirs, d) <==> Watched(b, dirs, d)))
  {
    match e
    case Overflow =>
      var r :| r in b.roots && r <= d;
      LiveAbove(dirs, ignore, r, d);
      WantedIsCovered(dirs, ignore, b.roots, d);
    case Resync(root) =>
    case Entry(path, kind, isDir) =>
      if Ignored(path, ignore) {
        IgnoredAbove(ignore, path, d);
      } else if Vanishes(e) {
        RemovedWatches(b, {path}, d);
        assert path in {path};
        forall k ensures k in Handled(b, dirs, ignore, e).kernel <==> k in b.kernel && !(path <= k.0) {
          RemovedWatches(b, {path}, k.0);
        }
      }
  }

  lemma {:induction false} WalkLastTaken(q: seq<KernelEvent>, d: Path)
    requires q != []
    ensures WalkLast(q, d) <==> WalkLast(q[1..], d) || (Walks(q[0], d) && !UnwatchPending(q[1..], d))
  {
    var r := q[1..];
    if i :| 0 <= i < |r| && Walks(r[i], d) && !UnwatchAfter(r, i, d) {
      AfterTaken(q, i, d);
      assert Walks(q[i + 1], d);
    }
    forall i | 0 < i < |q| ensures UnwatchAfter(q, i, d) <==> UnwatchAfter(r, i - 1, d) { AfterTaken(q, i - 1, d); }
    if i :| 0 <= i < |q| && Walks(q[i], d) && !UnwatchAfter(q, i, d) {
      if i > 0 {
        assert Walks(r[i - 1], d);
      }
    }
    assert UnwatchAfter(q, 0, d) <==> UnwatchPending(r, d) by {
      if j :| 0 <= j < |r| && Unwatches(r[j], d) { assert Unwatches(q[j + 1], d); }
      if j :| 0 < j < |q| && Unwatches(q[j], d) { assert Unwatches(r[j - 1], d); }
    }
  }

  /** Draining the queue over a tree that stands still leaves a directory watched exactly when it is
      destined to: with a deletion of it queued, when a queued walk over it is behind the last one;
      otherwise, when it is properly watched already, or is unknown and some queued walk finds it.
      A stale entry in the bookkeeping stops every walk. */
  lemma {:induction false} DrainExact(b: Backend, dirs: Dirs, ignore: set<string>, q: seq<KernelEvent>, d: Path)
    requires ParentClosed(dirs) && KernelInBook(b) && d in dirs && !Ignored(d, ignore)
    requires exists r :: r in b.roots && r <= d
    requires forall i :: 0 <= i < |q| && Vanishes(q[i]) ==> q[i].path != []
    ensures Watched(Drained(b, dirs, ignore, q), dirs, d) <==> Destined(b, dirs, q, d)
    decreases |q|
  {
    if q != [] {
      var e, rest := q[0], q[1..];
      var c := Handled(b, dirs, ignore, e);
      HandledAt(b, dirs, ignore, e, d);
      assert forall i :: 0 <= i < |rest| ==> rest[i] == q[i + 1];
      DrainExact(c, dirs, ignore, rest, d);
      DestinedStep(b, c, dirs, e, rest, d);
      assert q == [e] + rest;
    }
  }

  lemma {:induction false} DestinedStep(b: Backend, c: Backend, dirs: Dirs, e: KernelEvent, rest: seq<KernelEvent>, d: Path)
    requires d in dirs
    requires Unwatches(e, d) ==> d !in c.watches
    requires Walks(e, d) && d in b.watches ==> d in c.watches && (Watched(c, dirs, d) <==> Watched(b, dirs, d))
    requires Walks(e, d) && d !in b.watches ==> Watched(c, dirs, d)
    requires !Walks(e, d) && !Unwatches(e, d) ==>
               (d in c.watches <==> d in b.watches) && (Watched(c, dirs, d) <==> Watched(b, dirs, d))
    ensures Destined(c, dirs, rest, d) <==> Destined(b, dirs, [e] + rest, d)
  {
    var q := [e] + rest;
    assert q[1..] == rest;
    Taken(q, d);
    WalkLastTaken(q, d);
    assert !UnwatchPending(rest, d) ==> (WalkLast(rest, d) <==> WalkPending(rest, d)) by {
      if i :| 0 <= i < |rest| && Walks(rest[i], d) {
        assert UnwatchAfter(rest, i, d) ==> UnwatchPending(rest, d);
      }
    }
  }

  lemma {:induction false} ElementsOfRest(order: seq<Path>)
    requires order != []
    ensures Elements(order) == Elements(order[1..]) + {order[0]}
  {
    var rest := order[1..];
    forall p ensures p in Elements(order) <==> p in Elements(rest) || p == order[0] {
      if i :| 0 <= i < |order| && order[i] == p { assert i > 0 ==> rest[i - 1] == p; }
      if i :| 0 <= i < |rest| && rest[i] == p { assert order[i + 1] == p; }
    }
  }

  /** Taking the roots of a resync one by one has the effect of walking all of them at once. */
  lemma {:induction false} ResyncsAreOneOverflow(b: Backend, dirs: Dirs, ignore: set<string>, order: seq<Path>)
    requires ParentClosed(dirs)
    ensures Drained(b, dirs, ignore, Resyncs(order)) == AddAll(b, dirs, Wanted(dirs, ignore, Elements(order)))
    decreases |order|
  {
    if order == [] {
      assert Elements(order) == {};
      AddNone(b, dirs, ignore);
    } else {
      var r, rest := order[0], order[1..];
      var c := AddAll(b, dirs, Watchable(dirs, ignore, r));
      assert Resyncs(order)[0] == Resync(r) && Resyncs(order)[1..] == Resyncs(rest);
      ResyncsAreOneOverflow(c, dirs, ignore, rest);
      AddTwice(b, dirs, Watchable(dirs, ignore, r), Wanted(dirs, ignore, Elements(rest)));
      WantedPlus(dirs, ignore, Elements(rest), r);
      ElementsOfRest(order);
      assert Watchable(dirs, ignore, r) + Wanted(dirs, ignore, Elements(rest))
             == Wanted(dirs, ignore, Elements(rest)) + Watchable(dirs, ignore, r);
    }
  }
}
