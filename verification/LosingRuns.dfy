/** Runs that lose a directory: what goes wrong when a guard is not met. */
module LosingRuns {
  import opened Paths
  import opened Types
  import opened DirTree
  import opened Watcher
  import opened RootChanges
  import opened WatchRuns

  /** Nothing is queued, there is one root, it is attached, and nothing is at its child `p`. */
  ghost predicate Quiet(w: World, ignore: set<string>, g: Path, p: Path) {
    Inv(w, ignore) && w.queue == [] && w.b.roots == {g} && w.attached == {g}
    && p != [] && Parent(p) == g && p !in w.dirs && p !in w.b.watches && !Ignored(p, ignore)
  }

  /** The step can happen, whether or not the assumptions hold, and leads to `v`. */
  ghost predicate Follows(w: World, ignore: set<string>, s: Step, v: World) {
    Possible(w, s) && v == After(w, ignore, s)
  }

  lemma {:induction false} QuietFacts(w: World, ignore: set<string>, g: Path, p: Path)
    requires Quiet(w, ignore, g, p)
    ensures Seen(w, p) && NewSubtree(w, p, {p}) && g <= p && !(p <= g) && g in w.dirs && g != []
    ensures forall d :: d in w.dirs ==> !(p <= d)
    ensures forall q :: q in w.b.watches ==> g <= q
  {
    assert OnWatch(w, g);
    forall d | p <= d ensures d !in w.dirs { NothingBelow(w.dirs, p, d); }
    forall q | q in w.b.watches ensures g <= q {
      assert UnderRoot(w, q);
    }
  }

  // ---- a second overflow ----------------------------------------------------------------------

  /** With room for `capacity` events, the kernel reports while there is room and loses otherwise. */
  predicate Fits(w: World, s: Step, capacity: nat) {
    match s
    case Appear(p, _, _) => p != [] && Seen(w, p) ==> |w.queue| < capacity
    case Vanish(p, _) => p != [] && Seen(w, p) ==> |w.queue| < capacity
    case FileEvent(_, _) => |w.queue| < capacity
    case AppearUnseen(_, _) => |w.queue| >= capacity
    case VanishUnseen(_, _) => |w.queue| >= capacity
    case FileEventUnseen => |w.queue| >= capacity
    case _ => true
  }

  /** `steps` can happen from `w`, in a queue of this capacity, and lead to `v`. */
  ghost predicate LeadsWithin(w: World, ignore: set<string>, capacity: nat, steps: seq<Step>, v: World)
    decreases |steps|
  {
    if steps == [] then v == w
    else Possible(w, steps[0]) && Fits(w, steps[0], capacity)
         && LeadsWithin(After(w, ignore, steps[0]), ignore, capacity, steps[1..], v)
  }

  lemma {:induction false} Joined(w: World, ignore: set<string>, capacity: nat, steps: seq<Step>, u: World, more: seq<Step>, v: World)
    requires LeadsWithin(w, ignore, capacity, steps, u) && LeadsWithin(u, ignore, capacity, more, v)
    ensures LeadsWithin(w, ignore, capacity, steps + more, v)
    decreases |steps|
  {
    if steps == [] {
      assert steps + more == more;
    } else {
      assert (steps + more)[1..] == steps[1..] + more;
      Joined(After(w, ignore, steps[0]), ignore, capacity, steps[1..], u, more, v);
    }
  }

  lemma {:induction false} JoinedOne(w: World, ignore: set<string>, capacity: nat, steps: seq<Step>, u: World, s: Step)
    requires LeadsWithin(w, ignore, capacity, steps, u) && Possible(u, s) && Fits(u, s, capacity)
    ensures LeadsWithin(w, ignore, capacity, steps + [s], After(u, ignore, s))
  {
    var v := After(u, ignore, s);
    assert [s][1..] == [] && LeadsWithin(v, ignore, capacity, [], v);
    Joined(w, ignore, capacity, steps, u, [s], v);
  }

  predicate OnlyFiles(events: seq<KernelEvent>) {
    forall i :: 0 <= i < |events| ==> events[i].Entry? && !events[i].isDir
  }

  function Reporting(events: seq<KernelEvent>): seq<Step>
    requires OnlyFiles(events)
  {
    seq(|events|, i requires 0 <= i < |events| => FileEvent(events[i].path, events[i].kind))
  }

  function Taking(n: nat): seq<Step> {
    seq(n, i => Take([]))
  }

  lemma {:induction false} FillsUp(w: World, ignore: set<string>, capacity: nat, events: seq<KernelEvent>)
    requires OnlyFiles(events) && |w.queue| + |events| <= capacity
    ensures LeadsWithin(w, ignore, capacity, Reporting(events), w.(queue := w.queue + events))
    decreases |events|
  {
    if events == [] {
      assert w.queue + events == w.queue;
    } else {
      var u := After(w, ignore, FileEvent(events[0].path, events[0].kind));
      assert events[0] == Entry(events[0].path, events[0].kind, false);
      assert u == w.(queue := w.queue + [events[0]]);
      assert u.queue + events[1..] == w.queue + events;
      FillsUp(u, ignore, capacity, events[1..]);
      assert Reporting(events)[1..] == Reporting(events[1..]);
    }
  }

  lemma {:induction false} FilesTaken(w: World, ignore: set<string>, capacity: nat, events: seq<KernelEvent>, rest: seq<KernelEvent>)
    requires OnlyFiles(events) && w.queue == events + rest
    ensures LeadsWithin(w, ignore, capacity, Taking(|events|), w.(queue := rest))
    decreases |events|
  {
    if events == [] {
      assert w.queue == rest;
    } else {
      var u := After(w, ignore, Take([]));
      assert w.queue[0] == events[0] && w.queue[1..] == events[1..] + rest;
      assert u == w.(queue := events[1..] + rest);
      FilesTaken(u, ignore, capacity, events[1..], rest);
      assert Taking(|events|)[1..] == Taking(|events[1..]|);
    }
  }

  /** What happens to the directory while the queue is full, is given room for one deletion, and is full
      again. */
  function TwiceLost(p: Path): seq<Step> {
    [AppearUnseen(p, {p})] + Taking(2) + [Vanish(p, Deleted)] + [AppearUnseen(p, {p})]
  }

  /** The kernel marks an overflow once.  In a queue of any capacity of at least two, full of whatever file
      events, a directory is made, removed and made again while the mark is queued, with both creations lost:
      the resync watches the new directory and the queued deletion of the old one forgets it again.  The queue
      is empty and the directory is unwatched. */
  lemma {:induction false} SecondOverflowLosesDirectory(w: World, ignore: set<string>, g: Path, p: Path, fill: seq<KernelEvent>)
    returns (v: World)
    requires Quiet(w, ignore, g, p) && OnlyFiles(fill) && |fill| >= 2
    ensures LeadsWithin(w, ignore, |fill|,
                        Reporting(fill) + TwiceLost(p) + Taking(|fill| - 2) + [Take([g])] + Taking(2), v)
    ensures v.queue == [] && p in v.dirs && Mine(v, ignore, p) && p !in v.b.watches
  {
    var u := FilledAndLost(w, ignore, g, p, fill);
    v := DrainsOut(u, ignore, g, p, |fill|, fill[2..]);
    Joined(w, ignore, |fill|, Reporting(fill) + TwiceLost(p), u, Taking(|fill| - 2) + ([Take([g])] + Taking(2)), v);
    assert Reporting(fill) + TwiceLost(p) + (Taking(|fill| - 2) + ([Take([g])] + Taking(2)))
           == Reporting(fill) + TwiceLost(p) + Taking(|fill| - 2) + [Take([g])] + Taking(2);
  }

  lemma {:induction false} FilledAndLost(w: World, ignore: set<string>, g: Path, p: Path, fill: seq<KernelEvent>) returns (v: World)
    requires Quiet(w, ignore, g, p) && OnlyFiles(fill) && |fill| >= 2
    ensures LeadsWithin(w, ignore, |fill|, Reporting(fill) + TwiceLost(p), v)
    ensures v.queue == fill[2..] + Behind(p) && v.b.roots == {g} && g in v.attached && p in v.dirs
  {
    QuietFacts(w, ignore, g, p);
    FillsUp(w, ignore, |fill|, fill);
    assert w.queue + fill == fill;
    v := LostTwice(w.(queue := fill), ignore, g, p, fill);
    Joined(w, ignore, |fill|, Reporting(fill), w.(queue := fill), TwiceLost(p), v);
  }

  lemma {:induction false} DrainsOut(w: World, ignore: set<string>, g: Path, p: Path, capacity: nat, fill: seq<KernelEvent>)
    returns (v: World)
    requires OnlyFiles(fill) && w.queue == fill + Behind(p) && w.b.roots == {g} && g in w.attached
    requires p != [] && g <= p && p in w.dirs && !Ignored(p, ignore)
    ensures LeadsWithin(w, ignore, capacity, Taking(|fill|) + ([Take([g])] + Taking(2)), v)
    ensures v.queue == [] && p in v.dirs && Mine(v, ignore, p) && p !in v.b.watches
  {
    FilesTaken(w, ignore, capacity, fill, Behind(p));
    v := ResyncThenForget(w.(queue := Behind(p)), ignore, g, p, capacity);
    Joined(w, ignore, capacity, Taking(|fill|), w.(queue := Behind(p)), [Take([g])] + Taking(2), v);
  }

  function Behind(p: Path): seq<KernelEvent> {
    [Overflow, Entry(p, Deleted, true)]
  }

  lemma {:induction false} LostTwice(w: World, ignore: set<string>, g: Path, p: Path, fill: seq<KernelEvent>) returns (v: World)
    requires w.queue == fill && OnlyFiles(fill) && |fill| >= 2 && w.b.roots == {g} && g in w.attached
    requires p != [] && Seen(w, p) && NewSubtree(w, p, {p}) && g <= p && !(p <= g) && !Ignored(p, ignore)
    requires forall d :: d in w.dirs ==> !(p <= d)
    ensures LeadsWithin(w, ignore, |fill|, TwiceLost(p), v)
    ensures v.queue == fill[2..] + Behind(p) && v.b.roots == {g} && g in v.attached && p in v.dirs
  {
    var n := |fill|;
    var w1 := After(w, ignore, AppearUnseen(p, {p}));
    assert w1.queue == fill + [Overflow] && w1.dirs.Keys == w.dirs.Keys + {p};
    assert w1.queue == fill[..2] + (fill[2..] + [Overflow]);
    var w2 := w1.(queue := fill[2..] + [Overflow]);
    FilesTaken(w1, ignore, n, fill[..2], fill[2..] + [Overflow]);
    var w3 := After(w2, ignore, Vanish(p, Deleted));
    assert Seen(w2, p) && w3.dirs == w.dirs && w3.queue == fill[2..] + Behind(p);
    assert Overflow in w3.queue && Seen(w3, p);
    v := After(w3, ignore, AppearUnseen(p, {p}));
    assert LeadsWithin(w, ignore, n, [], w);
    JoinedOne(w, ignore, n, [], w, AppearUnseen(p, {p}));
    assert [] + [AppearUnseen(p, {p})] == [AppearUnseen(p, {p})];
    Joined(w, ignore, n, [AppearUnseen(p, {p})], w1, Taking(2), w2);
    JoinedOne(w, ignore, n, [AppearUnseen(p, {p})] + Taking(2), w2, Vanish(p, Deleted));
    JoinedOne(w, ignore, n, [AppearUnseen(p, {p})] + Taking(2) + [Vanish(p, Deleted)], w3, AppearUnseen(p, {p}));
  }

  lemma {:induction false} ResyncThenForget(w: World, ignore: set<string>, g: Path, p: Path, capacity: nat) returns (v: World)
    requires w.queue == Behind(p) && w.b.roots == {g} && g in w.attached
    requires p != [] && g <= p && p in w.dirs && !Ignored(p, ignore)
    ensures LeadsWithin(w, ignore, capacity, [Take([g])] + Taking(2), v)
    ensures v.queue == [] && p in v.dirs && Mine(v, ignore, p) && p !in v.b.watches
  {
    assert Elements([g]) == {g} by { assert [g][0] == g; }
    var w1 := After(w, ignore, Take([g]));
    assert w1.queue == [Resync(g), Entry(p, Deleted, true)];
    var w2 := After(w1, ignore, Take([]));
    assert w2.queue == [Entry(p, Deleted, true)];
    v := After(w2, ignore, Take([]));
    RemovedWatches(w2.b, {p}, p);
    assert p in {p};
    assert LeadsWithin(w, ignore, capacity, [], w);
    JoinedOne(w, ignore, capacity, [], w, Take([g]));
    JoinedOne(w, ignore, capacity, [] + [Take([g])], w1, Take([]));
    JoinedOne(w, ignore, capacity, [] + [Take([g])] + [Take([])], w2, Take([]));
    assert [] + [Take([g])] + [Take([])] + [Take([])] == [Take([g])] + Taking(2);
  }

  // ---- a removed root, and a remade directory ---------------------------------------------------

  /** Removing a root while a creation below it is still queued leaves a watch behind when the event is
      taken; the entry goes stale unnoticed, and when the root comes back the walk skips it. */
  lemma {:induction false} RemovedRootLosesDirectory(w: World, ignore: set<string>, g: Path, p: Path)
    returns (w1: World, w2: World, w3: World, w4: World, w5: World, v: World)
    requires Quiet(w, ignore, g, p)
    ensures Follows(w, ignore, Appear(p, {p}, Created), w1) && Follows(w1, ignore, SetRoots({}), w2)
    ensures Follows(w2, ignore, Take([]), w3) && Follows(w3, ignore, Vanish(p, Deleted), w4)
    ensures Follows(w4, ignore, Appear(p, {p}, Created), w5) && Follows(w5, ignore, SetRoots({g}), v)
    ensures v.queue == [] && p in v.dirs && Mine(v, ignore, p) && !OnWatch(v, p)
  {
    QuietFacts(w, ignore, g, p);
    w1 := After(w, ignore, Appear(p, {p}, Created));
    assert w1.queue == [Entry(p, Created, true)] && w1.dirs == w.dirs[p := w.next];
    ParkedForgets(w1, ignore, g);
    w2 := After(w1, ignore, SetRoots({}));
    w3, w4, w5 := StaleEntry(w2, w.dirs, ignore, g, p, w.next);
    v := After(w5, ignore, SetRoots({g}));
    StaleSkipped(w5, ignore, g, p);
  }

  lemma {:induction false} ParkedForgets(w: World, ignore: set<string>, g: Path)
    requires w.b.roots == {g} && g != []
    requires forall k :: k in w.b.kernel ==> k.0 in w.b.watches && w.b.watches[k.0] == k.1
    requires forall p :: p in w.b.watches ==> g <= p
    ensures After(w, ignore, SetRoots({})) == w.(b := FRESH, attached := {})
  {
    var none: set<Path> := {};
    assert w.b.roots - none == {g} && none - w.b.roots == none;
    forall p ensures p in w.b.watches ==> p in DoomedBy(w.b, {g}) {
      RemovedWatches(w.b, {g}, p);
      assert g in {g};
    }
    AddNone(RemoveTrees(w.b, {g}), w.dirs, ignore);
    var kept := RemoveTrees(w.b, {g});
    assert kept.watches == map[] && kept.kernel == {};
    assert Wanted(w.dirs, ignore, none) == {};
    var v := After(w, ignore, SetRoots(none));
    assert v.b == FRESH;
    assert v.attached == {};
  }

  lemma {:induction false} StaleEntry(w: World, before: Dirs, ignore: set<string>, g: Path, p: Path, n: nat)
    returns (w1: World, w2: World, v: World)
    requires w.b == FRESH && w.queue == [Entry(p, Created, true)] && w.dirs == before[p := n] && n < w.next
    requires p != [] && Parent(p) in before && p !in before && !Ignored(p, ignore)
    requires forall d :: d in before ==> !(p <= d)
    ensures Follows(w, ignore, Take([]), w1) && Follows(w1, ignore, Vanish(p, Deleted), w2)
    ensures Follows(w2, ignore, Appear(p, {p}, Created), v)
    ensures v.dirs == before[p := w.next] && v.queue == [] && v.b.roots == {}
    ensures p in v.b.watches && v.b.watches[p] == n
  {
    assert Watchable(w.dirs, ignore, p) == {p};
    w1 := After(w, ignore, Take([]));
    assert w1.b.watches == map[p := n];
    w2 := After(w1, ignore, Vanish(p, Deleted));
    assert !Seen(w1, p);
    assert w2.dirs == before;
    assert !Seen(w2, p);
    v := After(w2, ignore, Appear(p, {p}, Created));
    assert v.dirs == before[p := w.next];
  }

  lemma {:induction false} StaleSkipped(w: World, ignore: set<string>, g: Path, p: Path)
    requires w.b.roots == {} && w.queue == [] && g in w.dirs && !Ignored(p, ignore) && g <= p
    requires p in w.dirs && p in w.b.watches && w.b.watches[p] != w.dirs[p]
    ensures var v := After(w, ignore, SetRoots({g}));
            v.queue == [] && v.dirs == w.dirs && Mine(v, ignore, p) && !OnWatch(v, p)
  {
    var none: set<Path> := {};
    assert none - {g} == none && {g} - none == {g};
    RemoveNone(w.b);
    assert LiveRoot(w.dirs, ignore, g) by {
      assert forall i :: 0 <= i < |g| ==> g[i] == p[i];
    }
    var v := After(w, ignore, SetRoots({g}));
    assert g in v.attached;
  }

  /** No overflow, no change of roots and no lost event is needed: a directory is made, removed, and moved
      in with a child; the walk for the first creation already watches the new directory and its child, the
      queued deletion forgets them, and the child, remade while its parent is unwatched, goes unreported
      between its queued deletion and the walk before it. */
  lemma {:induction false} RemakeLosesDirectory(w: World, ignore: set<string>, g: Path, p: Path, c: Path)
    returns (w1: World, w2: World, w3: World, w4: World, w5: World, w6: World, w7: World, w8: World, v: World)
    requires Quiet(w, ignore, g, p)
    requires c != [] && Parent(c) == p && !Ignored(c, ignore)
    ensures Follows(w, ignore, Appear(p, {p}, Created), w1) && Follows(w1, ignore, Vanish(p, Deleted), w2)
    ensures Follows(w2, ignore, Appear(p, {p, c}, MovedTo), w3) && Follows(w3, ignore, Take([]), w4)
    ensures Follows(w4, ignore, Vanish(c, Deleted), w5) && Follows(w5, ignore, Take([]), w6)
    ensures Follows(w6, ignore, Appear(c, {c}, Created), w7) && Follows(w7, ignore, Take([]), w8)
    ensures Follows(w8, ignore, Take([]), v)
    ensures v.queue == [] && c in v.dirs && Mine(v, ignore, c) && c !in v.b.watches
  {
    w1, w2, w3 := MovedInAgain(w, ignore, g, p, c);
    w4 := WalkedEarly(w3, ignore, p, c);
    w5, w6, w7 := RemadeUnseen(w4, ignore, g, p, c);
    w8, v := WalkedThenForgotten(w7, ignore, g, p, c);
  }

  lemma {:induction false} MovedInAgain(w: World, ignore: set<string>, g: Path, p: Path, c: Path)
    returns (w1: World, w2: World, v: World)
    requires Quiet(w, ignore, g, p) && c != [] && Parent(c) == p
    ensures Follows(w, ignore, Appear(p, {p}, Created), w1) && Follows(w1, ignore, Vanish(p, Deleted), w2)
    ensures Follows(w2, ignore, Appear(p, {p, c}, MovedTo), v)
    ensures v.queue == [Entry(p, Created, true), Entry(p, Deleted, true), Entry(p, MovedTo, true)]
    ensures v.attached == {g} && g <= p && p in v.dirs && c in v.dirs && v.b == w.b
    ensures forall d :: d in v.dirs && p <= d ==> d == p || d == c
  {
    QuietFacts(w, ignore, g, p);
    assert p <= c;
    w1 := After(w, ignore, Appear(p, {p}, Created));
    assert w1.dirs.Keys == w.dirs.Keys + {p};
    w2 := After(w1, ignore, Vanish(p, Deleted));
    assert w2.dirs == w.dirs && w2.b == w.b by {
      assert OnWatch(w, g);
      assert (p, w1.dirs[p]) !in w.b.kernel;
    }
    assert NewSubtree(w2, p, {p, c}) && Seen(w2, p);
    v := After(w2, ignore, Appear(p, {p, c}, MovedTo));
  }

  lemma {:induction false} WalkedEarly(w: World, ignore: set<string>, p: Path, c: Path) returns (v: World)
    requires w.queue == [Entry(p, Created, true), Entry(p, Deleted, true), Entry(p, MovedTo, true)]
    requires p in w.dirs && p !in w.b.watches && !Ignored(p, ignore)
    ensures Follows(w, ignore, Take([]), v)
    ensures v == w.(b := v.b, queue := [Entry(p, Deleted, true), Entry(p, MovedTo, true)])
    ensures p in v.b.watches && v.b.watches[p] == w.dirs[p] && (p, w.dirs[p]) in v.b.kernel
  {
    v := After(w, ignore, Take([]));
    assert p in Watchable(w.dirs, ignore, p);
  }

  lemma {:induction false} RemadeUnseen(w: World, ignore: set<string>, g: Path, p: Path, c: Path)
    returns (w1: World, w2: World, v: World)
    requires w.queue == [Entry(p, Deleted, true), Entry(p, MovedTo, true)] && w.attached == {g} && g <= p
    requires p != [] && c != [] && Parent(c) == p && !Ignored(c, ignore) && p in w.dirs && c in w.dirs
    requires forall d :: d in w.dirs && p <= d ==> d == p || d == c
    requires p in w.b.watches && w.b.watches[p] == w.dirs[p] && (p, w.dirs[p]) in w.b.kernel
    ensures Follows(w, ignore, Vanish(c, Deleted), w1) && Follows(w1, ignore, Take([]), w2)
    ensures Follows(w2, ignore, Appear(c, {c}, Created), v)
    ensures v.queue == [Entry(p, MovedTo, true), Entry(c, Deleted, true)] && v.attached == {g} && c in v.dirs
  {
    assert p <= c && !Ignored(p, ignore) && !(c <= p) && !(c <= g);
    assert forall d :: d in w.dirs && c <= d ==> d == c;
    w1 := After(w, ignore, Vanish(c, Deleted));
    assert w1.queue == [Entry(p, Deleted, true), Entry(p, MovedTo, true), Entry(c, Deleted, true)];
    assert p in w1.dirs && w1.dirs[p] == w.dirs[p];
    w2 := After(w1, ignore, Take([]));
    RemovedWatches(w1.b, {p}, p);
    assert p in {p};
    assert !Seen(w2, c);
    v := After(w2, ignore, Appear(c, {c}, Created));
  }

  lemma {:induction false} WalkedThenForgotten(w: World, ignore: set<string>, g: Path, p: Path, c: Path) returns (w1: World, v: World)
    requires w.queue == [Entry(p, MovedTo, true), Entry(c, Deleted, true)] && g in w.attached && g <= p
    requires c != [] && Parent(c) == p && !Ignored(c, ignore) && c in w.dirs
    ensures Follows(w, ignore, Take([]), w1) && Follows(w1, ignore, Take([]), v)
    ensures v.queue == [] && c in v.dirs && Mine(v, ignore, c) && c !in v.b.watches
  {
    w1 := After(w, ignore, Take([]));
    assert w1.queue == [Entry(c, Deleted, true)];
    v := After(w1, ignore, Take([]));
    RemovedWatches(w1.b, {c}, c);
    assert c in {c};
    assert g <= c;
  }
}
