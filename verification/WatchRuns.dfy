/** The watcher against a changing directory tree: every run of file-system changes, queued kernel
    events, event handling and root changes. */
module WatchRuns {
  import opened Paths
  import opened Types
  import opened DirTree
  import opened Watcher
  import opened RootChanges

  /** The tree, the number of the next directory creation, the backend, the kernel's event queue, and
      the roots that were live when they were added and have existed ever since. */
  datatype World = World(dirs: Dirs, next: nat, b: Backend, queue: seq<KernelEvent>, attached: set<Path>)

  datatype Step =
    /** A directory is made at `p`, or moved in with everything below it (`all`). */
    | Appear(p: Path, all: set<Path>, kind: FsEventType)
    /** The same, but the kernel queue is full and the event is lost. */
    | AppearUnseen(p: Path, all: set<Path>)
    /** An empty directory is removed, or a directory is moved out with everything below it. */
    | Vanish(p: Path, kind: FsEventType)
    | VanishUnseen(p: Path, kind: FsEventType)
    | FileEvent(p: Path, kind: FsEventType)
    | FileEventUnseen
    /** The backend takes the next event; `order` is the order in which a resync visits the roots. */
    | Take(order: seq<Path>)
    | SetRoots(roots: set<Path>)

  /** The kernel tells about changes inside the directories it watches. */
  predicate Seen(w: World, p: Path)
    requires p != []
  {
    var q := Parent(p);
    q in w.dirs && (q, w.dirs[q]) in w.b.kernel
  }

  /** A full queue loses the event and is marked, once. */
  function Marked(queue: seq<KernelEvent>): seq<KernelEvent> {
    if Overflow in queue then queue else queue + [Overflow]
  }

  function Resyncs(order: seq<Path>): (r: seq<KernelEvent>)
    ensures |r| == |order| && forall i :: 0 <= i < |r| ==> r[i] == Resync(order[i])
  {
    seq(|order|, i requires 0 <= i < |order| => Resync(order[i]))
  }

  function Grown(w: World, all: set<Path>, queue: seq<KernelEvent>): World {
    w.(dirs := w.dirs + (map d | d in all :: w.next), next := w.next + 1, queue := queue)
  }

  /** The kernel drops the watch of a deleted directory, not those of directories moved away. */
  function Shrunk(w: World, p: Path, kind: FsEventType, queue: seq<KernelEvent>): World
    requires p in w.dirs
  {
    World(map d | d in w.dirs && !(p <= d) :: w.dirs[d], w.next,
          w.b.(kernel := if kind == Deleted then w.b.kernel - {(p, w.dirs[p])} else w.b.kernel),
          queue,
          set g | g in w.attached && !(p <= g))
  }

  function After(w: World, ignore: set<string>, s: Step): World
    requires Possible(w, s)
  {
    match s
    case Appear(p, all, kind) =>
      Grown(w, all, if Seen(w, p) then w.queue + [Entry(p, kind, true)] else w.queue)
    case AppearUnseen(p, all) => Grown(w, all, Marked(w.queue))
    case Vanish(p, kind) => Shrunk(w, p, kind, if Seen(w, p) then w.queue + [Entry(p, kind, true)] else w.queue)
    case VanishUnseen(p, kind) => Shrunk(w, p, kind, Marked(w.queue))
    case FileEvent(p, kind) => w.(queue := w.queue + [Entry(p, kind, false)])
    case FileEventUnseen => w.(queue := Marked(w.queue))
    case Take(order) =>
      var e, rest := w.queue[0], w.queue[1..];
      if e.Overflow? then w.(queue := Resyncs(order) + rest)
      else w.(b := Handled(w.b, w.dirs, ignore, e), queue := rest)
    case SetRoots(roots) =>
      w.(b := SetRootsTo(w.b, w.dirs, ignore, roots),
         attached := (w.attached * roots) + set r | r in roots - w.b.roots && LiveRoot(w.dirs, ignore, r))
  }

  /** What a file system, a kernel and the engine can do. */
  predicate Possible(w: World, s: Step) {
    match s
    case Appear(p, all, kind) => kind in {Created, MovedTo} && NewSubtree(w, p, all)
    case AppearUnseen(p, all) => NewSubtree(w, p, all) && Seen(w, p)
    case Vanish(p, kind) => CanVanish(w, p, kind)
    case VanishUnseen(p, kind) => CanVanish(w, p, kind) && Seen(w, p)
    case FileEvent(_, _) => true
    case FileEventUnseen => true
    case Take(order) => w.queue != [] && (w.queue[0].Overflow? ==> Elements(order) == w.b.roots)
    case SetRoots(roots) => true
  }

  predicate CanVanish(w: World, p: Path, kind: FsEventType) {
    p != [] && p in w.dirs && kind in {Deleted, MovedFrom}
    && (kind == Deleted ==> forall d :: d in w.dirs && p <= d ==> d == p)
  }

  predicate NewSubtree(w: World, p: Path, all: set<Path>) {
    p != [] && Parent(p) in w.dirs && p !in w.dirs && p in all
    && forall d :: d in all ==> p <= d && (d == p || (d != [] && Parent(d) in all))
  }

  // ---- what is pending about a directory --------------------------------------------------

  /** Handling `e` watches `d` if it is not in the bookkeeping. */
  predicate Walks(e: KernelEvent, d: Path) {
    e.Overflow? || (e.Resync? && e.root <= d) || (Appears(e) && e.path <= d)
  }

  /** Handling `e` forgets the watch of `d`. */
  predicate Unwatches(e: KernelEvent, d: Path) {
    Vanishes(e) && e.path <= d
  }

  ghost predicate WalkPending(q: seq<KernelEvent>, d: Path) {
    exists i :: 0 <= i < |q| && Walks(q[i], d)
  }

  ghost predicate UnwatchPending(q: seq<KernelEvent>, d: Path) {
    exists i :: 0 <= i < |q| && Unwatches(q[i], d)
  }

  ghost predicate UnwatchAfter(q: seq<KernelEvent>, i: nat, d: Path) {
    exists j :: i < j < |q| && Unwatches(q[j], d)
  }

  /** No queued deletion of `d` or of a directory above it is behind a queued walk over `d`. */
  ghost predicate Orderly(q: seq<KernelEvent>, d: Path) {
    forall i, j :: 0 <= i < j < |q| && Walks(q[i], d) ==> !Unwatches(q[j], d)
  }

  /** The event concerns a directory at or below `g`. */
  predicate Concerns(e: KernelEvent, g: Path) {
    (e.Entry? && e.isDir && g <= e.path) || (e.Resync? && g <= e.root)
  }

  /** A condition on the queue and the roots alone under which nothing is lost: no directory appears at a
      path while a queued deletion of it is behind a queued walk over it; no directory deletion is lost;
      and roots are prefix-free, are not the root directory, and are removed only when nothing about them
      is queued. */
  ghost predicate Assumed(w: World, s: Step) {
    match s
    case Appear(_, all, _) => forall d :: d in all ==> Orderly(w.queue, d)
    case AppearUnseen(_, all) => forall d :: d in all ==> Orderly(w.queue, d)
    case VanishUnseen(_, _) => false
    case SetRoots(roots) =>
      PrefixFree(roots) && [] !in roots
      && forall g, e :: g in w.b.roots - roots && e in w.queue ==> !Concerns(e, g)
    case _ => true
  }

  // ---- the invariant ----------------------------------------------------------------------

  predicate OnWatch(w: World, d: Path) {
    Watched(w.b, w.dirs, d)
  }

  ghost predicate Mine(w: World, ignore: set<string>, d: Path) {
    !Ignored(d, ignore) && exists g :: g in w.attached && g <= d
  }

  /** A directory of an attached root is either watched, with no deletion of it pending, or a walk
      over it is pending, behind every pending deletion. */
  ghost predicate DirOk(w: World, ignore: set<string>, d: Path) {
    d in w.dirs && Mine(w, ignore, d) ==>
      Orderly(w.queue, d)
      && (if OnWatch(w, d) then !UnwatchPending(w.queue, d) && (d in w.attached || (d != [] && OnWatch(w, Parent(d))))
          else WalkPending(w.queue, d) && (d in w.b.watches ==> UnwatchPending(w.queue, d)))
  }

  /** Bookkeeping about a directory that is gone will be cleaned up. */
  ghost predicate EntryOk(w: World, ignore: set<string>, p: Path) {
    p in w.b.watches && Mine(w, ignore, p) && p !in w.dirs ==> UnwatchPending(w.queue, p)
  }

  /** A queued creation is of a directory that is there, in a watched parent, or is followed by its
      deletion. */
  ghost predicate EventOk(w: World, ignore: set<string>, i: nat) {
    i < |w.queue| && Appears(w.queue[i]) && Mine(w, ignore, w.queue[i].path) ==>
      var x := w.queue[i].path;
      UnwatchAfter(w.queue, i, x) || (x in w.dirs && x != [] && OnWatch(w, Parent(x)))
  }

  ghost predicate UnderRoot(w: World, p: Path) {
    exists r :: r in w.b.roots && r <= p
  }

  ghost predicate BelowRoot(w: World, p: Path) {
    p != [] && UnderRoot(w, Parent(p))
  }

  ghost predicate QueueInside(w: World) {
    forall i :: 0 <= i < |w.queue| ==>
      (w.queue[i].Entry? && w.queue[i].isDir ==> BelowRoot(w, w.queue[i].path))
      && (w.queue[i].Resync? ==> w.queue[i].root in w.b.roots)
  }

  ghost predicate Base(w: World, ignore: set<string>) {
    ParentClosed(w.dirs) && PrefixFree(w.b.roots) && [] !in w.b.roots && w.attached <= w.b.roots
    && (forall d :: d in w.dirs ==> w.dirs[d] < w.next)
    && (forall p :: p in w.b.watches ==> w.b.watches[p] < w.next && !Ignored(p, ignore) && UnderRoot(w, p))
    && (forall k :: k in w.b.kernel ==> k.0 in w.b.watches && w.b.watches[k.0] == k.1)
    && (forall g :: g in w.attached ==> !Ignored(g, ignore) && OnWatch(w, g))
    && QueueInside(w)
  }

  ghost predicate Inv(w: World, ignore: set<string>) {
    Base(w, ignore)
    && (forall d {:trigger DirOk(w, ignore, d)} :: DirOk(w, ignore, d))
    && (forall p {:trigger EntryOk(w, ignore, p)} :: EntryOk(w, ignore, p))
    && (forall i: nat {:trigger EventOk(w, ignore, i)} :: EventOk(w, ignore, i))
  }

  // ---- queues -----------------------------------------------------------------------------

  lemma {:induction false} Appended(q: seq<KernelEvent>, e: KernelEvent, d: Path)
    ensures UnwatchPending(q + [e], d) <==> UnwatchPending(q, d) || Unwatches(e, d)
    ensures WalkPending(q + [e], d) <==> WalkPending(q, d) || Walks(e, d)
    ensures Orderly(q + [e], d) <==> Orderly(q, d) && !(WalkPending(q, d) && Unwatches(e, d))
  {
    var r := q + [e];
    assert r[|q|] == e;
    assert forall i :: 0 <= i < |q| ==> r[i] == q[i];
    if i :| 0 <= i < |q| && Unwatches(q[i], d) { assert Unwatches(r[i], d); }
    if i :| 0 <= i < |q| && Walks(q[i], d) { assert Walks(r[i], d); }
  }

  lemma {:induction false} Taken(q: seq<KernelEvent>, d: Path)
    requires q != []
    ensures UnwatchPending(q, d) <==> UnwatchPending(q[1..], d) || Unwatches(q[0], d)
    ensures WalkPending(q, d) <==> WalkPending(q[1..], d) || Walks(q[0], d)
    ensures Orderly(q, d) <==> Orderly(q[1..], d) && !(Walks(q[0], d) && UnwatchPending(q[1..], d))
  {
    var r := q[1..];
    assert forall i :: 0 <= i < |r| ==> r[i] == q[i + 1];
    forall i | 1 <= i < |q| ensures q[i] == r[i - 1] {}
    if i :| 0 <= i < |r| && Unwatches(r[i], d) { assert Unwatches(q[i + 1], d); }
    if i :| 0 <= i < |q| && Unwatches(q[i], d) { assert i > 0 ==> Unwatches(r[i - 1], d); }
    if i :| 0 <= i < |q| && Walks(q[i], d) { assert i > 0 ==> Walks(r[i - 1], d); }
    if Orderly(r, d) && !(Walks(q[0], d) && UnwatchPending(r, d)) {
      forall i, j | 0 <= i < j < |q| && Walks(q[i], d) ensures !Unwatches(q[j], d) {
        assert q[j] == r[j - 1];
        assert i > 0 ==> Walks(r[i - 1], d);
      }
    }
  }

  lemma {:induction false} AfterTaken(q: seq<KernelEvent>, i: nat, d: Path)
    requires q != []
    ensures UnwatchAfter(q, i + 1, d) <==> UnwatchAfter(q[1..], i, d)
  {
    var r := q[1..];
    if j :| i + 1 < j < |q| && Unwatches(q[j], d) { assert Unwatches(r[j - 1], d); }
    if j :| i < j < |r| && Unwatches(r[j], d) { assert Unwatches(q[j + 1], d); }
  }

  lemma {:induction false} AfterAppended(q: seq<KernelEvent>, e: KernelEvent, i: nat, d: Path)
    ensures i < |q| ==> (UnwatchAfter(q + [e], i, d) <==> UnwatchAfter(q, i, d) || Unwatches(e, d))
  {
    var r := q + [e];
    if i < |q| {
      if j :| i < j < |q| && Unwatches(q[j], d) { assert Unwatches(r[j], d); }
      assert r[|q|] == e;
    }
  }

  // ---- directories appear -----------------------------------------------------------------

  /** The queue after a directory appeared: unchanged, or one more event that is not a deletion. */
  ghost predicate Extended(q: seq<KernelEvent>, r: seq<KernelEvent>) {
    r == q || (|r| == |q| + 1 && r == q + [r[|q|]] && !Vanishes(r[|q|]))
  }

  lemma {:induction false} ExtendedPending(q: seq<KernelEvent>, r: seq<KernelEvent>, d: Path)
    requires Extended(q, r)
    ensures UnwatchPending(r, d) <==> UnwatchPending(q, d)
    ensures WalkPending(q, d) ==> WalkPending(r, d)
    ensures Orderly(r, d) <==> Orderly(q, d)
  {
    if r != q {
      Appended(q, r[|q|], d);
    }
  }

  lemma {:induction false} NothingBelow(dirs: Dirs, p: Path, x: Path)
    requires ParentClosed(dirs) && p !in dirs && p <= x
    ensures x !in dirs
  {
    assert x[..|p|] == p;
    if x in dirs {
      PrefixInTree(dirs, x, |p|);
    }
  }

  lemma {:induction false} NewIsBelow(w: World, ignore: set<string>, p: Path, all: set<Path>, d: Path)
    requires Base(w, ignore) && NewSubtree(w, p, all) && d in all && Mine(w, ignore, d)
    ensures d !in w.dirs && p <= d && Mine(w, ignore, Parent(p))
  {
    NothingBelow(w.dirs, p, d);
    var g :| g in w.attached && g <= d;
    assert OnWatch(w, g);
    if p <= g {
      NothingBelow(w.dirs, p, g);
    }
    assert g <= Parent(p);
    assert forall i :: 0 <= i < |Parent(p)| ==> Parent(p)[i] == d[i];
  }

  /** One directory of the new subtree, however the kernel reports it. */
  lemma {:induction false} NewDirOk(w: World, ignore: set<string>, p: Path, all: set<Path>, r: seq<KernelEvent>, d: Path)
    requires Inv(w, ignore) && NewSubtree(w, p, all) && Extended(w.queue, r) && Orderly(w.queue, d)
    requires d in all
    requires (exists i :: 0 <= i < |r| && (r[i].Overflow? || (Appears(r[i]) && r[i].path == p))) || !Seen(w, p)
    ensures DirOk(Grown(w, all, r), ignore, d)
  {
    var v := Grown(w, all, r);
    if Mine(w, ignore, d) {
      NewIsBelow(w, ignore, p, all, d);
      ExtendedPending(w.queue, r, d);
      ExtendedPending(w.queue, r, Parent(p));
      assert EntryOk(w, ignore, d);
      assert !OnWatch(v, d);
      assert WalkPending(r, d) by {
        if Seen(w, p) {
          var i :| 0 <= i < |r| && (r[i].Overflow? || (Appears(r[i]) && r[i].path == p));
          assert Walks(r[i], d);
        } else {
          assert DirOk(w, ignore, Parent(p));
          assert WalkPending(r, Parent(p));
          var i :| 0 <= i < |r| && Walks(r[i], Parent(p));
          assert Walks(r[i], d);
        }
      }
    }
  }

  lemma {:induction false} OldDirOk(w: World, ignore: set<string>, all: set<Path>, r: seq<KernelEvent>, d: Path)
    requires Inv(w, ignore) && Extended(w.queue, r) && d !in all
    requires forall x :: x in all ==> x !in w.dirs
    ensures DirOk(Grown(w, all, r), ignore, d)
  {
    var v := Grown(w, all, r);
    assert DirOk(w, ignore, d);
    if d in v.dirs && Mine(v, ignore, d) {
      assert Mine(w, ignore, d);
      ExtendedPending(w.queue, r, d);
      assert OnWatch(v, d) <==> OnWatch(w, d);
      assert d != [] && OnWatch(w, Parent(d)) ==> OnWatch(v, Parent(d));
    }
  }

  lemma {:induction false} GrownInv(w: World, ignore: set<string>, p: Path, all: set<Path>, r: seq<KernelEvent>)
    requires Inv(w, ignore) && NewSubtree(w, p, all) && Extended(w.queue, r)
    requires forall d :: d in all ==> Orderly(w.queue, d)
    requires (exists i :: 0 <= i < |r| && (r[i].Overflow? || (Appears(r[i]) && r[i].path == p))) || !Seen(w, p)
    requires |r| > |w.queue| ==> r[|w.queue|].Overflow? || (r[|w.queue|].Entry? && r[|w.queue|].path == p && Seen(w, p))
    ensures Inv(Grown(w, all, r), ignore)
  {
    var v := Grown(w, all, r);
    forall x | x in all ensures x !in w.dirs { NothingBelow(w.dirs, p, x); }
    GrownBase(w, ignore, p, all, r);
    forall d ensures DirOk(v, ignore, d) {
      if d in all {
        NewDirOk(w, ignore, p, all, r, d);
      } else {
        OldDirOk(w, ignore, all, r, d);
      }
    }
    forall d ensures EntryOk(v, ignore, d) {
      assert EntryOk(w, ignore, d);
      ExtendedPending(w.queue, r, d);
    }
    forall i: nat ensures EventOk(v, ignore, i) {
      assert EventOk(w, ignore, i);
      if i < |r| && Appears(r[i]) && Mine(v, ignore, r[i].path) {
        if i < |w.queue| {
          assert r[i] == w.queue[i];
          if r != w.queue { AfterAppended(w.queue, r[|w.queue|], i, r[i].path); }
          assert OnWatch(w, Parent(r[i].path)) ==> OnWatch(v, Parent(r[i].path));
        }
      }
    }
  }

  lemma {:induction false} GrownBase(w: World, ignore: set<string>, p: Path, all: set<Path>, r: seq<KernelEvent>)
    requires Base(w, ignore) && NewSubtree(w, p, all) && Extended(w.queue, r)
    requires forall x :: x in all ==> x !in w.dirs
    requires |r| > |w.queue| ==> r[|w.queue|].Overflow? || (r[|w.queue|].Entry? && r[|w.queue|].path == p && Seen(w, p))
    ensures Base(Grown(w, all, r), ignore)
  {
    var v := Grown(w, all, r);
    forall d | d in v.dirs && d != [] ensures Parent(d) in v.dirs {}
    forall x ensures UnderRoot(w, x) <==> UnderRoot(v, x) {}
    forall i | 0 <= i < |r| ensures
      (r[i].Entry? && r[i].isDir ==> BelowRoot(v, r[i].path)) && (r[i].Resync? ==> r[i].root in v.b.roots)
    {
      if i < |w.queue| {
        assert r[i] == w.queue[i];
      }
    }
  }

  // ---- directories vanish -----------------------------------------------------------------

  /** Below an attached root, what is above a watched directory is watched. */
  lemma {:induction false} WatchedAbove(w: World, ignore: set<string>, g: Path, p: Path, q: Path)
    requires Inv(w, ignore) && g in w.attached && g <= q && q <= p && !Ignored(p, ignore) && OnWatch(w, p)
    ensures OnWatch(w, q)
    decreases |p|
  {
    assert p in w.attached ==> p in w.b.roots && g in w.b.roots && g == p;
    if q != p {
      assert Mine(w, ignore, p);
      assert DirOk(w, ignore, p);
      assert forall i :: 0 <= i < |Parent(p)| ==> Parent(p)[i] == p[i];
      WatchedAbove(w, ignore, g, Parent(p), q);
    }
  }

  lemma {:induction false} VanishSeen(w: World, ignore: set<string>, a: Path, g: Path, p: Path)
    requires Inv(w, ignore) && a != [] && g in w.attached && g <= p && a <= p && !(a <= g)
    requires !Ignored(p, ignore) && OnWatch(w, p)
    ensures Seen(w, a)
  {
    assert g <= Parent(a) && Parent(a) <= p;
    WatchedAbove(w, ignore, g, p, Parent(a));
  }

  lemma {:induction false} VanishInv(w: World, ignore: set<string>, a: Path, kind: FsEventType)
    requires Inv(w, ignore) && Possible(w, Vanish(a, kind))
    ensures Inv(After(w, ignore, Vanish(a, kind)), ignore)
  {
    var v := After(w, ignore, Vanish(a, kind));
    var e := Entry(a, kind, true);
    VanishBase(w, ignore, a, kind);
    forall d ensures DirOk(v, ignore, d) { VanishDirOk(w, ignore, a, kind, d); }
    forall p ensures EntryOk(v, ignore, p) {
      assert EntryOk(w, ignore, p) && DirOk(w, ignore, p);
      Appended(w.queue, e, p);
      if p in v.b.watches && Mine(v, ignore, p) && p !in v.dirs && p in w.dirs && OnWatch(w, p) {
        var g :| g in v.attached && g <= p;
        VanishSeen(w, ignore, a, g, p);
      }
    }
    forall i: nat ensures EventOk(v, ignore, i) { VanishEventOk(w, ignore, a, kind, i); }
  }

  lemma {:induction false} VanishDirOk(w: World, ignore: set<string>, a: Path, kind: FsEventType, d: Path)
    requires Inv(w, ignore) && Possible(w, Vanish(a, kind))
    ensures DirOk(After(w, ignore, Vanish(a, kind)), ignore, d)
  {
    var v := After(w, ignore, Vanish(a, kind));
    assert DirOk(w, ignore, d);
    Appended(w.queue, Entry(a, kind, true), d);
    if d in v.dirs && Mine(v, ignore, d) {
      assert OnWatch(v, d) <==> OnWatch(w, d);
      assert d != [] && OnWatch(w, Parent(d)) ==> OnWatch(v, Parent(d));
    }
  }

  lemma {:induction false} VanishEventOk(w: World, ignore: set<string>, a: Path, kind: FsEventType, i: nat)
    requires Inv(w, ignore) && Possible(w, Vanish(a, kind))
    ensures EventOk(After(w, ignore, Vanish(a, kind)), ignore, i)
  {
    var v := After(w, ignore, Vanish(a, kind));
    var e := Entry(a, kind, true);
    if i < |w.queue| && Appears(w.queue[i]) && Mine(v, ignore, w.queue[i].path) {
      var x := w.queue[i].path;
      assert EventOk(w, ignore, i);
      AfterAppended(w.queue, e, i, x);
      if !UnwatchAfter(w.queue, i, x) {
        if a <= x {
          var g :| g in v.attached && g <= x;
          InsideParent(w, ignore, i, g);
          if a == x {
            assert Seen(w, a);
          } else {
            assert a <= Parent(x);
            assert forall k :: 0 <= k < |Parent(x)| ==> Parent(x)[k] == x[k];
            VanishSeen(w, ignore, a, g, Parent(x));
          }
        } else {
          assert OnWatch(v, Parent(x));
        }
      }
    }
  }

  /** A queued directory event below an attached root is strictly below it. */
  lemma {:induction false} InsideParent(w: World, ignore: set<string>, i: nat, g: Path)
    requires Base(w, ignore) && i < |w.queue| && w.queue[i].Entry? && w.queue[i].isDir
    requires g in w.attached && g <= w.queue[i].path
    ensures w.queue[i].path != [] && g <= Parent(w.queue[i].path)
  {
    var x := w.queue[i].path;
    assert BelowRoot(w, x);
    var r :| r in w.b.roots && r <= Parent(x);
    assert g <= r || r <= g;
  }

  lemma {:induction false} VanishBase(w: World, ignore: set<string>, a: Path, kind: FsEventType)
    requires Inv(w, ignore) && Possible(w, Vanish(a, kind))
    ensures Base(After(w, ignore, Vanish(a, kind)), ignore)
  {
    var v := After(w, ignore, Vanish(a, kind));
    forall x ensures UnderRoot(w, x) <==> UnderRoot(v, x) {}
    forall d | d in v.dirs && d != [] ensures Parent(d) in v.dirs {
      assert a <= Parent(d) ==> a <= d;
    }
    forall g | g in v.attached ensures OnWatch(v, g) {
      assert OnWatch(w, g);
    }
    forall i | 0 <= i < |v.queue| ensures
      (v.queue[i].Entry? && v.queue[i].isDir ==> BelowRoot(v, v.queue[i].path))
      && (v.queue[i].Resync? ==> v.queue[i].root in v.b.roots)
    {
      if i < |w.queue| {
        assert v.queue[i] == w.queue[i];
        assert w.queue[i].Entry? && w.queue[i].isDir ==> BelowRoot(w, w.queue[i].path);
      }
    }
  }

  // ---- the backend takes an event ---------------------------------------------------------

  lemma {:induction false} IgnoredAbove(ignore: set<string>, p: Path, d: Path)
    requires Ignored(p, ignore)
    ensures p <= d ==> Ignored(d, ignore)
  {
    var i :| 0 <= i < |p| && p[i] in ignore;
    assert p <= d ==> d[i] == p[i];
  }

  /** Taking an event that neither walks over nor forgets anything of ours. */
  lemma {:induction false} SkipInv(w: World, ignore: set<string>)
    requires Inv(w, ignore) && w.queue != [] && w.queue[0].Entry?
    requires Ignored(w.queue[0].path, ignore) || !w.queue[0].isDir
    ensures Inv(w.(queue := w.queue[1..]), ignore)
  {
    var v := w.(queue := w.queue[1..]);
    var e := w.queue[0];
    TailBase(w, ignore);
    forall d | Mine(w, ignore, d) ensures !Walks(e, d) && !Unwatches(e, d) {
      if e.isDir {
        IgnoredAbove(ignore, e.path, d);
      }
    }
    forall d ensures DirOk(v, ignore, d) && EntryOk(v, ignore, d) {
      assert DirOk(w, ignore, d) && EntryOk(w, ignore, d);
      Taken(w.queue, d);
      assert OnWatch(v, d) <==> OnWatch(w, d);
      assert Mine(v, ignore, d) <==> Mine(w, ignore, d);
    }
    forall i: nat ensures EventOk(v, ignore, i) {
      assert EventOk(w, ignore, i + 1);
      if i < |v.queue| {
        assert v.queue[i] == w.queue[i + 1];
        AfterTaken(w.queue, i, if Appears(v.queue[i]) then v.queue[i].path else []);
      }
    }
  }

  lemma {:induction false} TailBase(w: World, ignore: set<string>)
    requires Base(w, ignore) && w.queue != []
    ensures Base(w.(queue := w.queue[1..]), ignore)
  {
    var v := w.(queue := w.queue[1..]);
    forall x ensures UnderRoot(w, x) <==> UnderRoot(v, x) {}
    forall i | 0 <= i < |v.queue| ensures
      (v.queue[i].Entry? && v.queue[i].isDir ==> BelowRoot(v, v.queue[i].path))
      && (v.queue[i].Resync? ==> v.queue[i].root in v.b.roots)
    {
      assert v.queue[i] == w.queue[i + 1];
    }
  }

  /** The effect of taking the deletion of `a`. */
  ghost predicate Forgot(w: World, v: World, a: Path) {
    w.queue != [] && Vanishes(w.queue[0]) && w.queue[0].path == a
    && v == w.(b := v.b, queue := w.queue[1..]) && v.b.roots == w.b.roots
    && (forall p :: p in v.b.watches <==> p in w.b.watches && !(a <= p))
    && (forall p :: p in v.b.watches ==> v.b.watches[p] == w.b.watches[p])
    && (forall k :: k in v.b.kernel <==> k in w.b.kernel && !(a <= k.0))
  }

  lemma {:induction false} TakeVanishForgets(w: World, ignore: set<string>)
    requires Base(w, ignore) && w.queue != [] && Vanishes(w.queue[0]) && !Ignored(w.queue[0].path, ignore)
    ensures Forgot(w, After(w, ignore, Take([])), w.queue[0].path)
  {
    var a := w.queue[0].path;
    assert BelowRoot(w, a);
    assert a in {a};
    forall p | p in w.b.watches ensures p in DoomedBy(w.b, {a}) <==> a <= p {}
  }

  lemma {:induction false} TakeVanishInv(w: World, v: World, ignore: set<string>, a: Path)
    requires Inv(w, ignore) && Forgot(w, v, a)
    ensures Inv(v, ignore)
  {
    TakeVanishBase(w, v, ignore, a);
    forall d ensures DirOk(v, ignore, d) { TakeVanishDirOk(w, v, ignore, a, d); }
    forall p ensures EntryOk(v, ignore, p) {
      assert EntryOk(w, ignore, p);
      Taken(w.queue, p);
      assert Mine(v, ignore, p) <==> Mine(w, ignore, p);
    }
    forall i: nat ensures EventOk(v, ignore, i) { TakeVanishEventOk(w, v, ignore, a, i); }
  }

  lemma {:induction false} TakeVanishDirOk(w: World, v: World, ignore: set<string>, a: Path, d: Path)
    requires Inv(w, ignore) && Forgot(w, v, a)
    ensures DirOk(v, ignore, d)
  {
    assert DirOk(w, ignore, d);
    Taken(w.queue, d);
    if d in v.dirs && Mine(v, ignore, d) {
      assert Mine(w, ignore, d);
      assert d != [] && a <= Parent(d) ==> a <= d;
    }
  }

  lemma {:induction false} TakeVanishEventOk(w: World, v: World, ignore: set<string>, a: Path, i: nat)
    requires Inv(w, ignore) && Forgot(w, v, a)
    ensures EventOk(v, ignore, i)
  {
    if i < |v.queue| && Appears(v.queue[i]) && Mine(v, ignore, v.queue[i].path) {
      assert EventOk(w, ignore, i + 1);
      assert v.queue[i] == w.queue[i + 1];
      var x := v.queue[i].path;
      assert Mine(w, ignore, x);
      AfterTaken(w.queue, i, x);
      if !UnwatchAfter(w.queue, i + 1, x) {
        ParentMine(w, ignore, i + 1);
        assert DirOk(w, ignore, Parent(x));
        Taken(w.queue, Parent(x));
      }
    }
  }

  lemma {:induction false} ParentMine(w: World, ignore: set<string>, i: nat)
    requires Base(w, ignore) && i < |w.queue| && Appears(w.queue[i]) && Mine(w, ignore, w.queue[i].path)
    ensures w.queue[i].path != [] && Mine(w, ignore, Parent(w.queue[i].path))
  {
    var x := w.queue[i].path;
    var g :| g in w.attached && g <= x;
    InsideParent(w, ignore, i, g);
    assert forall k :: 0 <= k < |Parent(x)| ==> Parent(x)[k] == x[k];
  }

  lemma {:induction false} TakeVanishBase(w: World, v: World, ignore: set<string>, a: Path)
    requires Inv(w, ignore) && Forgot(w, v, a)
    ensures Base(v, ignore)
  {
    TailBase(w, ignore);
    forall x ensures UnderRoot(w, x) <==> UnderRoot(v, x) {}
    QueueTail(w, v, ignore);
    assert BelowRoot(w, a);
    forall g | g in v.attached ensures OnWatch(v, g) {
      var r :| r in w.b.roots && r <= Parent(a);
      assert a <= g ==> r <= g;
      assert OnWatch(w, g);
    }
  }

  lemma {:induction false} QueueTail(w: World, v: World, ignore: set<string>)
    requires QueueInside(w) && w.queue != [] && v.queue == w.queue[1..] && v.b.roots == w.b.roots
    ensures QueueInside(v)
  {
    forall i | 0 <= i < |v.queue| ensures
      (v.queue[i].Entry? && v.queue[i].isDir ==> BelowRoot(v, v.queue[i].path))
      && (v.queue[i].Resync? ==> v.queue[i].root in v.b.roots)
    {
      assert v.queue[i] == w.queue[i + 1];
      assert v.queue[i].Entry? && v.queue[i].isDir ==> BelowRoot(w, v.queue[i].path);
    }
  }

  /** The effect of taking an event that walks the tree from `x`. */
  ghost predicate WalkedFrom(w: World, v: World, ignore: set<string>, x: Path) {
    w.queue != []
    && (w.queue[0] == Resync(x) || (Appears(w.queue[0]) && w.queue[0].path == x && !Ignored(x, ignore)))
    && v == w.(b := v.b, queue := w.queue[1..]) && v.b.roots == w.b.roots
    && (forall p :: p in v.b.watches <==> p in w.b.watches || p in Watchable(w.dirs, ignore, x))
    && (forall p :: p in v.b.watches ==> v.b.watches[p] == if p in w.b.watches then w.b.watches[p] else w.dirs[p])
    && (forall k :: k in v.b.kernel
              <==> k in w.b.kernel || (k.0 in Watchable(w.dirs, ignore, x) && k.0 !in w.b.watches && k.1 == w.dirs[k.0]))
  }

  lemma {:induction false} TakeWalkWalks(w: World, ignore: set<string>, x: Path)
    requires w.queue != []
    requires w.queue[0] == Resync(x) || (Appears(w.queue[0]) && w.queue[0].path == x && !Ignored(x, ignore))
    ensures WalkedFrom(w, After(w, ignore, Take([])), ignore, x)
  {
  }

  lemma {:induction false} TakeWalkInv(w: World, v: World, ignore: set<string>, x: Path)
    requires Inv(w, ignore) && WalkedFrom(w, v, ignore, x)
    ensures Inv(v, ignore)
  {
    TakeWalkBase(w, v, ignore, x);
    forall d ensures DirOk(v, ignore, d) {
      if d in v.dirs && Mine(v, ignore, d) {
        TakeWalkDirOk(w, v, ignore, x, d);
      }
    }
    forall p ensures EntryOk(v, ignore, p) {
      assert EntryOk(w, ignore, p);
      Taken(w.queue, p);
      assert Mine(v, ignore, p) <==> Mine(w, ignore, p);
    }
    forall i: nat ensures EventOk(v, ignore, i) {
      if i < |v.queue| && Appears(v.queue[i]) && Mine(v, ignore, v.queue[i].path) {
        assert EventOk(w, ignore, i + 1);
        assert v.queue[i] == w.queue[i + 1];
        AfterTaken(w.queue, i, v.queue[i].path);
        assert Mine(w, ignore, v.queue[i].path);
      }
    }
  }

  /** The walk leaves every directory of ours at or below `x` watched. */
  lemma {:induction false} WalkWatches(w: World, v: World, ignore: set<string>, x: Path, d: Path)
    requires Inv(w, ignore) && WalkedFrom(w, v, ignore, x)
    requires d in w.dirs && Mine(w, ignore, d) && x <= d
    ensures OnWatch(v, d) && !UnwatchPending(w.queue, d)
  {
    assert DirOk(w, ignore, d);
    Taken(w.queue, d);
    assert Walks(w.queue[0], d) && !Unwatches(w.queue[0], d);
  }

  lemma {:induction false} TakeWalkDirOk(w: World, v: World, ignore: set<string>, x: Path, d: Path)
    requires Inv(w, ignore) && WalkedFrom(w, v, ignore, x)
    requires d in w.dirs && Mine(w, ignore, d)
    ensures DirOk(v, ignore, d)
  {
    assert DirOk(w, ignore, d);
    Taken(w.queue, d);
    if x <= d {
      WalkWatches(w, v, ignore, x, d);
      if d !in v.attached {
        TakeWalkParent(w, v, ignore, x, d);
      }
    } else {
      assert OnWatch(v, d) <==> OnWatch(w, d);
      assert d != [] && OnWatch(w, Parent(d)) ==> OnWatch(v, Parent(d));
    }
  }

  lemma {:induction false} TakeWalkParent(w: World, v: World, ignore: set<string>, x: Path, d: Path)
    requires Inv(w, ignore) && WalkedFrom(w, v, ignore, x)
    requires d in w.dirs && Mine(w, ignore, d) && x <= d && d !in w.attached
    ensures d != [] && OnWatch(v, Parent(d))
  {
    var g :| g in w.attached && g <= d;
    assert g != d && (|g| == |d| ==> g == d);
    assert g <= Parent(d);
    assert forall k :: 0 <= k < |Parent(d)| ==> Parent(d)[k] == d[k];
    assert Mine(w, ignore, Parent(d));
    if x != d {
      assert x <= Parent(d);
      WalkWatches(w, v, ignore, x, Parent(d));
    } else {
      assert w.queue[0].Resync? ==> x in w.b.roots && x == g;
      assert EventOk(w, ignore, 0);
      WalkWatches(w, v, ignore, x, d);
      assert UnwatchAfter(w.queue, 0, x) ==> UnwatchPending(w.queue, x);
    }
  }

  lemma {:induction false} TakeWalkBase(w: World, v: World, ignore: set<string>, x: Path)
    requires Inv(w, ignore) && WalkedFrom(w, v, ignore, x)
    ensures Base(v, ignore)
  {
    QueueTail(w, v, ignore);
    forall p ensures UnderRoot(w, p) <==> UnderRoot(v, p) {}
    assert UnderRoot(w, x) by {
      if w.queue[0].Resync? {
        assert x in w.b.roots;
      } else {
        assert BelowRoot(w, x);
        var r :| r in w.b.roots && r <= Parent(x);
        assert r <= x;
      }
    }
    var r :| r in w.b.roots && r <= x;
    forall p | p in Watchable(w.dirs, ignore, x) ensures UnderRoot(v, p) { assert r <= p; }
    forall g | g in v.attached ensures OnWatch(v, g) { assert OnWatch(w, g); }
  }

  // ---- a resync begins --------------------------------------------------------------------

  lemma {:induction false} ExpandedPending(front: seq<KernelEvent>, q: seq<KernelEvent>, d: Path)
    requires q != [] && q[0].Overflow?
    requires forall i :: 0 <= i < |front| ==> front[i].Resync?
    ensures UnwatchPending(front + q[1..], d) <==> UnwatchPending(q, d)
    ensures Orderly(q, d) ==> Orderly(front + q[1..], d) && !UnwatchPending(q, d)
  {
    var r := front + q[1..];
    var n := |front|;
    assert forall i :: 1 <= i < |q| ==> r[n + i - 1] == q[i];
    assert forall i :: n <= i < |r| ==> r[i] == q[i - n + 1];
    if i :| 0 <= i < |q| && Unwatches(q[i], d) { assert Unwatches(r[n + i - 1], d); }
    if i :| 0 <= i < |r| && Unwatches(r[i], d) { assert i >= n && Unwatches(q[i - n + 1], d); }
    if Orderly(q, d) {
      assert Walks(q[0], d);
      forall j | 0 <= j < |q| ensures !Unwatches(q[j], d) {}
    }
  }

  lemma {:induction false} ExpandedAfter(front: seq<KernelEvent>, q: seq<KernelEvent>, i: nat, d: Path)
    requires q != []
    ensures UnwatchAfter(front + q[1..], |front| + i, d) <==> UnwatchAfter(q, 1 + i, d)
  {
    var r := front + q[1..];
    var n := |front|;
    if j :| n + i < j < |r| && Unwatches(r[j], d) { assert Unwatches(q[j - n + 1], d); }
    if j :| 1 + i < j < |q| && Unwatches(q[j], d) { assert Unwatches(r[n + j - 1], d); }
  }

  lemma {:induction false} TakeOverflowInv(w: World, ignore: set<string>, order: seq<Path>)
    requires Inv(w, ignore) && w.queue != [] && w.queue[0].Overflow? && Elements(order) == w.b.roots
    ensures Inv(w.(queue := Resyncs(order) + w.queue[1..]), ignore)
  {
    var v := w.(queue := Resyncs(order) + w.queue[1..]);
    TakeOverflowBase(w, ignore, order);
    forall d ensures DirOk(v, ignore, d) && EntryOk(v, ignore, d) { TakeOverflowDirOk(w, ignore, order, d); }
    forall i: nat ensures EventOk(v, ignore, i) { TakeOverflowEventOk(w, ignore, order, i); }
  }

  lemma {:induction false} TakeOverflowBase(w: World, ignore: set<string>, order: seq<Path>)
    requires Base(w, ignore) && w.queue != [] && Elements(order) == w.b.roots
    ensures Base(w.(queue := Resyncs(order) + w.queue[1..]), ignore)
  {
    var front := Resyncs(order);
    var v := w.(queue := front + w.queue[1..]);
    forall x ensures UnderRoot(w, x) <==> UnderRoot(v, x) {}
    forall i | 0 <= i < |v.queue| ensures
      (v.queue[i].Entry? && v.queue[i].isDir ==> BelowRoot(v, v.queue[i].path))
      && (v.queue[i].Resync? ==> v.queue[i].root in v.b.roots)
    {
      if i < |front| {
        assert order[i] in Elements(order);
      } else {
        assert v.queue[i] == w.queue[i - |front| + 1];
        assert v.queue[i].Entry? && v.queue[i].isDir ==> BelowRoot(w, v.queue[i].path);
      }
    }
    forall g | g in v.attached ensures OnWatch(v, g) { assert OnWatch(w, g); }
  }

  lemma {:induction false} TakeOverflowDirOk(w: World, ignore: set<string>, order: seq<Path>, d: Path)
    requires Inv(w, ignore) && w.queue != [] && w.queue[0].Overflow? && Elements(order) == w.b.roots
    ensures var v := w.(queue := Resyncs(order) + w.queue[1..]); DirOk(v, ignore, d) && EntryOk(v, ignore, d)
  {
    var v := w.(queue := Resyncs(order) + w.queue[1..]);
    assert DirOk(w, ignore, d) && EntryOk(w, ignore, d);
    ExpandedPending(Resyncs(order), w.queue, d);
    if Mine(v, ignore, d) {
      assert Mine(w, ignore, d);
      var g :| g in w.attached && g <= d;
      assert g in Elements(order);
      var k :| 0 <= k < |order| && order[k] == g;
      assert Walks(v.queue[k], d);
      assert OnWatch(v, d) <==> OnWatch(w, d);
      assert d != [] && OnWatch(w, Parent(d)) ==> OnWatch(v, Parent(d));
    }
  }

  lemma {:induction false} TakeOverflowEventOk(w: World, ignore: set<string>, order: seq<Path>, i: nat)
    requires Inv(w, ignore) && w.queue != [] && w.queue[0].Overflow? && Elements(order) == w.b.roots
    ensures EventOk(w.(queue := Resyncs(order) + w.queue[1..]), ignore, i)
  {
    var v := w.(queue := Resyncs(order) + w.queue[1..]);
    if i < |v.queue| && Appears(v.queue[i]) && Mine(v, ignore, v.queue[i].path) {
      assert i >= |order|;
      var j := i - |order|;
      var x := v.queue[i].path;
      assert v.queue[i] == w.queue[1 + j];
      assert EventOk(w, ignore, 1 + j);
      assert Mine(w, ignore, x);
      ExpandedAfter(Resyncs(order), w.queue, j, x);
    }
  }

  // ---- the roots change -------------------------------------------------------------------

  /** The watches that the removal of `gone` leaves. */
  ghost predicate Retained(w: World, gone: set<Path>, p: Path) {
    p in w.b.watches && !Covered(p, gone)
  }

  /** The effect of changing the roots, directory by directory. */
  ghost predicate Rerooted(w: World, v: World, ignore: set<string>, roots: set<Path>) {
    var gone, added := w.b.roots - roots, Wanted(w.dirs, ignore, roots - w.b.roots);
    v == w.(b := v.b, attached := v.attached) && v.b.roots == roots
    && (forall g :: g in v.attached <==> g in roots && (g in w.attached || (g !in w.b.roots && LiveRoot(w.dirs, ignore, g))))
    && (forall p :: p in v.b.watches <==> Retained(w, gone, p) || p in added)
    && (forall p :: p in v.b.watches ==>
          if Retained(w, gone, p) then v.b.watches[p] == w.b.watches[p] else p in w.dirs && v.b.watches[p] == w.dirs[p])
    && (forall k :: k in v.b.kernel <==>
          if Retained(w, gone, k.0) then k in w.b.kernel else k.0 in added && k.0 in w.dirs && k.1 == w.dirs[k.0])
  }

  lemma {:induction false} SetRootsReroots(w: World, ignore: set<string>, roots: set<Path>)
    requires Base(w, ignore)
    ensures Rerooted(w, After(w, ignore, SetRoots(roots)), ignore, roots)
  {
    var gone := w.b.roots - roots;
    var kept := RemoveTrees(w.b, gone);
    forall p ensures p in kept.watches <==> Retained(w, gone, p) { RemovedWatches(w.b, gone, p); }
    forall k ensures k in kept.kernel <==> k in w.b.kernel && Retained(w, gone, k.0) { RemovedWatches(w.b, gone, k.0); }
    AddedWatches(w, kept, ignore, roots, gone, Wanted(w.dirs, ignore, roots - w.b.roots));
  }

  lemma {:induction false} RemovedWatches(b: Backend, gone: set<Path>, p: Path)
    requires [] !in gone
    ensures p in DoomedBy(b, gone) <==> p in b.watches && Covered(p, gone)
  {
    if p in b.watches && Covered(p, gone) {
      var g :| g in gone && g <= p;
      assert Doomed(g, p);
    }
  }

  lemma {:induction false} AddedWatches(w: World, kept: Backend, ignore: set<string>, roots: set<Path>, gone: set<Path>, s: set<Path>)
    requires gone == w.b.roots - roots && s == Wanted(w.dirs, ignore, roots - w.b.roots)
    requires kept == RemoveTrees(w.b, gone)
    requires forall p :: p in kept.watches <==> Retained(w, gone, p)
    requires forall k :: k in kept.kernel <==> k in w.b.kernel && Retained(w, gone, k.0)
    ensures Rerooted(w, After(w, ignore, SetRoots(roots)), ignore, roots)
  {
    forall p | p in s ensures p in w.dirs {}
  }

  /** Below a retained attached root nothing changes. */
  lemma {:induction false} RetainedSame(w: World, v: World, ignore: set<string>, roots: set<Path>, g: Path, d: Path)
    requires Base(w, ignore) && Assumed(w, SetRoots(roots)) && Rerooted(w, v, ignore, roots)
    requires g in w.b.roots && g in roots && g <= d
    ensures d in v.b.watches <==> d in w.b.watches
    ensures OnWatch(v, d) <==> OnWatch(w, d)
  {
    forall h | h in w.b.roots - roots ensures !(h <= d) {
      assert h <= d ==> h <= g || g <= h;
    }
    WantedIsCovered(w.dirs, ignore, roots - w.b.roots, d);
    forall h | h in roots - w.b.roots ensures !(h <= d) {
      assert h <= d ==> h <= g || g <= h;
    }
  }

  /** Below an added live root everything is watched afresh, and nothing is pending. */
  lemma {:induction false} AddedFresh(w: World, v: World, ignore: set<string>, roots: set<Path>, g: Path, d: Path)
    requires Base(w, ignore) && Assumed(w, SetRoots(roots)) && Rerooted(w, v, ignore, roots)
    requires g in roots && g !in w.b.roots && LiveRoot(w.dirs, ignore, g) && g <= d
    ensures d in w.b.watches ==> Covered(d, w.b.roots - roots)
    ensures d in w.dirs && !Ignored(d, ignore) ==> OnWatch(v, d)
    ensures d !in w.dirs ==> d !in v.b.watches
  {
    if d in w.b.watches {
      assert UnderRoot(w, d);
      var o :| o in w.b.roots && o <= d;
      assert o <= g || g <= o;
      assert o in w.b.roots - roots;
    }
    WantedIsCovered(w.dirs, ignore, roots - w.b.roots, d);
    assert g in roots - w.b.roots;
  }

  lemma {:induction false} AddedQuiet(w: World, ignore: set<string>, roots: set<Path>, g: Path, i: nat, d: Path)
    requires Base(w, ignore) && Assumed(w, SetRoots(roots))
    requires g in roots && g !in w.b.roots && i < |w.queue| && w.queue[i].Entry? && w.queue[i].isDir
    requires g <= d
    ensures !(w.queue[i].path <= d) && !(g <= w.queue[i].path)
  {
    var e := w.queue[i];
    assert e in w.queue;
    assert BelowRoot(w, e.path);
    var o :| o in w.b.roots && o <= Parent(e.path);
    assert o <= e.path && Concerns(e, o);
    assert o in roots;
    assert e.path <= d ==> o <= g || g <= o;
    assert g <= e.path ==> o <= g || g <= o;
  }

  lemma {:induction false} SetRootsInv(w: World, v: World, ignore: set<string>, roots: set<Path>)
    requires Inv(w, ignore) && Assumed(w, SetRoots(roots)) && Rerooted(w, v, ignore, roots)
    ensures Inv(v, ignore)
  {
    SetRootsBase(w, v, ignore, roots);
    forall d ensures DirOk(v, ignore, d) {
      if d in v.dirs && Mine(v, ignore, d) {
        var g :| g in v.attached && g <= d;
        if g in w.attached {
          RetainedDirOk(w, v, ignore, roots, g, d);
        } else {
          AddedDirOk(w, v, ignore, roots, g, d);
        }
      }
    }
    forall p ensures EntryOk(v, ignore, p) {
      if p in v.b.watches && Mine(v, ignore, p) && p !in v.dirs {
        var g :| g in v.attached && g <= p;
        if g in w.attached {
          RetainedSame(w, v, ignore, roots, g, p);
          assert Mine(w, ignore, p) && EntryOk(w, ignore, p);
        } else {
          AddedFresh(w, v, ignore, roots, g, p);
        }
      }
    }
    forall i: nat ensures EventOk(v, ignore, i) {
      if i < |v.queue| && Appears(v.queue[i]) && Mine(v, ignore, v.queue[i].path) {
        var x := v.queue[i].path;
        var g :| g in v.attached && g <= x;
        if g !in w.b.roots {
          AddedQuiet(w, ignore, roots, g, i, x);
        }
        assert Mine(w, ignore, x) && EntryOk(w, ignore, x) && EventOk(w, ignore, i);
        InsideParent(w, ignore, i, g);
        RetainedSame(w, v, ignore, roots, g, Parent(x));
      }
    }
  }

  lemma {:induction false} RetainedDirOk(w: World, v: World, ignore: set<string>, roots: set<Path>, g: Path, d: Path)
    requires Inv(w, ignore) && Assumed(w, SetRoots(roots)) && Rerooted(w, v, ignore, roots)
    requires g in w.attached && g in roots && g <= d && d in w.dirs && !Ignored(d, ignore)
    ensures DirOk(v, ignore, d)
  {
    assert Mine(w, ignore, d) && DirOk(w, ignore, d);
    RetainedSame(w, v, ignore, roots, g, d);
    assert d in w.attached ==> d == g && g in v.attached;
    if d != g {
      assert g <= Parent(d);
      RetainedSame(w, v, ignore, roots, g, Parent(d));
    }
  }

  lemma {:induction false} AddedDirOk(w: World, v: World, ignore: set<string>, roots: set<Path>, g: Path, d: Path)
    requires Inv(w, ignore) && Assumed(w, SetRoots(roots)) && Rerooted(w, v, ignore, roots)
    requires g in v.attached && g !in w.attached && g <= d && d in w.dirs && !Ignored(d, ignore)
    ensures DirOk(v, ignore, d)
  {
    AddedFresh(w, v, ignore, roots, g, d);
    forall i | 0 <= i < |w.queue| ensures !Unwatches(w.queue[i], d) {
      if Vanishes(w.queue[i]) {
        AddedQuiet(w, ignore, roots, g, i, d);
      }
    }
    if d != g {
      assert g <= Parent(d);
      assert forall k :: 0 <= k < |Parent(d)| ==> Parent(d)[k] == d[k];
      AddedFresh(w, v, ignore, roots, g, Parent(d));
    }
  }

  lemma {:induction false} SetRootsBase(w: World, v: World, ignore: set<string>, roots: set<Path>)
    requires Inv(w, ignore) && Assumed(w, SetRoots(roots)) && Rerooted(w, v, ignore, roots)
    ensures Base(v, ignore)
  {
    forall p | p in v.b.watches ensures v.b.watches[p] < v.next && !Ignored(p, ignore) && UnderRoot(v, p) {
      RerootedWatch(w, v, ignore, roots, p);
    }
    forall g | g in v.attached ensures !Ignored(g, ignore) && OnWatch(v, g) {
      if g in w.attached {
        RetainedSame(w, v, ignore, roots, g, g);
        assert OnWatch(w, g);
      } else {
        AddedFresh(w, v, ignore, roots, g, g);
      }
    }
    RerootedQueue(w, v, ignore, roots);
  }

  lemma {:induction false} RerootedWatch(w: World, v: World, ignore: set<string>, roots: set<Path>, p: Path)
    requires Base(w, ignore) && Rerooted(w, v, ignore, roots) && p in v.b.watches
    ensures v.b.watches[p] < v.next && !Ignored(p, ignore) && UnderRoot(v, p)
  {
    var gone := w.b.roots - roots;
    if Retained(w, gone, p) {
      assert UnderRoot(w, p);
      var o :| o in w.b.roots && o <= p;
      assert o in gone ==> Covered(p, gone);
      assert o in roots;
    } else {
      WantedIsCovered(w.dirs, ignore, roots - w.b.roots, p);
      var h :| h in roots - w.b.roots && LiveRoot(w.dirs, ignore, h) && h <= p;
      assert h in roots;
    }
  }

  lemma {:induction false} RerootedQueue(w: World, v: World, ignore: set<string>, roots: set<Path>)
    requires Base(w, ignore) && Assumed(w, SetRoots(roots)) && Rerooted(w, v, ignore, roots)
    ensures QueueInside(v)
  {
    forall i | 0 <= i < |v.queue| ensures
      (v.queue[i].Entry? && v.queue[i].isDir ==> BelowRoot(v, v.queue[i].path))
      && (v.queue[i].Resync? ==> v.queue[i].root in v.b.roots)
    {
      var e := w.queue[i];
      assert e in w.queue;
      if e.Entry? && e.isDir {
        assert BelowRoot(w, e.path);
        var o :| o in w.b.roots && o <= Parent(e.path);
        assert Concerns(e, o);
        assert o in roots;
      }
      if e.Resync? {
        assert Concerns(e, e.root);
      }
    }
  }
}
