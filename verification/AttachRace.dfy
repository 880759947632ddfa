/** The attach race: exactly which runs leave every directory below the roots watched once the queue is
    drained. */
module AttachRace {
  import opened Paths
  import opened Types
  import opened DirTree
  import opened Watcher
  import opened RootChanges
  import opened WatchRuns
  import opened Draining

  // ---- clean states -----------------------------------------------------------------------

  /** Draining the queue leaves every directory of an attached root watched, if it is not ignored. */
  ghost predicate DrainsClean(w: World, ignore: set<string>) {
    forall d :: d in w.dirs && Mine(w, ignore, d) ==> Watched(Drained(w.b, w.dirs, ignore, w.queue), w.dirs, d)
  }

  ghost predicate DestinedAt(w: World, ignore: set<string>, d: Path) {
    d in w.dirs && Mine(w, ignore, d) ==> Destined(w.b, w.dirs, w.queue, d)
  }

  ghost predicate AllDestined(w: World, ignore: set<string>) {
    forall d {:trigger DestinedAt(w, ignore, d)} :: DestinedAt(w, ignore, d)
  }

  /** What every world of every run satisfies. */
  ghost predicate Shape(w: World) {
    && ParentClosed(w.dirs) && w.attached <= w.b.roots && KernelInBook(w.b)
    && (forall d :: d in w.dirs ==> w.dirs[d] < w.next)
    && (forall p :: p in w.b.watches ==> w.b.watches[p] < w.next)
    && (forall e :: e in w.queue && Vanishes(e) ==> e.path != [])
  }

  lemma {:induction false} CleanIsDestined(w: World, ignore: set<string>)
    requires Shape(w)
    ensures DrainsClean(w, ignore) <==> AllDestined(w, ignore)
  {
    forall d | d in w.dirs && Mine(w, ignore, d)
      ensures Watched(Drained(w.b, w.dirs, ignore, w.queue), w.dirs, d) <==> Destined(w.b, w.dirs, w.queue, d)
    {
      var g :| g in w.attached && g <= d;
      assert g in w.b.roots;
      DrainExact(w.b, w.dirs, ignore, w.queue, d);
    }
    if DrainsClean(w, ignore) {
      forall d ensures DestinedAt(w, ignore, d) {}
    }
    if AllDestined(w, ignore) {
      forall d | d in w.dirs && Mine(w, ignore, d) ensures Watched(Drained(w.b, w.dirs, ignore, w.queue), w.dirs, d) {
        assert DestinedAt(w, ignore, d);
      }
    }
  }

  // ---- the guards -------------------------------------------------------------------------

  /** A creation that is reported, or lost under a fresh overflow mark, is walked behind everything
      queued: a leftover entry does no harm if a queued deletion will drop it first. */
  ghost predicate WalkedLater(w: World, d: Path) {
    d in w.b.watches ==> UnwatchPending(w.queue, d)
  }

  /** Otherwise the events that are queued already must do: a walk behind the last deletion, or a walk
      that finds no leftover entry. */
  ghost predicate WalkedAnyway(w: World, d: Path) {
    if UnwatchPending(w.queue, d) then WalkLast(w.queue, d) else d !in w.b.watches && WalkPending(w.queue, d)
  }

  ghost predicate Dropped(w: World, roots: set<Path>, d: Path) {
    exists g :: g in w.b.roots - roots && Doomed(g, d)
  }

  /** Changing the roots: a directory below an added root must not have a leftover entry that stops the
      walk, nor a queued deletion with no walk behind it; one that a retained root keeps but a removed root
      drops must be below an added root too, or have a walk queued. */
  ghost predicate Resettled(w: World, ignore: set<string>, roots: set<Path>, d: Path) {
    if CoveredBy(w.dirs, ignore, roots - w.b.roots, d) then
      if UnwatchPending(w.queue, d) then WalkLast(w.queue, d)
      else d in w.b.watches && !Dropped(w, roots, d) ==> Watched(w.b, w.dirs, d)
    else (exists g :: g in w.attached * roots && g <= d) && Dropped(w, roots, d) ==>
      UnwatchPending(w.queue, d) || WalkPending(w.queue, d)
  }

  /** What a step must meet so that it loses no directory, read off the bookkeeping, the queue and the
      roots before it. */
  ghost predicate Guard(w: World, ignore: set<string>, s: Step) {
    match s
    case Appear(p, all, _) =>
      p != [] ==> forall d :: d in all && Mine(w, ignore, d) ==> if Seen(w, p) then WalkedLater(w, d) else WalkedAnyway(w, d)
    case AppearUnseen(_, all) =>
      forall d :: d in all && Mine(w, ignore, d) ==> if Overflow in w.queue then WalkedAnyway(w, d) else WalkedLater(w, d)
    case SetRoots(roots) =>
      forall d :: d in w.dirs && !Ignored(d, ignore) ==> Resettled(w, ignore, roots, d)
    case _ => true
  }

  // ---- one step ---------------------------------------------------------------------------

  lemma {:induction false} StepShape(w: World, ignore: set<string>, s: Step)
    requires Shape(w) && Possible(w, s)
    ensures Shape(After(w, ignore, s))
  {
    match s
    case Take(order) => TakeShape(w, ignore, order);
    case SetRoots(roots) => SetRootsShape(w, ignore, roots);
    case _ =>
  }

  lemma {:induction false} AddShape(b: Backend, dirs: Dirs, s: set<Path>, next: nat)
    requires KernelInBook(b) && (forall d :: d in dirs ==> dirs[d] < next)
    requires forall p :: p in b.watches ==> b.watches[p] < next
    ensures var c := AddAll(b, dirs, s);
            KernelInBook(c) && forall p :: p in c.watches ==> c.watches[p] < next
  {
  }

  lemma {:induction false} RemoveShape(b: Backend, gone: set<Path>, next: nat)
    requires KernelInBook(b) && forall p :: p in b.watches ==> b.watches[p] < next
    ensures var c := RemoveTrees(b, gone);
            KernelInBook(c) && forall p :: p in c.watches ==> c.watches[p] < next
  {
  }

  lemma {:induction false} TakeShape(w: World, ignore: set<string>, order: seq<Path>)
    requires Shape(w) && Possible(w, Take(order))
    ensures Shape(After(w, ignore, Take(order)))
  {
    var e := w.queue[0];
    if !e.Overflow? {
      match e
      case Resync(root) => AddShape(w.b, w.dirs, Watchable(w.dirs, ignore, root), w.next);
      case Entry(path, _, _) =>
        AddShape(w.b, w.dirs, Watchable(w.dirs, ignore, path), w.next);
        RemoveShape(w.b, {path}, w.next);
    }
  }

  lemma {:induction false} SetRootsShape(w: World, ignore: set<string>, roots: set<Path>)
    requires Shape(w)
    ensures Shape(After(w, ignore, SetRoots(roots)))
  {
    RemoveShape(w.b, w.b.roots - roots, w.next);
    AddShape(RemoveTrees(w.b, w.b.roots - roots), w.dirs, Wanted(w.dirs, ignore, roots - w.b.roots), w.next);
  }

  /** What the queue does for `d` once something that is no deletion has joined it. */
  lemma {:induction false} JoinedQueue(q: seq<KernelEvent>, e: KernelEvent, d: Path)
    requires !Vanishes(e)
    ensures UnwatchPending(q + [e], d) <==> UnwatchPending(q, d)
    ensures WalkLast(q + [e], d) <==> WalkLast(q, d) || Walks(e, d)
    ensures WalkPending(q + [e], d) <==> WalkPending(q, d) || Walks(e, d)
  {
    var r := q + [e];
    Appended(q, e, d);
    forall i: nat | i < |q| ensures UnwatchAfter(r, i, d) <==> UnwatchAfter(q, i, d) { AfterAppended(q, e, i, d); }
    if Walks(e, d) {
      assert r[|q|] == e && !UnwatchAfter(r, |q|, d);
    }
    if i :| 0 <= i < |q| && Walks(q[i], d) && !UnwatchAfter(q, i, d) {
      assert r[i] == q[i];
    }
    if i :| 0 <= i < |q| && Walks(q[i], d) {
      assert r[i] == q[i];
    }
  }

  /** The queue `r` after an appearance, and what it does for a new directory. */
  ghost predicate WalkedBy(w: World, r: seq<KernelEvent>, d: Path) {
    if UnwatchPending(r, d) then WalkLast(r, d) else d !in w.b.watches && WalkPending(r, d)
  }

  lemma {:induction false} GrownAt(w: World, ignore: set<string>, p: Path, all: set<Path>, r: seq<KernelEvent>, d: Path)
    requires Shape(w) && DestinedAt(w, ignore, d) && NewSubtree(w, p, all) && Extended(w.queue, r)
    ensures DestinedAt(Grown(w, all, r), ignore, d) <==> (d in all && Mine(w, ignore, d) ==> WalkedBy(w, r, d))
  {
    var v := Grown(w, all, r);
    assert Mine(v, ignore, d) <==> Mine(w, ignore, d);
    if d in all {
      NothingBelow(w.dirs, p, d);
      assert v.dirs[d] == w.next;
      assert !Watched(v.b, v.dirs, d);
    } else if r != w.queue {
      JoinedQueue(w.queue, r[|w.queue|], d);
    }
  }

  lemma {:induction false} GrownExact(w: World, ignore: set<string>, p: Path, all: set<Path>, r: seq<KernelEvent>)
    requires Shape(w) && AllDestined(w, ignore) && NewSubtree(w, p, all) && Extended(w.queue, r)
    ensures AllDestined(Grown(w, all, r), ignore) <==> forall d :: d in all && Mine(w, ignore, d) ==> WalkedBy(w, r, d)
  {
    forall d ensures DestinedAt(Grown(w, all, r), ignore, d) <==> (d in all && Mine(w, ignore, d) ==> WalkedBy(w, r, d)) {
      assert DestinedAt(w, ignore, d);
      GrownAt(w, ignore, p, all, r, d);
    }
  }

  lemma {:induction false} WalkedByAppended(w: World, e: KernelEvent, d: Path)
    requires !Vanishes(e) && Walks(e, d)
    ensures WalkedBy(w, w.queue + [e], d) <==> WalkedLater(w, d)
  {
    JoinedQueue(w.queue, e, d);
  }

  lemma {:induction false} AppearExact(w: World, ignore: set<string>, s: Step)
    requires Shape(w) && AllDestined(w, ignore) && Possible(w, s) && (s.Appear? || s.AppearUnseen?)
    ensures AllDestined(After(w, ignore, s), ignore) <==> Guard(w, ignore, s)
  {
    var r := After(w, ignore, s).queue;
    GrownExact(w, ignore, s.p, s.all, r);
    forall d | d in s.all
      ensures s.Appear? ==> (WalkedBy(w, r, d) <==> if Seen(w, s.p) then WalkedLater(w, d) else WalkedAnyway(w, d))
      ensures s.AppearUnseen? ==> (WalkedBy(w, r, d) <==> if Overflow in w.queue then WalkedAnyway(w, d) else WalkedLater(w, d))
    {
      if r != w.queue {
        WalkedByAppended(w, r[|w.queue|], d);
      }
    }
  }

  /** A directory that goes away loses no other, whether or not its event is lost. */
  lemma {:induction false} VanishKeeps(w: World, ignore: set<string>, p: Path, kind: FsEventType, r: seq<KernelEvent>, d: Path)
    requires Shape(w) && CanVanish(w, p, kind) && DestinedAt(w, ignore, d)
    requires r == w.queue || r == w.queue + [Entry(p, kind, true)] || r == Marked(w.queue)
    ensures DestinedAt(Shrunk(w, p, kind, r), ignore, d)
  {
    var v := Shrunk(w, p, kind, r);
    if d in v.dirs && Mine(v, ignore, d) {
      assert Mine(w, ignore, d);
      if r != w.queue {
        Appended(w.queue, r[|w.queue|], d);
        UnrelatedJoins(w.queue, r[|w.queue|], d);
      }
    }
  }

  /** An event that does not forget `d` joins the queue. */
  lemma {:induction false} UnrelatedJoins(q: seq<KernelEvent>, e: KernelEvent, d: Path)
    requires !Unwatches(e, d)
    ensures UnwatchPending(q + [e], d) <==> UnwatchPending(q, d)
    ensures WalkLast(q, d) ==> WalkLast(q + [e], d)
    ensures WalkPending(q, d) ==> WalkPending(q + [e], d)
  {
    var r := q + [e];
    Appended(q, e, d);
    forall i: nat | i < |q| ensures UnwatchAfter(r, i, d) <==> UnwatchAfter(q, i, d) { AfterAppended(q, e, i, d); }
    if i :| 0 <= i < |q| && Walks(q[i], d) && !UnwatchAfter(q, i, d) {
      assert r[i] == q[i];
    }
  }

  lemma {:induction false} QuietKeeps(w: World, ignore: set<string>, r: seq<KernelEvent>, d: Path)
    requires DestinedAt(w, ignore, d)
    requires Extended(w.queue, r)
    ensures DestinedAt(w.(queue := r), ignore, d)
  {
    var v := w.(queue := r);
    assert Mine(v, ignore, d) <==> Mine(w, ignore, d);
    if r != w.queue {
      UnrelatedJoins(w.queue, r[|w.queue|], d);
    }
  }

  lemma {:induction false} TakeOneExact(w: World, ignore: set<string>, d: Path)
    requires Shape(w) && w.queue != [] && !w.queue[0].Overflow?
    ensures DestinedAt(After(w, ignore, Take([])), ignore, d) <==> DestinedAt(w, ignore, d)
  {
    var v := After(w, ignore, Take([]));
    var e, rest := w.queue[0], w.queue[1..];
    assert w.queue == [e] + rest;
    assert Mine(v, ignore, d) <==> Mine(w, ignore, d);
    if d in w.dirs && Mine(w, ignore, d) {
      var g :| g in w.attached && g <= d;
      assert g in w.b.roots;
      HandledAt(w.b, w.dirs, ignore, e, d);
      DestinedStep(w.b, v.b, w.dirs, e, rest, d);
    }
  }

  lemma {:induction false} ResyncWalks(order: seq<Path>, q: seq<KernelEvent>, d: Path, k: nat)
    requires q != [] && q[0].Overflow? && k < |order| && order[k] <= d
    ensures UnwatchPending(Resyncs(order) + q[1..], d) <==> UnwatchPending(q, d)
    ensures WalkLast(Resyncs(order) + q[1..], d) <==> WalkLast(q, d)
    ensures WalkPending(Resyncs(order) + q[1..], d) && WalkPending(q, d)
  {
    var front := Resyncs(order);
    var r, n := front + q[1..], |front|;
    ExpandedPending(front, q, d);
    assert r[k] == Resync(order[k]) && Walks(r[k], d) && Walks(q[0], d);
    assert forall i :: 1 <= i < |q| ==> r[n + i - 1] == q[i];
    forall m: nat | m >= n ensures UnwatchAfter(r, m, d) <==> UnwatchAfter(q, m - n + 1, d) { ExpandedAfter(front, q, m - n, d); }
    forall i: nat | i < n ensures UnwatchAfter(r, i, d) <==> UnwatchPending(q, d) {
      if j :| 0 <= j < |q| && Unwatches(q[j], d) { assert Unwatches(r[n + j - 1], d); }
      if j :| i < j < |r| && Unwatches(r[j], d) { assert UnwatchPending(r, d); }
    }
    if UnwatchPending(q, d) {
      if i :| 0 <= i < |q| && Walks(q[i], d) && !UnwatchAfter(q, i, d) {
        assert i > 0 by { if j :| 0 <= j < |q| && Unwatches(q[j], d) { assert j > 0; } }
        assert Walks(r[n + i - 1], d) && !UnwatchAfter(r, n + i - 1, d);
      }
      if i :| 0 <= i < |r| && Walks(r[i], d) && !UnwatchAfter(r, i, d) {
        assert i >= n && r[i] == q[i - n + 1] && !UnwatchAfter(q, i - n + 1, d);
      }
    } else {
      assert !UnwatchAfter(q, 0, d) && !UnwatchAfter(r, k, d);
    }
  }

  lemma {:induction false} TakeOverflowExact(w: World, ignore: set<string>, order: seq<Path>, d: Path)
    requires Shape(w) && w.queue != [] && w.queue[0].Overflow? && Elements(order) == w.b.roots
    ensures DestinedAt(w.(queue := Resyncs(order) + w.queue[1..]), ignore, d) <==> DestinedAt(w, ignore, d)
  {
    var v := w.(queue := Resyncs(order) + w.queue[1..]);
    assert Mine(v, ignore, d) <==> Mine(w, ignore, d);
    if d in w.dirs && Mine(w, ignore, d) {
      var g :| g in w.attached && g <= d;
      assert g in Elements(order);
      var k :| 0 <= k < |order| && order[k] == g;
      ResyncWalks(order, w.queue, d, k);
    }
  }

  // ---- a change of roots ------------------------------------------------------------------

  lemma {:induction false} RerootedAt(w: World, ignore: set<string>, roots: set<Path>, d: Path)
    requires Shape(w) && d in w.dirs && !Ignored(d, ignore)
    ensures var b := SetRootsTo(w.b, w.dirs, ignore, roots);
            var kept := d in w.b.watches && !Dropped(w, roots, d);
            var walked := CoveredBy(w.dirs, ignore, roots - w.b.roots, d);
            && (d in b.watches <==> kept || walked)
            && (Watched(b, w.dirs, d) <==> if kept then Watched(w.b, w.dirs, d) else walked)
  {
    var gone := w.b.roots - roots;
    var c := RemoveTrees(w.b, gone);
    WantedIsCovered(w.dirs, ignore, roots - w.b.roots, d);
    assert d in w.b.watches ==> (d in DoomedBy(w.b, gone) <==> Dropped(w, roots, d));
    assert d in c.watches <==> d in w.b.watches && !Dropped(w, roots, d);
    RemoveShape(w.b, gone, w.next);
  }

  lemma {:induction false} MineAfter(w: World, ignore: set<string>, roots: set<Path>, d: Path)
    requires !Ignored(d, ignore)
    ensures Mine(After(w, ignore, SetRoots(roots)), ignore, d)
            <==> (exists g :: g in w.attached * roots && g <= d) || CoveredBy(w.dirs, ignore, roots - w.b.roots, d)
  {
    var v := After(w, ignore, SetRoots(roots));
    if g :| g in w.attached * roots && g <= d { assert g in v.attached; }
    if h :| h in roots - w.b.roots && LiveRoot(w.dirs, ignore, h) && h <= d { assert h in v.attached; }
    if g :| g in v.attached && g <= d {
      assert g in w.attached * roots || (g in roots - w.b.roots && LiveRoot(w.dirs, ignore, g));
    }
  }

  lemma {:induction false} ResettledExact(w: World, ignore: set<string>, roots: set<Path>, d: Path)
    requires Shape(w) && DestinedAt(w, ignore, d)
    ensures DestinedAt(After(w, ignore, SetRoots(roots)), ignore, d)
            <==> (d in w.dirs && !Ignored(d, ignore) ==> Resettled(w, ignore, roots, d))
  {
    if d in w.dirs && !Ignored(d, ignore) {
      RerootedAt(w, ignore, roots, d);
      MineAfter(w, ignore, roots, d);
      assert (exists g :: g in w.attached * roots && g <= d) ==> Mine(w, ignore, d);
    }
  }

  // ---- every step and every run -----------------------------------------------------------

  /** From a state that drains clean, a step leads to one exactly when it meets its guard. */
  lemma {:induction false} StepExact(w: World, ignore: set<string>, s: Step)
    requires Shape(w) && AllDestined(w, ignore) && Possible(w, s)
    ensures AllDestined(After(w, ignore, s), ignore) <==> Guard(w, ignore, s)
  {
    var v := After(w, ignore, s);
    if s.Appear? || s.AppearUnseen? {
      AppearExact(w, ignore, s);
    } else {
      forall d
        ensures DestinedAt(v, ignore, d)
                <==> (s.SetRoots? && d in w.dirs && !Ignored(d, ignore) ==> Resettled(w, ignore, s.roots, d))
      {
        assert DestinedAt(w, ignore, d);
        OtherStepAt(w, ignore, s, d);
      }
    }
  }

  lemma {:induction false} OtherStepAt(w: World, ignore: set<string>, s: Step, d: Path)
    requires Shape(w) && DestinedAt(w, ignore, d) && Possible(w, s) && !s.Appear? && !s.AppearUnseen?
    ensures DestinedAt(After(w, ignore, s), ignore, d)
            <==> (s.SetRoots? && d in w.dirs && !Ignored(d, ignore) ==> Resettled(w, ignore, s.roots, d))
  {
    match s
    case Vanish(p, kind) => VanishKeeps(w, ignore, p, kind, After(w, ignore, s).queue, d);
    case VanishUnseen(p, kind) => VanishKeeps(w, ignore, p, kind, Marked(w.queue), d);
    case FileEvent(p, kind) => QuietKeeps(w, ignore, w.queue + [Entry(p, kind, false)], d);
    case FileEventUnseen => QuietKeeps(w, ignore, Marked(w.queue), d);
    case Take(order) =>
      if w.queue[0].Overflow? {
        TakeOverflowExact(w, ignore, order, d);
      } else {
        TakeOneExact(w, ignore, d);
      }
    case SetRoots(roots) => ResettledExact(w, ignore, roots, d);
    case _ =>
  }

  /** A fresh backend, before its first roots, on any tree. */
  ghost predicate Start(w: World) {
    ParentClosed(w.dirs) && (forall d :: d in w.dirs ==> w.dirs[d] < w.next)
    && w.b == FRESH && w.queue == [] && w.attached == {}
  }

  /** `steps` can happen from `w` and lead to `v`. */
  ghost predicate Leads(w: World, ignore: set<string>, steps: seq<Step>, v: World)
    decreases |steps|
  {
    if steps == [] then v == w
    else Possible(w, steps[0]) && Leads(After(w, ignore, steps[0]), ignore, steps[1..], v)
  }

  /** Every state of the run drains clean. */
  ghost predicate AlwaysClean(w: World, ignore: set<string>, steps: seq<Step>, v: World)
    requires Leads(w, ignore, steps, v)
    decreases |steps|
  {
    DrainsClean(w, ignore) && (steps != [] ==> AlwaysClean(After(w, ignore, steps[0]), ignore, steps[1..], v))
  }

  ghost predicate AllGuarded(w: World, ignore: set<string>, steps: seq<Step>, v: World)
    requires Leads(w, ignore, steps, v)
    decreases |steps|
  {
    steps != [] ==> Guard(w, ignore, steps[0]) && AllGuarded(After(w, ignore, steps[0]), ignore, steps[1..], v)
  }

  lemma {:induction false} CleanFrom(w: World, ignore: set<string>, steps: seq<Step>, v: World)
    requires Shape(w) && AllDestined(w, ignore) && Leads(w, ignore, steps, v)
    ensures AlwaysClean(w, ignore, steps, v) <==> AllGuarded(w, ignore, steps, v)
    ensures Shape(v) && (AllGuarded(w, ignore, steps, v) ==> AllDestined(v, ignore))
    decreases |steps|
  {
    CleanIsDestined(w, ignore);
    if steps != [] {
      var u := After(w, ignore, steps[0]);
      StepShape(w, ignore, steps[0]);
      StepExact(w, ignore, steps[0]);
      CleanIsDestined(u, ignore);
      if AllDestined(u, ignore) {
        CleanFrom(u, ignore, steps[1..], v);
      } else {
        ShapeFrom(u, ignore, steps[1..], v);
      }
    }
  }

  lemma {:induction false} ShapeFrom(w: World, ignore: set<string>, steps: seq<Step>, v: World)
    requires Shape(w) && Leads(w, ignore, steps, v)
    ensures Shape(v)
    decreases |steps|
  {
    if steps != [] {
      StepShape(w, ignore, steps[0]);
      ShapeFrom(After(w, ignore, steps[0]), ignore, steps[1..], v);
    }
  }

  lemma {:induction false} StartIsClean(w: World, ignore: set<string>)
    requires Start(w)
    ensures Shape(w) && AllDestined(w, ignore)
  {
    forall d ensures DestinedAt(w, ignore, d) {}
  }

  /** In every run, with deletions and overflows of every kind and any roots: the whole tree below the
      attached roots drains to watched in every state if and only if every appearance and every change of
      roots met its guard. */
  lemma {:induction false} CleanExactly(w: World, ignore: set<string>, steps: seq<Step>, v: World)
    requires Start(w) && Leads(w, ignore, steps, v)
    ensures AlwaysClean(w, ignore, steps, v) <==> AllGuarded(w, ignore, steps, v)
  {
    StartIsClean(w, ignore);
    CleanFrom(w, ignore, steps, v);
  }

  /** What this says of one directory in a state of a guarded run: with a deletion of it queued, a queued
      walk is behind the last one; otherwise it is watched, in the bookkeeping and in the kernel, or a walk
      that finds it is queued.  With nothing queued it is watched. */
  lemma {:induction false} Complete(w: World, ignore: set<string>, steps: seq<Step>, v: World, d: Path)
    requires Start(w) && Leads(w, ignore, steps, v) && AllGuarded(w, ignore, steps, v)
    requires d in v.dirs && Mine(v, ignore, d)
    ensures if UnwatchPending(v.queue, d) then WalkLast(v.queue, d)
            else OnWatch(v, d) || (d !in v.b.watches && WalkPending(v.queue, d))
    ensures v.queue == [] ==> OnWatch(v, d)
    ensures Watched(Drained(v.b, v.dirs, ignore, v.queue), v.dirs, d)
  {
    StartIsClean(w, ignore);
    CleanFrom(w, ignore, steps, v);
    CleanIsDestined(v, ignore);
    assert DestinedAt(v, ignore, d);
  }

  /** A reported creation is lost only if the bookkeeping still holds an entry that nothing queued will
      drop: so a directory that is made, removed and made again before its first event is taken is safe. */
  lemma {:induction false} ReportedAppearance(w: World, ignore: set<string>, p: Path, all: set<Path>, kind: FsEventType)
    requires Shape(w) && DrainsClean(w, ignore) && Possible(w, Appear(p, all, kind)) && Seen(w, p)
    ensures DrainsClean(After(w, ignore, Appear(p, all, kind)), ignore)
            <==> forall d :: d in all && Mine(w, ignore, d) && d in w.b.watches ==> UnwatchPending(w.queue, d)
  {
    CleanIsDestined(w, ignore);
    StepShape(w, ignore, Appear(p, all, kind));
    StepExact(w, ignore, Appear(p, all, kind));
    CleanIsDestined(After(w, ignore, Appear(p, all, kind)), ignore);
    assert (forall d :: d in all && Mine(w, ignore, d) ==> WalkedLater(w, d))
           <==> forall d :: d in all && Mine(w, ignore, d) && d in w.b.watches ==> UnwatchPending(w.queue, d);
  }

  // ---- nothing else is watched --------------------------------------------------------------

  /** Everything watched, and everything a queued event may walk, is at or below a root. */
  ghost predicate Inside(w: World, ignore: set<string>) {
    && (forall p :: p in w.b.watches ==> !Ignored(p, ignore) && UnderRoot(w, p))
    && (forall e :: e in w.queue ==>
          && (e.Entry? && e.isDir ==> UnderRoot(w, e.path))
          && (e.Resync? ==> e.root in w.b.roots))
  }

  /** A change of roots leaves nothing queued that is outside the new ones, nor any watch that it does not drop. */
  ghost predicate Confined(w: World, roots: set<Path>) {
    && (forall e :: e in w.queue ==>
          && (e.Entry? && e.isDir ==> exists r :: r in roots && r <= e.path)
          && (e.Resync? ==> e.root in roots))
    && (forall p :: p in w.b.watches && !Dropped(w, roots, p) ==> exists r :: r in roots && r <= p)
  }

  ghost predicate AllConfined(w: World, ignore: set<string>, steps: seq<Step>, v: World)
    requires Leads(w, ignore, steps, v)
    decreases |steps|
  {
    steps != [] ==>
      && (steps[0].SetRoots? ==> Confined(w, steps[0].roots))
      && AllConfined(After(w, ignore, steps[0]), ignore, steps[1..], v)
  }

  lemma {:induction false} SeenInside(w: World, ignore: set<string>, p: Path)
    requires Shape(w) && Inside(w, ignore) && p != [] && Seen(w, p)
    ensures UnderRoot(w, p)
  {
    assert UnderRoot(w, Parent(p));
    var r :| r in w.b.roots && r <= Parent(p);
    assert r <= p;
  }

  /** A step that leaves bookkeeping and roots alone and queues nothing new, or one more event. */
  lemma {:induction false} JoinInside(w: World, v: World, ignore: set<string>, e: KernelEvent)
    requires Inside(w, ignore) && v.b.watches == w.b.watches && v.b.roots == w.b.roots
    requires v.queue == w.queue || v.queue == w.queue + [e]
    requires !e.Resync? && (e.Entry? && e.isDir && v.queue != w.queue ==> UnderRoot(w, e.path))
    ensures Inside(v, ignore)
  {
    assert forall p :: UnderRoot(v, p) <==> UnderRoot(w, p);
    assert forall f :: f in v.queue ==> f in w.queue || f == e;
  }

  lemma {:induction false} SetRootsInside(w: World, ignore: set<string>, roots: set<Path>)
    requires Inside(w, ignore)
    ensures Inside(After(w, ignore, SetRoots(roots)), ignore) <==> Confined(w, roots)
  {
    var v := After(w, ignore, SetRoots(roots));
    forall p | p in w.b.watches ensures p in DoomedBy(w.b, w.b.roots - roots) <==> Dropped(w, roots, p) {}
    if Confined(w, roots) {
      forall p | p in v.b.watches ensures !Ignored(p, ignore) && UnderRoot(v, p) {
        WantedIsCovered(w.dirs, ignore, roots - w.b.roots, p);
      }
    }
    if Inside(v, ignore) {
      forall e | e in w.queue && e.Entry? && e.isDir ensures exists r :: r in roots && r <= e.path { assert UnderRoot(v, e.path); }
      forall p | p in w.b.watches && !Dropped(w, roots, p) ensures exists r :: r in roots && r <= p { assert UnderRoot(v, p); }
    }
  }

  lemma {:induction false} StepInside(w: World, ignore: set<string>, s: Step)
    requires Shape(w) && Inside(w, ignore) && Possible(w, s)
    ensures Inside(After(w, ignore, s), ignore) <==> (s.SetRoots? ==> Confined(w, s.roots))
  {
    var v := After(w, ignore, s);
    match s
    case Take(order) => TakeInside(w, ignore, order);
    case SetRoots(roots) => SetRootsInside(w, ignore, roots);
    case Appear(p, _, kind) =>
      if Seen(w, p) { SeenInside(w, ignore, p); }
      JoinInside(w, v, ignore, Entry(p, kind, true));
    case Vanish(p, kind) =>
      if Seen(w, p) { SeenInside(w, ignore, p); }
      JoinInside(w, v, ignore, Entry(p, kind, true));
    case FileEvent(p, kind) => JoinInside(w, v, ignore, Entry(p, kind, false));
    case _ => JoinInside(w, v, ignore, Overflow);
  }

  lemma {:induction false} TakeInside(w: World, ignore: set<string>, order: seq<Path>)
    requires Inside(w, ignore) && Possible(w, Take(order))
    ensures Inside(After(w, ignore, Take(order)), ignore)
  {
    var v, e := After(w, ignore, Take(order)), w.queue[0];
    assert forall p :: UnderRoot(v, p) <==> UnderRoot(w, p);
    assert e in w.queue && forall f :: f in w.queue[1..] ==> f in w.queue;
    if e.Overflow? {
      forall f | f in Resyncs(order) ensures f.Resync? && f.root in w.b.roots {
        var i :| 0 <= i < |order| && Resyncs(order)[i] == f;
        assert order[i] in Elements(order);
      }
    } else {
      forall p | p in v.b.watches && p !in w.b.watches ensures !Ignored(p, ignore) && UnderRoot(w, p) {
        var top := if e.Resync? then e.root else e.path;
        assert UnderRoot(w, top) && top <= p;
        var r :| r in w.b.roots && r <= top;
        assert r <= p;
      }
    }
  }

  ghost predicate AlwaysInside(w: World, ignore: set<string>, steps: seq<Step>, v: World)
    requires Leads(w, ignore, steps, v)
    decreases |steps|
  {
    Inside(w, ignore) && (steps != [] ==> AlwaysInside(After(w, ignore, steps[0]), ignore, steps[1..], v))
  }

  lemma {:induction false} InsideFrom(w: World, ignore: set<string>, steps: seq<Step>, v: World)
    requires Shape(w) && Inside(w, ignore) && Leads(w, ignore, steps, v)
    ensures AlwaysInside(w, ignore, steps, v) <==> AllConfined(w, ignore, steps, v)
    ensures AlwaysInside(w, ignore, steps, v) ==> Inside(v, ignore)
    decreases |steps|
  {
    if steps != [] {
      StepShape(w, ignore, steps[0]);
      StepInside(w, ignore, steps[0]);
      if Inside(After(w, ignore, steps[0]), ignore) {
        InsideFrom(After(w, ignore, steps[0]), ignore, steps[1..], v);
      }
    }
  }

  /** In every run: nothing outside the roots and nothing ignored is ever watched or about to be walked if
      and only if every change of roots is confined; and then each watch lies at or below a root. */
  lemma {:induction false} Contained(w: World, ignore: set<string>, steps: seq<Step>, v: World)
    requires Start(w) && Leads(w, ignore, steps, v)
    ensures AlwaysInside(w, ignore, steps, v) <==> AllConfined(w, ignore, steps, v)
    ensures AllConfined(w, ignore, steps, v) ==>
              forall p :: p in v.b.watches ==> !Ignored(p, ignore) && exists r :: r in v.b.roots && r <= p
  {
    StartIsClean(w, ignore);
    InsideFrom(w, ignore, steps, v);
    if AllConfined(w, ignore, steps, v) {
      forall p | p in v.b.watches ensures !Ignored(p, ignore) && exists r :: r in v.b.roots && r <= p {
        assert UnderRoot(v, p);
      }
    }
  }

  /** A drained queue is enough, since what is below a removed root is dropped, the root directory aside. */
  lemma {:induction false} DrainedIsConfined(w: World, ignore: set<string>, roots: set<Path>)
    requires Inside(w, ignore) && w.queue == [] && [] !in w.b.roots - roots
    ensures Confined(w, roots)
  {
    forall p | p in w.b.watches && !Dropped(w, roots, p) ensures exists r :: r in roots && r <= p {
      assert UnderRoot(w, p);
      var r :| r in w.b.roots && r <= p;
      assert r !in roots ==> Doomed(r, p);
    }
  }
}
