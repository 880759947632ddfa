/** A simpler condition that suffices: runs whose queues stay in order lose nothing. */
module OrderlyRuns {
  import opened Paths
  import opened DirTree
  import opened Watcher
  import opened WatchRuns
  import opened AttachRace

  // ---- every step keeps the invariant -----------------------------------------------------

  /** A file event or an overflow mark joins the queue. */
  lemma {:induction false} QuietInv(w: World, ignore: set<string>, r: seq<KernelEvent>)
    requires Inv(w, ignore) && Extended(w.queue, r)
    requires |r| > |w.queue| ==> r[|w.queue|].Overflow? || (r[|w.queue|].Entry? && !r[|w.queue|].isDir)
    ensures Inv(w.(queue := r), ignore)
  {
    var v := w.(queue := r);
    forall x ensures UnderRoot(w, x) <==> UnderRoot(v, x) {}
    forall i | 0 <= i < |r| ensures
      (r[i].Entry? && r[i].isDir ==> BelowRoot(v, r[i].path)) && (r[i].Resync? ==> r[i].root in v.b.roots)
    {
      if i < |w.queue| {
        assert r[i] == w.queue[i];
        assert r[i].Entry? && r[i].isDir ==> BelowRoot(w, r[i].path);
      }
    }
    forall g | g in v.attached ensures OnWatch(v, g) { assert OnWatch(w, g); }
    assert Base(v, ignore);
    forall d ensures DirOk(v, ignore, d) && EntryOk(v, ignore, d) {
      assert DirOk(w, ignore, d) && EntryOk(w, ignore, d);
      ExtendedPending(w.queue, r, d);
      assert Mine(v, ignore, d) <==> Mine(w, ignore, d);
      assert OnWatch(v, d) <==> OnWatch(w, d);
      assert d != [] ==> (OnWatch(w, Parent(d)) <==> OnWatch(v, Parent(d)));
    }
    forall i: nat ensures EventOk(v, ignore, i) {
      assert EventOk(w, ignore, i);
      if i < |w.queue| && Appears(r[i]) && Mine(v, ignore, r[i].path) {
        assert r[i] == w.queue[i] && Mine(w, ignore, r[i].path);
        if r != w.queue { AfterAppended(w.queue, r[|w.queue|], i, r[i].path); }
      }
    }
  }

  lemma {:induction false} StepInv(w: World, ignore: set<string>, s: Step)
    requires Inv(w, ignore) && Possible(w, s) && Assumed(w, s)
    ensures Inv(After(w, ignore, s), ignore)
  {
    match s
    case Appear(p, all, kind) =>
      var r := if Seen(w, p) then w.queue + [Entry(p, kind, true)] else w.queue;
      assert Seen(w, p) ==> Appears(r[|w.queue|]);
      GrownInv(w, ignore, p, all, r);
    case AppearUnseen(p, all) =>
      var r := Marked(w.queue);
      assert exists i :: 0 <= i < |r| && r[i].Overflow? by {
        assert r != w.queue ==> r[|w.queue|].Overflow?;
      }
      GrownInv(w, ignore, p, all, r);
    case Vanish(p, kind) =>
      VanishInv(w, ignore, p, kind);
    case FileEvent(p, kind) =>
      QuietInv(w, ignore, w.queue + [Entry(p, kind, false)]);
    case FileEventUnseen =>
      QuietInv(w, ignore, Marked(w.queue));
    case Take(order) =>
      TakeInv(w, ignore, order);
    case SetRoots(roots) =>
      SetRootsReroots(w, ignore, roots);
      SetRootsInv(w, After(w, ignore, s), ignore, roots);
  }

  lemma {:induction false} TakeInv(w: World, ignore: set<string>, order: seq<Path>)
    requires Inv(w, ignore) && Possible(w, Take(order))
    ensures Inv(After(w, ignore, Take(order)), ignore)
  {
    var e := w.queue[0];
    match e
    case Overflow => TakeOverflowInv(w, ignore, order);
    case Resync(root) =>
      TakeWalkWalks(w, ignore, root);
      TakeWalkInv(w, After(w, ignore, Take([])), ignore, root);
    case Entry(path, kind, isDir) =>
      if Ignored(path, ignore) || !isDir {
        SkipInv(w, ignore);
      } else if Appears(e) {
        TakeWalkWalks(w, ignore, path);
        TakeWalkInv(w, After(w, ignore, Take([])), ignore, path);
      } else {
        TakeVanishForgets(w, ignore);
        TakeVanishInv(w, After(w, ignore, Take([])), ignore, path);
      }
  }

  /** `steps` can happen from `w`, under the assumptions, and lead to `v`. */
  ghost predicate Reaches(w: World, ignore: set<string>, steps: seq<Step>, v: World)
    decreases |steps|
  {
    if steps == [] then v == w
    else Possible(w, steps[0]) && Assumed(w, steps[0]) && Reaches(After(w, ignore, steps[0]), ignore, steps[1..], v)
  }

  lemma {:induction false} StartInv(w: World, ignore: set<string>)
    requires Start(w)
    ensures Inv(w, ignore)
  {
    forall d ensures DirOk(w, ignore, d) && EntryOk(w, ignore, d) {}
    forall i: nat ensures EventOk(w, ignore, i) {}
  }

  lemma {:induction false} InvIsDestined(w: World, ignore: set<string>)
    requires Inv(w, ignore)
    ensures Shape(w) && AllDestined(w, ignore)
  {
    forall e | e in w.queue && Vanishes(e) ensures e.path != [] {
      var i :| 0 <= i < |w.queue| && w.queue[i] == e;
      assert BelowRoot(w, w.queue[i].path);
    }
    forall d ensures DestinedAt(w, ignore, d) {
      assert DirOk(w, ignore, d);
      if d in w.dirs && Mine(w, ignore, d) && !OnWatch(w, d) {
        var i :| 0 <= i < |w.queue| && Walks(w.queue[i], d);
        assert !UnwatchAfter(w.queue, i, d);
      }
    }
  }

  lemma {:induction false} OrderlyFrom(w: World, ignore: set<string>, steps: seq<Step>, v: World)
    requires Inv(w, ignore) && Reaches(w, ignore, steps, v)
    ensures Leads(w, ignore, steps, v) && AllGuarded(w, ignore, steps, v)
    decreases |steps|
  {
    if steps != [] {
      StepInv(w, ignore, steps[0]);
      InvIsDestined(w, ignore);
      InvIsDestined(After(w, ignore, steps[0]), ignore);
      StepExact(w, ignore, steps[0]);
      OrderlyFrom(After(w, ignore, steps[0]), ignore, steps[1..], v);
    }
  }

  /** A run meets every guard, so that all its states drain clean, if no directory appears while a queued
      deletion of it is behind a queued walk over it, no directory deletion is lost, and prefix-free roots
      other than the root directory are removed when nothing about them is queued. */
  lemma {:induction false} OrderlyRunsAreGuarded(w: World, ignore: set<string>, steps: seq<Step>, v: World)
    requires Start(w) && Reaches(w, ignore, steps, v)
    ensures Leads(w, ignore, steps, v) && AllGuarded(w, ignore, steps, v)
  {
    StartInv(w, ignore);
    OrderlyFrom(w, ignore, steps, v);
  }
}
