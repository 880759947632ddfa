/** Changing the watch roots on a tree that stands still: when is the incremental update the same as
    starting over? */
module RootChanges {
  import opened Paths
  import opened DirTree
  import opened Watcher

  /** The bookkeeping and the kernel hold the same watches, all on current directories. */
  ghost predicate Consistent(b: Backend, dirs: Dirs) {
    (forall p :: p in b.watches ==> p in dirs && b.watches[p] == dirs[p])
    && (forall w :: w in b.kernel <==> w.0 in b.watches && w.1 == b.watches[w.0])
  }

  /** The backend that one `set_roots` on a fresh backend builds. */
  function Built(dirs: Dirs, ignore: set<string>, roots: set<Path>): Backend {
    SetRootsTo(FRESH, dirs, ignore, roots)
  }

  predicate LiveRoot(dirs: Dirs, ignore: set<string>, r: Path) {
    r in dirs && !Ignored(r, ignore)
  }

  /** Some root of `s` covers `d`. */
  ghost predicate CoveredBy(dirs: Dirs, ignore: set<string>, s: set<Path>, d: Path) {
    exists h :: h in s && LiveRoot(dirs, ignore, h) && h <= d
  }

  /** Wherever a removed root overlaps a retained one, an added root covers the overlap again. */
  ghost predicate OverlapsRecovered(dirs: Dirs, ignore: set<string>, was: set<Path>, next: set<Path>) {
    forall g, o :: g in was - next && g != [] && o in was * next && LiveRoot(dirs, ignore, g) && LiveRoot(dirs, ignore, o)
      && (g <= o || o <= g)
      ==> CoveredBy(dirs, ignore, next - was, if g <= o then o else g)
  }

  /** Removing the root directory drops its own watch alone: every directory right below it must be a root
      itself, so that removing or keeping that one settles what is there. */
  ghost predicate TopSettled(dirs: Dirs, ignore: set<string>, was: set<Path>, next: set<Path>) {
    [] in was - next ==> forall n :: [n] in dirs && n !in ignore ==> [n] in was + next
  }

  lemma {:induction false} WantedIsCovered(dirs: Dirs, ignore: set<string>, roots: set<Path>, d: Path)
    ensures d in Wanted(dirs, ignore, roots) <==> d in dirs && !Ignored(d, ignore) && CoveredBy(dirs, ignore, roots, d)
  {
    if d in Wanted(dirs, ignore, roots) {
      var r :| r in roots && r in dirs && d in Watchable(dirs, ignore, r);
      PruningIsFiltering(dirs, ignore, r);
    }
    if d in dirs && !Ignored(d, ignore) && CoveredBy(dirs, ignore, roots, d) {
      var h :| h in roots && LiveRoot(dirs, ignore, h) && h <= d;
      assert d in Watchable(dirs, ignore, h);
    }
  }

  /** `d` has a watch after the change from `was` to `next`. */
  ghost predicate Left(dirs: Dirs, ignore: set<string>, was: set<Path>, next: set<Path>, d: Path) {
    (d in Wanted(dirs, ignore, was) && !(exists g :: g in was - next && Doomed(g, d))) || d in Wanted(dirs, ignore, next - was)
  }

  lemma {:induction false} SetRootsKeys(b: Backend, dirs: Dirs, ignore: set<string>, next: set<Path>, d: Path)
    requires b.watches.Keys == Wanted(dirs, ignore, b.roots)
    ensures d in SetRootsTo(b, dirs, ignore, next).watches
            <==> Left(dirs, ignore, b.roots, next, d)
  {
    var gone := b.roots - next;
    var kept := RemoveTrees(b, gone);
    assert d in kept.watches <==> d in b.watches && d !in DoomedBy(b, gone);
    assert d in b.watches ==> (d in DoomedBy(b, gone) <==> exists g :: g in gone && Doomed(g, d));
    WantedIsCovered(dirs, ignore, next - b.roots, d);
  }

  lemma {:induction false} LiveAbove(dirs: Dirs, ignore: set<string>, g: Path, d: Path)
    requires ParentClosed(dirs) && d in dirs && !Ignored(d, ignore) && g <= d
    ensures LiveRoot(dirs, ignore, g)
  {
    PrefixInTree(dirs, d, |g|);
    assert d[..|g|] == g;
    assert forall i :: 0 <= i < |g| ==> g[i] == d[i];
  }

  /** The incremental update watches exactly what a fresh start would watch, if and only if every overlap
      between a removed and a retained root is covered by an added root and, when the root directory is
      removed, every directory right below it is a root itself. */
  lemma {:induction false} SetRootsExact(b: Backend, dirs: Dirs, ignore: set<string>, next: set<Path>)
    requires ParentClosed(dirs) && b.watches.Keys == Wanted(dirs, ignore, b.roots)
    ensures SetRootsTo(b, dirs, ignore, next).watches.Keys == Wanted(dirs, ignore, next)
            <==> OverlapsRecovered(dirs, ignore, b.roots, next) && TopSettled(dirs, ignore, b.roots, next)
  {
    var after := SetRootsTo(b, dirs, ignore, next);
    if OverlapsRecovered(dirs, ignore, b.roots, next) && TopSettled(dirs, ignore, b.roots, next) {
      forall d ensures d in after.watches <==> d in Wanted(dirs, ignore, next) {
        SetRootsKeys(b, dirs, ignore, next, d);
        if Left(dirs, ignore, b.roots, next, d) { NothingStays(dirs, ignore, b.roots, next, d); }
        if d in Wanted(dirs, ignore, next) { NothingLost(dirs, ignore, b.roots, next, d); }
      }
    }
    if after.watches.Keys == Wanted(dirs, ignore, next) {
      forall g, o | g in b.roots - next && g != [] && o in b.roots * next && LiveRoot(dirs, ignore, g) && LiveRoot(dirs, ignore, o)
                    && (g <= o || o <= g)
        ensures CoveredBy(dirs, ignore, next - b.roots, if g <= o then o else g)
      {
        var d := if g <= o then o else g;
        WantedIsCovered(dirs, ignore, next, d);
        assert d in after.watches.Keys && Doomed(g, d);
        SetRootsKeys(b, dirs, ignore, next, d);
        WantedIsCovered(dirs, ignore, next - b.roots, d);
      }
      if [] in b.roots - next {
        forall n | [n] in dirs && n !in ignore ensures [n] in b.roots + next {
          TopStays(b, dirs, ignore, next, n);
        }
      }
    }
  }

  /** A directory right below a removed root directory keeps its watch unless it was a root. */
  lemma {:induction false} TopStays(b: Backend, dirs: Dirs, ignore: set<string>, next: set<Path>, n: string)
    requires ParentClosed(dirs) && b.watches.Keys == Wanted(dirs, ignore, b.roots) && [] in b.roots - next
    requires [n] in dirs && n !in ignore
    requires SetRootsTo(b, dirs, ignore, next).watches.Keys == Wanted(dirs, ignore, next)
    ensures [n] in b.roots + next
  {
    var d := [n];
    LiveAbove(dirs, ignore, [], d);
    SetRootsKeys(b, dirs, ignore, next, d);
    WantedIsCovered(dirs, ignore, b.roots, d);
    WantedIsCovered(dirs, ignore, next, d);
    assert d in SetRootsTo(b, dirs, ignore, next).watches.Keys <==> d in Wanted(dirs, ignore, next);
    if d !in b.roots + next {
      assert forall g :: g in b.roots + next && g <= d ==> g == [] || g == d;
      WantedIsCovered(dirs, ignore, next - b.roots, d);
    }
  }

  lemma {:induction false} NothingStays(dirs: Dirs, ignore: set<string>, was: set<Path>, next: set<Path>, d: Path)
    requires ParentClosed(dirs) && TopSettled(dirs, ignore, was, next) && Left(dirs, ignore, was, next, d)
    ensures d in Wanted(dirs, ignore, next)
  {
    WantedIsCovered(dirs, ignore, was, d);
    WantedIsCovered(dirs, ignore, next, d);
    WantedIsCovered(dirs, ignore, next - was, d);
    if d in Wanted(dirs, ignore, next - was) {
      var h :| h in next - was && LiveRoot(dirs, ignore, h) && h <= d;
      assert h in next;
    } else {
      var r :| r in was && LiveRoot(dirs, ignore, r) && r <= d;
      if r !in next {
        assert r in was - next && !Doomed(r, d);
        LiveAbove(dirs, ignore, d[..1], d);
        assert d[..1] == [d[0]];
        assert d[..1] in was - next ==> Doomed(d[..1], d);
        assert d[..1] in next;
      }
    }
  }

  lemma {:induction false} NothingLost(dirs: Dirs, ignore: set<string>, was: set<Path>, next: set<Path>, d: Path)
    requires ParentClosed(dirs) && OverlapsRecovered(dirs, ignore, was, next) && d in Wanted(dirs, ignore, next)
    ensures Left(dirs, ignore, was, next, d)
  {
    WantedIsCovered(dirs, ignore, was, d);
    WantedIsCovered(dirs, ignore, next, d);
    WantedIsCovered(dirs, ignore, next - was, d);
    var o :| o in next && LiveRoot(dirs, ignore, o) && o <= d;
    assert o in was * next || o in next - was;
    forall g | o in was && g in was - next && Doomed(g, d) ensures CoveredBy(dirs, ignore, next - was, d) {
      LiveAbove(dirs, ignore, g, d);
      var deeper := if g <= o then o else g;
      assert g != [];
      var h :| h in next - was && LiveRoot(dirs, ignore, h) && h <= deeper;
      assert h <= d;
    }
  }

  // ---- any number of changes --------------------------------------------------------------

  function Replay(b: Backend, dirs: Dirs, ignore: set<string>, changes: seq<set<Path>>): Backend {
    if changes == [] then b
    else SetRootsTo(Replay(b, dirs, ignore, changes[..|changes| - 1]), dirs, ignore, changes[|changes| - 1])
  }

  ghost predicate PrefixFree(roots: set<Path>) {
    Antichain(roots)
  }

  lemma {:induction false} ConsistentStays(b: Backend, dirs: Dirs, ignore: set<string>, next: set<Path>)
    requires Consistent(b, dirs)
    ensures Consistent(SetRootsTo(b, dirs, ignore, next), dirs)
  {
    var kept := RemoveTrees(b, b.roots - next);
    assert Consistent(kept, dirs);
    var after := SetRootsTo(b, dirs, ignore, next);
    forall w ensures w in after.kernel <==> w.0 in after.watches && w.1 == after.watches[w.0] {}
  }

  lemma {:induction false} ConsistentDetermined(b: Backend, c: Backend, dirs: Dirs)
    requires Consistent(b, dirs) && Consistent(c, dirs) && b.watches.Keys == c.watches.Keys && b.roots == c.roots
    ensures b == c
  {
    assert b.watches == c.watches;
  }

  /** After any sequence of root changes whose earlier sets are prefix-free and each settle the root
      directory, as those without it do, the backend is the one a fresh start with the last set builds:
      nothing is lost by what came before, parking at no roots included. */
  lemma {:induction false} IncrementalIsFromScratch(dirs: Dirs, ignore: set<string>, changes: seq<set<Path>>)
    requires ParentClosed(dirs) && changes != []
    requires forall i :: 0 <= i < |changes| - 1 ==> PrefixFree(changes[i]) && TopSettled(dirs, ignore, changes[i], changes[i + 1])
    ensures Replay(FRESH, dirs, ignore, changes) == Built(dirs, ignore, changes[|changes| - 1])
  {
    var n := |changes| - 1;
    var front, last := changes[..n], changes[n];
    var b := Replay(FRESH, dirs, ignore, front);
    if front == [] {
      assert b == FRESH;
    } else {
      IncrementalIsFromScratch(dirs, ignore, front);
      assert front[n - 1] == changes[n - 1];
      BuiltWatches(dirs, ignore, front[n - 1]);
      assert OverlapsRecovered(dirs, ignore, b.roots, last);
      SetRootsExact(b, dirs, ignore, last);
      ConsistentStays(b, dirs, ignore, last);
      BuiltWatches(dirs, ignore, last);
      ConsistentDetermined(SetRootsTo(b, dirs, ignore, last), Built(dirs, ignore, last), dirs);
    }
  }

  lemma {:induction false} BuiltWatches(dirs: Dirs, ignore: set<string>, roots: set<Path>)
    ensures var b := Built(dirs, ignore, roots);
            Consistent(b, dirs) && b.roots == roots && b.watches.Keys == Wanted(dirs, ignore, roots)
  {
    ConsistentStays(FRESH, dirs, ignore, roots);
    assert roots - {} == roots;
    assert RemoveTrees(FRESH, {} - roots).watches == map[];
  }

  /** With the root directory as the only root, dropping it forgets one watch and leaves all the
      others behind: its text plus a separator is the prefix of no path. */
  lemma {:induction false} RootDirectoryStays(b: Backend, dirs: Dirs, ignore: set<string>)
    requires b.roots == {[]} && b.watches.Keys == Wanted(dirs, ignore, {[]})
    ensures SetRootsTo(b, dirs, ignore, {}).watches.Keys == Wanted(dirs, ignore, {[]}) - {[]}
  {
    var top: Path := [];
    var none: set<Path> := {};
    assert b.roots - none == {top} && none - b.roots == none;
    var after := SetRootsTo(b, dirs, ignore, none);
    forall d ensures d in after.watches <==> d in b.watches && d != top {
      assert d in b.watches ==> (d in DoomedBy(b, {top}) <==> Doomed(top, d)) by { assert top in {top}; }
    }
  }
}
