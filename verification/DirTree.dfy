/** A directory tree and the top-down walk over it that prunes ignored names. */
module DirTree {
  import opened Paths

  /** Every directory of the tree, with the number of the creation that made it: a directory that is
      removed and made again under the same path is another directory. */
  type Dirs = map<Path, nat>

  /** A directory's parent is a directory. */
  ghost predicate ParentClosed(dirs: Dirs) {
    forall d :: d in dirs && d != [] ==> Parent(d) in dirs
  }

  predicate Ignored(d: Path, ignore: set<string>) {
    exists i :: 0 <= i < |d| && d[i] in ignore
  }

  /** No ignored name strictly below `root` on the way to `d`. */
  predicate KeptBelow(root: Path, d: Path, ignore: set<string>) {
    forall i :: |root| <= i < |d| ==> d[i] !in ignore
  }

  /** The directories that the pruned walk from `root` visits. */
  function Walked(dirs: Dirs, ignore: set<string>, root: Path): set<Path> {
    set d | d in dirs && root <= d && KeptBelow(root, d, ignore)
  }

  /** The directories at or below `root` with no ignored segment anywhere. */
  function Watchable(dirs: Dirs, ignore: set<string>, root: Path): set<Path> {
    set d | d in dirs && root <= d && !Ignored(d, ignore)
  }

  function Children(dirs: Dirs, d: Path): set<Path> {
    set c | c in dirs && |c| == |d| + 1 && d <= c
  }

  /** The subdirectories that are left after the in-place pruning of the listed names. */
  function KeptChildren(dirs: Dirs, d: Path, ignore: set<string>): set<Path> {
    set c | c in Children(dirs, d) && c[|c| - 1] !in ignore
  }

  /** Pruning by name under a root that is not ignored visits what filtering the full walk keeps;
      under an ignored root, filtering keeps nothing. */
  lemma {:induction false} PruningIsFiltering(dirs: Dirs, ignore: set<string>, root: Path)
    ensures !Ignored(root, ignore) ==> Walked(dirs, ignore, root) == Watchable(dirs, ignore, root)
    ensures Ignored(root, ignore) ==> Watchable(dirs, ignore, root) == {}
  {
    forall d | d in dirs && root <= d
      ensures Ignored(d, ignore) <==> Ignored(root, ignore) || !KeptBelow(root, d, ignore)
    {
      if i :| 0 <= i < |d| && d[i] in ignore {
        assert i < |root| ==> root[i] == d[i];
      }
      if i :| 0 <= i < |root| && root[i] in ignore {
        assert d[i] == root[i];
      }
    }
  }

  lemma {:induction false} PrefixInTree(dirs: Dirs, d: Path, n: nat)
    requires ParentClosed(dirs) && d in dirs && n <= |d|
    ensures d[..n] in dirs
    decreases |d|
  {
    if n == |d| {
      assert d[..n] == d;
    } else {
      PrefixInTree(dirs, Parent(d), n);
      assert Parent(d)[..n] == d[..n];
    }
  }

  // ---- the walk as a worklist -------------------------------------------------------------

  ghost predicate Antichain(s: set<Path>) {
    forall p, q :: p in s && q in s && p <= q ==> p == q
  }

  ghost predicate Covered(d: Path, pending: set<Path>) {
    exists p :: p in pending && p <= d
  }

  /** Halfway through a walk: each directory to visit is either visited or still ahead, never both. */
  ghost predicate WalkState(dirs: Dirs, ignore: set<string>, root: Path, visited: set<Path>, pending: set<Path>) {
    visited <= Walked(dirs, ignore, root) && pending <= Walked(dirs, ignore, root) && Antichain(pending)
    && forall d :: d in Walked(dirs, ignore, root) ==> (d in visited <==> !Covered(d, pending))
  }

  /** Nothing is walked from a root that does not exist. */
  lemma {:induction false} WalkStart(dirs: Dirs, ignore: set<string>, root: Path)
    requires ParentClosed(dirs)
    ensures WalkState(dirs, ignore, root, {}, if root in dirs then {root} else {})
  {
    forall d | d in Walked(dirs, ignore, root) ensures root in dirs && Covered(d, {root}) {
      PrefixInTree(dirs, d, |root|);
      assert d[..|root|] == root && root in {root};
    }
  }

  lemma {:induction false} WalkStep(dirs: Dirs, ignore: set<string>, root: Path, visited: set<Path>, pending: set<Path>, p: Path)
    requires ParentClosed(dirs) && p in pending && WalkState(dirs, ignore, root, visited, pending)
    ensures p !in visited
    ensures WalkState(dirs, ignore, root, visited + {p}, pending - {p} + KeptChildren(dirs, p, ignore))
  {
    var rest := pending - {p};
    var kept := KeptChildren(dirs, p, ignore);
    assert Covered(p, pending);
    forall c | c in kept ensures c in Walked(dirs, ignore, root) {
      assert c[..|p|] == p;
    }
    forall d | d in Walked(dirs, ignore, root)
      ensures d in visited + {p} <==> !Covered(d, rest + kept)
    {
      WalkStepAt(dirs, ignore, root, pending, p, d);
    }
  }

  lemma {:induction false} WalkStepAt(dirs: Dirs, ignore: set<string>, root: Path, pending: set<Path>, p: Path, d: Path)
    requires ParentClosed(dirs) && p in pending && Antichain(pending)
    requires p in Walked(dirs, ignore, root) && d in Walked(dirs, ignore, root)
    ensures var next := pending - {p} + KeptChildren(dirs, p, ignore);
            Covered(d, next) <==> d != p && Covered(d, pending)
  {
    var next := pending - {p} + KeptChildren(dirs, p, ignore);
    if p <= d && p != d {
      var c := d[..|p| + 1];
      PrefixInTree(dirs, d, |p| + 1);
      assert c in next && c <= d;
    } else if q :| q in pending && q != p && q <= d {
      assert q in next;
    }
    if q :| q in next && q <= d {
      assert q !in pending ==> p <= q;
      assert Covered(d, pending);
    }
  }

  // ---- counting for the watch-limit gate --------------------------------------------------

  function CountOf(dirs: Dirs, ignore: set<string>, roots: seq<Path>): nat {
    if roots == [] then 0
    else
      var last := roots[|roots| - 1];
      CountOf(dirs, ignore, roots[..|roots| - 1])
      + (if last in dirs then |Walked(dirs, ignore, last)| else 0)
  }

  /** Count each existing root and every directory below it, pruning ignored names; missing roots
      count for nothing. */
  method CountDirs(dirs: Dirs, ignore: set<string>, roots: seq<Path>) returns (total: nat)
    requires ParentClosed(dirs)
    ensures total == CountOf(dirs, ignore, roots)
  {
    total := 0;
    for k := 0 to |roots|
      invariant total == CountOf(dirs, ignore, roots[..k])
    {
      var root := roots[k];
      assert roots[..k + 1][..k] == roots[..k];
      if root !in dirs {
        continue;
      }
      ghost var visited: set<Path> := {};
      ghost var before := total;
      var pending := {root};
      WalkStart(dirs, ignore, root);
      while pending != {}
        invariant WalkState(dirs, ignore, root, visited, pending)
        invariant total == before + |visited|
        decreases Walked(dirs, ignore, root) - visited
      {
        var dirpath :| dirpath in pending;
        WalkStep(dirs, ignore, root, visited, pending, dirpath);
        pending := pending - {dirpath} + KeptChildren(dirs, dirpath, ignore);
        total := total + 1;
        visited := visited + {dirpath};
      }
      assert visited == Walked(dirs, ignore, root);
    }
    assert roots[..|roots|] == roots;
  }

  /** The directories that a fresh watcher with these roots watches. */
  function Wanted(dirs: Dirs, ignore: set<string>, roots: set<Path>): set<Path> {
    set r, d | r in roots && r in dirs && d in Watchable(dirs, ignore, r) :: d
  }

  /** The existing roots are not ignored, and none is inside another. */
  ghost predicate DisjointRoots(dirs: Dirs, ignore: set<string>, roots: seq<Path>) {
    (forall i :: 0 <= i < |roots| && roots[i] in dirs ==> !Ignored(roots[i], ignore))
    && (forall i, j :: 0 <= i < |roots| && 0 <= j < |roots| && i != j && roots[i] in dirs && roots[j] in dirs
          ==> !(roots[i] <= roots[j]))
  }

  function Elements(roots: seq<Path>): set<Path> {
    set i | 0 <= i < |roots| :: roots[i]
  }

  /** The gate never counts less than what will be watched, and counts exactly that if and only if
      the existing roots are not ignored and none is inside another. */
  lemma {:induction false} CountCoversWatches(dirs: Dirs, ignore: set<string>, roots: seq<Path>)
    ensures |Wanted(dirs, ignore, Elements(roots))| <= CountOf(dirs, ignore, roots)
    ensures |Wanted(dirs, ignore, Elements(roots))| == CountOf(dirs, ignore, roots)
            <==> DisjointRoots(dirs, ignore, roots)
  {
    if roots == [] {
      assert Elements(roots) == {};
      assert Wanted(dirs, ignore, {}) == {};
    } else {
      var n := |roots| - 1;
      var front, last := roots[..n], roots[n];
      CountCoversWatches(dirs, ignore, front);
      var before := Wanted(dirs, ignore, Elements(front));
      var here := if last in dirs then Watchable(dirs, ignore, last) else {};
      WantedSplit(dirs, ignore, roots);
      if last in dirs {
        LastRootCounts(dirs, ignore, last);
        UnionSize(before, here);
      } else {
        assert before + here == before;
      }
      DisjointSplit(dirs, ignore, roots);
    }
  }

  lemma {:induction false} WantedSplit(dirs: Dirs, ignore: set<string>, roots: seq<Path>)
    requires roots != []
    ensures var last := roots[|roots| - 1];
            Wanted(dirs, ignore, Elements(roots))
            == Wanted(dirs, ignore, Elements(roots[..|roots| - 1]))
               + (if last in dirs then Watchable(dirs, ignore, last) else {})
  {
    var n := |roots| - 1;
    assert Elements(roots) == Elements(roots[..n]) + {roots[n]} by {
      forall p ensures p in Elements(roots) <==> p in Elements(roots[..n]) || p == roots[n] {
        if p in Elements(roots) {
          var i :| 0 <= i < |roots| && roots[i] == p;
          assert i < n ==> roots[..n][i] == p;
        }
        if p in Elements(roots[..n]) {
          var i :| 0 <= i < n && roots[..n][i] == p;
          assert roots[i] == p;
        }
      }
    }
  }

  lemma {:induction false} LastRootCounts(dirs: Dirs, ignore: set<string>, root: Path)
    requires root in dirs
    ensures |Watchable(dirs, ignore, root)| <= |Walked(dirs, ignore, root)|
    ensures |Watchable(dirs, ignore, root)| == |Walked(dirs, ignore, root)| <==> !Ignored(root, ignore)
  {
    PruningIsFiltering(dirs, ignore, root);
    assert root in Walked(dirs, ignore, root);
  }

  lemma {:induction false} UnionSize(a: set<Path>, b: set<Path>)
    ensures |a + b| <= |a| + |b|
    ensures |a + b| == |a| + |b| <==> a !! b
  {
    assert |a + b| + |a * b| == |a| + |b|;
  }

  /** One more root overlaps nothing exactly when it is comparable with none of the others. */
  lemma {:induction false} OverlapIsNesting(dirs: Dirs, ignore: set<string>, roots: set<Path>, last: Path)
    requires forall r :: r in roots && r in dirs ==> !Ignored(r, ignore)
    requires last in dirs && !Ignored(last, ignore)
    ensures Wanted(dirs, ignore, roots) !! Watchable(dirs, ignore, last)
            <==> forall r :: r in roots && r in dirs ==> !(r <= last) && !(last <= r)
  {
    if d :| d in Wanted(dirs, ignore, roots) && d in Watchable(dirs, ignore, last) {
      var r :| r in roots && r in dirs && d in Watchable(dirs, ignore, r);
      assert r <= last || last <= r;
    }
    if r :| r in roots && r in dirs && (r <= last || last <= r) {
      var deeper := if r <= last then last else r;
      assert deeper in Watchable(dirs, ignore, r) && deeper in Watchable(dirs, ignore, last);
      assert deeper in Wanted(dirs, ignore, roots);
    }
  }

  lemma {:induction false} DisjointSplit(dirs: Dirs, ignore: set<string>, roots: seq<Path>)
    requires roots != []
    ensures var last := roots[|roots| - 1];
            var front := roots[..|roots| - 1];
            DisjointRoots(dirs, ignore, roots)
            <==> DisjointRoots(dirs, ignore, front)
                 && (last in dirs ==> !Ignored(last, ignore)
                                      && Wanted(dirs, ignore, Elements(front)) !! Watchable(dirs, ignore, last))
  {
    var n := |roots| - 1;
    var front, last := roots[..n], roots[n];
    assert forall i :: 0 <= i < n ==> front[i] == roots[i] && front[i] in Elements(front);
    assert DisjointRoots(dirs, ignore, roots) ==> DisjointRoots(dirs, ignore, front);
    if DisjointRoots(dirs, ignore, front) && last in dirs && !Ignored(last, ignore) {
      OverlapIsNesting(dirs, ignore, Elements(front), last);
      assert (forall r :: r in Elements(front) && r in dirs ==> !(r <= last) && !(last <= r))
             <==> forall i :: 0 <= i < n && roots[i] in dirs ==> !(roots[i] <= last) && !(last <= roots[i]);
    }
  }

  // ---- the gate ---------------------------------------------------------------------------

  /** Headroom as an exact fraction of at least one. */
  datatype Headroom = Headroom(num: nat, den: nat)

  ghost predicate HeadroomOk(h: Headroom) {
    1 <= h.den <= h.num
  }

  /** `ceil(count * headroom)`. */
  function CeilTimes(count: nat, h: Headroom): nat
    requires h.den > 0
  {
    (count * h.num + h.den - 1) / h.den
  }

  datatype WatchLimitStatus = WatchLimitStatus(current: int, dirs: nat, needed: nat, recommended: nat, ok: bool)

  method CheckWatchLimit(dirs: Dirs, ignore: set<string>, roots: seq<Path>, current: int, h: Headroom)
    returns (status: WatchLimitStatus)
    requires ParentClosed(dirs) && HeadroomOk(h)
    ensures status == StatusOf(CountOf(dirs, ignore, roots), current, h)
  {
    var count := CountDirs(dirs, ignore, roots);
    var needed := CeilTimes(count, h);
    var recommended := CeilTimes(needed, h);
    status := WatchLimitStatus(current, count, needed, recommended, current >= needed);
  }

  function StatusOf(count: nat, current: int, h: Headroom): WatchLimitStatus
    requires HeadroomOk(h)
  {
    var needed := CeilTimes(count, h);
    WatchLimitStatus(current, count, needed, CeilTimes(needed, h), current >= needed)
  }

  lemma {:induction false} QuotientAtMost(q: int, r: nat, d: nat, k: int)
    requires r < d
    ensures q <= k <==> q * d + r < (k + 1) * d
  {
    if q <= k {
      assert q * d + (k - q) * d + d == (k + 1) * d;
      assert (k - q) * d >= 0;
    } else {
      assert (k + 1) * d + (q - k - 1) * d == q * d;
      assert (q - k - 1) * d >= 0;
    }
  }

  /** The rounded-up product is the least bound. */
  lemma {:induction false} CeilAtMost(count: nat, h: Headroom, k: int)
    requires HeadroomOk(h)
    ensures CeilTimes(count, h) <= k <==> count * h.num <= k * h.den
  {
    var x := count * h.num + h.den - 1;
    QuotientAtMost(x / h.den, x % h.den, h.den, k);
    assert (k + 1) * h.den == k * h.den + h.den;
  }

  lemma {:induction false} ProductMonotone(a: nat, b: nat, m: nat)
    requires a <= b
    ensures a * m <= b * m
  {
    assert b * m == a * m + (b - a) * m;
  }

  lemma {:induction false} CeilMonotone(a: nat, b: nat, h: Headroom)
    requires HeadroomOk(h) && a <= b
    ensures a <= CeilTimes(a, h) <= CeilTimes(b, h)
  {
    var ca, cb := CeilTimes(a, h), CeilTimes(b, h);
    CeilAtMost(b, h, cb);
    ProductMonotone(a, b, h.num);
    CeilAtMost(a, h, cb);
    CeilAtMost(a, h, ca);
    ProductMonotone(h.den, h.num, a);
    if ca < a {
      LessProduct(ca, a, h.den);
    }
  }

  lemma {:induction false} LessProduct(a: nat, b: nat, m: nat)
    requires a < b && m > 0
    ensures a * m < b * m
  {
    assert b * m == a * m + (b - a) * m;
    ProductMonotone(1, b - a, m);
  }

  /** A gate that says yes has room for every watch of a fresh watcher with these roots. */
  lemma {:induction false} GateSound(dirs: Dirs, ignore: set<string>, roots: seq<Path>, current: int, h: Headroom)
    requires HeadroomOk(h) && StatusOf(CountOf(dirs, ignore, roots), current, h).ok
    ensures |Wanted(dirs, ignore, Elements(roots))| <= current
  {
    CountCoversWatches(dirs, ignore, roots);
    CeilMonotone(CountOf(dirs, ignore, roots), CountOf(dirs, ignore, roots), h);
  }

  /** With the limit raised to the recommended value, the gate still says yes for every tree that has
      grown to at most the number of directories needed before; and the gate says yes exactly when the
      limit is at least the count times the headroom, not rounded. */
  lemma {:induction false} RecommendedLasts(count: nat, current: int, h: Headroom, grown: nat)
    requires HeadroomOk(h) && grown <= StatusOf(count, current, h).needed
    ensures StatusOf(grown, StatusOf(count, current, h).recommended, h).ok
    ensures StatusOf(count, current, h).ok <==> count * h.num <= current * h.den
  {
    CeilMonotone(grown, CeilTimes(count, h), h);
    CeilAtMost(count, h, current);
  }

  /** What the status reports: the count and the limit as they are, the least number not below the count
      times the headroom, the least not below that times the headroom, and whether the limit suffices. */
  lemma {:induction false} StatusIsLeast(count: nat, current: int, h: Headroom)
    requires HeadroomOk(h)
    ensures var s := StatusOf(count, current, h);
            && s.dirs == count && s.current == current && (s.ok <==> s.needed <= current)
            && (s.needed - 1) * h.den < count * h.num <= s.needed * h.den
            && (s.recommended - 1) * h.den < s.needed * h.num <= s.recommended * h.den
  {
    var s := StatusOf(count, current, h);
    var needed: int, recommended: int := s.needed, s.recommended;
    CeilAtMost(count, h, needed);
    CeilAtMost(count, h, needed - 1);
    CeilAtMost(s.needed, h, recommended);
    CeilAtMost(s.needed, h, recommended - 1);
  }
}
