/** The router and the watcher agree: whatever can be routed lies in a watched directory. */
module Routable {
  import opened Paths
  import opened Types
  import opened Router
  import opened DirTree
  import opened RootChanges

  /** The watch paths of a configuration, as segment lists. */
  function RootPaths(config: RuntimeConfig): set<Path> {
    set s | s in config.watchPaths :: Segs(s)
  }

  /** The snapshot watches the root of every route. */
  ghost predicate WatchesItsRoutes(config: RuntimeConfig) {
    "" !in config.ignoreDirs
    && (forall s :: s in config.watchPaths ==> Normal(s))
    && (forall i :: 0 <= i < |config.routes| ==> config.routes[i].path in config.watchPaths)
  }

  /** On a tree that stands still: when a route matches an existing entry strictly below its root that is
      not ignored, so that routing gives a request for it, the entry's directory is in the watch set built
      from the watch paths. */
  lemma {:induction false} RoutableIsWatched(dirs: Dirs, config: RuntimeConfig, e: FsEvent, i: nat, lower: char -> char)
    requires ParentClosed(dirs) && WatchesItsRoutes(config)
    requires i < |config.routes| && Normal(e.path) && Matches(config.routes[i], e, lower)
    requires !IsIgnored(e.path, config.ignoreDirs) && e.path != config.routes[i].path
    requires Segs(e.path) != [] && Parent(Segs(e.path)) in dirs
    ensures RequestOf(config.routes[i], e) in Routed(e, config, lower)
    ensures Parent(Segs(e.path)) in Wanted(dirs, config.ignoreDirs, RootPaths(config))
  {
    RouteGives(config, e, i, lower);
    MatchedIsWatched(dirs, config, e, config.routes[i].path);
  }

  lemma {:induction false} RouteGives(config: RuntimeConfig, e: FsEvent, i: nat, lower: char -> char)
    requires i < |config.routes| && Matches(config.routes[i], e, lower) && !IsIgnored(e.path, config.ignoreDirs)
    ensures RequestOf(config.routes[i], e) in Routed(e, config, lower)
  {
    var q := RequestOf(config.routes[i], e);
    RequestsForExact(e, config.routes, lower, q);
    assert Causes(config.routes[i], e, lower, q);
  }

  lemma {:induction false} MatchedIsWatched(dirs: Dirs, config: RuntimeConfig, e: FsEvent, root: string)
    requires ParentClosed(dirs) && WatchesItsRoutes(config) && root in config.watchPaths && Normal(e.path)
    requires IsPathPrefix(root, e.path) && !IsIgnored(e.path, config.ignoreDirs) && e.path != root
    requires Segs(e.path) != [] && Parent(Segs(e.path)) in dirs
    ensures Parent(Segs(e.path)) in Wanted(dirs, config.ignoreDirs, RootPaths(config))
  {
    EntryBelow(config.ignoreDirs, root, e.path);
    LiveAbove(dirs, config.ignoreDirs, Segs(root), Parent(Segs(e.path)));
    assert Segs(root) in RootPaths(config);
    WantedIsCovered(dirs, config.ignoreDirs, RootPaths(config), Parent(Segs(e.path)));
  }

  lemma {:induction false} EntryBelow(ignore: set<string>, root: string, path: string)
    requires "" !in ignore && Normal(root) && Normal(path) && Segs(path) != [] && root != path
    requires IsPathPrefix(root, path) && !IsIgnored(path, ignore)
    ensures Segs(root) <= Parent(Segs(path)) && !Ignored(Parent(Segs(path)), ignore)
  {
    IsPathPrefixSegments(root, path);
    IsIgnoredSegments(path, ignore);
    SegsText(root);
    SegsText(path);
    var p := Segs(path);
    var r := Segs(root);
    assert r != p;
    assert |r| < |p| by {
      assert |r| == |p| ==> r == p;
    }
    assert forall k :: 0 <= k < |Parent(p)| ==> Parent(p)[k] == p[k];
  }

  /** And nothing else is watched: every watched directory lies at or below the root of some watch
      path, with no ignored segment. */
  lemma {:induction false} WatchedIsRoutable(dirs: Dirs, config: RuntimeConfig, d: Path)
    requires WatchesItsRoutes(config) && CleanPath(d)
    requires d in Wanted(dirs, config.ignoreDirs, RootPaths(config))
    ensures !IsIgnored(Text(d), config.ignoreDirs)
    ensures exists s :: s in config.watchPaths && IsPathPrefix(s, Text(d))
  {
    WantedIsCovered(dirs, config.ignoreDirs, RootPaths(config), d);
    TextSegs(d);
    IsIgnoredSegments(Text(d), config.ignoreDirs);
    var h :| h in RootPaths(config) && LiveRoot(dirs, config.ignoreDirs, h) && h <= d;
    var s :| s in config.watchPaths && Segs(s) == h;
    IsPathPrefixSegments(s, Text(d));
  }
}
