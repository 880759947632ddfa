/** The configuration snapshot that the engine runs on, built from the stored rows. */
module Snapshot {
  import opened Types
  import opened Schemas
  import opened Normalize
  import opened Repo
  import Paths
  import Routable

  function RuntimeOf(row: ServerRow): ServerRuntime {
    ServerRuntime(row.name, row.scanMode, row.debounceMode, row.window)
  }

  function RouteExtensions(extensions: set<string>, lower: char -> char): set<string> {
    set x | x in extensions :: NormalizeExtension(x, lower)
  }

  /** The route of a stored folder. */
  function RouteOf(t: Tables, folderId: int, lower: char -> char): FolderRoute {
    var f := if folderId in t.folders then t.folders[folderId] else FolderRow(0, "", None, false);
    var s := if f.serverId in t.servers then t.servers[f.serverId] else ServerRow("", Targeted, Off, 0, false, "");
    FolderRoute(f.serverId, s.name, NormalizePath(f.path), RouteExtensions(ExtensionsOf(t, folderId), lower),
                f.libraryId, s.scanMode, Or(ParseEventTypes(s.eventTypes), {}))
  }

  function EnabledServers(t: Tables): set<int> {
    set s | s in t.servers && t.servers[s].enabled
  }

  /** The enabled folders of these servers. */
  function EnabledFolders(t: Tables, servers: set<int>): set<int> {
    set f | f in t.folders && t.folders[f].enabled && t.folders[f].serverId in servers
  }

  /** One route for each of these folders, in the order of `ids`, and their paths are the watch paths. */
  ghost predicate RoutesOf(make: int -> FolderRoute, ids: seq<int>, folders: set<int>, routes: seq<FolderRoute>,
                           watchPaths: set<string>)
  {
    && |ids| == |routes|
    && (forall i, j :: 0 <= i < j < |ids| ==> ids[i] != ids[j])
    && (forall f :: f in ids <==> f in folders)
    && (forall i :: 0 <= i < |ids| ==> routes[i] == make(ids[i]))
    && (forall i :: 0 <= i < |routes| ==> routes[i].path in watchPaths)
    && (forall p :: p in watchPaths ==> exists i :: 0 <= i < |routes| && routes[i].path == p)
  }

  lemma {:induction false} RouteAdded(make: int -> FolderRoute, ids: seq<int>, folders: set<int>, routes: seq<FolderRoute>,
                                      watchPaths: set<string>, f: int)
    requires f !in folders && RoutesOf(make, ids, folders, routes, watchPaths)
    ensures RoutesOf(make, ids + [f], folders + {f}, routes + [make(f)], watchPaths + {make(f).path})
  {
    var more := routes + [make(f)];
    forall p | p in watchPaths + {make(f).path} ensures exists i :: 0 <= i < |more| && more[i].path == p {
      if p in watchPaths {
        var i :| 0 <= i < |routes| && routes[i].path == p;
        assert more[i].path == p;
      } else {
        assert more[|routes|].path == p;
      }
    }
  }

  /** The folders of a server that the loop has routed when it still has `todo` to visit. */
  ghost function Visited(t: Tables, serverId: int, todo: set<int>): set<int> {
    EnabledFolders(t, {serverId}) - todo
  }

  /** Visiting folder `f` adds its route if it is enabled. */
  lemma {:induction false} VisitedNext(t: Tables, make: int -> FolderRoute, serverId: int, todo: set<int>, f: int, folders: set<int>,
                                       ids: seq<int>, routes: seq<FolderRoute>, watchPaths: set<string>)
    requires f in todo && f in FoldersOf(t, serverId) && folders !! EnabledFolders(t, {serverId})
    requires RoutesOf(make, ids, folders + Visited(t, serverId, todo), routes, watchPaths)
    ensures var now := folders + Visited(t, serverId, todo - {f});
            if t.folders[f].enabled then RoutesOf(make, ids + [f], now, routes + [make(f)], watchPaths + {make(f).path})
            else RoutesOf(make, ids, now, routes, watchPaths)
  {
    var before, now := folders + Visited(t, serverId, todo), folders + Visited(t, serverId, todo - {f});
    if t.folders[f].enabled {
      assert f in EnabledFolders(t, {serverId});
      assert now == before + {f};
      RouteAdded(make, ids, before, routes, watchPaths, f);
    } else {
      assert now == before;
    }
  }

  /** The inner loop: the routes of one server are added to those there are. */
  method AddRoutes(t: Tables, make: int -> FolderRoute, serverId: int, routes: seq<FolderRoute>, watchPaths: set<string>,
                   ghost ids: seq<int>, ghost folders: set<int>)
    returns (routes': seq<FolderRoute>, watchPaths': set<string>, ghost ids': seq<int>)
    requires RoutesOf(make, ids, folders, routes, watchPaths)
    requires folders !! EnabledFolders(t, {serverId})
    ensures RoutesOf(make, ids', folders + EnabledFolders(t, {serverId}), routes', watchPaths')
  {
    routes', watchPaths', ids' := routes, watchPaths, ids;
    var todo := FoldersOf(t, serverId);
    NothingVisited(t, serverId, folders);
    while todo != {}
      invariant todo <= FoldersOf(t, serverId)
      invariant RoutesOf(make, ids', folders + Visited(t, serverId, todo), routes', watchPaths')
      decreases |todo|
    {
      var f := Pick(todo);
      VisitedNext(t, make, serverId, todo, f, folders, ids', routes', watchPaths');
      todo := todo - {f};
      if t.folders[f].enabled {
        watchPaths' := watchPaths' + {make(f).path};
        routes' := routes' + [make(f)];
        ids' := ids' + [f];
      }
    }
  }

  lemma {:induction false} NothingVisited(t: Tables, serverId: int, folders: set<int>)
    ensures folders + Visited(t, serverId, FoldersOf(t, serverId)) == folders
    ensures Visited(t, serverId, {}) == EnabledFolders(t, {serverId})
  {
  }

  function RuntimesOf(t: Tables, ids: set<int>): map<int, ServerRuntime>
    requires ids <= t.servers.Keys
  {
    map s | s in ids :: RuntimeOf(t.servers[s])
  }

  /** The outer loop, for any way of making a folder's route. */
  method Collect(t: Tables, make: int -> FolderRoute)
    returns (servers: map<int, ServerRuntime>, routes: seq<FolderRoute>, watchPaths: set<string>, ghost ids: seq<int>)
    ensures servers == RuntimesOf(t, EnabledServers(t))
    ensures RoutesOf(make, ids, EnabledFolders(t, EnabledServers(t)), routes, watchPaths)
  {
    servers, routes, watchPaths, ids := map[], [], {}, [];
    var todo := EnabledServers(t);
    ghost var done: set<int> := {};
    while todo != {}
      invariant todo <= EnabledServers(t) && done == EnabledServers(t) - todo
      invariant servers == RuntimesOf(t, done)
      invariant RoutesOf(make, ids, EnabledFolders(t, done), routes, watchPaths)
      decreases |todo|
    {
      var s := Pick(todo);
      assert EnabledFolders(t, done + {s}) == EnabledFolders(t, done) + EnabledFolders(t, {s});
      servers := servers[s := RuntimeOf(t.servers[s])];
      routes, watchPaths, ids := AddRoutes(t, make, s, routes, watchPaths, ids, EnabledFolders(t, done));
      todo := todo - {s};
      done := done + {s};
    }
    assert done == EnabledServers(t);
  }

  /** The snapshot agrees with the rows: the enabled servers, and one route for each enabled folder of one. */
  ghost predicate Agrees(t: Tables, config: RuntimeConfig, ids: seq<int>, lower: char -> char) {
    && config.servers == RuntimesOf(t, EnabledServers(t))
    && RoutesOf(f => RouteOf(t, f, lower), ids, EnabledFolders(t, EnabledServers(t)), config.routes, config.watchPaths)
  }

  /** `ids` names the folder of every route. */
  method BuildRuntimeConfig(t: Tables, ignoreDirs: set<string>, lower: char -> char)
    returns (config: RuntimeConfig, ghost ids: seq<int>)
    requires Intact(t)
    ensures config.ignoreDirs == ignoreDirs && Agrees(t, config, ids, lower)
  {
    var servers, routes, watchPaths, folders := Collect(t, f => RouteOf(t, f, lower));
    ids := folders;
    config := RuntimeConfig(watchPaths, routes, servers, ignoreDirs);
  }

  /** Every route's server is in the snapshot. */
  lemma {:induction false} RoutesHaveServers(t: Tables, config: RuntimeConfig, ids: seq<int>, lower: char -> char)
    requires Intact(t) && Agrees(t, config, ids, lower)
    ensures forall i :: 0 <= i < |config.routes| ==>
              && config.routes[i].serverId in config.servers
              && config.routes[i].serverName == config.servers[config.routes[i].serverId].name
              && config.routes[i].scanMode == config.servers[config.routes[i].serverId].scanMode
  {
    forall i | 0 <= i < |config.routes|
      ensures config.routes[i].serverId in config.servers
      ensures config.routes[i].serverName == config.servers[config.routes[i].serverId].name
      ensures config.routes[i].scanMode == config.servers[config.routes[i].serverId].scanMode
    {
      assert ids[i] in ids;
    }
  }

  /** The extension is what some file type of the folder normalizes to. */
  ghost predicate Listed(t: Tables, folderId: int, lower: char -> char, x: string) {
    exists k :: k in t.fileTypes && t.fileTypes[k].folderId == folderId && NormalizeExtension(t.fileTypes[k].extension, lower) == x
  }

  lemma {:induction false} ExtensionsListed(t: Tables, folderId: int, lower: char -> char, x: string)
    ensures x in RouteExtensions(ExtensionsOf(t, folderId), lower) <==> Listed(t, folderId, lower, x)
  {
    if y :| y in ExtensionsOf(t, folderId) && NormalizeExtension(y, lower) == x {
      var k :| k in t.fileTypes && t.fileTypes[k].folderId == folderId && t.fileTypes[k].extension == y;
    }
    if k :| k in t.fileTypes && t.fileTypes[k].folderId == folderId && NormalizeExtension(t.fileTypes[k].extension, lower) == x {
      assert t.fileTypes[k].extension in ExtensionsOf(t, folderId);
    }
  }

  /** A route is its folder's row with its server's row, its path and extensions normalized. */
  lemma {:induction false} RouteReadsRow(t: Tables, config: RuntimeConfig, ids: seq<int>, lower: char -> char, i: nat)
    requires Agrees(t, config, ids, lower) && i < |config.routes|
    ensures i < |ids| && ids[i] in t.folders && t.folders[ids[i]].enabled
    ensures var folder, route := t.folders[ids[i]], config.routes[i];
            && folder.serverId in t.servers && t.servers[folder.serverId].enabled
            && route.serverId == folder.serverId && route.libraryId == folder.libraryId
            && route.path == NormalizePath(folder.path)
            && route.serverName == t.servers[folder.serverId].name
            && route.scanMode == t.servers[folder.serverId].scanMode
            && forall x :: x in route.extensions <==> Listed(t, ids[i], lower, x)
  {
    assert ids[i] in ids;
    assert config.routes[i] == RouteOf(t, ids[i], lower);
    forall x ensures x in config.routes[i].extensions <==> Listed(t, ids[i], lower, x) { ExtensionsListed(t, ids[i], lower, x); }
  }

  /** Every enabled folder of an enabled server has its route, once; every enabled server is there as its row
      says; and exactly the routes' paths are watched. */
  lemma {:induction false} SnapshotIsWhole(t: Tables, config: RuntimeConfig, ids: seq<int>, lower: char -> char)
    requires Agrees(t, config, ids, lower)
    ensures |ids| == |config.routes| && forall i, j :: 0 <= i < j < |ids| ==> ids[i] != ids[j]
    ensures forall f :: f in ids <==> f in t.folders && t.folders[f].enabled
                                      && t.folders[f].serverId in t.servers && t.servers[t.folders[f].serverId].enabled
    ensures forall s :: s in config.servers <==> s in t.servers && t.servers[s].enabled
    ensures forall s :: s in config.servers ==>
              var row := t.servers[s]; config.servers[s] == ServerRuntime(row.name, row.scanMode, row.debounceMode, row.window)
    ensures forall p :: p in config.watchPaths <==> exists i :: 0 <= i < |config.routes| && config.routes[i].path == p
  {
  }

  predicate SingleSlashed(path: string) {
    Root(Strip(path)) == "/"
  }

  lemma {:induction false} RouteIsNormal(t: Tables, f: int, lower: char -> char)
    requires f in t.folders && SingleSlashed(t.folders[f].path)
    ensures Paths.Normal(RouteOf(t, f, lower).path)
  {
    NormalizeAbsolute(t.folders[f].path);
  }

  /** With folder paths that start with one slash, the snapshot is one that watches what it routes. */
  lemma {:induction false} SnapshotWatchesItsRoutes(t: Tables, config: RuntimeConfig, ids: seq<int>, lower: char -> char)
    requires Agrees(t, config, ids, lower) && "" !in config.ignoreDirs
    requires forall f :: f in EnabledFolders(t, EnabledServers(t)) ==> SingleSlashed(t.folders[f].path)
    ensures Routable.WatchesItsRoutes(config)
  {
    forall p | p in config.watchPaths ensures Paths.Normal(p) {
      var i :| 0 <= i < |config.routes| && config.routes[i].path == p;
      assert ids[i] in ids;
      RouteIsNormal(t, ids[i], lower);
    }
  }

  /** A route's event types are those that its server's row reads as. */
  lemma {:induction false} RoutesReadRows(t: Tables, config: RuntimeConfig, ids: seq<int>, lower: char -> char, i: nat)
    requires Intact(t) && Agrees(t, config, ids, lower) && i < |config.routes|
    ensures var serverId := config.routes[i].serverId;
            serverId in t.servers && ParseEventTypes(t.servers[serverId].eventTypes) == Some(config.routes[i].eventTypes)
  {
    assert ids[i] in ids;
  }

  // ---- two snapshots ----------------------------------------------------------------------

  /** One enabled server with one enabled folder. */
  function OneFolder(row: ServerRow, path: string): Tables {
    Tables(map[1 := row], map[1 := FolderRow(1, path, None, true)], map[])
  }

  predicate DifferentPaths(p: string, q: string) {
    NormalizePath(p) != NormalizePath(q)
  }

  lemma {:induction false} OneFolderEnabled(row: ServerRow, path: string)
    requires row.enabled
    ensures EnabledServers(OneFolder(row, path)) == {1} && EnabledFolders(OneFolder(row, path), {1}) == {1}
  {
  }

  /** A table whose only enabled folder is number 1, and its snapshot. */
  lemma {:induction false} OneRoute(t: Tables, ignoreDirs: set<string>, lower: char -> char) returns (config: RuntimeConfig)
    requires EnabledServers(t) == {1} && EnabledFolders(t, {1}) == {1}
    ensures Agrees(t, config, [1], lower) && config.watchPaths == {RouteOf(t, 1, lower).path}
  {
    config := OneRouteOf(t, f => RouteOf(t, f, lower), ignoreDirs);
  }

  lemma {:induction false} OneRouteOf(t: Tables, make: int -> FolderRoute, ignoreDirs: set<string>) returns (config: RuntimeConfig)
    requires EnabledServers(t) == {1}
    ensures config.servers == RuntimesOf(t, {1}) && config.watchPaths == {make(1).path}
    ensures RoutesOf(make, [1], {1}, config.routes, config.watchPaths)
  {
    config := RuntimeConfig({make(1).path}, [make(1)], RuntimesOf(t, {1}), ignoreDirs);
    assert config.routes[0].path == make(1).path;
  }

  lemma {:induction false} RoutesDiffer(row: ServerRow, p: string, q: string, lower: char -> char)
    requires DifferentPaths(p, q)
    ensures {RouteOf(OneFolder(row, p), 1, lower).path} != {RouteOf(OneFolder(row, q), 1, lower).path}
  {
    var a, b := RouteOf(OneFolder(row, p), 1, lower).path, RouteOf(OneFolder(row, q), 1, lower).path;
    assert a == NormalizePath(p) && b == NormalizePath(q);
    assert a in {a} && a !in {b};
  }

  /** The snapshots of two tables that differ in the path of one folder. */
  lemma {:induction false} TwoSnapshots(row: ServerRow, p: string, q: string, ignoreDirs: set<string>, lower: char -> char)
    returns (first: RuntimeConfig, second: RuntimeConfig)
    requires row.enabled && ParseEventTypes(row.eventTypes).Some? && DifferentPaths(p, q)
    ensures Agrees(OneFolder(row, p), first, [1], lower) && Agrees(OneFolder(row, q), second, [1], lower)
    ensures first.watchPaths != {} && first.watchPaths != second.watchPaths
  {
    OneFolderEnabled(row, p);
    OneFolderEnabled(row, q);
    first := OneRoute(OneFolder(row, p), ignoreDirs, lower);
    second := OneRoute(OneFolder(row, q), ignoreDirs, lower);
    RoutesDiffer(row, p, q, lower);
    assert RouteOf(OneFolder(row, p), 1, lower).path in first.watchPaths;
  }
}
