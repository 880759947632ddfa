/** What the requests of an event say, field by field, and that there is one for each route that matches. */
module Requests {
  import opened Paths
  import opened Types
  import opened Normalize
  import opened Router

  /** The request names the file and what happened to it, its route's server and library, and what to scan: the
      library, or the folder right below the route's root that the file is in, the root itself if there is none. */
  predicate Says(q: ScanRequest, r: FolderRoute, e: FsEvent) {
    && q.filePath == e.path && q.eventType == e.eventType
    && q.serverId == r.serverId && q.serverName == r.serverName && q.scanMode == r.scanMode && q.libraryId == r.libraryId
    && match r.scanMode
       case Library => q.scanPath == None && q.topFolder == None
                       && q.scanKey == "lib:" + (match r.libraryId case Some(id) => id case None => "None")
       case Targeted =>
         var root, file := Segs(r.path), Segs(e.path);
         && q.scanPath == Some(q.scanKey)
         && if |file| >= |root| + 2 then q.topFolder == Some(file[|root|]) && q.scanKey == Text(root + [file[|root|]])
            else q.topFolder == None && q.scanKey == r.path
  }

  lemma {:induction false} RequestFields(r: FolderRoute, e: FsEvent, scan: string, top: Option<string>)
    requires |r.path| <= |e.path| && ComputeScanPath(r.path, e.path) == (scan, top)
    ensures RequestOf(r, e)
            == if r.scanMode == Targeted
               then ScanRequest(r.serverId, r.serverName, r.scanMode, Some(scan), r.libraryId, scan, e.eventType, e.path, top)
               else ScanRequest(r.serverId, r.serverName, r.scanMode, None, r.libraryId, LibraryKey(r.libraryId), e.eventType, e.path, None)
  {
  }

  lemma {:induction false} SaysByFields(q: ScanRequest, made: ScanRequest, r: FolderRoute, e: FsEvent, scan: string, top: Option<string>)
    requires var root, file := Segs(r.path), Segs(e.path);
             if |file| >= |root| + 2 then top == Some(file[|root|]) && scan == Text(root + [file[|root|]])
             else top == None && scan == r.path
    requires made
             == if r.scanMode == Targeted
                then ScanRequest(r.serverId, r.serverName, r.scanMode, Some(scan), r.libraryId, scan, e.eventType, e.path, top)
                else ScanRequest(r.serverId, r.serverName, r.scanMode, None, r.libraryId, LibraryKey(r.libraryId), e.eventType, e.path, None)
    ensures Says(q, r, e) <==> q == made
  {
  }

  lemma {:induction false} ScanOf(r: FolderRoute, e: FsEvent) returns (scan: string, top: Option<string>)
    requires Normal(r.path) && Normal(e.path) && Segs(r.path) <= Segs(e.path)
    ensures |r.path| <= |e.path| && ComputeScanPath(r.path, e.path) == (scan, top)
    ensures var root, file := Segs(r.path), Segs(e.path);
            if |file| >= |root| + 2 then top == Some(file[|root|]) && scan == Text(root + [file[|root|]])
            else top == None && scan == r.path
  {
    var root, file := Segs(r.path), Segs(e.path);
    ComputeScanPathSegments(r.path, e.path);
    SegsText(r.path);
    assert |file| >= |root| + 2 ==> file[..|root| + 1] == root + [file[|root|]];
    scan, top := Text(ScanSegs(root, file)), TopSegment(root, file);
  }

  lemma {:induction false} RequestSays(r: FolderRoute, e: FsEvent, lower: char -> char, q: ScanRequest)
    requires Normal(r.path) && Normal(e.path)
    ensures Causes(r, e, lower, q) <==> Matches(r, e, lower) && Says(q, r, e)
  {
    if Matches(r, e, lower) {
      IsPathPrefixSegments(r.path, e.path);
      var scan, top := ScanOf(r, e);
      var made := RequestOf(r, e);
      RequestFields(r, e, scan, top);
      SaysByFields(q, made, r, e, scan, top);
    }
  }

  /** The file's name; the root directory has none. */
  function LastSegment(path: string): string {
    var segs := Segs(path);
    if segs == [] then "" else segs[|segs| - 1]
  }

  lemma {:induction false} NameIsLastSegment(path: string)
    requires Normal(path)
    ensures FileName(path) == LastSegment(path)
  {
    SegsText(path);
    var p := Segs(path);
    if p == [] {
      SplitConcat("", "", '/');
      SplitWhole("", '/');
      assert path == "" + ['/'] + "";
    } else {
      assert path == "" + ['/'] + Join(p, '/');
      SplitConcat("", Join(p, '/'), '/');
      SplitWhole("", '/');
      forall i | 0 <= i < |p| ensures '/' !in p[i] { assert Clean(p[i]); }
      SplitJoin(p, '/');
      assert Split(path, '/') == [""] + p;
    }
  }

  /** The file is at or below the route's root, its name gives a listed extension if any are listed, and the
      server is subscribed to what happened. */
  ghost predicate Concerns(r: FolderRoute, e: FsEvent, lower: char -> char) {
    && Segs(r.path) <= Segs(e.path) && e.eventType in r.eventTypes
    && (r.extensions == {}
        || exists base: string, ext: string ::
             LastSegment(e.path) == base + "." + ext && base != "" && '.' !in ext && LowerAll(ext, lower) in r.extensions)
  }

  lemma {:induction false} MatchesConcerns(r: FolderRoute, e: FsEvent, lower: char -> char)
    requires Normal(r.path) && Normal(e.path)
    ensures Matches(r, e, lower) <==> Concerns(r, e, lower)
  {
    IsPathPrefixSegments(r.path, e.path);
    ExtensionMatchesMeaning(e.path, r.extensions, lower);
    NameIsLastSegment(e.path);
  }

  predicate NormalRoutes(config: RuntimeConfig) {
    forall i :: 0 <= i < |config.routes| ==> Normal(config.routes[i].path)
  }

  predicate IgnoredSegment(e: FsEvent, ignore: set<string>) {
    exists i :: 0 <= i < |Segs(e.path)| && Segs(e.path)[i] in ignore
  }

  ghost predicate Asks(r: FolderRoute, e: FsEvent, lower: char -> char, q: ScanRequest) {
    Concerns(r, e, lower) && Says(q, r, e)
  }

  /** An event yields exactly the requests that say what some route it concerns asks for; none if a segment of its
      path is ignored. */
  lemma {:induction false} RoutedExact(e: FsEvent, config: RuntimeConfig, lower: char -> char, q: ScanRequest)
    requires Normal(e.path) && NormalRoutes(config) && "" !in config.ignoreDirs
    ensures q in Routed(e, config, lower)
            <==> !IgnoredSegment(e, config.ignoreDirs)
                 && exists i :: 0 <= i < |config.routes| && Asks(config.routes[i], e, lower, q)
  {
    IsIgnoredSegments(e.path, config.ignoreDirs);
    RequestsForExact(e, config.routes, lower, q);
    forall i | 0 <= i < |config.routes| ensures Causes(config.routes[i], e, lower, q) <==> Asks(config.routes[i], e, lower, q) {
      RequestSays(config.routes[i], e, lower, q);
      MatchesConcerns(config.routes[i], e, lower);
    }
    CauseIsSome(config.routes, e, lower, q);
  }

  lemma {:induction false} CauseIsSome(routes: seq<FolderRoute>, e: FsEvent, lower: char -> char, q: ScanRequest)
    ensures AnyOf(routes, r => Causes(r, e, lower, q)) <==> exists i :: 0 <= i < |routes| && Causes(routes[i], e, lower, q)
  {
    if i :| 0 <= i < |routes| && Causes(routes[i], e, lower, q) {
      assert (r => Causes(r, e, lower, q))(routes[i]);
    }
  }

  // ---- order and number -----------------------------------------------------------------------

  /** The routes of these numbers, in their order, are exactly those that hold, and each has its request. */
  ghost predicate InOrder(requests: seq<ScanRequest>, ids: seq<nat>, routes: seq<FolderRoute>,
                          holds: FolderRoute -> bool, causes: (FolderRoute, ScanRequest) -> bool)
  {
    && |requests| == |ids|
    && (forall k, l :: 0 <= k < l < |ids| ==> ids[k] < ids[l])
    && (forall k :: 0 <= k < |ids| ==> ids[k] < |routes| && causes(routes[ids[k]], requests[k]))
    && (forall i: nat :: i < |routes| && holds(routes[i]) ==> i in ids)
  }

  /** One request for each matching route and no other, in the order of the routes. */
  lemma {:induction false} OneEachInOrder(e: FsEvent, routes: seq<FolderRoute>, lower: char -> char) returns (ids: seq<nat>)
    ensures InOrder(RequestsFor(e, routes, lower), ids, routes, r => Matches(r, e, lower), (r, q) => Causes(r, e, lower, q))
  {
    ids := [];
    if routes != [] {
      var n := |routes| - 1;
      var before := OneEachInOrder(e, routes[..n], lower);
      var one := if Matches(routes[n], e, lower) then [RequestOf(routes[n], e)] else [];
      ids := OrderGrows(RequestsFor(e, routes[..n], lower), before, routes, r => Matches(r, e, lower),
                        (r, q) => Causes(r, e, lower, q), one);
    }
  }

  lemma {:induction false} OrderGrows(requests: seq<ScanRequest>, ids: seq<nat>, routes: seq<FolderRoute>,
                                      holds: FolderRoute -> bool, causes: (FolderRoute, ScanRequest) -> bool, one: seq<ScanRequest>)
    returns (more: seq<nat>)
    requires routes != [] && InOrder(requests, ids, routes[..|routes| - 1], holds, causes)
    requires if holds(routes[|routes| - 1]) then |one| == 1 && causes(routes[|routes| - 1], one[0]) else one == []
    ensures InOrder(requests + one, more, routes, holds, causes)
  {
    var n := |routes| - 1;
    var front := routes[..n];
    more := ids + if holds(routes[n]) then [n] else [];
    assert forall i: nat :: i < n ==> front[i] == routes[i];
    forall i: nat | i < |routes| && holds(routes[i]) ensures i in more {
      if i < n {
        assert holds(front[i]) && i in ids;
      }
    }
  }
}
