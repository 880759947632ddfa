/** When the debouncer replaces a pending request by a later one with the same key, is the scan
    target of the replaced request still scanned?  Exactly when no two routes of a server clash. */
module Coalescing {
  import opened Paths
  import opened Types
  import opened Normalize
  import opened Router

  /** One path is the other, or its parent directory. */
  predicate Touching(a: Path, b: Path) {
    a == b || (|b| == |a| + 1 && a <= b) || (|a| == |b| + 1 && b <= a)
  }

  /** Two routes of one server whose requests can share a key and still differ in target. */
  predicate Clash(r: FolderRoute, s: FolderRoute) {
    r.serverId == s.serverId && r.libraryId != s.libraryId
    && (if r.scanMode == Targeted then Touching(Segs(r.path), Segs(s.path))
        else LibraryKey(r.libraryId) == LibraryKey(s.libraryId))
  }

  predicate SameTarget(p: ScanRequest, q: ScanRequest) {
    p.scanMode == q.scanMode && p.scanPath == q.scanPath && p.libraryId == q.libraryId
  }

  predicate ShareKey(p: ScanRequest, q: ScanRequest) {
    p.serverId == q.serverId && p.scanKey == q.scanKey
  }

  ghost predicate Emits(config: RuntimeConfig, lower: char -> char, e: FsEvent, q: ScanRequest) {
    Normal(e.path) && q in Routed(e, config, lower)
  }

  ghost predicate Lossless(config: RuntimeConfig, lower: char -> char) {
    forall e, f, p, q :: Emits(config, lower, e, p) && Emits(config, lower, f, q) && ShareKey(p, q) ==> SameTarget(p, q)
  }

  /** The scan mode belongs to the server, so its routes agree on it. */
  ghost predicate OneModePerServer(config: RuntimeConfig) {
    forall i, j :: 0 <= i < |config.routes| && 0 <= j < |config.routes|
      && config.routes[i].serverId == config.routes[j].serverId
      ==> config.routes[i].scanMode == config.routes[j].scanMode
  }

  /** An extension that the name of some file gives. */
  ghost predicate PossibleExtension(ext: string, lower: char -> char) {
    exists raw :: '.' !in raw && '/' !in raw && LowerAll(raw, lower) == ext
  }

  /** A route that some file can match: its root is not ignored, its server is subscribed to some
      event type, and some listed extension is possible. */
  ghost predicate Live(r: FolderRoute, ignore: set<string>, lower: char -> char) {
    !IsIgnored(r.path, ignore) && r.eventTypes != {}
    && (r.extensions == {} || exists ext :: ext in r.extensions && PossibleExtension(ext, lower))
  }

  /** No two routes that files can match clash. */
  ghost predicate Separated(config: RuntimeConfig, lower: char -> char) {
    forall i, j :: 0 <= i < |config.routes| && 0 <= j < |config.routes|
      && Live(config.routes[i], config.ignoreDirs, lower) && Live(config.routes[j], config.ignoreDirs, lower)
      ==> !Clash(config.routes[i], config.routes[j])
  }

  /** A snapshot: its paths are normal and a server has one scan mode. */
  ghost predicate WellFormed(config: RuntimeConfig) {
    "" !in config.ignoreDirs && OneModePerServer(config)
    && forall i :: 0 <= i < |config.routes| ==> Normal(config.routes[i].path)
  }

  /** Coalescing loses no scan target exactly when no two routes of one server clash, those aside that no
      file can match: with targeted scans, routes of different libraries must not have the same root nor a
      parent and its child as roots; deeper nesting is harmless.  With library scans, only a missing
      library id and the literal id "None" clash. */
  lemma {:induction false} CoalescingExact(config: RuntimeConfig, lower: char -> char)
    requires WellFormed(config)
    ensures Lossless(config, lower) <==> Separated(config, lower)
  {
    if Separated(config, lower) {
      forall e, f, p, q | Emits(config, lower, e, p) && Emits(config, lower, f, q) && ShareKey(p, q)
        ensures SameTarget(p, q)
      {
        SeparatedSuffices(config, lower, e, f, p, q);
      }
    }
    if i, j :| 0 <= i < |config.routes| && 0 <= j < |config.routes| && Clash(config.routes[i], config.routes[j])
               && Live(config.routes[i], config.ignoreDirs, lower) && Live(config.routes[j], config.ignoreDirs, lower) {
      ClashLoses(config, lower, i, j);
    }
  }

  /** The key of a request and its scan path, on segments. */
  lemma {:induction false} RequestKey(r: FolderRoute, e: FsEvent, lower: char -> char)
    requires Normal(r.path) && Normal(e.path) && Matches(r, e, lower)
    ensures Segs(r.path) <= Segs(e.path)
    ensures var key := Text(ScanSegs(Segs(r.path), Segs(e.path)));
            var q := RequestOf(r, e);
            q.libraryId == r.libraryId && q.scanMode == r.scanMode && q.serverId == r.serverId
            && (r.scanMode == Targeted ==> q.scanPath == Some(key) && q.scanKey == key)
            && (r.scanMode == Library ==> q.scanPath == None && q.scanKey == LibraryKey(r.libraryId))
  {
    IsPathPrefixSegments(r.path, e.path);
    ComputeScanPathSegments(r.path, e.path);
  }

  /** A route that gives a request can match a file. */
  lemma {:induction false} MatchedIsLive(r: FolderRoute, e: FsEvent, ignore: set<string>, lower: char -> char)
    requires Normal(r.path) && Normal(e.path) && "" !in ignore
    requires Matches(r, e, lower) && !IsIgnored(e.path, ignore)
    ensures Live(r, ignore, lower)
  {
    IsPathPrefixSegments(r.path, e.path);
    IsIgnoredSegments(r.path, ignore);
    IsIgnoredSegments(e.path, ignore);
    assert forall i :: 0 <= i < |Segs(r.path)| ==> Segs(r.path)[i] == Segs(e.path)[i];
    if r.extensions != {} {
      ExtensionMatchesMeaning(e.path, r.extensions, lower);
      var base: string, ext: string :| FileName(e.path) == base + "." + ext && base != "" && '.' !in ext
                                       && LowerAll(ext, lower) in r.extensions;
      assert '/' !in FileName(e.path);
      assert forall k :: 0 <= k < |ext| ==> FileName(e.path)[|base| + 1 + k] == ext[k];
      assert PossibleExtension(LowerAll(ext, lower), lower);
    }
  }

  lemma {:induction false} SharedScanTouches(a: Path, f: Path, b: Path, g: Path)
    requires a <= f && b <= g && CleanPath(f) && CleanPath(g)
    requires Text(ScanSegs(a, f)) == Text(ScanSegs(b, g))
    ensures Touching(a, b)
  {
    TextInjective(ScanSegs(a, f), ScanSegs(b, g));
    var s := ScanSegs(a, f);
    assert a == s[..|a|] && b == s[..|b|];
  }

  lemma {:induction false} SeparatedSuffices(config: RuntimeConfig, lower: char -> char,
                                             e: FsEvent, f: FsEvent, p: ScanRequest, q: ScanRequest)
    requires WellFormed(config) && Separated(config, lower)
    requires Emits(config, lower, e, p) && Emits(config, lower, f, q) && ShareKey(p, q)
    ensures SameTarget(p, q)
  {
    RequestsForExact(e, config.routes, lower, p);
    RequestsForExact(f, config.routes, lower, q);
    var i: nat :| i < |config.routes| && Causes(config.routes[i], e, lower, p);
    var j: nat :| j < |config.routes| && Causes(config.routes[j], f, lower, q);
    var r, s := config.routes[i], config.routes[j];
    MatchedIsLive(r, e, config.ignoreDirs, lower);
    MatchedIsLive(s, f, config.ignoreDirs, lower);
    RequestKey(r, e, lower);
    RequestKey(s, f, lower);
    assert !Clash(r, s);
    assert r.scanMode == s.scanMode;
    if r.scanMode == Targeted {
      SharedScanTouches(Segs(r.path), Segs(e.path), Segs(s.path), Segs(f.path));
    }
  }

  // ---- two events that clash --------------------------------------------------------------

  lemma {:induction false} LongerThanAll(names: set<string>) returns (n: nat)
    ensures forall s :: s in names ==> |s| < n
  {
    if names == {} {
      n := 0;
    } else {
      var s :| s in names;
      var m := LongerThanAll(names - {s});
      n := if m > |s| then m else |s| + 1;
    }
  }

  /** A file name that the route accepts and that is not ignored. */
  lemma {:induction false} SomeFileName(r: FolderRoute, ignore: set<string>, lower: char -> char) returns (name: string)
    requires Live(r, ignore, lower)
    ensures Clean(name) && name !in ignore
    ensures r.extensions == {}
            || exists base: string, ext: string ::
                 name == base + "." + ext && base != "" && '.' !in ext && LowerAll(ext, lower) in r.extensions
  {
    var n := LongerThanAll(ignore);
    var base := seq(n + 3, _ => 'x');
    if r.extensions == {} {
      name := base;
    } else {
      var ext :| ext in r.extensions && PossibleExtension(ext, lower);
      var raw :| '.' !in raw && '/' !in raw && LowerAll(raw, lower) == ext;
      name := base + "." + raw;
    }
  }

  lemma {:induction false} EntryNotIgnored(dir: Path, name: string, ignore: set<string>)
    requires "" !in ignore && CleanPath(dir) && Clean(name) && name !in ignore && !IsIgnored(Text(dir), ignore)
    ensures Normal(Text(dir + [name])) && Segs(Text(dir + [name])) == dir + [name]
    ensures !IsIgnored(Text(dir + [name]), ignore)
  {
    TextSegs(dir);
    TextSegs(dir + [name]);
    IsIgnoredSegments(Text(dir), ignore);
    IsIgnoredSegments(Text(dir + [name]), ignore);
  }

  lemma {:induction false} FileNameOf(dir: Path, name: string)
    requires CleanPath(dir) && Clean(name)
    ensures FileName(Text(dir + [name])) == name
  {
    if dir == [] {
      assert dir + [name] == [name];
      SplitConcat("", name, '/');
      assert Text([name]) == "" + ['/'] + name;
    } else {
      JoinConcat(dir, [name], '/');
      assert Text(dir + [name]) == Text(dir) + ['/'] + name;
      SplitConcat(Text(dir), name, '/');
    }
    SplitWhole(name, '/');
  }

  lemma {:induction false} FileIn(r: FolderRoute, dir: Path, ignore: set<string>, lower: char -> char) returns (e: FsEvent)
    requires Normal(r.path) && Live(r, ignore, lower) && "" !in ignore
    requires CleanPath(dir) && Segs(r.path) <= dir && !IsIgnored(Text(dir), ignore)
    ensures Normal(e.path) && !IsIgnored(e.path, ignore) && Matches(r, e, lower)
    ensures |Segs(e.path)| == |dir| + 1 && dir <= Segs(e.path)
  {
    var name := SomeFileName(r, ignore, lower);
    var eventType :| eventType in r.eventTypes;
    e := FsEvent(Text(dir + [name]), eventType, false);
    EntryNotIgnored(dir, name, ignore);
    assert dir <= dir + [name];
    IsPathPrefixSegments(r.path, e.path);
    FileNameOf(dir, name);
    ExtensionMatchesMeaning(e.path, r.extensions, lower);
  }

  /** A route emits a request for a file put directly into its root or into a child of its root, and
      a targeted request then scans that directory. */
  lemma {:induction false} RequestInto(config: RuntimeConfig, lower: char -> char, i: nat, dir: Path)
    returns (e: FsEvent, q: ScanRequest)
    requires WellFormed(config) && i < |config.routes| && Live(config.routes[i], config.ignoreDirs, lower)
    requires CleanPath(dir) && !IsIgnored(Text(dir), config.ignoreDirs)
    requires Segs(config.routes[i].path) <= dir && |dir| <= |Segs(config.routes[i].path)| + 1
    ensures Emits(config, lower, e, q)
    ensures q.serverId == config.routes[i].serverId && q.libraryId == config.routes[i].libraryId
    ensures q.scanKey == if config.routes[i].scanMode == Targeted then Text(dir) else LibraryKey(q.libraryId)
  {
    var r := config.routes[i];
    e := FileIn(r, dir, config.ignoreDirs, lower);
    q := RequestOf(r, e);
    RequestKey(r, e, lower);
    assert ScanSegs(Segs(r.path), Segs(e.path)) == dir;
    RequestsForExact(e, config.routes, lower, q);
    assert Causes(config.routes[i], e, lower, q);
  }

  lemma {:induction false} ClashLoses(config: RuntimeConfig, lower: char -> char, i: nat, j: nat)
    requires WellFormed(config) && i < |config.routes| && j < |config.routes|
    requires Live(config.routes[i], config.ignoreDirs, lower) && Live(config.routes[j], config.ignoreDirs, lower)
    requires Clash(config.routes[i], config.routes[j])
    ensures !Lossless(config, lower)
  {
    var r, s := config.routes[i], config.routes[j];
    assert r.scanMode == s.scanMode;
    var a, b := Segs(r.path), Segs(s.path);
    SegsText(r.path);
    SegsText(s.path);
    // With nested roots, both files go directly into the deeper one.
    var touch := r.scanMode == Targeted;
    var e, p := RequestInto(config, lower, i, if touch && |a| < |b| then b else a);
    var f, q := RequestInto(config, lower, j, if touch && |b| < |a| then a else b);
    assert ShareKey(p, q) && !SameTarget(p, q);
  }

  /** Library keys collide only between a missing id and the literal id "None". */
  lemma {:induction false} LibraryKeysCollide(a: Option<string>, b: Option<string>)
    ensures LibraryKey(a) == LibraryKey(b) <==> a == b || {a, b} == {None, Some("None")}
  {
    var ta := if a.Some? then a.value else "None";
    var tb := if b.Some? then b.value else "None";
    assert LibraryKey(a)[4..] == ta && LibraryKey(b)[4..] == tb;
    if {a, b} == {None, Some("None")} {
      assert None in {a, b} && Some("None") in {a, b};
    }
    if LibraryKey(a) == LibraryKey(b) && a != b {
      assert {a, b} == {None, Some("None")};
    }
  }
}
