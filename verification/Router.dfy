/** Filters and routing: from a filesystem event to the scan requests it causes. */
module Router {
  import opened Paths
  import opened Types
  import opened Normalize

  // ---- filters ----------------------------------------------------------------------------

  predicate IsIgnored(path: string, ignore: set<string>) {
    ignore != {} && exists i :: 0 <= i < |Split(path, '/')| && Split(path, '/')[i] in ignore
  }

  /** `path.rsplit("/", 1)[-1]`. */
  function FileName(path: string): string {
    var parts := Split(path, '/');
    parts[|parts| - 1]
  }

  /** `name.rpartition(".")`, without the separator: what is left and right of the last dot. */
  function AroundLastDot(name: string): (string, string) {
    var parts := Split(name, '.');
    (Join(parts[..|parts| - 1], '.'), parts[|parts| - 1])
  }

  predicate ExtensionMatches(path: string, extensions: set<string>, lower: char -> char) {
    extensions == {}
    || (var name := FileName(path);
        var (base, ext) := AroundLastDot(name);
        '.' in name && base != "" && LowerAll(ext, lower) in extensions)
  }

  /** The filter accepts exactly the names made of a non-empty base, a dot, and a listed extension. */
  lemma {:induction false} ExtensionMatchesMeaning(path: string, extensions: set<string>, lower: char -> char)
    ensures ExtensionMatches(path, extensions, lower)
            <==> extensions == {}
                 || exists base: string, ext: string ::
                      FileName(path) == base + "." + ext && base != "" && '.' !in ext
                      && LowerAll(ext, lower) in extensions
  {
    var name := FileName(path);
    var (base, ext) := AroundLastDot(name);
    if '.' in name {
      LastDot(name);
      assert name == base + "." + ext;
    }
    forall b: string, e: string | name == b + "." + e && '.' !in e ensures b == base && e == ext {
      NameAroundDot(b, e);
    }
  }

  lemma {:induction false} LastDot(name: string)
    requires '.' in name
    ensures var (base, ext) := AroundLastDot(name); name == base + "." + ext && '.' !in ext
  {
    var parts := Split(name, '.');
    assert |parts| > 1;
    assert parts == parts[..|parts| - 1] + [parts[|parts| - 1]];
    JoinConcat(parts[..|parts| - 1], [parts[|parts| - 1]], '.');
  }

  lemma {:induction false} NameAroundDot(base: string, ext: string)
    requires '.' !in ext
    ensures AroundLastDot(base + "." + ext) == (base, ext)
  {
    SplitConcat(base, ext, '.');
    SplitWhole(ext, '.');
    assert (Split(base, '.') + [ext])[..|Split(base, '.')|] == Split(base, '.');
  }

  // ---- router -----------------------------------------------------------------------------

  /** The segments of a file below `folderRoot`; `[""]` for the root itself. */
  function PartsBelow(folderRoot: string, filePath: string): seq<string>
    requires |folderRoot| <= |filePath|
  {
    Split(LStrip(filePath[|folderRoot|..], '/'), '/')
  }

  /** The scan path and the top folder of a file under `folderRoot`. */
  function ComputeScanPath(folderRoot: string, filePath: string): (string, Option<string>)
    requires |folderRoot| <= |filePath|
  {
    var parts := PartsBelow(folderRoot, filePath);
    if |parts| >= 2 then (RStrip(folderRoot, '/') + "/" + parts[0], Some(parts[0]))
    else (folderRoot, None)
  }

  predicate IsPathPrefix(prefix: string, path: string) {
    path == prefix
    || StartsWith(path, if prefix != "" && prefix[|prefix| - 1] == '/' then prefix else prefix + "/")
  }

  predicate Matches(r: FolderRoute, e: FsEvent, lower: char -> char) {
    IsPathPrefix(r.path, e.path) && ExtensionMatches(e.path, r.extensions, lower) && e.eventType in r.eventTypes
  }

  function LibraryKey(libraryId: Option<string>): string {
    "lib:" + (if libraryId.Some? then libraryId.value else "None")
  }

  function RequestOf(r: FolderRoute, e: FsEvent): ScanRequest
    requires |r.path| <= |e.path|
  {
    var (scanPath, top) := ComputeScanPath(r.path, e.path);
    var targeted := r.scanMode == Targeted;
    ScanRequest(r.serverId, r.serverName, r.scanMode,
                if targeted then Some(scanPath) else None,
                r.libraryId,
                if targeted then scanPath else LibraryKey(r.libraryId),
                e.eventType, e.path,
                if targeted then top else None)
  }

  /** One request per matching route, in the order of the routes. */
  function RequestsFor(e: FsEvent, routes: seq<FolderRoute>, lower: char -> char): seq<ScanRequest> {
    if routes == [] then []
    else
      var last := routes[|routes| - 1];
      RequestsFor(e, routes[..|routes| - 1], lower)
      + (if Matches(last, e, lower) then [RequestOf(last, e)] else [])
  }

  function Routed(e: FsEvent, config: RuntimeConfig, lower: char -> char): seq<ScanRequest> {
    if IsIgnored(e.path, config.ignoreDirs) then [] else RequestsFor(e, config.routes, lower)
  }

  method Route(e: FsEvent, config: RuntimeConfig, lower: char -> char) returns (requests: seq<ScanRequest>)
    ensures requests == Routed(e, config, lower)
  {
    if IsIgnored(e.path, config.ignoreDirs) {
      return [];
    }
    requests := [];
    for i := 0 to |config.routes|
      invariant requests == RequestsFor(e, config.routes[..i], lower)
    {
      var r := config.routes[i];
      assert config.routes[..i + 1][..i] == config.routes[..i];
      if !IsPathPrefix(r.path, e.path) {
        continue;
      }
      if !ExtensionMatches(e.path, r.extensions, lower) {
        continue;
      }
      if e.eventType !in r.eventTypes {
        continue;
      }
      var scanPath, top, scanKey := None, None, "";
      if r.scanMode == Targeted {
        var (p, t) := ComputeScanPath(r.path, e.path);
        scanPath, top, scanKey := Some(p), t, p;
      } else {
        scanKey := LibraryKey(r.libraryId);
      }
      requests := requests + [ScanRequest(r.serverId, r.serverName, r.scanMode, scanPath, r.libraryId,
                                          scanKey, e.eventType, e.path, top)];
    }
    assert config.routes[..|config.routes|] == config.routes;
  }

  predicate Causes(r: FolderRoute, e: FsEvent, lower: char -> char, q: ScanRequest) {
    Matches(r, e, lower) && q == RequestOf(r, e)
  }

  /** A request comes out exactly when some route matches the event and the request is that route's. */
  lemma {:induction false} RequestsForExact(e: FsEvent, routes: seq<FolderRoute>, lower: char -> char, q: ScanRequest)
    ensures q in RequestsFor(e, routes, lower) <==> AnyOf(routes, r => Causes(r, e, lower, q))
  {
    if routes != [] {
      RequestsForExact(e, routes[..|routes| - 1], lower, q);
      RequestsForLast(e, routes, lower, q);
      FrontOrLast(routes, r => Causes(r, e, lower, q));
    }
  }

  ghost predicate AnyOf<T(!new)>(s: seq<T>, holds: T -> bool) {
    exists i: nat :: i < |s| && holds(s[i])
  }

  lemma {:induction false} FrontOrLast<T(!new)>(s: seq<T>, holds: T -> bool)
    requires s != []
    ensures AnyOf(s, holds) <==> AnyOf(s[..|s| - 1], holds) || holds(s[|s| - 1])
  {
    var front := s[..|s| - 1];
    assert forall i: nat :: i < |front| ==> front[i] == s[i];
  }

  lemma {:induction false} RequestsForLast(e: FsEvent, routes: seq<FolderRoute>, lower: char -> char, q: ScanRequest)
    requires routes != []
    ensures q in RequestsFor(e, routes, lower)
            <==> q in RequestsFor(e, routes[..|routes| - 1], lower) || Causes(routes[|routes| - 1], e, lower, q)
  {
    var last := routes[|routes| - 1];
    var here := if Matches(last, e, lower) then [RequestOf(last, e)] else [];
    assert q in here <==> Causes(last, e, lower, q);
  }

  // ---- routing read on segments -----------------------------------------------------------

  /** The string prefix test is the segment prefix test, root directory included. */
  lemma {:induction false} IsPathPrefixSegments(p: string, q: string)
    requires Normal(p) && Normal(q)
    ensures IsPathPrefix(p, q) <==> Segs(p) <= Segs(q)
  {
    SegsText(p);
    SegsText(q);
    var a, b := Segs(p), Segs(q);
    if a == [] {
      assert p == "/";
      assert StartsWith(q, "/");
    } else {
      TextPrefix(a, b);
      LastCharacter(a);
    }
  }

  lemma {:induction false} LastCharacter(p: Path)
    requires CleanPath(p) && p != []
    ensures Join(p, '/') != "" && Join(p, '/')[|Join(p, '/')| - 1] != '/'
  {
    assert Clean(p[0]);
    if |p| > 1 {
      LastCharacter(p[1..]);
    }
  }

  /** The segments that survive in the scan path: the root's, and the first one below it when the
      file is at least two levels below. */
  function ScanSegs(root: Path, file: Path): Path
    requires root <= file
  {
    if |file| >= |root| + 2 then file[..|root| + 1] else root
  }

  lemma {:induction false} ComputeScanPathSegments(root: string, file: string)
    requires Normal(root) && Normal(file) && Segs(root) <= Segs(file)
    ensures |root| <= |file|
    ensures ComputeScanPath(root, file)
            == (Text(ScanSegs(Segs(root), Segs(file))), TopSegment(Segs(root), Segs(file)))
  {
    SegsText(root);
    SegsText(file);
    var a, b := Segs(root), Segs(file);
    assert b == a + b[|a|..];
    ScanPathText(a, b[|a|..]);
  }

  function TopSegment(root: Path, file: Path): Option<string>
    requires root <= file
  {
    if |file| >= |root| + 2 then Some(file[|root|]) else None
  }

  lemma {:induction false} ScanPathText(a: Path, c: Path)
    requires CleanPath(a) && CleanPath(a + c)
    ensures |Text(a)| <= |Text(a + c)|
    ensures ComputeScanPath(Text(a), Text(a + c)) == (Text(ScanSegs(a, a + c)), TopSegment(a, a + c))
  {
    PartsBelowText(a, c);
    if |c| >= 2 {
      ExtendText(a, c[0]);
      assert (a + c)[..|a| + 1] == a + [c[0]];
    }
  }

  lemma {:induction false} PartsBelowText(a: Path, c: Path)
    requires CleanPath(a) && CleanPath(a + c)
    ensures |Text(a)| <= |Text(a + c)|
    ensures PartsBelow(Text(a), Text(a + c)) == if c == [] then [""] else c
  {
    RelativePart(a, c);
    forall i | 0 <= i < |c| ensures Clean(c[i]) { assert Clean((a + c)[|a| + i]); }
    RelativeSplit(c);
  }

  lemma {:induction false} RelativeSplit(c: Path)
    requires CleanPath(c)
    ensures Split(Join(c, '/'), '/') == if c == [] then [""] else c
  {
    if c == [] {
      SplitWhole("", '/');
    } else {
      forall i | 0 <= i < |c| ensures '/' !in c[i] { assert Clean(c[i]); }
      SplitJoin(c, '/');
    }
  }

  lemma {:induction false} ExtendText(a: Path, top: string)
    requires CleanPath(a)
    ensures RStrip(Text(a), '/') + "/" + top == Text(a + [top])
  {
    if a == [] {
      assert RStrip("/", '/') == "";
      assert a + [top] == [top];
    } else {
      LastCharacter(a);
      assert RStrip(Text(a), '/') == Text(a);
      JoinConcat(a, [top], '/');
    }
  }

  lemma {:induction false} RelativePart(a: Path, c: Path)
    requires CleanPath(a) && CleanPath(a + c)
    ensures Text(a) <= Text(a + c)
    ensures LStrip(Text(a + c)[|Text(a)|..], '/') == Join(c, '/')
  {
    if c == [] {
      assert a + c == a;
    } else {
      assert CleanPath(c) by { forall i | 0 <= i < |c| ensures Clean(c[i]) { assert Clean((a + c)[|a| + i]); } }
      JoinNonempty(c);
      if a == [] {
        assert a + c == c;
      } else {
        JoinConcat(a, c, '/');
        assert Text(a + c)[|Text(a)|..] == "/" + Join(c, '/');
        assert ("/" + Join(c, '/'))[1..] == Join(c, '/');
      }
    }
  }

  lemma {:induction false} ScanTextBetween(root: string, file: string)
    requires Normal(root) && Normal(file) && Segs(root) <= Segs(file)
    ensures var scan := Text(ScanSegs(Segs(root), Segs(file)));
            Normal(scan) && IsPathPrefix(root, scan) && IsPathPrefix(scan, file)
  {
    var kept := ScanSegs(Segs(root), Segs(file));
    TextSegs(kept);
    IsPathPrefixSegments(root, Text(kept));
    IsPathPrefixSegments(Text(kept), file);
  }

  /** The scan path is a normal path between the root and the file. */
  lemma {:induction false} ScanPathBetween(root: string, file: string)
    requires Normal(root) && Normal(file) && IsPathPrefix(root, file)
    ensures |root| <= |file|
    ensures var scan := ComputeScanPath(root, file).0;
            Normal(scan) && IsPathPrefix(root, scan) && IsPathPrefix(scan, file)
  {
    IsPathPrefixSegments(root, file);
    ComputeScanPathSegments(root, file);
    ScanTextBetween(root, file);
  }

  /** Files at least two levels below one root share a scan path exactly when they share their first
      segment below it. */
  lemma {:induction false} ScanPathShared(root: string, f: string, g: string)
    requires Normal(root) && Normal(f) && Normal(g) && Segs(root) <= Segs(f) && Segs(root) <= Segs(g)
    requires |Segs(f)| >= |Segs(root)| + 2 && |Segs(g)| >= |Segs(root)| + 2
    ensures |root| <= |f| && |root| <= |g|
    ensures ComputeScanPath(root, f).0 == ComputeScanPath(root, g).0
            <==> Segs(f)[|Segs(root)|] == Segs(g)[|Segs(root)|]
  {
    ComputeScanPathSegments(root, f);
    ComputeScanPathSegments(root, g);
    ScanSegsShared(Segs(root), Segs(f), Segs(g));
  }

  lemma {:induction false} ScanSegsShared(root: Path, f: Path, g: Path)
    requires CleanPath(f) && CleanPath(g) && root <= f && root <= g
    requires |f| >= |root| + 2 && |g| >= |root| + 2
    ensures Text(ScanSegs(root, f)) == Text(ScanSegs(root, g)) <==> f[|root|] == g[|root|]
  {
    TextInjective(ScanSegs(root, f), ScanSegs(root, g));
    assert ScanSegs(root, f) == root + [f[|root|]];
    assert ScanSegs(root, g) == root + [g[|root|]];
  }

  lemma {:induction false} IsIgnoredSegments(path: string, ignore: set<string>)
    requires Normal(path) && "" !in ignore
    ensures IsIgnored(path, ignore) <==> exists i :: 0 <= i < |Segs(path)| && Segs(path)[i] in ignore
  {
    SegsText(path);
    var p := Segs(path);
    if p == [] {
      SplitConcat("", "", '/');
      SplitWhole("", '/');
      assert path == "" + ['/'] + "";
    } else {
      assert path == "" + ['/'] + Join(p, '/');
      SplitConcat("", Join(p, '/'), '/');
      SplitWhole("", '/');
      forall i | 0 <= i < |p| ensures '/' !in p[i] { assert Clean(p[i]); }
      SplitJoin(p, '/');
      assert Split(path, '/') == [""] + p;
      forall i | 0 <= i < |p| ensures Split(path, '/')[i + 1] == p[i] {}
    }
  }
}
