/** The recursive inotify backend: one watch per directory, kept up to date by hand. */
module Watcher {
  import opened Paths
  import opened Types
  import opened Normalize
  import opened DirTree

  /** `watches` is the bookkeeping dictionary: which creation of each directory was watched.
      `kernel` is the kernel's own list of live watches. */
  datatype Backend = Backend(watches: map<Path, nat>, kernel: set<(Path, nat)>, roots: set<Path>)

  const FRESH := Backend(map[], {}, {})

  /** The directory that is at `d` now is watched, in the bookkeeping and in the kernel. */
  predicate Watched(b: Backend, dirs: Dirs, d: Path) {
    d in dirs && d in b.watches && b.watches[d] == dirs[d] && (d, dirs[d]) in b.kernel
  }

  /** Watch every directory of `s` that the bookkeeping does not know. */
  function AddAll(b: Backend, dirs: Dirs, s: set<Path>): Backend {
    b.(watches := (map d | d in s && d in dirs && d !in b.watches :: dirs[d]) + b.watches,
       kernel := b.kernel + set d | d in s && d in dirs && d !in b.watches :: (d, dirs[d]))
  }

  /** What the text test `p == root or p.startswith(root + "/")` selects: the subtree, except that the
      root directory selects only itself because its text plus a separator is "//". */
  predicate Doomed(root: Path, p: Path) {
    if root == [] then p == [] else root <= p
  }

  /** Forget the watches of `ps`, and remove them from the kernel. */
  function DropAll(b: Backend, ps: set<Path>): Backend {
    b.(watches := b.watches - ps,
       kernel := set w | w in b.kernel && !(w.0 in ps && w.0 in b.watches && b.watches[w.0] == w.1))
  }

  function DoomedBy(b: Backend, gone: set<Path>): set<Path> {
    set r, p | r in gone && p in b.watches && Doomed(r, p) :: p
  }

  /** Forget every watch that a root of `gone` dooms. */
  function RemoveTrees(b: Backend, gone: set<Path>): Backend {
    DropAll(b, DoomedBy(b, gone))
  }

  function SetRootsTo(b: Backend, dirs: Dirs, ignore: set<string>, roots: set<Path>): Backend {
    AddAll(RemoveTrees(b, b.roots - roots), dirs, Wanted(dirs, ignore, roots - b.roots)).(roots := roots)
  }

  datatype KernelEvent =
    | Overflow
    /** One root of a resync after an overflow, waiting for its turn. */
    | Resync(root: Path)
    | Entry(path: Path, kind: FsEventType, isDir: bool)

  predicate Appears(e: KernelEvent) {
    e.Entry? && e.isDir && (e.kind == Created || e.kind == MovedTo)
  }

  predicate Vanishes(e: KernelEvent) {
    e.Entry? && e.isDir && (e.kind == Deleted || e.kind == MovedFrom)
  }

  /** The effect of one event on the watches. */
  function Handled(b: Backend, dirs: Dirs, ignore: set<string>, e: KernelEvent): Backend {
    match e
    case Overflow => AddAll(b, dirs, Wanted(dirs, ignore, b.roots))
    case Resync(root) => AddAll(b, dirs, Watchable(dirs, ignore, root))
    case Entry(path, _, _) =>
      if Ignored(path, ignore) then b
      else if Appears(e) then AddAll(b, dirs, Watchable(dirs, ignore, path))
      else if Vanishes(e) then RemoveTrees(b, {path})
      else b
  }

  /** The text test for the doomed watches, read on segments. */
  lemma {:induction false} DoomedText(root: Path, p: Path)
    requires CleanPath(root) && CleanPath(p)
    ensures Text(p) == Text(root) || StartsWith(Text(p), Text(root) + "/") <==> Doomed(root, p)
  {
    TextInjective(p, root);
    if root == [] {
      if p != [] {
        JoinNonempty(p);
        assert Text(p)[1] == Join(p, '/')[0];
      }
      assert Text(root) + "/" == "//";
    } else {
      TextPrefix(root, p);
    }
  }

  // ---- the backend ------------------------------------------------------------------------

  /** A directory tree with its files. */
  datatype Tree = Tree(dirs: Dirs, files: set<Path>)

  ghost predicate TreeOk(t: Tree) {
    ParentClosed(t.dirs)
    && (forall d {:trigger CleanPath(d)} :: d in t.dirs || d in t.files ==> CleanPath(d))
    && [] !in t.files
  }

  /** `normalize_path` of a path, which strips whitespace: the path under which the backend knows it. */
  function Key(d: Path): Path {
    Segs(NormalizePath(Text(d)))
  }

  const KEY: Path -> Path := d => Key(d)

  /** Normalizing the text of the path gives the text back. */
  predicate Tidy(d: Path) {
    NormalizePath(Text(d)) == Text(d)
  }

  lemma {:induction false} KeyIsClean(d: Path)
    requires CleanPath(d)
    ensures CleanPath(Key(d)) && Text(Key(d)) == NormalizePath(Text(d))
  {
    TextSegs(d);
    SingleSlash(Text(d));
    NormalizeAbsolute(Text(d));
    SegsText(NormalizePath(Text(d)));
  }

  lemma {:induction false} SingleSlash(s: string)
    requires Normal(s)
    ensures Root(Strip(s)) == "/"
  {
    assert s[0] == '/' && !IsSpace('/');
    if s != "/" {
      SegsText(s);
      assert Clean(Segs(s)[0]);
      assert s[1] == Segs(s)[0][0];
      assert s[1] != '/';
    }
    StripKeepsFirst(s);
  }

  /** Only the end of a text that starts with no whitespace is stripped. */
  lemma {:induction false} StripKeepsFirst(s: string)
    requires s != "" && !IsSpace(s[0])
    ensures Strip(s) != "" && Strip(s) <= s
  {
    RightEndStays(s);
  }

  lemma {:induction false} RightEndStays(s: string)
    requires s != "" && !IsSpace(s[0])
    ensures StripRight(s) != ""
  {
    if IsSpace(s[|s| - 1]) {
      RightEndStays(s[..|s| - 1]);
    }
  }

  /** A path is its own key unless it ends in whitespace. */
  lemma {:induction false} TidyExactly(d: Path)
    requires CleanPath(d)
    ensures Tidy(d) <==> !IsSpace(Text(d)[|Text(d)| - 1])
    ensures Tidy(d) <==> Key(d) == d
  {
    TextSegs(d);
    NormalizeNormal(Text(d));
    KeyIsClean(d);
  }

  function FilesIn(t: Tree, ds: set<Path>): set<Path> {
    set f | f in t.files && f != [] && Parent(f) in ds
  }

  /** A filesystem event that the backend yields; the text of its path is `Text(path)`. */
  datatype Yielded = Yielded(path: Path, kind: FsEventType, isDir: bool)

  /** The visited directories that the walk does not skip. */
  function Kept(ds: set<Path>, ignore: set<string>, key: Path -> Path): set<Path> {
    set d | d in ds && !Ignored(key(d), ignore)
  }

  function Keys(ds: set<Path>, key: Path -> Path): set<Path> {
    set d | d in ds :: key(d)
  }

  /** The paths that a walk from `root` asks the kernel to watch. */
  function WatchKeys(dirs: Dirs, ignore: set<string>, key: Path -> Path, root: Path): set<Path> {
    Keys(Kept(Walked(dirs, ignore, root), ignore, key), key)
  }

  function WatchKeysOf(dirs: Dirs, ignore: set<string>, key: Path -> Path, roots: set<Path>): set<Path> {
    set r, k | r in roots && k in WatchKeys(dirs, ignore, key, r) :: k
  }

  /** The synthetic events of a rescan that kept `ds` below `root`: every directory whose key is not the
      root and every file in a kept directory, as `created`. */
  function Rescan(t: Tree, key: Path -> Path, ds: set<Path>, root: Path): set<Yielded> {
    DirReports(key, ds, root) + FileReports(key, FilesIn(t, ds))
  }

  function Below(key: Path -> Path, ds: set<Path>, root: Path): set<Path> {
    set d | d in ds && key(d) != root
  }

  function DirReports(key: Path -> Path, ds: set<Path>, root: Path): set<Yielded> {
    set d | d in Below(key, ds, root) :: DirReport(key, d)
  }

  function DirReport(key: Path -> Path, d: Path): Yielded {
    Yielded(key(d), Created, true)
  }

  function FileReports(key: Path -> Path, fs: set<Path>): set<Yielded> {
    set f | f in fs :: FileReport(key, f)
  }

  function FileReport(key: Path -> Path, f: Path): Yielded {
    Yielded(key(f), Created, false)
  }

  function RescanSize(t: Tree, key: Path -> Path, ds: set<Path>, root: Path): nat {
    |Below(key, ds, root)| + |FilesIn(t, ds)|
  }

  /** `out` reports each entry of the rescan once, and nothing else. */
  ghost predicate Reports(out: seq<Yielded>, t: Tree, key: Path -> Path, ds: set<Path>, root: Path) {
    Events(out) == Rescan(t, key, ds, root) && |out| == RescanSize(t, key, ds, root)
  }

  function Events(s: seq<Yielded>): set<Yielded> {
    set e | e in s
  }

  ghost predicate CleanKeys(m: map<Path, nat>) {
    forall p :: p in m ==> CleanPath(p)
  }

  /** `set_roots` on any tree: each root under its key, each directory under its own. */
  function SetRootsKeyed(b: Backend, dirs: Dirs, ignore: set<string>, key: Path -> Path, given: set<Path>): Backend {
    var roots := Keys(given, key);
    AddAll(RemoveTrees(b, b.roots - roots), dirs, WatchKeysOf(dirs, ignore, key, LiveAmong(dirs, ignore, roots - b.roots))).(roots := roots)
  }

  function LiveAmong(dirs: Dirs, ignore: set<string>, roots: set<Path>): set<Path> {
    set r | r in roots && r in dirs && !Ignored(r, ignore)
  }

  /** One event on any tree: its path is taken under its key. */
  function HandledKeyed(b: Backend, dirs: Dirs, ignore: set<string>, key: Path -> Path, e: KernelEvent): Backend {
    match e
    case Overflow => AddAll(b, dirs, WatchKeysOf(dirs, ignore, key, b.roots))
    case Resync(root) => AddAll(b, dirs, WatchKeys(dirs, ignore, key, root))
    case Entry(path, _, _) =>
      if Ignored(key(path), ignore) then b
      else if Appears(e) then AddAll(b, dirs, WatchKeys(dirs, ignore, key, key(path)))
      else if Vanishes(e) then RemoveTrees(b, {key(path)})
      else b
  }

  class InotifyBackend {
    const ignore: set<string>
    /** `normalize_path`; the methods are proved for any normalization. */
    const key: Path -> Path
    var watches: map<Path, nat>
    var kernel: set<(Path, nat)>
    var roots: set<Path>

    function State(): Backend
      reads this
    {
      Backend(watches, kernel, roots)
    }

    ghost predicate Valid()
      reads this
    {
      && CleanKeys(watches)
      && (forall r {:trigger CleanPath(r)} :: r in roots ==> CleanPath(r))
      && forall d {:trigger key(d)} :: CleanPath(d) ==> CleanPath(key(d))
    }

    constructor (ignore: set<string>)
      ensures Valid() && this.ignore == ignore && State() == FRESH
      ensures key == KEY
    {
      this.ignore := ignore;
      key := KEY;
      watches, kernel, roots := map[], {}, {};
      new;
      forall d {:trigger key(d)} | CleanPath(d) ensures CleanPath(key(d)) { KeyIsClean(d); }
    }

    method AddWatch(dirs: Dirs, path: Path)
      modifies this
      ensures State() == AddAll(old(State()), dirs, {path})
    {
      if path in watches {
        return;
      }
      if path in dirs {
        watches := watches[path := dirs[path]];
        kernel := kernel + {(path, dirs[path])};
      }
    }

    method RemoveWatchTree(root: Path)
      requires CleanPath(root) && CleanKeys(watches)
      modifies this
      ensures State() == RemoveTrees(old(State()), {root})
    {
      var prefix := Text(root) + "/";
      var doomed := set p | p in watches && (Text(p) == Text(root) || StartsWith(Text(p), prefix));
      DoomedTexts(State(), root, doomed);
      ghost var before, done: set<Path> := State(), {};
      DropNone(before);
      while doomed != {}
        invariant done !! doomed && done + doomed == DoomedBy(before, {root})
        invariant State() == DropAll(before, done)
        decreases doomed
      {
        var path :| path in doomed;
        DropOneMore(before, done, path);
        kernel := kernel - {(path, watches[path])};
        watches := watches - {path};
        doomed, done := doomed - {path}, done + {path};
      }
      assert done == DoomedBy(before, {root});
    }

    /** Watch every directory at or below `root` that is not ignored, and report what is below it. */
    method WalkAddWatches(t: Tree, root: Path) returns (synthetic: seq<Yielded>)
      requires TreeOk(t)
      modifies this
      ensures State() == AddAll(old(State()), t.dirs, WatchKeys(t.dirs, ignore, key, root))
      ensures Reports(synthetic, t, key, Kept(Walked(t.dirs, ignore, root), ignore, key), root)
    {
      synthetic := [];
      ghost var before, visited := State(), {};
      var pending := if root in t.dirs then {root} else {};
      WalkStart(t.dirs, ignore, root);
      NothingYet(key, before, t, ignore, root);
      while pending != {}
        invariant WalkState(t.dirs, ignore, root, visited, pending)
        invariant State() == AddAll(before, t.dirs, Keys(Kept(visited, ignore, key), key))
        invariant Reports(synthetic, t, key, Kept(visited, ignore, key), root)
        decreases Walked(t.dirs, ignore, root) - visited
      {
        var dirpath :| dirpath in pending;
        WalkStep(t.dirs, ignore, root, visited, pending, dirpath);
        pending := pending - {dirpath} + KeptChildren(t.dirs, dirpath, ignore);
        var normDir := key(dirpath);
        KeptPlus(key, visited, dirpath, ignore);
        if !Ignored(normDir, ignore) {
          var found := WatchOne(t, dirpath, normDir, root);
          WalkTurn(key, before, t, root, Kept(visited, ignore, key), dirpath, synthetic, found);
          synthetic := synthetic + found;
        }
        visited := visited + {dirpath};
      }
      assert visited == Walked(t.dirs, ignore, root);
    }

    /** The turn of the walk for one directory that is not ignored. */
    method WatchOne(t: Tree, dirpath: Path, normDir: Path, root: Path) returns (found: seq<Yielded>)
      requires TreeOk(t) && normDir == key(dirpath)
      modifies this
      ensures State() == AddAll(old(State()), t.dirs, {normDir})
      ensures Reports(found, t, key, {dirpath}, root)
    {
      AddWatch(t.dirs, normDir);
      found := [];
      if normDir != root {
        found := [Yielded(normDir, Created, true)];
      }
      var files := RescanFiles(FilesIn(t, {dirpath}));
      OneDirectory(key, dirpath, root);
      EventsConcat(found, files);
      found := found + files;
    }

    /** The files of one directory, as events. */
    method RescanFiles(files: set<Path>) returns (found: seq<Yielded>)
      ensures Events(found) == FileReports(key, files) && |found| == |files|
    {
      found := [];
      var todo := files;
      ghost var done: set<Path> := {};
      while todo != {}
        invariant todo !! done && todo + done == files
        invariant Events(found) == FileReports(key, done) && |found| == |done|
        decreases todo
      {
        var f :| f in todo;
        var fpath := key(f);
        EventsConcat(found, [FileReport(key, f)]);
        FileEventsUnion(key, done, {f});
        todo, done := todo - {f}, done + {f};
        found := found + [Yielded(fpath, Created, false)];
      }
      assert done == files;
    }

    method SetRoots(t: Tree, given: set<Path>)
      requires Valid() && TreeOk(t) && forall r {:trigger CleanPath(r)} :: r in given ==> CleanPath(r)
      modifies this
      ensures Valid() && State() == SetRootsKeyed(old(State()), t.dirs, ignore, key, given)
    {
      var newRoots := Keys(given, key);
      var gone, added := roots - newRoots, newRoots - roots;
      DropRoots(gone);
      WatchRoots(t, added);
      roots := newRoots;
    }

    method DropRoots(gone: set<Path>)
      requires CleanKeys(watches) && forall r :: r in gone ==> CleanPath(r)
      modifies this
      ensures State() == RemoveTrees(old(State()), gone)
    {
      ghost var before := State();
      var todo := gone;
      ghost var done: set<Path> := {};
      RemoveNone(before);
      while todo != {}
        invariant done !! todo && done + todo == gone
        invariant State() == RemoveTrees(before, done)
        decreases todo
      {
        var r :| r in todo;
        RemoveWatchTree(r);
        RemoveOneMore(before, done, r);
        todo, done := todo - {r}, done + {r};
      }
      assert done == gone;
    }

    /** Existing library content is watched but not reported. */
    method WatchRoots(t: Tree, added: set<Path>)
      requires TreeOk(t)
      modifies this
      ensures State() == AddAll(old(State()), t.dirs, WatchKeysOf(t.dirs, ignore, key, LiveAmong(t.dirs, ignore, added)))
    {
      ghost var before := State();
      var todo := added;
      NoKeys(key, before, t.dirs, ignore, added);
      while todo != {}
        invariant todo <= added
        invariant State() == AddAll(before, t.dirs, WatchKeysOf(t.dirs, ignore, key, LiveAmong(t.dirs, ignore, added - todo)))
        decreases todo
      {
        var r :| r in todo;
        KeysOneMore(key, before, t.dirs, ignore, added, todo, r);
        if r in t.dirs && !Ignored(r, ignore) {
          var _ := WalkAddWatches(t, r);
        }
        todo := todo - {r};
      }
      assert added - {} == added;
    }

    /** After an overflow, every root is walked again and everything below it is reported. */
    method ResyncRoots(t: Tree) returns (out: seq<Yielded>)
      requires TreeOk(t)
      modifies this
      ensures State() == HandledKeyed(old(State()), t.dirs, ignore, key, Overflow)
      ensures ReportsRoots(out, t, ignore, key, roots)
    {
      ghost var before := State();
      var todo := roots;
      out := [];
      ResyncNone(key, before, t, ignore);
      while todo != {}
        invariant todo <= roots == before.roots
        invariant State() == AddAll(before, t.dirs, WatchKeysOf(t.dirs, ignore, key, roots - todo))
        invariant ReportsRoots(out, t, ignore, key, roots - todo)
        decreases todo
      {
        var r :| r in todo;
        var synthetic := WalkAddWatches(t, r);
        ResyncOneMore(key, before, t, ignore, todo, r, out, synthetic);
        out := out + synthetic;
        todo := todo - {r};
      }
      assert roots - {} == roots;
    }

    /** One turn of the event loop: the effect on the watches, and the events that come out. */
    method HandleEvent(t: Tree, e: KernelEvent) returns (out: seq<Yielded>)
      requires Valid() && TreeOk(t) && !e.Resync? && (e.Entry? ==> CleanPath(e.path))
      modifies this
      ensures Valid() && State() == HandledKeyed(old(State()), t.dirs, ignore, key, e)
      ensures e.Overflow? ==> ReportsRoots(out, t, ignore, key, roots)
      ensures e.Entry? && Ignored(key(e.path), ignore) ==> out == []
      ensures e.Entry? && !Ignored(key(e.path), ignore) ==>
        |out| > 0 && out[0] == Yielded(key(e.path), e.kind, e.isDir)
        && if Appears(e) then Reports(out[1..], t, key, Kept(Walked(t.dirs, ignore, key(e.path)), ignore, key), key(e.path))
           else |out| == 1
    {
      if e.Overflow? {
        out := ResyncRoots(t);
        return;
      }
      out := [];
      var path := key(e.path);
      if Ignored(path, ignore) {
        return;
      }
      out := [Yielded(path, e.kind, e.isDir)];
      if e.isDir && e.kind in {Created, MovedTo} {
        var synthetic := WalkAddWatches(t, path);
        out := out + synthetic;
        assert out[1..] == synthetic;
        return;
      }
      if e.isDir && e.kind in {Deleted, MovedFrom} {
        RemoveWatchTree(path);
      }
    }
  }

  /** The events that a resync of `roots` reports, each root's rescan in turn. */
  function RescanRoots(t: Tree, ignore: set<string>, key: Path -> Path, roots: set<Path>): set<Yielded> {
    set r, e | r in roots && e in Rescan(t, key, Kept(Walked(t.dirs, ignore, r), ignore, key), r) :: e
  }

  ghost predicate ReportsRoots(out: seq<Yielded>, t: Tree, ignore: set<string>, key: Path -> Path, roots: set<Path>) {
    Events(out) == RescanRoots(t, ignore, key, roots)
  }

  // ---- lemmas about the loops -------------------------------------------------------------

  lemma {:induction false} EventsConcat(a: seq<Yielded>, b: seq<Yielded>)
    ensures Events(a + b) == Events(a) + Events(b)
  {
  }

  lemma {:induction false} NothingYet(key: Path -> Path, b: Backend, t: Tree, ignore: set<string>, root: Path)
    ensures Kept({}, ignore, key) == {} && Keys({}, key) == {}
    ensures AddAll(b, t.dirs, {}) == b && Reports([], t, key, {}, root)
  {
    var r := AddAll(b, t.dirs, {});
    assert r.watches == b.watches && r.kernel == b.kernel;
    assert FilesIn(t, {}) == {};
    assert Below(key, {}, root) == {};
  }

  lemma {:induction false} KeptPlus(key: Path -> Path, ds: set<Path>, d: Path, ignore: set<string>)
    ensures Kept(ds + {d}, ignore, key) == if Ignored(key(d), ignore) then Kept(ds, ignore, key) else Kept(ds, ignore, key) + {d}
    ensures Keys(Kept(ds, ignore, key) + {d}, key) == Keys(Kept(ds, ignore, key), key) + {key(d)}
    ensures d !in ds ==> d !in Kept(ds, ignore, key)
  {
    KeysPlus(key, Kept(ds, ignore, key), d);
  }

  lemma {:induction false} KeysPlus(key: Path -> Path, ds: set<Path>, d: Path)
    ensures Keys(ds + {d}, key) == Keys(ds, key) + {key(d)}
  {
    assert d in ds + {d};
    forall k | k in Keys(ds, key) ensures k in Keys(ds + {d}, key) {
      var x :| x in ds && key(x) == k;
      assert x in ds + {d};
    }
  }

  lemma {:induction false} WalkTurn(key: Path -> Path, b: Backend, t: Tree, root: Path, kept: set<Path>, d: Path,
                                    before: seq<Yielded>, found: seq<Yielded>)
    requires d !in kept
    requires Reports(before, t, key, kept, root) && Reports(found, t, key, {d}, root)
    ensures AddAll(b, t.dirs, Keys(kept, key) + {key(d)}) == AddAll(AddAll(b, t.dirs, Keys(kept, key)), t.dirs, {key(d)})
    ensures Reports(before + found, t, key, kept + {d}, root)
  {
    AddTwice(b, t.dirs, Keys(kept, key), {key(d)});
    EventsConcat(before, found);
    RescanUnion(key, t, kept, {d}, root);
    RescanSizes(key, t, kept, d, root);
  }

  lemma {:induction false} BelowUnion(key: Path -> Path, a: set<Path>, b: set<Path>, root: Path)
    ensures Below(key, a + b, root) == Below(key, a, root) + Below(key, b, root)
    ensures a !! b ==> Below(key, a, root) !! Below(key, b, root)
  {
  }

  lemma {:induction false} RescanSizes(key: Path -> Path, t: Tree, was: set<Path>, d: Path, root: Path)
    requires d !in was
    ensures RescanSize(t, key, was + {d}, root) == RescanSize(t, key, was, root) + RescanSize(t, key, {d}, root)
  {
    var fs, gs := FilesIn(t, was), FilesIn(t, {d});
    assert FilesIn(t, was + {d}) == fs + gs && fs !! gs;
    BelowUnion(key, was, {d}, root);
  }

  lemma {:induction false} RescanUnion(key: Path -> Path, t: Tree, a: set<Path>, b: set<Path>, root: Path)
    ensures Rescan(t, key, a + b, root) == Rescan(t, key, a, root) + Rescan(t, key, b, root)
  {
    assert FilesIn(t, a + b) == FilesIn(t, a) + FilesIn(t, b);
    FileEventsUnion(key, FilesIn(t, a), FilesIn(t, b));
    BelowUnion(key, a, b, root);
    DirEventsUnion(key, Below(key, a, root), Below(key, b, root));
  }

  lemma {:induction false} DirEventsUnion(key: Path -> Path, a: set<Path>, b: set<Path>)
    ensures (set d | d in a + b :: DirReport(key, d)) == (set d | d in a :: DirReport(key, d)) + (set d | d in b :: DirReport(key, d))
  {
  }

  lemma {:induction false} FileEventsUnion(key: Path -> Path, a: set<Path>, b: set<Path>)
    ensures FileReports(key, a + b) == FileReports(key, a) + FileReports(key, b)
  {
  }

  lemma {:induction false} OneDirectory(key: Path -> Path, dir: Path, root: Path)
    ensures Below(key, {dir}, root) == if key(dir) == root then {} else {dir}
    ensures DirReports(key, {dir}, root) == if key(dir) == root then {} else {DirReport(key, dir)}
  {
    assert dir in {dir};
  }

  lemma {:induction false} NoKeys(key: Path -> Path, b: Backend, dirs: Dirs, ignore: set<string>, added: set<Path>)
    ensures AddAll(b, dirs, WatchKeysOf(dirs, ignore, key, LiveAmong(dirs, ignore, added - added))) == b
  {
    assert added - added == {};
    assert WatchKeysOf(dirs, ignore, key, LiveAmong(dirs, ignore, {})) == {};
    var r := AddAll(b, dirs, {});
    assert r.watches == b.watches && r.kernel == b.kernel;
  }

  lemma {:induction false} WatchKeysPlus(key: Path -> Path, dirs: Dirs, ignore: set<string>, roots: set<Path>, r: Path)
    ensures WatchKeysOf(dirs, ignore, key, roots + {r}) == WatchKeysOf(dirs, ignore, key, roots) + WatchKeys(dirs, ignore, key, r)
  {
    forall k | k in WatchKeysOf(dirs, ignore, key, roots) ensures k in WatchKeysOf(dirs, ignore, key, roots + {r}) {
      var q :| q in roots && k in WatchKeys(dirs, ignore, key, q);
      assert q in roots + {r};
    }
    forall k | k in WatchKeys(dirs, ignore, key, r) ensures k in WatchKeysOf(dirs, ignore, key, roots + {r}) {
      assert r in roots + {r};
    }
  }

  lemma {:induction false} KeysOneMore(key: Path -> Path, b: Backend, dirs: Dirs, ignore: set<string>, added: set<Path>, todo: set<Path>, r: Path)
    requires r in todo && todo <= added
    ensures var was := WatchKeysOf(dirs, ignore, key, LiveAmong(dirs, ignore, added - todo));
            var now := WatchKeysOf(dirs, ignore, key, LiveAmong(dirs, ignore, added - (todo - {r})));
            if r in dirs && !Ignored(r, ignore)
            then AddAll(b, dirs, now) == AddAll(AddAll(b, dirs, was), dirs, WatchKeys(dirs, ignore, key, r))
            else now == was
  {
    var was, now := LiveAmong(dirs, ignore, added - todo), LiveAmong(dirs, ignore, added - (todo - {r}));
    if r in dirs && !Ignored(r, ignore) {
      assert now == was + {r};
      WatchKeysPlus(key, dirs, ignore, was, r);
      AddTwice(b, dirs, WatchKeysOf(dirs, ignore, key, was), WatchKeys(dirs, ignore, key, r));
    } else {
      assert now == was;
    }
  }

  lemma {:induction false} ResyncNone(key: Path -> Path, b: Backend, t: Tree, ignore: set<string>)
    ensures AddAll(b, t.dirs, WatchKeysOf(t.dirs, ignore, key, b.roots - b.roots)) == b
    ensures ReportsRoots([], t, ignore, key, b.roots - b.roots)
  {
    assert b.roots - b.roots == {};
    assert WatchKeysOf(t.dirs, ignore, key, {}) == {};
    var r := AddAll(b, t.dirs, {});
    assert r.watches == b.watches && r.kernel == b.kernel;
  }

  lemma {:induction false} ResyncOneMore(key: Path -> Path, b: Backend, t: Tree, ignore: set<string>, todo: set<Path>, r: Path,
                                         out: seq<Yielded>, synthetic: seq<Yielded>)
    requires r in todo && todo <= b.roots
    requires ReportsRoots(out, t, ignore, key, b.roots - todo)
    requires Reports(synthetic, t, key, Kept(Walked(t.dirs, ignore, r), ignore, key), r)
    ensures AddAll(b, t.dirs, WatchKeysOf(t.dirs, ignore, key, b.roots - (todo - {r})))
            == AddAll(AddAll(b, t.dirs, WatchKeysOf(t.dirs, ignore, key, b.roots - todo)), t.dirs, WatchKeys(t.dirs, ignore, key, r))
    ensures ReportsRoots(out + synthetic, t, ignore, key, b.roots - (todo - {r}))
  {
    var done := b.roots - todo;
    assert b.roots - (todo - {r}) == done + {r};
    WatchKeysPlus(key, t.dirs, ignore, done, r);
    AddTwice(b, t.dirs, WatchKeysOf(t.dirs, ignore, key, done), WatchKeys(t.dirs, ignore, key, r));
    EventsConcat(out, synthetic);
    RescanOneMore(key, t, ignore, done, r);
  }

  lemma {:induction false} RescanOneMore(key: Path -> Path, t: Tree, ignore: set<string>, roots: set<Path>, r: Path)
    ensures RescanRoots(t, ignore, key, roots + {r})
            == RescanRoots(t, ignore, key, roots) + Rescan(t, key, Kept(Walked(t.dirs, ignore, r), ignore, key), r)
  {
    forall e | e in RescanRoots(t, ignore, key, roots) ensures e in RescanRoots(t, ignore, key, roots + {r}) {
      var q :| q in roots && e in Rescan(t, key, Kept(Walked(t.dirs, ignore, q), ignore, key), q);
      assert q in roots + {r};
    }
    forall e | e in Rescan(t, key, Kept(Walked(t.dirs, ignore, r), ignore, key), r) ensures e in RescanRoots(t, ignore, key, roots + {r}) {
      assert r in roots + {r};
    }
  }

  // ---- which directories have their own key ---------------------------------------------------

  /** A walk gives a directory an entry exactly if some visited path has it as its key. */
  lemma {:induction false} WatchedByKey(b: Backend, dirs: Dirs, ignore: set<string>, key: Path -> Path, root: Path, d: Path)
    ensures d in AddAll(b, dirs, WatchKeys(dirs, ignore, key, root)).watches
            <==> d in b.watches || (d in dirs && !Ignored(d, ignore) && exists x :: x in Walked(dirs, ignore, root) && key(x) == d)
  {
    var kept := Kept(Walked(dirs, ignore, root), ignore, key);
    if x :| x in Walked(dirs, ignore, root) && key(x) == d && !Ignored(d, ignore) {
      assert x in kept && key(x) in Keys(kept, key);
    }
  }

  lemma {:induction false} TidyKeys(dirs: Dirs, ignore: set<string>, key: Path -> Path, root: Path)
    requires forall d :: d in dirs ==> key(d) == d
    ensures WatchKeys(dirs, ignore, key, root) == Watchable(dirs, ignore, root)
    ensures Kept(Walked(dirs, ignore, root), ignore, key) == Watchable(dirs, ignore, root)
  {
    PruningIsFiltering(dirs, ignore, root);
    var kept := Kept(Walked(dirs, ignore, root), ignore, key);
    forall d ensures d in kept <==> d in Watchable(dirs, ignore, root) {
      assert Ignored(root, ignore) && d in Walked(dirs, ignore, root) ==> Ignored(d, ignore) by {
        if i :| 0 <= i < |root| && root[i] in ignore { assert root <= d ==> d[i] == root[i]; }
      }
    }
    forall d | d in kept ensures d in Keys(kept, key) { assert key(d) == d; }
  }

  lemma {:induction false} TidyKeysOf(dirs: Dirs, ignore: set<string>, key: Path -> Path, roots: set<Path>)
    requires ParentClosed(dirs) && forall d :: d in dirs ==> key(d) == d
    ensures WatchKeysOf(dirs, ignore, key, roots) == Wanted(dirs, ignore, roots)
    ensures WatchKeysOf(dirs, ignore, key, LiveAmong(dirs, ignore, roots)) == Wanted(dirs, ignore, roots)
  {
    forall r ensures r in roots ==> WatchKeys(dirs, ignore, key, r) == Watchable(dirs, ignore, r) {
      TidyKeys(dirs, ignore, key, r);
    }
    forall r ensures r !in dirs || Ignored(r, ignore) ==> Watchable(dirs, ignore, r) == {} { WantedPlus(dirs, ignore, {}, r); }
    assert forall r, d :: r in roots && r in dirs && d in Watchable(dirs, ignore, r) ==> r in LiveAmong(dirs, ignore, roots);
  }

  /** On a tree where every path is its own key, an event has the effect that the runs of the watcher are
      about, and so has a change of roots. */
  lemma {:induction false} TidyTreeHandled(b: Backend, dirs: Dirs, ignore: set<string>, key: Path -> Path, e: KernelEvent)
    requires ParentClosed(dirs) && (forall d :: d in dirs ==> key(d) == d) && (e.Entry? ==> key(e.path) == e.path)
    ensures HandledKeyed(b, dirs, ignore, key, e) == Handled(b, dirs, ignore, e)
  {
    match e
    case Overflow => TidyKeysOf(dirs, ignore, key, b.roots);
    case Resync(root) => TidyKeys(dirs, ignore, key, root);
    case Entry(path, _, _) => TidyKeys(dirs, ignore, key, path);
  }

  lemma {:induction false} TidyTreeSetRoots(b: Backend, dirs: Dirs, ignore: set<string>, key: Path -> Path, roots: set<Path>)
    requires ParentClosed(dirs) && (forall d :: d in dirs ==> key(d) == d) && (forall r :: r in roots ==> key(r) == r)
    ensures SetRootsKeyed(b, dirs, ignore, key, roots) == SetRootsTo(b, dirs, ignore, roots)
  {
    assert Keys(roots, key) == roots by {
      forall r | r in roots ensures r in Keys(roots, key) { assert key(r) == r; }
    }
    TidyKeysOf(dirs, ignore, key, roots - b.roots);
  }

  lemma {:induction false} DropNone(b: Backend)
    ensures DropAll(b, {}) == b
  {
    assert DropAll(b, {}).watches == b.watches && DropAll(b, {}).kernel == b.kernel;
  }

  lemma {:induction false} DropTwice(b: Backend, ps: set<Path>, qs: set<Path>)
    ensures DropAll(DropAll(b, ps), qs) == DropAll(b, ps + qs)
  {
    var two, all := DropAll(DropAll(b, ps), qs), DropAll(b, ps + qs);
    assert two.watches == all.watches;
    assert two.kernel == all.kernel;
  }

  lemma {:induction false} DropOneMore(b: Backend, ps: set<Path>, p: Path)
    requires p in b.watches && p !in ps
    ensures var before, after := DropAll(b, ps), DropAll(b, ps + {p});
            p in before.watches && after.watches == before.watches - {p}
            && after.kernel == before.kernel - {(p, before.watches[p])} && after.roots == before.roots
  {
    DropTwice(b, ps, {p});
  }

  lemma {:induction false} DoomedTexts(b: Backend, root: Path, doomed: set<Path>)
    requires CleanPath(root) && CleanKeys(b.watches)
    requires doomed == set p | p in b.watches && (Text(p) == Text(root) || StartsWith(Text(p), Text(root) + "/"))
    ensures doomed == DoomedBy(b, {root})
  {
    forall p | p in b.watches ensures p in doomed <==> p in DoomedBy(b, {root}) {
      DoomedText(root, p);
      assert root in {root};
    }
  }

  lemma {:induction false} RemoveNone(b: Backend)
    ensures RemoveTrees(b, {}) == b
  {
    assert DoomedBy(b, {}) == {};
    DropNone(b);
  }

  lemma {:induction false} RemoveOneMore(b: Backend, gone: set<Path>, r: Path)
    ensures RemoveTrees(RemoveTrees(b, gone), {r}) == RemoveTrees(b, gone + {r})
  {
    var ps := DoomedBy(b, gone);
    var qs := DoomedBy(DropAll(b, ps), {r});
    DropTwice(b, ps, qs);
    forall p ensures p in DoomedBy(b, gone + {r}) <==> p in ps + qs {
      if p in b.watches && Doomed(r, p) {
        assert r in gone + {r} && r in {r};
      }
      if q :| q in gone && p in b.watches && Doomed(q, p) {
        assert q in gone + {r};
      }
    }
  }

  lemma {:induction false} AddNone(b: Backend, dirs: Dirs, ignore: set<string>)
    ensures AddAll(b, dirs, Wanted(dirs, ignore, {})) == b
  {
    var r := AddAll(b, dirs, Wanted(dirs, ignore, {}));
    assert r.watches == b.watches && r.kernel == b.kernel;
  }

  lemma {:induction false} AddTwice(b: Backend, dirs: Dirs, s: set<Path>, t: set<Path>)
    ensures AddAll(AddAll(b, dirs, s), dirs, t) == AddAll(b, dirs, s + t)
  {
    var two, all := AddAll(AddAll(b, dirs, s), dirs, t), AddAll(b, dirs, s + t);
    assert two.watches == all.watches;
    forall w ensures w in two.kernel <==> w in all.kernel {}
  }

  lemma {:induction false} WantedPlus(dirs: Dirs, ignore: set<string>, roots: set<Path>, r: Path)
    requires ParentClosed(dirs)
    ensures Wanted(dirs, ignore, roots + {r}) == Wanted(dirs, ignore, roots) + Watchable(dirs, ignore, r)
    ensures r !in dirs || Ignored(r, ignore) ==> Watchable(dirs, ignore, r) == {}
  {
    PruningIsFiltering(dirs, ignore, r);
    forall d | d in Watchable(dirs, ignore, r) ensures r in dirs {
      PrefixInTree(dirs, d, |r|);
      assert d[..|r|] == r;
    }
    var all := roots + {r};
    forall d ensures d in Wanted(dirs, ignore, all)
                     <==> d in Wanted(dirs, ignore, roots) || d in Watchable(dirs, ignore, r)
    {
      if d in Wanted(dirs, ignore, roots) {
        var q :| q in roots && q in dirs && d in Watchable(dirs, ignore, q);
        assert q in all;
      }
      if d in Watchable(dirs, ignore, r) {
        assert r in all;
      }
    }
  }
}
