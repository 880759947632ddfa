/** What the watching is for: in every guarded run no file that appears below an attached root is missed. */
module FileRuns {
  import opened Paths
  import opened Types
  import opened DirTree
  import opened Watcher
  import opened RootChanges
  import opened WatchRuns
  import opened Draining
  import opened AttachRace

  /** A world with its files.  `unreported` are those that appeared and were not yielded as created since;
      what is already below a root that is added is not to be reported. */
  datatype Disk = Disk(w: World, files: set<Path>, unreported: set<Path>)

  datatype FileStep =
    /** A file is made or moved in. */
    | Make(f: Path, kind: FsEventType)
    /** The same, but the kernel queue is full and the event is lost. */
    | MakeUnseen(f: Path)
    | Remove(f: Path, kind: FsEventType)
    | RemoveUnseen(f: Path)
    /** A step of the world; a directory that appears brings the files `contents`. */
    | Other(step: Step, contents: set<Path>)

  predicate MayHold(dirs: Dirs, files: set<Path>) {
    forall f :: f in files ==> f != [] && f !in dirs && Parent(f) in dirs
  }

  predicate CanStep(x: Disk, s: FileStep) {
    match s
    case Make(f, kind) => f != [] && Parent(f) in x.w.dirs && f !in x.w.dirs && kind in {Created, MovedTo}
    case MakeUnseen(f) => f != [] && Parent(f) in x.w.dirs && f !in x.w.dirs && Seen(x.w, f)
    case Remove(f, kind) => f in x.files && f != [] && kind in {Deleted, MovedFrom}
    case RemoveUnseen(f) => f in x.files && f != [] && Seen(x.w, f)
    case Other(step, contents) =>
      && Possible(x.w, step) && !step.FileEvent? && !step.FileEventUnseen?
      && match step
         case Appear(p, all, _) => Brings(x, p, all, contents)
         case AppearUnseen(p, all) => Brings(x, p, all, contents)
         case Vanish(p, kind) => contents == {} && (kind == Deleted ==> FilesBelow(x.files, p) == {})
         case VanishUnseen(p, kind) => contents == {} && (kind == Deleted ==> FilesBelow(x.files, p) == {})
         case _ => contents == {}
  }

  predicate Brings(x: Disk, p: Path, all: set<Path>, contents: set<Path>) {
    p !in x.files && forall f :: f in contents ==> f != [] && Parent(f) in all && f !in all
  }

  function FilesBelow(files: set<Path>, p: Path): set<Path> {
    set f | f in files && p <= f
  }

  /** The kernel tells about a file in a directory that it watches. */
  function Told(w: World, ignore: set<string>, f: Path, kind: FsEventType): World
    requires f != []
  {
    if Seen(w, f) then After(w, ignore, FileEvent(f, kind)) else w
  }

  /** The files that taking an event yields as created. */
  function ReportedBy(dirs: Dirs, files: set<Path>, ignore: set<string>, e: KernelEvent): set<Path> {
    match e
    case Overflow => {}
    case Resync(root) => FilesIn(Tree(dirs, files), Watchable(dirs, ignore, root))
    case Entry(path, kind, isDir) =>
      if Ignored(path, ignore) || kind !in {Created, MovedTo} then {}
      else if isDir then FilesIn(Tree(dirs, files), Watchable(dirs, ignore, path))
      else {path}
  }

  predicate BelowSome(roots: set<Path>, f: Path) {
    f != [] && exists g :: g in roots && g <= Parent(f)
  }

  function Stepped(x: Disk, ignore: set<string>, s: FileStep): Disk
    requires CanStep(x, s)
  {
    match s
    case Make(f, kind) => Disk(Told(x.w, ignore, f, kind), x.files + {f}, x.unreported + {f})
    case MakeUnseen(f) => Disk(After(x.w, ignore, FileEventUnseen), x.files + {f}, x.unreported + {f})
    case Remove(f, kind) => Disk(Told(x.w, ignore, f, kind), x.files - {f}, x.unreported - {f})
    case RemoveUnseen(f) => Disk(After(x.w, ignore, FileEventUnseen), x.files - {f}, x.unreported - {f})
    case Other(step, contents) =>
      var w := After(x.w, ignore, step);
      match step
      case Appear(_, _, _) => Disk(w, x.files + contents, x.unreported + contents)
      case AppearUnseen(_, _) => Disk(w, x.files + contents, x.unreported + contents)
      case Vanish(p, _) => Disk(w, x.files - FilesBelow(x.files, p), x.unreported - FilesBelow(x.files, p))
      case VanishUnseen(p, _) => Disk(w, x.files - FilesBelow(x.files, p), x.unreported - FilesBelow(x.files, p))
      case Take(_) => Disk(w, x.files, x.unreported - ReportedBy(x.w.dirs, x.files, ignore, x.w.queue[0]))
      case SetRoots(roots) => Disk(w, x.files, set f | f in x.unreported && BelowSome(x.w.attached * roots, f))
      case _ => x
  }

  /** The guard is that of the world's step; a file alone has none. */
  ghost predicate GuardedStep(x: Disk, ignore: set<string>, s: FileStep) {
    s.Other? ==> Guard(x.w, ignore, s.step)
  }

  /** Taking the event yields `f` as created, or expands into what does. */
  predicate Delivers(e: KernelEvent, f: Path)
    requires f != []
  {
    (e.Entry? && !e.isDir && e.path == f && e.kind in {Created, MovedTo}) || Walks(e, Parent(f))
  }

  ghost predicate Awaited(q: seq<KernelEvent>, f: Path) {
    f != [] && exists i :: 0 <= i < |q| && Delivers(q[i], f)
  }

  /** An unreported file below an attached root is still to come out of the queue. */
  ghost predicate FileOk(x: Disk, ignore: set<string>, f: Path) {
    f in x.unreported && f != [] && Mine(x.w, ignore, Parent(f)) && !Ignored(f, ignore) ==> Awaited(x.w.queue, f)
  }

  ghost predicate NoneMissed(x: Disk, ignore: set<string>) {
    && Shape(x.w) && AllDestined(x.w, ignore) && MayHold(x.w.dirs, x.files) && x.unreported <= x.files
    && forall f {:trigger FileOk(x, ignore, f)} :: FileOk(x, ignore, f)
  }

  // ---- one step -------------------------------------------------------------------------------

  lemma {:induction false} StaysAwaited(q: seq<KernelEvent>, r: seq<KernelEvent>, f: Path)
    requires Awaited(q, f) && q <= r
    ensures Awaited(r, f)
  {
    var i :| 0 <= i < |q| && Delivers(q[i], f);
    assert r[i] == q[i];
  }

  /** A new file in a directory that draining leaves watched: its event is queued, or a walk over it is. */
  lemma {:induction false} NewFileAwaited(w: World, ignore: set<string>, f: Path)
    requires Shape(w) && AllDestined(w, ignore) && f != [] && Parent(f) in w.dirs && Mine(w, ignore, Parent(f))
    requires !Seen(w, f)
    ensures Awaited(w.queue, f)
  {
    assert DestinedAt(w, ignore, Parent(f));
    assert WalkPending(w.queue, Parent(f));
    var i :| 0 <= i < |w.queue| && Walks(w.queue[i], Parent(f));
    assert Delivers(w.queue[i], f);
  }

  lemma {:induction false} LastAwaited(q: seq<KernelEvent>, e: KernelEvent, f: Path)
    requires f != [] && Delivers(e, f) && e in q
    ensures Awaited(q, f)
  {
    var i :| 0 <= i < |q| && q[i] == e;
  }

  lemma {:induction false} MakeKeeps(x: Disk, ignore: set<string>, s: FileStep, f: Path)
    requires NoneMissed(x, ignore) && CanStep(x, s) && (s.Make? || s.MakeUnseen?)
    ensures FileOk(Stepped(x, ignore, s), ignore, f)
  {
    assert FileOk(x, ignore, f);
    var r := Stepped(x, ignore, s).w.queue;
    assert x.w.queue <= r;
    if Awaited(x.w.queue, f) {
      StaysAwaited(x.w.queue, r, f);
    } else if f == s.f && Mine(x.w, ignore, Parent(f)) {
      if s.MakeUnseen? {
        LastAwaited(r, Overflow, f);
      } else if Seen(x.w, f) {
        LastAwaited(r, Entry(f, s.kind, false), f);
      } else {
        NewFileAwaited(x.w, ignore, f);
      }
    }
  }

  lemma {:induction false} RemoveKeeps(x: Disk, ignore: set<string>, s: FileStep, f: Path)
    requires NoneMissed(x, ignore) && CanStep(x, s) && (s.Remove? || s.RemoveUnseen?)
    ensures FileOk(Stepped(x, ignore, s), ignore, f)
  {
    assert FileOk(x, ignore, f);
    if Awaited(x.w.queue, f) {
      StaysAwaited(x.w.queue, Stepped(x, ignore, s).w.queue, f);
    }
  }

  lemma {:induction false} AppearKeeps(x: Disk, ignore: set<string>, s: FileStep, f: Path)
    requires NoneMissed(x, ignore) && CanStep(x, s) && s.Other? && (s.step.Appear? || s.step.AppearUnseen?) && GuardedStep(x, ignore, s)
    ensures FileOk(Stepped(x, ignore, s), ignore, f)
  {
    assert FileOk(x, ignore, f);
    var w, v := x.w, After(x.w, ignore, s.step);
    assert w.queue <= v.queue;
    if Awaited(w.queue, f) {
      StaysAwaited(w.queue, v.queue, f);
    } else if f in s.contents && Mine(v, ignore, Parent(f)) {
      StepShape(w, ignore, s.step);
      StepExact(w, ignore, s.step);
      NewDirectory(w, s.step.p, s.step.all, Parent(f));
      NewFileAwaited(v, ignore, f);
    }
  }

  /** A directory that has just appeared has no watch of its own. */
  lemma {:induction false} NewDirectory(w: World, p: Path, all: set<Path>, d: Path)
    requires Shape(w) && NewSubtree(w, p, all) && d in all
    ensures d !in w.dirs && (d, w.next) !in w.b.kernel
  {
    NothingBelow(w.dirs, p, d);
  }

  lemma {:induction false} VanishKeepsFiles(x: Disk, ignore: set<string>, s: FileStep, f: Path)
    requires NoneMissed(x, ignore) && CanStep(x, s) && s.Other? && (s.step.Vanish? || s.step.VanishUnseen?)
    ensures FileOk(Stepped(x, ignore, s), ignore, f)
  {
    assert FileOk(x, ignore, f);
    if Awaited(x.w.queue, f) {
      StaysAwaited(x.w.queue, After(x.w, ignore, s.step).queue, f);
    }
  }

  lemma {:induction false} SetRootsKeepsFiles(x: Disk, ignore: set<string>, roots: set<Path>, f: Path)
    requires NoneMissed(x, ignore)
    ensures FileOk(Stepped(x, ignore, Other(SetRoots(roots), {})), ignore, f)
  {
    assert FileOk(x, ignore, f);
  }

  lemma {:induction false} TakeKeepsFiles(x: Disk, ignore: set<string>, order: seq<Path>, f: Path)
    requires NoneMissed(x, ignore) && Possible(x.w, Take(order))
    ensures FileOk(Stepped(x, ignore, Other(Take(order), {})), ignore, f)
  {
    assert FileOk(x, ignore, f);
    var w := x.w;
    var e, rest := w.queue[0], w.queue[1..];
    if f in x.unreported && f != [] && Mine(w, ignore, Parent(f)) && !Ignored(f, ignore) {
      var i :| 0 <= i < |w.queue| && Delivers(w.queue[i], f);
      if i > 0 {
        var v := After(w, ignore, Take(order));
        assert w.queue[i] == rest[i - 1] && w.queue[i] in v.queue;
        LastAwaited(v.queue, w.queue[i], f);
      } else if e.Overflow? {
        var g :| g in w.attached && g <= Parent(f);
        assert g in Elements(order);
        var j :| 0 <= j < |order| && order[j] == g;
        assert After(w, ignore, Take(order)).queue[j] == Resync(g);
        LastAwaited(After(w, ignore, Take(order)).queue, Resync(g), f);
      } else {
        assert MayHold(w.dirs, x.files);
        assert f in ReportedBy(w.dirs, x.files, ignore, e);
      }
    }
  }

  lemma {:induction false} ContentsHeld(x: Disk, p: Path, all: set<Path>, contents: set<Path>)
    requires MayHold(x.w.dirs, x.files) && ParentClosed(x.w.dirs) && NewSubtree(x.w, p, all) && Brings(x, p, all, contents)
    ensures MayHold(x.w.dirs + (map d | d in all :: x.w.next), x.files + contents)
  {
    forall d | d in all ensures d !in x.w.dirs { NothingBelow(x.w.dirs, p, d); }
  }

  lemma {:induction false} FilesStayHeld(x: Disk, ignore: set<string>, s: FileStep)
    requires MayHold(x.w.dirs, x.files) && ParentClosed(x.w.dirs) && x.unreported <= x.files && CanStep(x, s)
    ensures var y := Stepped(x, ignore, s); MayHold(y.w.dirs, y.files) && y.unreported <= y.files
  {
    match s
    case Other(Appear(p, all, _), contents) => ContentsHeld(x, p, all, contents);
    case Other(AppearUnseen(p, all), contents) => ContentsHeld(x, p, all, contents);
    case _ =>
  }

  /** The world's part of a step. */
  lemma {:induction false} WorldStep(x: Disk, ignore: set<string>, s: FileStep)
    requires Shape(x.w) && AllDestined(x.w, ignore) && CanStep(x, s) && GuardedStep(x, ignore, s)
    ensures Shape(Stepped(x, ignore, s).w) && AllDestined(Stepped(x, ignore, s).w, ignore)
  {
    var step := match s
      case Make(f, kind) => FileEvent(f, kind)
      case Remove(f, kind) => FileEvent(f, kind)
      case MakeUnseen(_) => FileEventUnseen
      case RemoveUnseen(_) => FileEventUnseen
      case Other(step, _) => step;
    StepShape(x.w, ignore, step);
    StepExact(x.w, ignore, step);
  }

  lemma {:induction false} FileOkAfter(x: Disk, ignore: set<string>, s: FileStep, f: Path)
    requires NoneMissed(x, ignore) && CanStep(x, s) && GuardedStep(x, ignore, s)
    ensures FileOk(Stepped(x, ignore, s), ignore, f)
  {
    match s
    case Make(_, _) => MakeKeeps(x, ignore, s, f);
    case MakeUnseen(_) => MakeKeeps(x, ignore, s, f);
    case Remove(_, _) => RemoveKeeps(x, ignore, s, f);
    case RemoveUnseen(_) => RemoveKeeps(x, ignore, s, f);
    case Other(Appear(_, _, _), _) => AppearKeeps(x, ignore, s, f);
    case Other(AppearUnseen(_, _), _) => AppearKeeps(x, ignore, s, f);
    case Other(Vanish(_, _), _) => VanishKeepsFiles(x, ignore, s, f);
    case Other(VanishUnseen(_, _), _) => VanishKeepsFiles(x, ignore, s, f);
    case Other(Take(order), _) => TakeKeepsFiles(x, ignore, order, f);
    case Other(SetRoots(roots), _) => SetRootsKeepsFiles(x, ignore, roots, f);
  }

  lemma {:induction false} StepMissesNone(x: Disk, ignore: set<string>, s: FileStep)
    requires NoneMissed(x, ignore) && CanStep(x, s) && GuardedStep(x, ignore, s)
    ensures NoneMissed(Stepped(x, ignore, s), ignore)
  {
    WorldStep(x, ignore, s);
    FilesStayHeld(x, ignore, s);
    var y := Stepped(x, ignore, s);
    forall f ensures FileOk(y, ignore, f) { FileOkAfter(x, ignore, s, f); }
  }

  // ---- runs -----------------------------------------------------------------------------------

  /** Before the first roots nothing is to be reported. */
  ghost predicate Begun(x: Disk) {
    Start(x.w) && MayHold(x.w.dirs, x.files) && x.unreported == {}
  }

  ghost predicate Comes(x: Disk, ignore: set<string>, steps: seq<FileStep>, y: Disk)
    decreases |steps|
  {
    if steps == [] then y == x
    else CanStep(x, steps[0]) && GuardedStep(x, ignore, steps[0]) && Comes(Stepped(x, ignore, steps[0]), ignore, steps[1..], y)
  }

  lemma {:induction false} NoneMissedFrom(x: Disk, ignore: set<string>, steps: seq<FileStep>, y: Disk)
    requires NoneMissed(x, ignore) && Comes(x, ignore, steps, y)
    ensures NoneMissed(y, ignore)
    decreases |steps|
  {
    if steps != [] {
      StepMissesNone(x, ignore, steps[0]);
      NoneMissedFrom(Stepped(x, ignore, steps[0]), ignore, steps[1..], y);
    }
  }

  /** In every state of a guarded run, a file that appeared below an attached root, is still there, is not
      ignored and was not yielded as created since, has its event queued, or a queued walk will find it.  So
      with nothing queued every such file was yielded, through overflows and attach races alike. */
  lemma {:induction false} NoFileIsMissed(x: Disk, ignore: set<string>, steps: seq<FileStep>, y: Disk, f: Path)
    requires Begun(x) && Comes(x, ignore, steps, y)
    requires f in y.files && f != [] && Mine(y.w, ignore, Parent(f)) && !Ignored(f, ignore)
    ensures f in y.unreported ==> Awaited(y.w.queue, f)
    ensures y.w.queue == [] ==> f !in y.unreported
  {
    StartIsClean(x.w, ignore);
    forall f ensures FileOk(x, ignore, f) {}
    NoneMissedFrom(x, ignore, steps, y);
    assert FileOk(y, ignore, f);
  }

  /** Once the queue is drained, a file is missed exactly if its directory has no kernel watch: so every run
      that ends with a directory unwatched goes on to miss a file. */
  lemma {:induction false} MissedWhenUnwatched(x: Disk, ignore: set<string>, f: Path, kind: FsEventType)
    requires x.w.queue == [] && CanStep(x, Make(f, kind))
    ensures var y := Stepped(x, ignore, Make(f, kind));
            f in y.unreported && (Awaited(y.w.queue, f) <==> Seen(x.w, f))
  {
    var y := Stepped(x, ignore, Make(f, kind));
    if Seen(x.w, f) {
      LastAwaited(y.w.queue, Entry(f, kind, false), f);
    }
  }

  // ---- what the methods yield -----------------------------------------------------------------

  /** Where every path is its own key, a walk yields every file that it is to report. */
  lemma {:induction false} WalkReportsFiles(t: Tree, ignore: set<string>, key: Path -> Path, root: Path, out: seq<Yielded>)
    requires (forall d :: d in t.dirs ==> key(d) == d) && forall f :: f in t.files ==> key(f) == f
    requires Reports(out, t, key, Kept(Walked(t.dirs, ignore, root), ignore, key), root)
    ensures forall f :: f in FilesIn(t, Watchable(t.dirs, ignore, root)) ==> Yielded(f, Created, false) in out
  {
    TidyKeys(t.dirs, ignore, key, root);
    var fs := FilesIn(t, Watchable(t.dirs, ignore, root));
    forall f | f in fs ensures Yielded(f, Created, false) in out {
      assert FileReport(key, f) in FileReports(key, fs);
      assert Yielded(f, Created, false) in Events(out);
    }
  }

  /** And taking an entry yields every file that it is to report, as created or moved in. */
  lemma {:induction false} TakingReportsFiles(t: Tree, ignore: set<string>, key: Path -> Path, e: KernelEvent, out: seq<Yielded>)
    requires (forall d :: d in t.dirs ==> key(d) == d) && forall f :: f in t.files ==> key(f) == f
    requires e.Entry? && key(e.path) == e.path && !Ignored(e.path, ignore)
    requires |out| > 0 && out[0] == Yielded(e.path, e.kind, e.isDir)
    requires Appears(e) ==> Reports(out[1..], t, key, Kept(Walked(t.dirs, ignore, e.path), ignore, key), e.path)
    ensures forall f :: f in ReportedBy(t.dirs, t.files, ignore, e) ==>
              Yielded(f, Created, false) in out || Yielded(f, MovedTo, false) in out
  {
    if Appears(e) {
      WalkReportsFiles(t, ignore, key, e.path, out[1..]);
    }
  }
}
