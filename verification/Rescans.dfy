/** What a walk yields: each entry below its root once, as created. */
module Rescans {
  import opened Paths
  import opened Types
  import opened DirTree
  import opened Watcher

  /** The walk from `root` goes into `d`, and does not skip it for its key. */
  predicate Enters(t: Tree, ignore: set<string>, key: Path -> Path, root: Path, d: Path) {
    d in t.dirs && root <= d && (forall i :: |root| <= i < |d| ==> d[i] !in ignore) && !Ignored(key(d), ignore)
  }

  /** The event says `created` of the key of a directory that the walk enters, the root's own aside, or of the
      key of a file in one. */
  predicate Finds(t: Tree, ignore: set<string>, key: Path -> Path, root: Path, e: Yielded) {
    e.kind == Created
    && if e.isDir then e.path != root && exists d :: d in t.dirs && Enters(t, ignore, key, root, d) && key(d) == e.path
       else exists f :: f in t.files && f != [] && Enters(t, ignore, key, root, Parent(f)) && key(f) == e.path
  }

  lemma {:induction false} RescanExact(t: Tree, ignore: set<string>, key: Path -> Path, root: Path, e: Yielded)
    ensures e in Rescan(t, key, Kept(Walked(t.dirs, ignore, root), ignore, key), root) <==> Finds(t, ignore, key, root, e)
  {
    var kept := Kept(Walked(t.dirs, ignore, root), ignore, key);
    assert forall d :: d in kept <==> d in t.dirs && Enters(t, ignore, key, root, d);
    if e in DirReports(key, kept, root) {
      var d :| d in Below(key, kept, root) && DirReport(key, d) == e;
      assert Enters(t, ignore, key, root, d);
    }
    if e in FileReports(key, FilesIn(t, kept)) {
      var f :| f in FilesIn(t, kept) && FileReport(key, f) == e;
      assert Enters(t, ignore, key, root, Parent(f));
    }
    if Finds(t, ignore, key, root, e) {
      if e.isDir {
        var d :| d in t.dirs && Enters(t, ignore, key, root, d) && key(d) == e.path;
        assert d in Below(key, kept, root) && DirReport(key, d) == e;
      } else {
        var f :| f in t.files && f != [] && Enters(t, ignore, key, root, Parent(f)) && key(f) == e.path;
        assert f in FilesIn(t, kept) && FileReport(key, f) == e;
      }
    }
  }

  /** A walk yields exactly what it finds, on any tree. */
  lemma {:induction false} WalkYieldsExactly(t: Tree, ignore: set<string>, key: Path -> Path, root: Path, out: seq<Yielded>)
    requires Reports(out, t, key, Kept(Walked(t.dirs, ignore, root), ignore, key), root)
    ensures forall e :: e in out <==> Finds(t, ignore, key, root, e)
  {
    forall e ensures e in out <==> Finds(t, ignore, key, root, e) {
      RescanExact(t, ignore, key, root, e);
      assert e in out <==> e in Events(out);
    }
  }

  /** A resync yields exactly what the walks of its roots find. */
  lemma {:induction false} ResyncYieldsExactly(t: Tree, ignore: set<string>, key: Path -> Path, roots: set<Path>, out: seq<Yielded>)
    requires ReportsRoots(out, t, ignore, key, roots)
    ensures forall e :: e in out <==> exists r :: r in roots && Finds(t, ignore, key, r, e)
  {
    forall e ensures e in out <==> exists r :: r in roots && Finds(t, ignore, key, r, e) {
      forall r ensures e in Rescan(t, key, Kept(Walked(t.dirs, ignore, r), ignore, key), r) <==> Finds(t, ignore, key, r, e) {
        RescanExact(t, ignore, key, r, e);
      }
      assert e in out <==> e in Events(out);
    }
  }

  // ---- where every path is its own key --------------------------------------------------------

  ghost predicate OwnKeys(t: Tree, key: Path -> Path) {
    (forall d :: d in t.dirs ==> key(d) == d) && forall f :: f in t.files ==> key(f) == f
  }

  lemma {:induction false} EntersUnignored(t: Tree, ignore: set<string>, key: Path -> Path, root: Path, d: Path)
    requires OwnKeys(t, key)
    ensures Enters(t, ignore, key, root, d) <==> d in t.dirs && root <= d && !Ignored(d, ignore)
  {
  }

  /** A walk yields every directory below its root and every file at or below it as created, those with an
      ignored directory on the way aside; nothing else; and nothing twice. */
  lemma {:induction false} WalkYieldsEntriesOnce(t: Tree, ignore: set<string>, key: Path -> Path, root: Path, out: seq<Yielded>)
    requires OwnKeys(t, key) && Reports(out, t, key, Kept(Walked(t.dirs, ignore, root), ignore, key), root)
    ensures forall d :: Yielded(d, Created, true) in out <==> d in t.dirs && root < d && !Ignored(d, ignore)
    ensures forall f :: Yielded(f, Created, false) in out
              <==> f in t.files && f != [] && Parent(f) in t.dirs && root <= Parent(f) && !Ignored(Parent(f), ignore)
    ensures forall e :: e in out ==> e.kind == Created
    ensures forall i, j :: 0 <= i < j < |out| ==> out[i] != out[j]
  {
    WalkYieldsExactly(t, ignore, key, root, out);
    forall d ensures Yielded(d, Created, true) in out <==> d in t.dirs && root < d && !Ignored(d, ignore) {
      EntersUnignored(t, ignore, key, root, d);
      assert Yielded(d, Created, true) in out <==> Finds(t, ignore, key, root, Yielded(d, Created, true));
      assert Finds(t, ignore, key, root, Yielded(d, Created, true)) <==> d != root && Enters(t, ignore, key, root, d);
    }
    forall f ensures Yielded(f, Created, false) in out
                     <==> f in t.files && f != [] && Parent(f) in t.dirs && root <= Parent(f) && !Ignored(Parent(f), ignore)
    {
      if f != [] { EntersUnignored(t, ignore, key, root, Parent(f)); }
      assert Yielded(f, Created, false) in out <==> Finds(t, ignore, key, root, Yielded(f, Created, false));
    }
    var kept := Kept(Walked(t.dirs, ignore, root), ignore, key);
    DirReportsSize(key, Below(key, kept, root), root);
    FileReportsSize(key, FilesIn(t, kept));
    assert DirReports(key, kept, root) == DirReports(key, Below(key, kept, root), root);
    assert DirReports(key, kept, root) !! FileReports(key, FilesIn(t, kept));
    SizeMeansDistinct(out);
  }

  lemma {:induction false} DirReportsSize(key: Path -> Path, ds: set<Path>, root: Path)
    requires forall d :: d in ds ==> key(d) == d && d != root
    ensures |DirReports(key, ds, root)| == |ds|
  {
    if ds != {} {
      var d :| d in ds;
      DirReportsSize(key, ds - {d}, root);
      assert d in Below(key, ds, root);
      assert DirReports(key, ds, root) == DirReports(key, ds - {d}, root) + {DirReport(key, d)};
    }
  }

  lemma {:induction false} FileReportsSize(key: Path -> Path, fs: set<Path>)
    requires forall f :: f in fs ==> key(f) == f
    ensures |FileReports(key, fs)| == |fs|
  {
    if fs != {} {
      var f :| f in fs;
      FileReportsSize(key, fs - {f});
      assert FileReports(key, fs) == FileReports(key, fs - {f}) + {FileReport(key, f)};
    }
  }

  /** A list with as many different elements as places repeats none. */
  lemma {:induction false} SizeMeansDistinct(s: seq<Yielded>)
    ensures |Events(s)| <= |s|
    ensures |Events(s)| == |s| ==> forall i, j :: 0 <= i < j < |s| ==> s[i] != s[j]
  {
    if s != [] {
      var front, last := s[..|s| - 1], s[|s| - 1];
      SizeMeansDistinct(front);
      assert s == front + [last];
      assert Events(s) == Events(front) + {last};
      assert last in Events(front) ==> Events(s) == Events(front);
      assert forall i :: 0 <= i < |front| ==> s[i] == front[i] && front[i] in Events(front);
    }
  }
}
