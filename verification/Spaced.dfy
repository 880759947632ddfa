/** What `normalize_path` makes of a directory's name, and which directories a fresh watcher watches for it. */
module Spaced {
  import opened Paths
  import opened Types
  import opened Normalize
  import opened DirTree
  import opened Watcher

  // ---- the key of a path --------------------------------------------------------------------

  /** The name of a directory without the whitespace at its end. */
  function Name(x: Path): string
    requires x != []
  {
    StripRight(x[|x| - 1])
  }

  /** The key of a path is where its stripped name leads from its parent: one level up for a stripped `..`,
      the parent itself for a stripped dot or a name of whitespace alone. */
  lemma {:induction false} KeyMoves(x: Path)
    requires CleanPath(x) && x != []
    ensures Key(x) == Move(Parent(x), Name(x))
  {
    var above, name := Parent(x), x[|x| - 1];
    assert x == above + [name] && Clean(name);
    var lead := "/" + Lead(above);
    TextSplits(above, name);
    TextSplits(above, Name(x));
    StripRightEnd(lead, name);
    LeadText(above, Name(x));
    PushesLast(above, Name(x));
    TextSegs(Move(above, Name(x)));
  }

  /** What stands before the last name. */
  function Lead(above: Path): string {
    if above == [] then "" else Join(above, '/') + "/"
  }

  lemma {:induction false} TextSplits(above: Path, name: string)
    ensures Text(above + [name]) == "/" + Lead(above) + name
  {
    if above != [] {
      JoinConcat(above, [name], '/');
    } else {
      assert above + [name] == [name];
    }
  }

  /** Stripping stops before the last separator. */
  lemma {:induction false} StripRightEnd(lead: string, name: string)
    requires lead != "" && !IsSpace(lead[|lead| - 1])
    ensures StripRight(lead + name) == lead + StripRight(name)
  {
    if name == "" {
      assert lead + name == lead;
    } else {
      WithoutLast(lead, name);
      if IsSpace(name[|name| - 1]) {
        StripRightEnd(lead, name[..|name| - 1]);
      }
    }
  }

  lemma {:induction false} WithoutLast(lead: string, name: string)
    requires name != ""
    ensures var s := lead + name;
            s[|s| - 1] == name[|name| - 1] && s[..|s| - 1] == lead + name[..|name| - 1]
  {
  }

  /** The stack of a text made of proper segments and a last piece. */
  lemma {:induction false} LeadText(above: Path, name: string)
    requires CleanPath(above) && '/' !in name
    ensures var s := Text(above + [name]);
            Root(s) == "/" && Stack(s) == PushAll([], above + [name], true)
  {
    var s := Text(above + [name]);
    TextSplits(above, name);
    if above != [] {
      JoinNonempty(above);
      assert s[1] == Join(above, '/')[0];
    }
    assert Root(s) == "/";
    assert s[1..] == Join(above + [name], '/');
    forall i | 0 <= i < |above + [name]| ensures '/' !in (above + [name])[i] {
      assert i < |above| ==> Clean(above[i]);
    }
    SplitJoin(above + [name], '/');
  }

  lemma {:induction false} PushesLast(above: Path, name: string)
    requires CleanPath(above) && '/' !in name
    ensures PushAll([], above + [name], true) == Move(above, name) && CleanPath(Move(above, name))
  {
    PushAllLast([], above, name, true);
    PushClean([], above);
    assert [] + above == above;
    assert above != [] ==> Clean(above[|above| - 1]);
  }

  lemma {:induction false} PushAllLast(stack: seq<string>, comps: seq<string>, last: string, rooted: bool)
    ensures PushAll(stack, comps + [last], rooted) == Push(PushAll(stack, comps, rooted), last, rooted)
    decreases |comps|
  {
    if comps == [] {
      assert comps + [last] == [last];
      assert PushAll(Push(stack, last, rooted), [last][1..], rooted) == Push(stack, last, rooted);
    } else {
      assert (comps + [last])[1..] == comps[1..] + [last];
      PushAllLast(Push(stack, comps[0], rooted), comps[1..], last, rooted);
    }
  }

  // ---- which directories a fresh watcher watches ----------------------------------------------

  /** `key` is the key of every directory of the tree. */
  ghost predicate KeysByName(dirs: Dirs, key: Path -> Path) {
    && (forall x {:trigger CleanPath(x)} :: x in dirs ==> CleanPath(x))
    && (forall x {:trigger key(x)} :: x in dirs ==> key(x) == if x == [] then [] else Move(Parent(x), Name(x)))
  }

  /** `x` is a child of `d` named by whitespace or a dot and whitespace, or a grandchild named by two dots
      and whitespace: its key is `d`. */
  predicate StandsFor(x: Path, d: Path) {
    d < x && if |x| == |d| + 1 then Name(x) == "" || Name(x) == "." else |x| == |d| + 2 && Name(x) == ".."
  }

  /** The last name does not end in whitespace. */
  predicate NamedCleanly(d: Path) {
    d == [] || Name(d) == d[|d| - 1]
  }

  lemma {:induction false} KeyOfOther(dirs: Dirs, key: Path -> Path, x: Path, d: Path)
    requires KeysByName(dirs, key) && x in dirs && d in dirs
    ensures NamedCleanly(d) <==> key(d) == d
    ensures !NamedCleanly(d) ==> (key(x) == d <==> StandsFor(x, d))
  {
    assert CleanPath(d) && CleanPath(x);
    assert d != [] ==> Clean(d[|d| - 1]) && d == Parent(d) + [d[|d| - 1]];
    assert x != [] ==> x == Parent(x) + [x[|x| - 1]];
    if !NamedCleanly(d) {
      KeyNotItself(d);
      if x != [] { StandsForExactly(x, d); }
    }
  }

  lemma {:induction false} KeyNotItself(d: Path)
    requires d != [] && !NamedCleanly(d)
    ensures Move(Parent(d), Name(d)) != d
  {
    assert Name(d) == ".." && Parent(d) != [] ==> |Parent(Parent(d))| < |d|;
  }

  lemma {:induction false} StandsForExactly(x: Path, d: Path)
    requires x != [] && d != [] && !NamedCleanly(d)
    ensures Move(Parent(x), Name(x)) == d <==> StandsFor(x, d)
  {
    var above := Parent(x);
    assert x == above + [x[|x| - 1]];
    if Name(x) == "" || Name(x) == "." {
      assert StandsFor(x, d) <==> above == d;
    } else if Name(x) == ".." {
      assert above != [] ==> x == Parent(above) + [above[|above| - 1], x[|x| - 1]];
      assert StandsFor(x, d) <==> above != [] && Parent(above) == d;
    } else {
      var k := above + [Name(x)];
      assert k[|k| - 1] == Name(x) && NamedCleanly(k);
    }
  }

  /** The watches of one `set_roots` on a fresh backend. */
  function FreshWatches(dirs: Dirs, ignore: set<string>, key: Path -> Path, given: set<Path>): set<Path> {
    SetRootsKeyed(FRESH, dirs, ignore, key, given).watches.Keys
  }

  lemma {:induction false} FreshByKey(dirs: Dirs, ignore: set<string>, key: Path -> Path, given: set<Path>, d: Path)
    requires ParentClosed(dirs)
    ensures d in FreshWatches(dirs, ignore, key, given)
            <==> d in dirs && !Ignored(d, ignore) && exists x :: x in Wanted(dirs, ignore, Keys(given, key)) && key(x) == d
  {
    var roots := Keys(given, key);
    var live := LiveAmong(dirs, ignore, roots);
    assert FRESH.roots - roots == {} && roots - FRESH.roots == roots;
    RemoveNone(FRESH);
    assert d in FreshWatches(dirs, ignore, key, given) <==> d in dirs && d in WatchKeysOf(dirs, ignore, key, live);
    if d in dirs && d in WatchKeysOf(dirs, ignore, key, live) {
      var r :| r in live && d in WatchKeys(dirs, ignore, key, r);
      PruningIsFiltering(dirs, ignore, r);
      var x :| x in Kept(Walked(dirs, ignore, r), ignore, key) && key(x) == d;
      assert x in Watchable(dirs, ignore, r);
    }
    if d in dirs && !Ignored(d, ignore) {
      forall x | x in Wanted(dirs, ignore, roots) && key(x) == d ensures d in WatchKeysOf(dirs, ignore, key, live) {
        var r :| r in roots && r in dirs && x in Watchable(dirs, ignore, r);
        PruningIsFiltering(dirs, ignore, r);
        assert r in live && x in Kept(Walked(dirs, ignore, r), ignore, key);
        assert d in WatchKeys(dirs, ignore, key, r);
      }
    }
  }

  /** Each wanted directory with whitespace at the end of its name has one below it that stands for it. */
  ghost predicate AllStoodFor(wanted: set<Path>) {
    forall d :: d in wanted && !NamedCleanly(d) ==> exists x :: x in wanted && StandsFor(x, d)
  }

  predicate Leaves(x: Path, roots: set<Path>) {
    x != [] && (Name(x) == ".." || x in roots)
  }

  /** No key leads out: from a directory named by two dots and whitespace, or from a root itself. */
  ghost predicate NoneLeadsOut(dirs: Dirs, ignore: set<string>, key: Path -> Path, roots: set<Path>) {
    forall x :: x in Wanted(dirs, ignore, roots) && Leaves(x, roots) && key(x) in dirs && !Ignored(key(x), ignore)
                ==> key(x) in Wanted(dirs, ignore, roots)
  }

  lemma {:induction false} StaysBelow(dirs: Dirs, ignore: set<string>, key: Path -> Path, roots: set<Path>, x: Path)
    requires ParentClosed(dirs) && KeysByName(dirs, key) && x in Wanted(dirs, ignore, roots)
    requires !Leaves(x, roots)
    requires key(x) in dirs && !Ignored(key(x), ignore)
    ensures key(x) in Wanted(dirs, ignore, roots)
  {
    var r :| r in roots && r in dirs && x in Watchable(dirs, ignore, r);
    assert x != [] ==> r != x && r <= Parent(x) && Parent(x) <= key(x);
    assert key(x) in Watchable(dirs, ignore, r);
  }

  /** A wanted directory is watched exactly if its name does not end in whitespace, or another wanted one
      stands for it. */
  lemma {:induction false} WatchedByName(dirs: Dirs, ignore: set<string>, key: Path -> Path, given: set<Path>, d: Path)
    requires ParentClosed(dirs) && KeysByName(dirs, key) && d in Wanted(dirs, ignore, Keys(given, key))
    ensures d in FreshWatches(dirs, ignore, key, given)
            <==> NamedCleanly(d) || exists x :: x in Wanted(dirs, ignore, Keys(given, key)) && StandsFor(x, d)
  {
    var wanted := Wanted(dirs, ignore, Keys(given, key));
    FreshByKey(dirs, ignore, key, given, d);
    KeyOfOther(dirs, key, d, d);
    forall x | x in wanted ensures !NamedCleanly(d) ==> (key(x) == d <==> StandsFor(x, d)) {
      KeyOfOther(dirs, key, x, d);
    }
    if !NamedCleanly(d) {
      assert (exists x :: x in wanted && key(x) == d) <==> exists x :: x in wanted && StandsFor(x, d);
    }
  }

  lemma {:induction false} WatchesLeadOut(dirs: Dirs, ignore: set<string>, key: Path -> Path, given: set<Path>)
    requires ParentClosed(dirs) && KeysByName(dirs, key)
    ensures var roots := Keys(given, key);
            FreshWatches(dirs, ignore, key, given) <= Wanted(dirs, ignore, roots) <==> NoneLeadsOut(dirs, ignore, key, roots)
  {
    var roots := Keys(given, key);
    var wanted, watched := Wanted(dirs, ignore, roots), FreshWatches(dirs, ignore, key, given);
    forall x | x in wanted && key(x) in dirs && !Ignored(key(x), ignore)
      ensures key(x) in watched && (!Leaves(x, roots) ==> key(x) in wanted)
    {
      FreshByKey(dirs, ignore, key, given, key(x));
      if !Leaves(x, roots) { StaysBelow(dirs, ignore, key, roots, x); }
    }
    forall d | d in watched ensures d in dirs && !Ignored(d, ignore) && exists x :: x in wanted && key(x) == d {
      FreshByKey(dirs, ignore, key, given, d);
    }
  }

  /** One `set_roots` on a fresh backend watches exactly the directories at or below the roots, if and only
      if each of them that has whitespace at the end of its name has one below it that stands for it, and
      no key leads out. */
  lemma {:induction false} FreshExactly(dirs: Dirs, ignore: set<string>, key: Path -> Path, given: set<Path>)
    requires ParentClosed(dirs) && KeysByName(dirs, key)
    ensures var roots := Keys(given, key);
            FreshWatches(dirs, ignore, key, given) == Wanted(dirs, ignore, roots)
            <==> AllStoodFor(Wanted(dirs, ignore, roots)) && NoneLeadsOut(dirs, ignore, key, roots)
  {
    var roots := Keys(given, key);
    var wanted := Wanted(dirs, ignore, roots);
    WatchesLeadOut(dirs, ignore, key, given);
    forall d | d in wanted
      ensures d in FreshWatches(dirs, ignore, key, given) <==> NamedCleanly(d) || exists x :: x in wanted && StandsFor(x, d)
    {
      WatchedByName(dirs, ignore, key, given, d);
    }
  }

  // ---- with the keys of the program -----------------------------------------------------------

  lemma {:induction false} KeysOfTree(dirs: Dirs)
    requires forall x {:trigger CleanPath(x)} :: x in dirs ==> CleanPath(x)
    ensures KeysByName(dirs, KEY)
  {
    forall x {:trigger KEY(x)} | x in dirs ensures KEY(x) == if x == [] then [] else Move(Parent(x), Name(x)) {
      if x == [] { TidyExactly([]); } else { KeyMoves(x); }
    }
  }

  /** The same for `normalize_path`, on any tree and for any roots. */
  lemma {:induction false} FreshSetRootsExact(dirs: Dirs, ignore: set<string>, given: set<Path>)
    requires ParentClosed(dirs) && forall x {:trigger CleanPath(x)} :: x in dirs ==> CleanPath(x)
    ensures var roots := Keys(given, KEY);
            FreshWatches(dirs, ignore, KEY, given) == Wanted(dirs, ignore, roots)
            <==> AllStoodFor(Wanted(dirs, ignore, roots)) && NoneLeadsOut(dirs, ignore, KEY, roots)
  {
    KeysOfTree(dirs);
    FreshExactly(dirs, ignore, KEY, given);
  }

  lemma {:induction false} DeletionByKey(b: Backend, dirs: Dirs, ignore: set<string>, key: Path -> Path, x: Path, kind: FsEventType)
    requires kind in {Deleted, MovedFrom} && !Ignored(key(x), ignore)
    ensures HandledKeyed(b, dirs, ignore, key, Entry(x, kind, true)) == RemoveTrees(b, {key(x)})
  {
    assert Entry(x, kind, true).path == x;
  }

  /** The deletion of a directory forgets what is at or below the place that its stripped name leads to: for
      one named by whitespace alone, everything at or below its parent. */
  lemma {:induction false} SpacedDeletion(b: Backend, dirs: Dirs, ignore: set<string>, x: Path, kind: FsEventType)
    requires CleanPath(x) && x != [] && kind in {Deleted, MovedFrom} && !Ignored(Move(Parent(x), Name(x)), ignore)
    ensures HandledKeyed(b, dirs, ignore, KEY, Entry(x, kind, true)) == RemoveTrees(b, {Move(Parent(x), Name(x))})
  {
    assert KEY(x) == Move(Parent(x), Name(x)) by { KeyMoves(x); }
    DeletionByKey(b, dirs, ignore, KEY, x, kind);
  }

  /** The root directory with one directory in it. */
  function OneInside(name: string): Dirs {
    map[[] := 0, [name] := 1]
  }

  /** The same with a directory inside that one. */
  function TwoInside(name: string, inner: string): Dirs {
    map[[] := 0, [name] := 1, [name, inner] := 2]
  }

  lemma {:induction false} TopOnly(dirs: Dirs, key: Path -> Path, d: Path)
    requires key([]) == [] && [] in dirs && d in dirs
    ensures Keys({[]}, key) == {[]} && d in Wanted(dirs, {}, {[]})
  {
    var top: Path := [];
    assert Keys({top}, key) == {top} by { assert top in {top}; }
    assert d in Watchable(dirs, {}, top) && top in {top};
  }

  lemma {:induction false} AloneUnwatched(key: Path -> Path, name: string)
    requires KeysByName(OneInside(name), key) && !NamedCleanly([name])
    ensures [name] in Wanted(OneInside(name), {}, {[]}) && [name] !in FreshWatches(OneInside(name), {}, key, {[]})
  {
    TopOnly(OneInside(name), key, [name]);
    WatchedByName(OneInside(name), {}, key, {[]}, [name]);
    assert forall x :: x in Wanted(OneInside(name), {}, {[]}) ==> x in OneInside(name) && |x| <= 1;
  }

  lemma {:induction false} WatchedForInner(key: Path -> Path, name: string, inner: string)
    requires KeysByName(TwoInside(name, inner), key) && Name([name, inner]) == ""
    ensures [name] in FreshWatches(TwoInside(name, inner), {}, key, {[]})
  {
    var dirs, x, d := TwoInside(name, inner), [name, inner], [name];
    assert Parent(x) == d && Parent(d) == [];
    TopOnly(dirs, key, d);
    TopOnly(dirs, key, x);
    WatchedByName(dirs, {}, key, {[]}, d);
    assert d <= x && StandsFor(x, d);
  }

  /** A directory whose name ends in whitespace: alone it is not watched; with an inner directory named by
      whitespace alone it is, as the key of that one. */
  lemma {:induction false} SpacedDirectory(name: string, inner: string)
    requires Clean(name) && StripRight(name) != name && Clean(inner) && StripRight(inner) == ""
    ensures [name] in Wanted(OneInside(name), {}, {[]}) && [name] !in FreshWatches(OneInside(name), {}, KEY, {[]})
    ensures [name] in FreshWatches(TwoInside(name, inner), {}, KEY, {[]})
  {
    KeysOfTree(OneInside(name));
    KeysOfTree(TwoInside(name, inner));
    AloneUnwatched(KEY, name);
    WatchedForInner(KEY, name, inner);
  }
}
