/** Lexical normalization of paths and extensions, checked against what a path means. */
module Normalize {
  import opened Paths

  /** The characters `str.strip()` removes: those for which Python's `str.isspace` is true. */
  predicate IsSpace(c: char) {
    var n := c as int;
    0x09 <= n <= 0x0D || 0x1C <= n <= 0x20 || n == 0x85 || n == 0xA0 || n == 0x1680
    || 0x2000 <= n <= 0x200A || n == 0x2028 || n == 0x2029 || n == 0x202F || n == 0x205F || n == 0x3000
  }

  predicate AllSpace(s: string) {
    forall i :: 0 <= i < |s| ==> IsSpace(s[i])
  }

  function StripLeft(s: string): (r: string)
    ensures |r| <= |s| && r == s[|s| - |r|..]
    ensures r == "" || !IsSpace(r[0])
    ensures s != "" && !IsSpace(s[0]) ==> r == s
  {
    if s != "" && IsSpace(s[0]) then StripLeft(s[1..]) else s
  }

  function StripRight(s: string): (r: string)
    ensures r <= s
    ensures r == "" || !IsSpace(r[|r| - 1])
    ensures s != "" && !IsSpace(s[|s| - 1]) ==> r == s
  {
    if s != "" && IsSpace(s[|s| - 1]) then StripRight(s[..|s| - 1]) else s
  }

  /** `s.strip()`. */
  function Strip(s: string): (r: string)
    ensures |r| <= |s|
    ensures Trimmed(r)
    ensures Trimmed(s) ==> r == s
  {
    StripRight(StripLeft(s))
  }

  /** No surrounding whitespace. */
  predicate Trimmed(s: string) {
    s == "" || (!IsSpace(s[0]) && !IsSpace(s[|s| - 1]))
  }

  lemma {:induction false} LeftPart(s: string) returns (a: string)
    ensures s == a + StripLeft(s) && AllSpace(a)
  {
    if s != "" && IsSpace(s[0]) {
      var rest := LeftPart(s[1..]);
      a := GluedLeft(s, rest, StripLeft(s[1..]));
    } else {
      a := "";
    }
  }

  lemma {:induction false} GluedLeft(s: string, rest: string, left: string) returns (a: string)
    requires s != "" && IsSpace(s[0]) && s[1..] == rest + left && AllSpace(rest)
    ensures s == a + left && AllSpace(a)
  {
    a := [s[0]] + rest;
    assert s == [s[0]] + s[1..];
  }

  lemma {:induction false} RightPart(s: string) returns (c: string)
    ensures s == StripRight(s) + c && AllSpace(c)
  {
    if s != "" && IsSpace(s[|s| - 1]) {
      var rest := RightPart(s[..|s| - 1]);
      c := GluedRight(s, rest, StripRight(s[..|s| - 1]));
    } else {
      c := "";
    }
  }

  lemma {:induction false} GluedRight(s: string, rest: string, left: string) returns (c: string)
    requires s != "" && IsSpace(s[|s| - 1]) && s[..|s| - 1] == left + rest && AllSpace(rest)
    ensures s == left + c && AllSpace(c)
  {
    c := rest + [s[|s| - 1]];
    assert s == s[..|s| - 1] + [s[|s| - 1]];
  }

  lemma {:induction false} Regrouped(s: string, left: string, a: string, mid: string, c: string)
    requires s == a + left && left == mid + c
    ensures s == a + mid + c
  {
  }

  /** Stripping takes away whitespace around, and nothing else. */
  lemma {:induction false} StripParts(s: string) returns (a: string, c: string)
    ensures s == a + Strip(s) + c && AllSpace(a) && AllSpace(c)
  {
    a := LeftPart(s);
    c := RightPart(StripLeft(s));
    Regrouped(s, StripLeft(s), a, Strip(s), c);
  }

  /** And all of it: what no whitespace surrounds is what is left. */
  lemma {:induction false} StripOf(a: string, x: string, c: string)
    requires AllSpace(a) && AllSpace(c) && Trimmed(x)
    ensures Strip(a + x + c) == x
  {
    assert a + x + c == a + (x + c);
    StripLeftOf(a, x + c);
    if x == "" {
      assert x + c == c + "";
      StripLeftOf(c, "");
    } else {
      LeadStays(x + c);
      StripRightOf(x, c);
    }
  }

  lemma {:induction false} LeadStays(s: string)
    requires s != "" && !IsSpace(s[0])
    ensures StripLeft(s) == s
  {
  }

  lemma {:induction false} StripLeftOf(a: string, y: string)
    requires AllSpace(a)
    ensures StripLeft(a + y) == StripLeft(y)
  {
    if a == "" {
      assert a + y == y;
    } else {
      assert (a + y)[1..] == a[1..] + y;
      StripLeftOf(a[1..], y);
    }
  }

  lemma {:induction false} StripRightOf(x: string, c: string)
    requires AllSpace(c) && (x == "" || !IsSpace(x[|x| - 1]))
    ensures StripRight(x + c) == x
  {
    if c == "" {
      assert x + c == x;
    } else {
      assert (x + c)[..|x + c| - 1] == x + c[..|c| - 1];
      StripRightOf(x, c[..|c| - 1]);
    }
  }

  // ---- os.path.normpath -------------------------------------------------------------------

  /** The leading slashes `normpath` keeps: exactly two stay two, any other positive number is one. */
  function Root(s: string): string {
    if s == "" || s[0] != '/' then ""
    else if |s| >= 2 && s[1] == '/' && (|s| == 2 || s[2] != '/') then "//"
    else "/"
  }

  function Components(s: string): seq<string>
  {
    Split(s[|Root(s)|..], '/')
  }

  /** One turn of the component loop: what happens to the output stack. */
  function Push(stack: seq<string>, comp: string, rooted: bool): seq<string> {
    if comp == "" || comp == "." then stack
    else if comp != ".." || (!rooted && stack == []) || (stack != [] && stack[|stack| - 1] == "..") then
      stack + [comp]
    else if stack != [] then stack[..|stack| - 1]
    else stack
  }

  function PushAll(stack: seq<string>, comps: seq<string>, rooted: bool): seq<string>
    decreases |comps|
  {
    if comps == [] then stack else PushAll(Push(stack, comps[0], rooted), comps[1..], rooted)
  }

  function Stack(s: string): seq<string> {
    PushAll([], Components(s), Root(s) != "")
  }

  function NormPath(s: string): string {
    var text := Root(s) + Join(Stack(s), '/');
    if text == "" then "." else text
  }

  function NormalizePath(s: string): string {
    NormPath(Strip(s))
  }

  // ---- what a path means: IEEE Std 1003.1-2017, section 4.13, without symbolic links ------

  /** One component; the parent of the root is the root. */
  function Move(at: Path, c: string): Path {
    if c == "" || c == "." then at
    else if c == ".." then (if at == [] then [] else Parent(at))
    else at + [c]
  }

  /** Where following `comps` from the directory `at` leads. */
  function Follow(at: Path, comps: seq<string>): Path
    decreases |comps|
  {
    if comps == [] then at else Follow(Move(at, comps[0]), comps[1..])
  }

  function Resolve(s: string, cwd: Path): Path {
    Follow(if Root(s) != "" then [] else cwd, Components(s))
  }

  lemma {:induction false} FollowConcat(at: Path, a: seq<string>, b: seq<string>)
    ensures Follow(at, a + b) == Follow(Follow(at, a), b)
    decreases |a|
  {
    if a == [] {
      assert a + b == b;
    } else {
      assert (a + b)[1..] == a[1..] + b;
      FollowConcat(Move(at, a[0]), a[1..], b);
    }
  }

  lemma {:induction false} FollowOne(at: Path, c: string)
    ensures Follow(at, [c]) == Move(at, c)
  {
    assert Follow(Move(at, c), [c][1..]) == Move(at, c);
  }

  // ---- canonical stacks -------------------------------------------------------------------

  predicate Ups(n: nat, stack: seq<string>) {
    n <= |stack|
    && (forall i :: 0 <= i < n ==> stack[i] == "..")
    && (forall i :: n <= i < |stack| ==> Clean(stack[i]))
  }

  /** No removable segment: some leading `..` (none on an absolute path), then clean segments. */
  ghost predicate Canonical(stack: seq<string>, rooted: bool) {
    exists n: nat :: Ups(n, stack) && (rooted ==> n == 0)
  }

  lemma {:induction false} PushCanonical(stack: seq<string>, comp: string, rooted: bool)
    requires Canonical(stack, rooted) && '/' !in comp
    ensures Canonical(Push(stack, comp, rooted), rooted)
  {
    var n: nat :| Ups(n, stack) && (rooted ==> n == 0);
    var after := Push(stack, comp, rooted);
    assert n < |stack| ==> Clean(stack[|stack| - 1]);
    if comp == ".." && after == stack + [comp] {
      assert Ups(n + 1, after);
    } else {
      assert Ups(n, after);
    }
  }

  lemma {:induction false} PushFollow(stack: seq<string>, comp: string, rooted: bool, at: Path)
    requires Canonical(stack, rooted) && '/' !in comp
    requires rooted ==> at == []
    ensures Follow(at, Push(stack, comp, rooted)) == Follow(at, stack + [comp])
  {
    FollowConcat(at, stack, [comp]);
    var n: nat :| Ups(n, stack) && (rooted ==> n == 0);
    if comp == ".." && stack != [] && stack[|stack| - 1] != ".." {
      var top := stack[|stack| - 1];
      assert Clean(top);
      assert stack == stack[..|stack| - 1] + [top];
      FollowConcat(at, stack[..|stack| - 1], [top]);
      var here := Follow(at, stack[..|stack| - 1]);
      assert Parent(here + [top]) == here;
      FollowOne(here, top);
      FollowOne(here + [top], comp);
    } else {
      FollowOne(Follow(at, stack), comp);
    }
  }

  lemma {:induction false} PushAllCanonical(stack: seq<string>, comps: seq<string>, rooted: bool)
    requires Canonical(stack, rooted)
    requires forall i :: 0 <= i < |comps| ==> '/' !in comps[i]
    ensures Canonical(PushAll(stack, comps, rooted), rooted)
    decreases |comps|
  {
    if comps != [] {
      PushCanonical(stack, comps[0], rooted);
      PushAllCanonical(Push(stack, comps[0], rooted), comps[1..], rooted);
    }
  }

  lemma {:induction false} PushAllMeaning(stack: seq<string>, comps: seq<string>, rooted: bool, at: Path)
    requires Canonical(stack, rooted)
    requires forall i :: 0 <= i < |comps| ==> '/' !in comps[i]
    requires rooted ==> at == []
    ensures Follow(at, PushAll(stack, comps, rooted)) == Follow(Follow(at, stack), comps)
    decreases |comps|
  {
    if comps != [] {
      var next := Push(stack, comps[0], rooted);
      PushCanonical(stack, comps[0], rooted);
      PushAllMeaning(next, comps[1..], rooted, at);
      PushFollow(stack, comps[0], rooted, at);
      FollowConcat(at, stack, [comps[0]]);
      FollowOne(Follow(at, stack), comps[0]);
    }
  }

  /** The components of a joined canonical stack are the stack again. */
  lemma {:induction false} NormPathParts(s: string)
    ensures Canonical(Stack(s), Root(s) != "")
    ensures Root(NormPath(s)) == Root(s)
    ensures Components(NormPath(s)) == Stack(s) || (Stack(s) == [] && Components(NormPath(s)) in {[""], ["."]})
  {
    assert Ups(0, []);
    PushAllCanonical([], Components(s), Root(s) != "");
    var stack := Stack(s);
    var n: nat :| Ups(n, stack) && (Root(s) != "" ==> n == 0);
    forall i | 0 <= i < |stack| ensures stack[i] != "" && '/' !in stack[i] {
      assert if i < n then stack[i] == ".." else Clean(stack[i]);
    }
    RootedJoin(Root(s), stack);
  }

  lemma {:induction false} RootedJoin(root: string, stack: seq<string>)
    requires root in {"", "/", "//"}
    requires forall i :: 0 <= i < |stack| ==> stack[i] != "" && '/' !in stack[i]
    ensures var text := root + Join(stack, '/');
            var out := if text == "" then "." else text;
            Root(out) == root
            && (Components(out) == stack || (stack == [] && Components(out) in {[""], ["."]}))
  {
    var body := Join(stack, '/');
    if stack == [] {
      SplitWhole("", '/');
      SplitWhole(".", '/');
    } else {
      assert body != "" && body[0] == stack[0][0] && body[0] in stack[0];
      SplitJoin(stack, '/');
      var out := root + body;
      assert |root| < |out| && out[|root|] == body[0] != '/';
      assert Root(out) == root;
      assert out[|root|..] == body;
    }
  }

  /** Normalization keeps what the path resolves to, from every working directory. */
  lemma {:induction false} NormPathKeepsMeaning(s: string, cwd: Path)
    ensures Root(NormPath(s)) == Root(s)
    ensures Resolve(NormPath(s), cwd) == Resolve(s, cwd)
  {
    NormPathParts(s);
    assert Ups(0, []);
    var at := if Root(s) != "" then [] else cwd;
    PushAllMeaning([], Components(s), Root(s) != "", at);
    assert Follow(at, Stack(s)) == Resolve(s, cwd);
    if Stack(s) == [] {
      assert Follow(at, [""]) == at && Follow(at, ["."]) == at && Follow(at, []) == at;
    }
  }

  lemma {:induction false} UpsTail(n: nat, stack: seq<string>)
    requires Ups(n, stack) && stack != []
    ensures Ups(if n > 0 then n - 1 else 0, stack[1..])
    ensures if n > 0 then stack[0] == ".." else Clean(stack[0])
  {
  }

  /** One step up or down, and the rest of the way. */
  lemma {:induction false} FirstMove(at: Path, c: string, n: nat, rest: seq<string>)
    requires if n > 0 then c == ".." && n <= |at| && n - 1 <= |rest| else Clean(c)
    ensures if n > 0
            then Move(at, c) == Parent(at) && Parent(at)[..|at| - 1 - (n - 1)] + rest[n - 1..] == at[..|at| - n] + ([c] + rest)[n..]
            else Move(at, c) == at + [c] && (at + [c]) + rest == at + ([c] + rest)
  {
  }

  lemma {:induction false} FollowCanonical(stack: seq<string>, n: nat, at: Path)
    requires Ups(n, stack) && n <= |at|
    ensures Follow(at, stack) == at[..|at| - n] + stack[n..]
    decreases |stack|
  {
    if stack != [] {
      var c, rest := stack[0], stack[1..];
      UpsTail(n, stack);
      FirstMove(at, c, n, rest);
      assert stack == [c] + rest;
      FollowCanonical(rest, if n > 0 then n - 1 else 0, Move(at, c));
    }
  }

  predicate LeadAlike(at: Path, a: seq<string>, b: seq<string>) {
    Follow(at, a) == Follow(at, b)
  }

  /** Canonical stacks with the same meaning from every directory are the same stack. */
  lemma {:induction false} CanonicalUnique(a: seq<string>, b: seq<string>, rooted: bool)
    requires Canonical(a, rooted) && Canonical(b, rooted)
    requires forall at: Path :: (rooted ==> at == []) ==> LeadAlike(at, a, b)
    ensures a == b
  {
    var m: nat :| Ups(m, a) && (rooted ==> m == 0);
    var n: nat :| Ups(n, b) && (rooted ==> n == 0);
    if rooted {
      var top: Path := [];
      FollowCanonical(a, 0, top);
      FollowCanonical(b, 0, top);
      assert LeadAlike(top, a, b);
      assert top[..0] + a[0..] == a && top[..0] + b[0..] == b;
    } else if m <= n {
      CanonicalUniqueOrdered(a, m, b, n);
    } else {
      forall at: Path ensures LeadAlike(at, b, a) { assert LeadAlike(at, a, b); }
      CanonicalUniqueOrdered(b, n, a, m);
    }
  }

  lemma {:induction false} CanonicalUniqueOrdered(a: seq<string>, m: nat, b: seq<string>, n: nat)
    requires Ups(m, a) && Ups(n, b) && m <= n
    requires forall at: Path :: LeadAlike(at, a, b)
    ensures a == b
  {
    // A working directory made of a segment that neither path mentions tells the levels apart.
    var z := if |b| > n then b[n] + "x" else "x";
    var at := seq(n, _ => z);
    if m < n {
      LevelsDiffer(a, m, b, n, at, z);
    }
    assert LeadAlike(at, a, b);
    FollowBoth(a, m, b, n, at);
  }

  lemma {:induction false} LevelsDiffer(a: seq<string>, m: nat, b: seq<string>, n: nat, at: Path, z: string)
    requires m < n == |at| && m <= |a| && n <= |b|
    requires at[0] == z && (|b| > n ==> z != b[n])
    ensures at[..n - m] + a[m..] != b[n..]
  {
    assert (at[..n - m] + a[m..])[0] == z;
  }

  lemma {:induction false} FollowBoth(a: seq<string>, m: nat, b: seq<string>, n: nat, at: Path)
    requires Ups(m, a) && Ups(n, b) && m <= n == |at| && LeadAlike(at, a, b)
    ensures at[..n - m] + a[m..] == b[n..]
    ensures m == n ==> a == b
  {
    FollowCanonical(a, m, at);
    FollowCanonical(b, n, at);
    assert at[..0] + b[n..] == b[n..];
    if m == n {
      assert at[..0] + a[m..] == a[m..];
      assert a == a[..m] + a[m..] && b == b[..n] + b[n..] && a[..m] == b[..n];
    }
  }

  /** Two texts have the same normal form exactly when they have the same kind of root and resolve
      alike from every working directory. */
  lemma {:induction false} NormPathCanonical(s: string, t: string)
    ensures NormPath(s) == NormPath(t)
            <==> Root(s) == Root(t) && forall cwd: Path :: Resolve(s, cwd) == Resolve(t, cwd)
  {
    NormPathParts(s);
    NormPathParts(t);
    if NormPath(s) == NormPath(t) {
      forall cwd: Path ensures Resolve(s, cwd) == Resolve(t, cwd) {
        NormPathKeepsMeaning(s, cwd);
        NormPathKeepsMeaning(t, cwd);
      }
    }
    if Root(s) == Root(t) && forall cwd: Path :: Resolve(s, cwd) == Resolve(t, cwd) {
      assert Ups(0, []);
      forall at: Path | Root(s) != "" ==> at == [] ensures LeadAlike(at, Stack(s), Stack(t)) {
        PushAllMeaning([], Components(s), Root(s) != "", at);
        PushAllMeaning([], Components(t), Root(t) != "", at);
        assert Resolve(s, at) == Resolve(t, at);
      }
      CanonicalUnique(Stack(s), Stack(t), Root(s) != "");
    }
  }

  lemma {:induction false} NormPathIdempotent(s: string)
    ensures NormPath(NormPath(s)) == NormPath(s)
  {
    forall cwd: Path ensures Resolve(NormPath(s), cwd) == Resolve(s, cwd) { NormPathKeepsMeaning(s, cwd); }
    NormPathKeepsMeaning(s, []);
    NormPathCanonical(NormPath(s), s);
  }

  // ---- lengths ----------------------------------------------------------------------------

  function Size(parts: seq<string>): nat {
    if parts == [] then 0 else |parts[0]| + 1 + Size(parts[1..])
  }

  lemma {:induction false} SizeConcat(a: seq<string>, b: seq<string>)
    ensures Size(a + b) == Size(a) + Size(b)
  {
    if a == [] {
      assert a + b == b;
    } else {
      assert (a + b)[1..] == a[1..] + b;
      SizeConcat(a[1..], b);
    }
  }

  lemma {:induction false} JoinSize(parts: seq<string>)
    ensures |Join(parts, '/')| == if parts == [] then 0 else Size(parts) - 1
  {
    if |parts| > 1 {
      JoinSize(parts[1..]);
    }
  }

  lemma {:induction false} PushAllSize(stack: seq<string>, comps: seq<string>, rooted: bool)
    ensures Size(PushAll(stack, comps, rooted)) <= Size(stack) + Size(comps)
    decreases |comps|
  {
    if comps != [] {
      SizeConcat(stack, [comps[0]]);
      if stack != [] {
        SizeConcat(stack[..|stack| - 1], [stack[|stack| - 1]]);
        assert stack == stack[..|stack| - 1] + [stack[|stack| - 1]];
      }
      PushAllSize(Push(stack, comps[0], rooted), comps[1..], rooted);
    }
  }

  lemma {:induction false} NormPathNotLonger(s: string)
    ensures |NormPath(s)| <= if s == "" then 1 else |s|
  {
    PushAllSize([], Components(s), Root(s) != "");
    JoinSize(Stack(s));
    JoinSize(Components(s));
  }

  /** Normalizing twice is normalizing once exactly when the first result has no surrounding
      whitespace: the strip comes before the normalization, never after it. */
  lemma {:induction false} NormalizePathFixedPoint(s: string)
    ensures NormalizePath(NormalizePath(s)) == NormalizePath(s) <==> Trimmed(NormalizePath(s))
  {
    NormPathIdempotent(Strip(s));
    if !Trimmed(NormalizePath(s)) {
      UntrimmedMoves(NormalizePath(s));
    }
  }

  lemma {:induction false} UntrimmedMoves(out: string)
    requires !Trimmed(out)
    ensures NormalizePath(out) != out
  {
    StrippedShorter(out);
    NormPathNotLonger(Strip(out));
    NormPathEmpty();
  }

  lemma {:induction false} NormPathEmpty()
    ensures NormPath("") == "."
  {
    SplitWhole("", '/');
    assert PushAll(Push([], "", false), [], false) == [];
    assert Components("")[1..] == [];
  }

  lemma {:induction false} StrippedShorter(s: string)
    requires !Trimmed(s)
    ensures |Strip(s)| < |s|
  {
    if IsSpace(s[0]) {
      assert |StripLeft(s)| < |s|;
    }
  }

  /** A text with one leading slash normalizes to a normal absolute path. */
  lemma {:induction false} NormalizeAbsolute(s: string)
    requires Root(Strip(s)) == "/"
    ensures Normal(NormalizePath(s))
  {
    var t := Strip(s);
    NormPathParts(t);
    var n: nat :| Ups(n, Stack(t)) && n == 0;
    assert Stack(t)[0..] == Stack(t);
    assert NormPath(t) == Text(Stack(t));
    TextSegs(Stack(t));
  }

  /** What the strip inside `NormalizePath` does to a normal path: nothing, unless the path ends
      in whitespace. */
  lemma {:induction false} NormalizeNormal(s: string)
    requires Normal(s)
    ensures NormalizePath(s) == s <==> !IsSpace(s[|s| - 1])
  {
    if !IsSpace(s[|s| - 1]) {
      assert Trimmed(s);
      SegsText(s);
      var p := Segs(s);
      if p != [] { JoinNonempty(p); }
      assert Root(s) == "/" && s == "/" + Join(p, '/');
      if p == [] {
        assert s[1..] == "";
        SplitWhole("", '/');
        assert PushAll([], [""], true) == [];
      } else {
        assert s[1..] == Join(p, '/');
        forall i | 0 <= i < |p| ensures '/' !in p[i] { assert Clean(p[i]); }
        SplitJoin(p, '/');
        PushClean([], p);
        assert [] + p == p;
      }
    } else {
      UntrimmedMoves(s);
    }
  }

  lemma {:induction false} PushClean(stack: seq<string>, p: Path)
    requires CleanPath(p)
    ensures PushAll(stack, p, true) == stack + p
    decreases |p|
  {
    if p != [] {
      assert Clean(p[0]);
      PushClean(stack + [p[0]], p[1..]);
      assert stack + [p[0]] + p[1..] == stack + p;
    }
  }

  // ---- extensions -------------------------------------------------------------------------

  /** What the proofs need of lower-casing one character. */
  predicate LowersWell(lower: char -> char, c: char) {
    lower(lower(c)) == lower(c) && (IsSpace(lower(c)) <==> IsSpace(c)) && (lower(c) == '.' <==> c == '.')
  }

  ghost predicate LowerOk(lower: char -> char) {
    forall c :: LowersWell(lower, c)
  }

  function LowerAll(s: string, lower: char -> char): (r: string)
    ensures |r| == |s| && forall i :: 0 <= i < |s| ==> r[i] == lower(s[i])
  {
    seq(|s|, i requires 0 <= i < |s| => lower(s[i]))
  }

  /** `ext.strip().lstrip(".").strip().lower()`. */
  function NormalizeExtension(ext: string, lower: char -> char): string {
    LowerAll(Strip(LStrip(Strip(ext), '.')), lower)
  }

  /** A normalized extension normalizes to itself exactly when it does not start with a dot; `". .mkv"`
      is an input whose result does. */
  lemma {:induction false} NormalizeExtensionFixedPoint(ext: string, lower: char -> char)
    requires LowerOk(lower)
    ensures var out := NormalizeExtension(ext, lower);
            NormalizeExtension(out, lower) == out <==> (out == "" || out[0] != '.')
  {
    var core := Strip(LStrip(Strip(ext), '.'));
    var out := LowerAll(core, lower);
    forall i | 0 <= i < |out| ensures lower(out[i]) == out[i] && (IsSpace(out[i]) <==> IsSpace(core[i])) {
      assert LowersWell(lower, core[i]);
    }
    assert LowerAll(out, lower) == out;
    assert Trimmed(out);
  }
}
