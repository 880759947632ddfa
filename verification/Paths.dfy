/** String algebra of absolute paths: Python's `split`, `join`, `strip` and friends, and the bridge
    between the text of a normalized path and its list of segments. */
module Paths {

  /** A normalized absolute path, as the list of its segments; `[]` is the root directory. */
  type Path = seq<string>

  /** `sep.join(parts)`. */
  function Join(parts: seq<string>, sep: char): string
  {
    if |parts| == 0 then ""
    else if |parts| == 1 then parts[0]
    else parts[0] + [sep] + Join(parts[1..], sep)
  }

  /** `s.split(sep)`: never empty, and `split("")` is `[""]`. */
  function Split(s: string, sep: char): (parts: seq<string>)
    ensures |parts| >= 1
    ensures forall i :: 0 <= i < |parts| ==> sep !in parts[i]
    ensures Join(parts, sep) == s
  {
    if s == "" then [""]
    else
      var rest := Split(s[1..], sep);
      if s[0] == sep then [""] + rest else [[s[0]] + rest[0]] + rest[1..]
  }

  /** `s.lstrip(c)`. */
  function LStrip(s: string, c: char): (r: string)
    ensures r == "" || r[0] != c
    ensures |r| <= |s| && r == s[|s| - |r|..]
    ensures forall i :: 0 <= i < |s| - |r| ==> s[i] == c
  {
    if s != "" && s[0] == c then LStrip(s[1..], c) else s
  }

  /** `s.rstrip(c)`. */
  function RStrip(s: string, c: char): (r: string)
    ensures r == "" || r[|r| - 1] != c
    ensures r <= s
    ensures forall i :: |r| <= i < |s| ==> s[i] == c
  {
    if s != "" && s[|s| - 1] == c then RStrip(s[..|s| - 1], c) else s
  }

  predicate StartsWith(s: string, prefix: string) {
    prefix <= s
  }

  /** Splitting is undone by joining (contract of `Split`), and joining by splitting. */
  lemma {:induction false} SplitJoin(parts: seq<string>, sep: char)
    requires |parts| >= 1
    requires forall i :: 0 <= i < |parts| ==> sep !in parts[i]
    ensures Split(Join(parts, sep), sep) == parts
  {
    if |parts| == 1 {
      SplitWhole(parts[0], sep);
    } else {
      SplitJoin(parts[1..], sep);
      SplitWhole(parts[0], sep);
      SplitConcat(parts[0], Join(parts[1..], sep), sep);
    }
  }

  lemma {:induction false} SplitWhole(s: string, sep: char)
    requires sep !in s
    ensures Split(s, sep) == [s]
  {
    if s != "" {
      SplitWhole(s[1..], sep);
    }
  }

  lemma {:induction false} SplitConcat(u: string, v: string, sep: char)
    ensures Split(u + [sep] + v, sep) == Split(u, sep) + Split(v, sep)
  {
    var s := u + [sep] + v;
    if u == "" {
      assert s[1..] == v;
    } else {
      assert s[1..] == u[1..] + [sep] + v;
      SplitConcat(u[1..], v, sep);
    }
  }

  lemma {:induction false} JoinConcat(a: seq<string>, b: seq<string>, sep: char)
    requires |a| >= 1 && |b| >= 1
    ensures Join(a + b, sep) == Join(a, sep) + [sep] + Join(b, sep)
  {
    if |a| == 1 {
      assert (a + b)[1..] == b;
    } else {
      assert (a + b)[1..] == a[1..] + b;
      JoinConcat(a[1..], b, sep);
    }
  }

  // ---- normalized absolute paths ----------------------------------------------------------

  /** A segment that lexical normalization keeps. */
  predicate Clean(seg: string) {
    seg != "" && seg != "." && seg != ".." && '/' !in seg
  }

  predicate CleanPath(p: Path) {
    forall i :: 0 <= i < |p| ==> Clean(p[i])
  }

  /** The text of a path: one leading slash, no trailing slash except for the root. */
  function Text(p: Path): string {
    "/" + Join(p, '/')
  }

  /** The segments of a text. */
  function Segs(s: string): Path {
    if s == "/" then [] else Split(s, '/')[1..]
  }

  /** Absolute, exactly one leading slash, no removable segment. */
  predicate Normal(s: string) {
    s != "" && s[0] == '/' && CleanPath(Segs(s))
  }

  lemma {:induction false} JoinNonempty(p: Path)
    requires CleanPath(p) && |p| >= 1
    ensures Join(p, '/') != "" && Join(p, '/')[0] == p[0][0] != '/'
  {
    assert Clean(p[0]);
  }

  /** Text and segment list determine each other on normalized paths. */
  lemma {:induction false} TextSegs(p: Path)
    requires CleanPath(p)
    ensures Normal(Text(p)) && Segs(Text(p)) == p
  {
    if |p| >= 1 {
      JoinNonempty(p);
      SplitConcat("", Join(p, '/'), '/');
      assert "" + ['/'] + Join(p, '/') == Text(p);
      forall i | 0 <= i < |p| ensures '/' !in p[i] { assert Clean(p[i]); }
      SplitJoin(p, '/');
    }
  }

  lemma {:induction false} SegsText(s: string)
    requires Normal(s)
    ensures Text(Segs(s)) == s
  {
    if s != "/" {
      SplitConcat("", s[1..], '/');
      assert "" + ['/'] + s[1..] == s;
    }
  }

  /** Prefix test on texts, read on segments: `q` is `p` with at least one more segment. */
  lemma {:induction false} TextPrefix(p: Path, q: Path)
    requires CleanPath(p) && CleanPath(q) && p != []
    ensures StartsWith(Text(q), Text(p) + "/") <==> p <= q && p != q
  {
    if StartsWith(Text(q), Text(p) + "/") {
      TextPrefixOnlyIf(p, q, Text(q)[|Text(p)| + 1..]);
    }
    if p <= q && p != q {
      assert q == p + q[|p|..];
      JoinConcat(p, q[|p|..], '/');
    }
  }

  lemma {:induction false} TextPrefixOnlyIf(p: Path, q: Path, v: string)
    requires CleanPath(p) && CleanPath(q) && p != []
    requires Text(q) == Text(p) + ['/'] + v
    ensures p <= q && p != q
  {
    SplitConcat(Text(p), v, '/');
    TextSegs(p);
    TextSegs(q);
    JoinNonempty(p);
    assert q == p + Split(v, '/');
  }

  lemma {:induction false} TextInjective(p: Path, q: Path)
    requires CleanPath(p) && CleanPath(q)
    ensures Text(p) == Text(q) <==> p == q
  {
    TextSegs(p);
    TextSegs(q);
  }

  function Parent(p: Path): Path
    requires p != []
  {
    p[..|p| - 1]
  }
}
