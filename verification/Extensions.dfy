/** What is left of a typed extension: itself, without dots and whitespace around it, lowercased. */
module Extensions {
  import opened Paths
  import opened Normalize

  predicate AllDots(s: string) {
    forall i :: 0 <= i < |s| ==> s[i] == '.'
  }

  /** An extension as it is typed: whitespace, dots, whitespace again, the extension itself, whitespace. */
  predicate Typed(a: string, dots: string, b: string, core: string, c: string) {
    && AllSpace(a) && AllDots(dots) && AllSpace(b) && AllSpace(c) && Trimmed(core)
    && (dots == "" || b == "" ==> core == "" || core[0] != '.')
  }

  lemma {:induction false} LStripOf(dots: string, y: string)
    requires AllDots(dots) && (y == "" || y[0] != '.')
    ensures LStrip(dots + y, '.') == y
  {
    if dots == "" {
      assert dots + y == y;
    } else {
      assert (dots + y)[1..] == dots[1..] + y;
      LStripOf(dots[1..], y);
    }
  }

  lemma {:induction false} Undotted(a: string, b: string, core: string, c: string)
    requires Typed(a, "", b, core, c)
    ensures Core(a + b + core + c) == core
  {
    StripOf(a + b, core, c);
    LStripOf("", core);
    assert "" + core == core;
  }

  lemma {:induction false} OnlyDots(a: string, dots: string, b: string)
    requires AllSpace(a) && AllDots(dots) && AllSpace(b)
    ensures Core(a + dots + b) == ""
  {
    StripOf(a, dots, b);
    LStripOf(dots, "");
    assert dots + "" == dots;
  }

  lemma {:induction false} Dotted(a: string, dots: string, b: string, core: string, c: string)
    requires Typed(a, dots, b, core, c) && dots != "" && core != ""
    ensures Core(a + (dots + (b + core)) + c) == core
  {
    var y := b + core;
    DottedEnds(dots, b, core, y);
    LStripOf(dots, y);
    SpacedCore(b, core);
    ByStages(a, dots + y, y, core, c);
  }

  lemma {:induction false} SpacedCore(b: string, core: string)
    requires AllSpace(b) && Trimmed(core)
    ensures Strip(b + core) == core
  {
    StripOf(b, core, "");
    assert b + core + "" == b + core;
  }

  lemma {:induction false} ByStages(a: string, x: string, y: string, core: string, c: string)
    requires AllSpace(a) && AllSpace(c) && Trimmed(x) && LStrip(x, '.') == y && Strip(y) == core
    ensures Core(a + x + c) == core
  {
    StripOf(a, x, c);
  }

  lemma {:induction false} DottedEnds(dots: string, b: string, core: string, y: string)
    requires Typed("", dots, b, core, "") && dots != "" && core != "" && y == b + core
    ensures Trimmed(dots + y) && y != "" && y[0] != '.'
  {
    var x := dots + y;
    assert x[0] == dots[0] && x[|x| - 1] == core[|core| - 1];
    assert y[0] == if b == "" then core[0] else b[0];
  }

  /** `ext.strip().lstrip(".").strip()`. */
  function Core(ext: string): string {
    Strip(LStrip(Strip(ext), '.'))
  }

  lemma {:induction false} CoreOf(a: string, dots: string, b: string, core: string, c: string)
    requires Typed(a, dots, b, core, c)
    ensures Core(a + dots + b + core + c) == core
  {
    if dots == "" {
      assert a + dots + b + core + c == a + b + core + c;
      Undotted(a, b, core, c);
    } else if core == "" {
      assert a + dots + b + core + c == a + dots + (b + c);
      OnlyDots(a, dots, b + c);
    } else {
      assert a + dots + b + core + c == a + (dots + (b + core)) + c;
      Dotted(a, dots, b, core, c);
    }
  }

  /** What is left of it is the extension itself, each character lowercased. */
  lemma {:induction false} NormalizeExtensionMeaning(a: string, dots: string, b: string, core: string, c: string, lower: char -> char)
    requires Typed(a, dots, b, core, c)
    ensures var out := NormalizeExtension(a + dots + b + core + c, lower);
            |out| == |core| && forall i :: 0 <= i < |core| ==> out[i] == lower(core[i])
  {
    CoreOf(a, dots, b, core, c);
  }

  lemma {:induction false} SplitInFive(ext: string, left: string, x: string, y: string, z: string)
    requires |left| <= |ext| && left == ext[|ext| - |left|..] && x <= left
    requires |y| <= |x| && y == x[|x| - |y|..] && |z| <= |y| && z == y[|y| - |z|..]
    ensures ext == ext[..|ext| - |left|] + x[..|x| - |y|] + y[..|y| - |z|] + z + left[|x|..]
  {
    assert y == y[..|y| - |z|] + z;
    assert x == x[..|x| - |y|] + y;
    assert left == x + left[|x|..];
    assert ext == ext[..|ext| - |left|] + left;
  }

  lemma {:induction false} CutLeft(s: string) returns (r: string)
    ensures |r| <= |s| && r == s[|s| - |r|..] && AllSpace(s[..|s| - |r|]) && (r == "" || !IsSpace(r[0]))
  {
    r := StripLeft(s);
    var a := LeftPart(s);
    assert s[..|s| - |r|] == a;
  }

  lemma {:induction false} CutRight(s: string) returns (r: string)
    ensures r <= s && AllSpace(s[|r|..]) && (r == "" || !IsSpace(r[|r| - 1]))
  {
    r := StripRight(s);
    var c := RightPart(s);
    assert s[|r|..] == c;
  }

  lemma {:induction false} CutDots(s: string) returns (r: string)
    ensures |r| <= |s| && r == s[|s| - |r|..] && AllDots(s[..|s| - |r|]) && (r == "" || r[0] != '.')
  {
    r := LStrip(s, '.');
  }

  /** And every text is typed in such a way. */
  lemma {:induction false} EveryExtensionTyped(ext: string) returns (a: string, dots: string, b: string, core: string, c: string)
    ensures ext == a + dots + b + core + c && Typed(a, dots, b, core, c)
  {
    var left := CutLeft(ext);
    var x := CutRight(left);
    var y := CutDots(x);
    var z := CutLeft(y);
    a, dots, b, core, c := PartsTyped(ext, left, x, y, z);
  }

  lemma {:induction false} PartsTyped(ext: string, left: string, x: string, y: string, z: string)
    returns (a: string, dots: string, b: string, core: string, c: string)
    requires |left| <= |ext| && left == ext[|ext| - |left|..] && x <= left && AllSpace(ext[..|ext| - |left|]) && AllSpace(left[|x|..])
    requires |y| <= |x| && y == x[|x| - |y|..] && AllDots(x[..|x| - |y|])
    requires |z| <= |y| && z == y[|y| - |z|..] && AllSpace(y[..|y| - |z|])
    requires (left == "" || !IsSpace(left[0])) && (x == "" || !IsSpace(x[|x| - 1])) && (y == "" || y[0] != '.') && (z == "" || !IsSpace(z[0]))
    ensures ext == a + dots + b + core + c && Typed(a, dots, b, core, c)
  {
    a, dots, b, core, c := ext[..|ext| - |left|], x[..|x| - |y|], y[..|y| - |z|], z, left[|x|..];
    SplitInFive(ext, left, x, y, z);
    assert z != "" ==> z[|z| - 1] == x[|x| - 1];
    assert b == "" ==> z == y;
    assert dots == "" ==> y == x && (x == "" || x[0] == left[0]);
  }
}
