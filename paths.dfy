/** The file and directory filters (project_analyzer.py:164-172) over POSIX
    paths, with the parts of Python's `os.path` they use: `rfind`,
    `splitext`, `basename` and two-argument `join`. */
module Paths {
  import opened Strings
  import opened Config

  /** Python's `s.rfind(c)`: the last index holding `c`, or -1. */
  function RFind(s: string, c: char): (i: int)
    ensures -1 <= i < |s|
  {
    if |s| == 0 then -1
    else if s[|s| - 1] == c then |s| - 1
    else RFind(s[..|s| - 1], c)
  }

  /** `RFind` finds `c` at its result and nowhere after it. */
  lemma {:induction false} RFindFacts(s: string, c: char)
    ensures var i := RFind(s, c);
      && (i >= 0 ==> s[i] == c)
      && forall k :: i < k < |s| ==> s[k] != c
    decreases |s|
  {
    if |s| > 0 && s[|s| - 1] != c {
      RFindFacts(s[..|s| - 1], c);
      var i := RFind(s, c);
      forall k | i < k < |s| - 1 ensures s[k] != c {
        assert s[k] == s[..|s| - 1][k];
      }
    }
  }

  /** The properties of `RFind` pin down its result. */
  lemma {:induction false} RFindUnique(s: string, c: char, i: int)
    requires -1 <= i < |s|
    requires i >= 0 ==> s[i] == c
    requires forall k :: i < k < |s| ==> s[k] != c
    ensures RFind(s, c) == i
    decreases |s|
  {
    if |s| > 0 && s[|s| - 1] != c {
      RFindUnique(s[..|s| - 1], c, i);
    }
  }

  /** The last `c` of `a + b` is in `b` when `b` holds one, else it is the last of `a`. */
  lemma RFindConcat(a: string, b: string, c: char)
    ensures RFind(a + b, c) == if RFind(b, c) >= 0 then |a| + RFind(b, c) else RFind(a, c)
  {
    var s := a + b;
    RFindFacts(a, c);
    RFindFacts(b, c);
    if RFind(b, c) >= 0 {
      assert s[|a| + RFind(b, c)] == c;
      forall k | |a| + RFind(b, c) < k < |s| ensures s[k] != c {
        assert s[k] == b[k - |a|];
      }
      RFindUnique(s, c, |a| + RFind(b, c));
    } else {
      forall k | RFind(a, c) < k < |s| ensures s[k] != c {
        if k >= |a| { assert s[k] == b[k - |a|]; }
      }
      RFindUnique(s, c, RFind(a, c));
    }
  }

  /** Every character is a dot. */
  predicate AllDots(s: string) {
    forall k :: 0 <= k < |s| ==> s[k] == '.'
  }

  /** `os.path.splitext(p)` on POSIX: the extension is the text from the
      last dot of the base name, unless that dot is preceded only by dots
      (a hidden file such as `.py` has no extension). */
  function SplitExt(p: string): (string, string) {
    SplitAt(p, RFind(p, '/'), RFind(p, '.'))
  }

  /** The split of `SplitExt` once the last separator and the last dot are found. */
  function SplitAt(p: string, sepIndex: int, dotIndex: int): (string, string)
    requires -1 <= sepIndex < |p| && -1 <= dotIndex < |p|
  {
    if dotIndex > sepIndex && !AllDots(p[sepIndex + 1..dotIndex])
    then (p[..dotIndex], p[dotIndex..])
    else (p, "")
  }

  /** The extension part of `SplitExt`. */
  function Extension(p: string): string {
    SplitExt(p).1
  }

  /** `splitext` splits without losing anything, and an extension is empty
      or a dot followed by neither a dot nor a separator. */
  lemma SplitExtParts(p: string)
    ensures SplitExt(p).0 + SplitExt(p).1 == p
    ensures var ext := SplitExt(p).1;
      ext == "" || (ext[0] == '.' && forall k :: 1 <= k < |ext| ==> ext[k] != '.' && ext[k] != '/')
  {
    var ext := SplitExt(p).1;
    RFindFacts(p, '.');
    RFindFacts(p, '/');
    if ext != "" {
      var d := RFind(p, '.');
      forall k | 1 <= k < |ext| ensures ext[k] != '.' && ext[k] != '/' {
        assert ext[k] == p[d + k];
      }
    }
  }

  /** `should_analyze_file(path)`: the lower-cased extension is allowed. */
  predicate ShouldAnalyzeFile(path: string) {
    Lower(Extension(path)) in ANALYZE_EXTENSIONS
  }

  /** `os.path.basename(p)`: everything after the last separator. */
  function Basename(p: string): string {
    p[RFind(p, '/') + 1..]
  }

  /** `should_skip_directory(path)`: the base name is skip-listed. */
  predicate ShouldSkipDirectory(path: string) {
    Basename(path) in SKIP_DIRS
  }

  /** `os.path.join(a, b)` on POSIX with two arguments. */
  function PathJoin(a: string, b: string): string {
    if |b| > 0 && b[0] == '/' then b
    else if a == "" || a[|a| - 1] == '/' then a + b
    else a + "/" + b
  }

  /** Lower-casing keeps every dot and separator where it was. */
  lemma RFindLower(p: string, c: char)
    requires c == '.' || c == '/'
    ensures RFind(Lower(p), c) == RFind(p, c)
  {
    var lp := Lower(p);
    RFindFacts(p, c);
    assert forall k :: 0 <= k < |p| ==> (lp[k] == c <==> p[k] == c);
    RFindUnique(lp, c, RFind(p, c));
  }

  /** Taking the extension commutes with lower-casing. */
  lemma ExtensionOfLower(p: string)
    ensures Extension(Lower(p)) == Lower(Extension(p))
  {
    RFindLower(p, '/');
    RFindLower(p, '.');
    SplitAtLower(p, RFind(p, '/'), RFind(p, '.'));
  }

  /** With the indices fixed, splitting off the extension commutes with lower-casing. */
  lemma SplitAtLower(p: string, s: int, d: int)
    requires -1 <= s < |p| && -1 <= d < |p|
    ensures SplitAt(Lower(p), s, d).1 == Lower(SplitAt(p, s, d).1)
  {
    var lp := Lower(p);
    if d > s {
      LowerSlice(p, s + 1, d);
      LowerSlice(p, d, |p|);
      AllDotsLower(p[s + 1..d]);
      assert p[d..] == p[d..|p|];
      assert lp[d..] == lp[d..|p|];
      if AllDots(p[s + 1..d]) {
        assert SplitAt(p, s, d).1 == "";
      } else {
        assert SplitAt(p, s, d).1 == p[d..];
      }
    }
  }

  /** Lower-casing neither makes nor breaks a run of dots. */
  lemma AllDotsLower(s: string)
    ensures AllDots(Lower(s)) == AllDots(s)
  {
    assert forall k :: 0 <= k < |s| ==> (Lower(s)[k] == '.' <==> s[k] == '.');
  }

  /** `should_analyze_file` ignores ASCII case: two paths that agree once
      lower-cased get the same verdict. */
  lemma ShouldAnalyzeIgnoresCase(p: string, q: string)
    requires Lower(p) == Lower(q)
    ensures ShouldAnalyzeFile(p) == ShouldAnalyzeFile(q)
  {
    ExtensionOfLower(p);
    ExtensionOfLower(q);
    LowerIdempotent(Extension(p));
    LowerIdempotent(Extension(q));
  }

  /** Lower-casing twice is lower-casing once. */
  lemma LowerIdempotent(s: string)
    ensures Lower(Lower(s)) == Lower(s)
  {
    assert forall k :: 0 <= k < |s| ==> Lower(Lower(s))[k] == Lower(s)[k];
  }

  /** The extension of `prefix + name` is that of `name` when the prefix is
      empty or ends in a separator and `name` has no separator. */
  lemma ExtensionAfterSeparator(prefix: string, name: string)
    requires prefix == "" || prefix[|prefix| - 1] == '/'
    requires '/' !in name
    ensures Extension(prefix + name) == Extension(name)
  {
    var p := prefix + name;
    RFindUnique(name, '/', -1);
    RFindConcat(prefix, name, '/');
    RFindConcat(prefix, name, '.');
    if prefix != "" {
      RFindUnique(prefix, '/', |prefix| - 1);
    }
    assert RFind(p, '/') == |prefix| - 1;
    var dn := RFind(name, '.');
    if dn >= 0 {
      assert RFind(p, '.') == |prefix| + dn;
      assert p[|prefix|..|prefix| + dn] == name[..dn];
      assert p[|prefix| + dn..] == name[dn..];
      assert p[..|prefix| + dn] == prefix + name[..dn];
    } else {
      assert RFind(p, '.') <= |prefix| - 1;
    }
  }

  /** A listed entry is analysed exactly when its own name passes: the
      directory part of the joined path never matters. */
  lemma ShouldAnalyzeJoined(directory: string, name: string)
    requires '/' !in name
    ensures ShouldAnalyzeFile(PathJoin(directory, name)) == ShouldAnalyzeFile(name)
  {
    if directory == "" || directory[|directory| - 1] == '/' {
      ExtensionAfterSeparator(directory, name);
    } else {
      assert directory + "/" + name == (directory + "/") + name;
      ExtensionAfterSeparator(directory + "/", name);
    }
    ExtensionAfterSeparator("", name);
    assert "" + name == name;
  }

  /** The skip decision looks only at the last path component. */
  lemma ShouldSkipJoined(parent: string, name: string)
    requires name != "" && '/' !in name
    ensures ShouldSkipDirectory(PathJoin(parent, name)) == (name in SKIP_DIRS)
  {
    var p := PathJoin(parent, name);
    var prefix := if parent == "" || parent[|parent| - 1] == '/' then parent else parent + "/";
    assert p == prefix + name;
    RFindConcat(prefix, name, '/');
    RFindUnique(name, '/', -1);
    assert p[RFind(p, '/') + 1..] == name;
  }

  /** Examples of the extension rule: the case of the extension does not matter. */
  lemma ShouldAnalyzeAcceptsExamples()
    ensures ShouldAnalyzeFile("src/main.py")
    ensures ShouldAnalyzeFile("README.MD")
  {
    RFindUnique("src/main.py", '.', 8);
    RFindUnique("src/main.py", '/', 3);
    assert "src/main.py"[8..] == ".py";
    assert "src/main.py"[4..8][0] == 'm';
    assert Lower(".py") == ".py";
    RFindUnique("README.MD", '.', 6);
    RFindUnique("README.MD", '/', -1);
    assert "README.MD"[6..] == ".MD";
    assert "README.MD"[0..6][0] == 'R';
    assert Lower(".MD") == ".md";
  }

  /** A hidden file named `.py` has no extension, so it is not analysed. */
  lemma ShouldAnalyzeRejectsHiddenFile()
    ensures !ShouldAnalyzeFile("src/.py")
  {
    RFindUnique("src/.py", '.', 4);
    RFindUnique("src/.py", '/', 3);
  }

  /** A name without a dot has no extension and is not analysed. */
  lemma ShouldAnalyzeRejectsNoExtension()
    ensures !ShouldAnalyzeFile("Makefile")
  {
    RFindUnique("Makefile", '.', -1);
    assert Extension("Makefile") == "";
  }

  /** Examples of the skip rule: `x/venv` is skipped, a directory below it
      is not, and neither is `x/venv/` whose base name is empty. */
  lemma ShouldSkipExamples()
    ensures ShouldSkipDirectory("x/venv")
    ensures !ShouldSkipDirectory("x/venv/lib")
    ensures !ShouldSkipDirectory("x/venv/")
  {
    RFindUnique("x/venv", '/', 1);
    assert "x/venv"[2..] == "venv";
    RFindUnique("x/venv/lib", '/', 6);
    assert "x/venv/lib"[7..] == "lib";
    RFindUnique("x/venv/", '/', 6);
    assert "x/venv/"[7..] == "";
  }

  /** `main.py` is analysed. */
  lemma MainPyAnalyzed()
    ensures ShouldAnalyzeFile("main.py")
  {
    RFindUnique("main.py", '.', 4);
    RFindUnique("main.py", '/', -1);
    assert "main.py"[4..] == ".py";
    assert "main.py"[0..4][0] == 'm';
    assert Lower(".py") == ".py";
  }

  /** `logo.png` is not analysed. */
  lemma LogoPngNotAnalyzed()
    ensures !ShouldAnalyzeFile("logo.png")
  {
    RFindUnique("logo.png", '.', 4);
    RFindUnique("logo.png", '/', -1);
    assert "logo.png"[4..] == ".png";
    assert "logo.png"[0..4][0] == 'l';
    assert Lower(".png") == ".png";
  }

  /** A directory named `proj` is not skipped. */
  lemma ProjNotSkipped()
    ensures !ShouldSkipDirectory("proj")
  {
    RFindUnique("proj", '/', -1);
    assert "proj"[0..] == "proj";
  }
}
