/**
 * Path handling of src/workspace/mod.rs: `normalize_path`, `normalize_directory`, and the
 * well-known document paths. Characters are Unicode scalar values (`char`).
 */
module Paths {

  type Path = string

  /** Rust's `char::is_whitespace`: the Unicode White_Space property. */
  predicate IsWhitespace(c: char) {
    || ('\t' <= c <= '\r') || c == ' ' || c == '\U{0085}' || c == '\U{00A0}' || c == '\U{1680}'
    || ('\U{2000}' <= c <= '\U{200A}') || c == '\U{2028}' || c == '\U{2029}' || c == '\U{202F}'
    || c == '\U{205F}' || c == '\U{3000}'
  }

  /** What a `trim` family call strips: whitespace (`trim`) or one character (`trim_matches`). */
  datatype Strip = Whitespace | Only(c: char)

  predicate Strips(strip: Strip, c: char) {
    match strip
    case Whitespace => IsWhitespace(c)
    case Only(d) => c == d
  }

  /** Index of the first character at or after `i` that is not stripped, or |s|. */
  function SkipLeading(s: string, strip: Strip, i: nat): (j: nat)
    requires i <= |s|
    decreases |s| - i
    ensures i <= j <= |s|
  {
    if i == |s| || !Strips(strip, s[i]) then i else SkipLeading(s, strip, i + 1)
  }

  lemma {:induction false} SkipLeadingStops(s: string, strip: Strip, i: nat)
    requires i <= |s|
    decreases |s| - i
    ensures var j := SkipLeading(s, strip, i);
            (forall k :: i <= k < j ==> Strips(strip, s[k])) && (j < |s| ==> !Strips(strip, s[j]))
  {
    if i < |s| && Strips(strip, s[i]) {
      SkipLeadingStops(s, strip, i + 1);
    }
  }

  /** Index just past the last character before `j` and not before `lo` that is not stripped, or `lo`. */
  function SkipTrailing(s: string, strip: Strip, lo: nat, j: nat): (e: nat)
    requires lo <= j <= |s|
    decreases j
    ensures lo <= e <= j
  {
    if j == lo || !Strips(strip, s[j - 1]) then j else SkipTrailing(s, strip, lo, j - 1)
  }

  lemma {:induction false} SkipTrailingStops(s: string, strip: Strip, lo: nat, j: nat)
    requires lo <= j <= |s|
    decreases j
    ensures var e := SkipTrailing(s, strip, lo, j);
            (forall k :: e <= k < j ==> Strips(strip, s[k])) && (e > lo ==> !Strips(strip, s[e - 1]))
  {
    if j > lo && Strips(strip, s[j - 1]) {
      SkipTrailingStops(s, strip, lo, j - 1);
    }
  }

  /** `s[a..b]` is what is left of `s` once every stripped character at either end is
      removed: only stripped characters lie outside it, and its own ends are not stripped. */
  predicate TrimmedAt(s: string, strip: Strip, a: nat, b: nat) {
    && a <= b <= |s|
    && (forall k :: 0 <= k < a ==> Strips(strip, s[k]))
    && (forall k :: b <= k < |s| ==> Strips(strip, s[k]))
    && (a < b ==> !Strips(strip, s[a]) && !Strips(strip, s[b - 1]))
  }

  /** `str::trim` for `Whitespace`, `str::trim_matches(c)` for `Only(c)`. */
  function Trim(s: string, strip: Strip): (r: string)
    ensures |r| <= |s|
  {
    var a := SkipLeading(s, strip, 0);
    s[a..SkipTrailing(s, strip, a, |s|)]
  }

  /** `Trim` removes exactly the stripped characters at both ends. */
  lemma TrimmedEnds(s: string, strip: Strip)
    ensures exists a: nat, b: nat :: TrimmedAt(s, strip, a, b) && Trim(s, strip) == s[a..b]
    ensures var r := Trim(s, strip); r == [] || (!Strips(strip, r[0]) && !Strips(strip, r[|r| - 1]))
  {
    var a := SkipLeading(s, strip, 0);
    var b := SkipTrailing(s, strip, a, |s|);
    SkipLeadingStops(s, strip, 0);
    SkipTrailingStops(s, strip, a, |s|);
    assert TrimmedAt(s, strip, a, b);
  }

  /** `str::trim_end_matches(c)`. */
  function TrimEnd(s: string, c: char): (r: string)
    ensures |r| <= |s| && r == s[..|r|]
  {
    s[..SkipTrailing(s, Only(c), 0, |s|)]
  }

  /** `TrimEnd` removes exactly the trailing run of `c`. */
  lemma TrimEndStops(s: string, c: char)
    ensures var r := TrimEnd(s, c);
            (forall k :: |r| <= k < |s| ==> s[k] == c) && (r == [] || r[|r| - 1] != c)
  {
    SkipTrailingStops(s, Only(c), 0, |s|);
  }

  /** The path with every run of `/` collapsed into one, defined from the end: a `/` is
      dropped exactly when the input character before it is also `/`. */
  function Collapse(t: string): (r: string)
    decreases |t|
    ensures |r| <= |t|
    ensures t != [] ==> r != [] && r[0] == t[0] && r[|r| - 1] == t[|t| - 1]
  {
    if t == [] then []
    else
      var init := t[..|t| - 1];
      var c := t[|t| - 1];
      if c == '/' && init != [] && init[|init| - 1] == '/' then Collapse(init)
      else Collapse(init) + [c]
  }

  /** A second `/` in a row is dropped wherever it stands, so every run of `/` becomes
      exactly one (together with `CollapseUnchanged`, which keeps a single `/`). */
  lemma {:induction false} CollapseRunOnce(a: string, b: string)
    decreases |b|
    ensures Collapse(a + ['/', '/'] + b) == Collapse(a + ['/'] + b)
  {
    if b == [] {
      assert a + ['/', '/'] + b == (a + ['/']) + ['/'];
      assert a + ['/'] + b == a + ['/'];
      assert (a + ['/'] + ['/'])[..|a| + 1] == a + ['/'];
    } else {
      var b' := b[..|b| - 1];
      var c := b[|b| - 1];
      var x := a + ['/', '/'] + b';
      var y := a + ['/'] + b';
      CollapseRunOnce(a, b');
      assert x[|x| - 1] == y[|y| - 1];
      assert a + ['/', '/'] + b == x + [c];
      assert a + ['/'] + b == y + [c];
      assert (x + [c])[..|x|] == x;
      assert (y + [c])[..|y|] == y;
    }
  }

  /** No `/` directly follows another. */
  predicate NoDoubleSlash(r: string) {
    forall k :: 0 < k < |r| ==> !(r[k - 1] == '/' && r[k] == '/')
  }

  /** `Collapse` leaves no `//`. */
  lemma {:induction false} CollapseNoDoubleSlash(t: string)
    decreases |t|
    ensures NoDoubleSlash(Collapse(t))
  {
    if t != [] {
      var init := t[..|t| - 1];
      var c := t[|t| - 1];
      CollapseNoDoubleSlash(init);
      var r0 := Collapse(init);
      if !(c == '/' && init != [] && init[|init| - 1] == '/') {
        var r := r0 + [c];
        assert Collapse(t) == r;
        forall k | 0 < k < |r| ensures !(r[k - 1] == '/' && r[k] == '/') {
          if k < |r0| {
            assert r[k - 1] == r0[k - 1] && r[k] == r0[k];
          } else {
            assert r[k - 1] == r0[|r0| - 1] == init[|init| - 1];
          }
        }
      } else {
        assert Collapse(t) == r0;
      }
    }
  }

  /** The characters of `s` other than `/`, in order. */
  function Unslashed(s: string): (r: string)
    decreases |s|
  {
    if s == [] then []
    else if s[|s| - 1] == '/' then Unslashed(s[..|s| - 1])
    else Unslashed(s[..|s| - 1]) + [s[|s| - 1]]
  }

  /** What `normalize_path` computes: trimmed of whitespace, then of `/`, then collapsed. */
  function Normalized(path: string): (r: string)
    ensures |r| <= |path|
  {
    Collapse(Trim(Trim(path, Whitespace), Only('/')))
  }

  /** `normalize_path`: the character loop with the `last_was_slash` flag. */
  method NormalizePath(path: string) returns (result: string)
    ensures result == Normalized(path)
  {
    var t := Trim(Trim(path, Whitespace), Only('/'));
    result := "";
    var lastWasSlash := false;
    for i := 0 to |t|
      invariant result == Collapse(t[..i])
      invariant lastWasSlash <==> i > 0 && t[i - 1] == '/'
    {
      var c := t[i];
      CollapseStep(t, i);
      if c == '/' {
        if !lastWasSlash {
          result := result + [c];
        }
        lastWasSlash := true;
      } else {
        result := result + [c];
        lastWasSlash := false;
      }
    }
    assert t[..|t|] == t;
  }

  lemma CollapseStep(t: string, i: nat)
    requires i < |t|
    ensures Collapse(t[..i + 1]) ==
              if t[i] == '/' && i > 0 && t[i - 1] == '/' then Collapse(t[..i]) else Collapse(t[..i]) + [t[i]]
  {
    assert t[..i + 1][..i] == t[..i];
  }

  /** `normalize_directory`: `normalize_path`, then any trailing `/` removed. */
  method NormalizeDirectory(path: string) returns (result: string)
    ensures result == Normalized(path)
  {
    var p := NormalizePath(path);
    result := TrimEnd(p, '/');
    NoEdgeSlash(path);
  }

  /** A normalized path neither starts nor ends with `/`. */
  lemma NoEdgeSlash(path: string)
    ensures var n := Normalized(path); n == [] || (n[0] != '/' && n[|n| - 1] != '/')
  {
    TrimmedEnds(Trim(path, Whitespace), Only('/'));
  }

  /** A normalized path holds no `//`. */
  lemma NoSlashRuns(path: string)
    ensures NoDoubleSlash(Normalized(path))
  {
    var t := Trim(Trim(path, Whitespace), Only('/'));
    assert Normalized(path) == Collapse(t);
    CollapseNoDoubleSlash(t);
  }

  lemma {:induction false} UnslashedAppend(a: string, b: string)
    decreases |b|
    ensures Unslashed(a + b) == Unslashed(a) + Unslashed(b)
  {
    if b != [] {
      var init := b[..|b| - 1];
      assert (a + b)[..|a + b| - 1] == a + init;
      assert (a + b)[|a + b| - 1] == b[|b| - 1];
      UnslashedAppend(a, init);
      if b[|b| - 1] == '/' {
        assert Unslashed(a + b) == Unslashed(a + init);
        assert Unslashed(b) == Unslashed(init);
      } else {
        assert Unslashed(a + b) == Unslashed(a + init) + [b[|b| - 1]];
        assert Unslashed(b) == Unslashed(init) + [b[|b| - 1]];
      }
    } else {
      assert a + b == a;
    }
  }

  lemma {:induction false} UnslashedOfSlashes(s: string)
    requires forall k :: 0 <= k < |s| ==> s[k] == '/'
    decreases |s|
    ensures Unslashed(s) == []
  {
    if s != [] {
      UnslashedOfSlashes(s[..|s| - 1]);
    }
  }

  lemma {:induction false} CollapseKeepsUnslashed(t: string)
    decreases |t|
    ensures Unslashed(Collapse(t)) == Unslashed(t)
  {
    if t != [] {
      var init := t[..|t| - 1];
      var c := t[|t| - 1];
      CollapseKeepsUnslashed(init);
      if !(c == '/' && init != [] && init[|init| - 1] == '/') {
        UnslashedAppend(Collapse(init), [c]);
        assert Unslashed([c]) == if c == '/' then [] else [c] by {
          assert [c][..0] == [];
        }
      }
    }
  }

  lemma TrimSlashesKeepsUnslashed(t: string)
    ensures Unslashed(Trim(t, Only('/'))) == Unslashed(t)
  {
    var a := SkipLeading(t, Only('/'), 0);
    var b := SkipTrailing(t, Only('/'), a, |t|);
    SkipLeadingStops(t, Only('/'), 0);
    SkipTrailingStops(t, Only('/'), a, |t|);
    assert Trim(t, Only('/')) == t[a..b];
    assert t == t[..a] + t[a..b] + t[b..];
    UnslashedAppend(t[..a] + t[a..b], t[b..]);
    UnslashedAppend(t[..a], t[a..b]);
    forall k | 0 <= k < a ensures t[..a][k] == '/' {
      assert Strips(Only('/'), t[k]);
    }
    UnslashedOfSlashes(t[..a]);
    forall k | 0 <= k < |t| - b ensures t[b..][k] == '/' {
      assert Strips(Only('/'), t[b + k]);
    }
    UnslashedOfSlashes(t[b..]);
  }

  /** Normalizing only ever removes `/`: once the whitespace is trimmed, the other characters
      all stay, in their order. */
  lemma KeepsNonSlash(path: string)
    ensures Unslashed(Normalized(path)) == Unslashed(Trim(path, Whitespace))
  {
    var t := Trim(path, Whitespace);
    CollapseKeepsUnslashed(Trim(t, Only('/')));
    TrimSlashesKeepsUnslashed(t);
  }

  lemma TrimUnchanged(s: string, strip: Strip)
    requires s == [] || (!Strips(strip, s[0]) && !Strips(strip, s[|s| - 1]))
    ensures Trim(s, strip) == s
  {
  }

  lemma {:induction false} CollapseUnchanged(t: string)
    requires NoDoubleSlash(t)
    decreases |t|
    ensures Collapse(t) == t
  {
    if t != [] {
      var init := t[..|t| - 1];
      CollapseUnchanged(init);
      assert init + [t[|t| - 1]] == t;
    }
  }

  /** A path without edge whitespace, edge `/` or `//` is its own normal form. */
  lemma AlreadyNormal(p: string)
    requires p == [] || (!IsWhitespace(p[0]) && !IsWhitespace(p[|p| - 1]) && p[0] != '/' && p[|p| - 1] != '/')
    requires NoDoubleSlash(p)
    ensures Normalized(p) == p
  {
    TrimUnchanged(p, Whitespace);
    TrimUnchanged(p, Only('/'));
    CollapseUnchanged(p);
  }

  /** Normalizing twice changes nothing unless the first pass leaves whitespace at an end. */
  lemma NormalizeIdempotent(path: string)
    requires var n := Normalized(path); n == [] || (!IsWhitespace(n[0]) && !IsWhitespace(n[|n| - 1]))
    ensures Normalized(Normalized(path)) == Normalized(path)
  {
    NoEdgeSlash(path);
    NoSlashRuns(path);
    AlreadyNormal(Normalized(path));
  }

  /** Whitespace is trimmed before the slashes, so `/ a` normalizes to ` a`, which
      normalizes again to `a`. */
  lemma NormalizeNotIdempotent()
    ensures Normalized("/ a") == " a" && Normalized(" a") == "a"
  {
    TrimUnchanged("/ a", Whitespace);
    assert Trim("/ a", Only('/')) == " a";
    CollapseUnchanged(" a");
    assert Trim(" a", Whitespace) == "a";
    TrimUnchanged("a", Only('/'));
    CollapseUnchanged("a");
  }

  // The cases of the module's own tests of `normalize_path` and `normalize_directory` (the
  // latter returns `Normalized`, see its contract).

  lemma NormalizeKeepsPlainPath()
    ensures Normalized("foo/bar") == "foo/bar"
    ensures Normalized("README.md") == "README.md"
  {
    AlreadyNormal("foo/bar");
    AlreadyNormal("README.md");
  }

  lemma NormalizeStripsEdgeSlashes()
    ensures Normalized("/foo/bar/") == "foo/bar"
  {
    TrimUnchanged("/foo/bar/", Whitespace);
    assert SkipLeading("/foo/bar/", Only('/'), 1) == 1;
    assert SkipTrailing("/foo/bar/", Only('/'), 1, 8) == 8;
    assert "/foo/bar/"[1..8] == "foo/bar";
    CollapseUnchanged("foo/bar");
  }

  lemma NormalizeStripsTrailingSlash()
    ensures Normalized("foo/bar/") == "foo/bar"
  {
    TrimUnchanged("foo/bar/", Whitespace);
    assert SkipLeading("foo/bar/", Only('/'), 0) == 0;
    assert SkipTrailing("foo/bar/", Only('/'), 0, 7) == 7;
    assert "foo/bar/"[0..7] == "foo/bar";
    CollapseUnchanged("foo/bar");
  }

  lemma CollapseAppendPlain(t: string, c: char)
    requires c != '/'
    ensures Collapse(t + [c]) == Collapse(t) + [c]
  {
    assert (t + [c])[..|t|] == t;
  }

  lemma CollapseAppendSecondSlash(t: string)
    requires t != [] && t[|t| - 1] == '/'
    ensures Collapse(t + ['/']) == Collapse(t)
  {
    assert (t + ['/'])[..|t|] == t;
  }

  lemma CollapseDoubleSlash()
    ensures Collapse("foo//bar") == "foo/bar"
  {
    CollapseUnchanged("foo/");
    CollapseAppendSecondSlash("foo/");
    assert "foo/" + ['/'] == "foo//";
    CollapseAppendPlain("foo//", 'b');
    assert "foo//" + ['b'] == "foo//b";
    CollapseAppendPlain("foo//b", 'a');
    assert "foo//b" + ['a'] == "foo//ba";
    CollapseAppendPlain("foo//ba", 'r');
    assert "foo//ba" + ['r'] == "foo//bar";
  }

  lemma NormalizeCollapsesSlashes()
    ensures Normalized("foo//bar") == "foo/bar"
  {
    TrimUnchanged("foo//bar", Whitespace);
    TrimUnchanged("foo//bar", Only('/'));
    CollapseDoubleSlash();
  }

  lemma NormalizeTrimsWhitespaceThenSlashes()
    ensures Normalized("  /foo/  ") == "foo"
  {
    assert SkipLeading("  /foo/  ", Whitespace, 2) == 2;
    assert SkipLeading("  /foo/  ", Whitespace, 1) == 2;
    assert SkipLeading("  /foo/  ", Whitespace, 0) == 2;
    assert SkipTrailing("  /foo/  ", Whitespace, 2, 7) == 7;
    assert SkipTrailing("  /foo/  ", Whitespace, 2, 8) == 7;
    assert SkipTrailing("  /foo/  ", Whitespace, 2, 9) == 7;
    assert "  /foo/  "[2..7] == "/foo/";
    assert SkipLeading("/foo/", Only('/'), 1) == 1;
    assert SkipTrailing("/foo/", Only('/'), 1, 4) == 4;
    assert "/foo/"[1..4] == "foo";
    CollapseUnchanged("foo");
  }

  lemma NormalizeRootIsEmpty()
    ensures Normalized("/") == "" && Normalized("") == ""
  {
    TrimUnchanged("/", Whitespace);
    assert Trim("/", Only('/')) == "";
  }

  // ---------------------------------------------------------------------------
  // The well-known documents (their constants live in document.rs, which is not part of
  // this model; the names are those the workspace's own comments use).

  const README: Path := "README.md"
  const MEMORY: Path := "MEMORY.md"
  const HEARTBEAT: Path := "HEARTBEAT.md"
  const IDENTITY: Path := "IDENTITY.md"
  const SOUL: Path := "SOUL.md"
  const AGENTS: Path := "AGENTS.md"
  const USER: Path := "USER.md"
  const TOOLS: Path := "TOOLS.md"
  const BOOT: Path := "BOOT.md"
  const BOOTSTRAP: Path := "BOOTSTRAP.md"
}
