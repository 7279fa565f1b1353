/**
  The part of Python's `posixpath` (`os.path` on POSIX systems) that the
  memory loader and the session store rely on: `isabs`, `join` of two parts,
  `normpath`, `dirname`, `abspath` against a given working directory and
  `expanduser` against a given home directory and user table.
 */
module PosixPath {
  import opened Options
  import opened Text

  predicate IsSlash(c: char) { c == '/' }

  /** `os.path.isabs`. */
  predicate IsAbs(p: string) { StartsWith(p, "/") }

  /** A string made of slashes only (the empty string included). */
  predicate AllSlashes(s: string) { forall k | 0 <= k < |s| :: s[k] == '/' }

  /** `os.path.join(a, b)`: an absolute `b` replaces `a`; otherwise one "/" goes between them unless `a` is empty or ends in "/". */
  function PathJoin(a: string, b: string): (r: string)
    ensures IsAbs(b) ==> r == b
    ensures !IsAbs(b) && IsAbs(a) ==> IsAbs(r)
    ensures EndsWith(r, b)
  {
    if IsAbs(b) then b
    else if a == "" || EndsWith(a, "/") then
      assert (a + b)[|a + b| - |b|..] == b;
      a + b
    else
      assert (a + "/" + b)[|a + "/" + b| - |b|..] == b;
      a + "/" + b
  }

  // ---------------------------------------------------------------------------
  // normpath

  /** The leading slashes `normpath` keeps: two when there are exactly two, otherwise one or none. */
  function InitialSlashes(p: string): (n: nat)
    ensures n <= 2
    ensures n > 0 <==> IsAbs(p)
  {
    if !IsAbs(p) then 0
    else if StartsWith(p, "//") && !StartsWith(p, "///") then 2
    else 1
  }

  /**
    One component folded into the components kept so far: "" and "." are
    dropped, ".." removes the last kept component unless there is none (an
    absolute path then drops it, a relative one keeps it) or that one is "..".
   */
  function NormStep(kept: seq<string>, comp: string, absolute: bool): seq<string> {
    if comp == "" || comp == "." then kept
    else if comp != ".." || (!absolute && kept == []) || (kept != [] && kept[|kept| - 1] == "..") then kept + [comp]
    else if kept != [] then kept[..|kept| - 1]
    else kept
  }

  /** The components `normpath` keeps, folding from the left. */
  function NormComps(comps: seq<string>, absolute: bool): seq<string>
  {
    if comps == [] then []
    else NormStep(NormComps(comps[..|comps| - 1], absolute), comps[|comps| - 1], absolute)
  }

  /** The components of a normalised path: none is "" or ".", none is ".." in an absolute path, and the ".."s of a relative one come first. */
  predicate Normalised(kept: seq<string>, absolute: bool) {
    && (forall i | 0 <= i < |kept| :: kept[i] != "" && kept[i] != ".")
    && (absolute ==> forall i | 0 <= i < |kept| :: kept[i] != "..")
    && (forall i, j | 0 <= i < j < |kept| && kept[j] == ".." :: kept[i] == "..")
  }

  lemma {:induction false} NormCompsNormalised(comps: seq<string>, absolute: bool)
    ensures Normalised(NormComps(comps, absolute), absolute)
    ensures forall c | c in NormComps(comps, absolute) :: c in comps
  {
    if comps != [] {
      var init := comps[..|comps| - 1];
      var kept := NormComps(init, absolute);
      NormCompsNormalised(init, absolute);
      var comp := comps[|comps| - 1];
      var next := NormStep(kept, comp, absolute);
      assert NormComps(comps, absolute) == next;
      forall c | c in next ensures c in comps {
        if c in kept {
          assert c in init;
        } else {
          assert c == comp;
        }
      }
      if comp != "" && comp != "." && comp == ".." && !(!absolute && kept == []) && !(kept != [] && kept[|kept| - 1] == "..") {
        if kept != [] {
          assert forall i | 0 <= i < |next| :: next[i] == kept[i];
        }
      }
    }
  }

  /** `"/" * n`. */
  function Slashes(n: nat): (r: string)
    ensures |r| == n && AllSlashes(r)
  {
    if n == 0 then "" else Slashes(n - 1) + "/"
  }

  /** `os.path.normpath`. */
  function NormPath(p: string): (r: string)
    ensures r != ""
  {
    if p == "" then "."
    else
      var n := InitialSlashes(p);
      var r := Slashes(n) + Join(NormComps(Split(p, "/"), n > 0), "/");
      if r == "" then "." else r
  }

  /** A "/"-join of pieces without "/" whose first piece is not empty does not start with "/". */
  lemma {:induction false} JoinNotAbs(xs: seq<string>)
    requires xs != [] && xs[0] != "" && xs[0][0] != '/'
    ensures !IsAbs(Join(xs, "/"))
  {
    if |xs| > 1 {
      JoinCons(xs[0], xs[1..], "/");
      assert [xs[0]] + xs[1..] == xs;
      assert Join(xs, "/")[0] == xs[0][0];
    }
  }

  /** The kept components of a relative path, joined, do not start with "/". */
  lemma RelativeBody(p: string)
    ensures !IsAbs(Join(NormComps(Split(p, "/"), false), "/"))
  {
    var kept := NormComps(Split(p, "/"), false);
    if kept != [] {
      NormCompsNormalised(Split(p, "/"), false);
      assert kept[0] in kept;
      SplitPiecesFree(p, "/");
      assert !Contains(kept[0], "/");
      assert kept[0][0] != '/' by {
        assert !OccursAt(kept[0], "/", 0);
      }
      JoinNotAbs(kept);
    }
  }

  /** `normpath` keeps a path absolute or relative. */
  lemma NormPathAbs(p: string)
    ensures IsAbs(NormPath(p)) <==> IsAbs(p)
  {
    if p != "" {
      var n := InitialSlashes(p);
      var body := Join(NormComps(Split(p, "/"), n > 0), "/");
      var r := Slashes(n) + body;
      assert NormPath(p) == if r == "" then "." else r;
      if n > 0 {
        assert r[..1] == "/";
      } else {
        RelativeBody(p);
        assert r == body;
        assert !IsAbs(".") by { assert "."[..1][0] != "/"[0]; }
      }
    } else {
      assert !IsAbs(".") by { assert "."[..1][0] != "/"[0]; }
    }
  }

  // ---------------------------------------------------------------------------
  // dirname, abspath, expanduser

  /** The index of the last `c` in `s` (Python's `s.rfind(c)`), if any. */
  function RFindChar(s: string, c: char): (r: Option<nat>)
    ensures r.Some? ==> r.value < |s| && s[r.value] == c && forall k | r.value < k < |s| :: s[k] != c
    ensures r.None? ==> forall k | 0 <= k < |s| :: s[k] != c
  {
    if s == [] then None
    else if s[|s| - 1] == c then Some(|s| - 1)
    else RFindChar(s[..|s| - 1], c)
  }

  /** `os.path.dirname`: everything up to the last "/", with trailing slashes removed unless it is all slashes. */
  function DirName(p: string): (r: string)
    ensures |r| <= |p| && r == p[..|r|]
  {
    var i := match RFindChar(p, '/') case None => 0 case Some(k) => k + 1;
    var head := p[..i];
    if head != "" && !AllSlashes(head) then
      var r := RStripWhile(head, IsSlash);
      assert r == p[..|r|];
      r
    else head
  }

  /** `dirname` returns its argument exactly when the argument is all slashes (the root, or ""). */
  lemma DirNameFixedPoint(p: string)
    ensures DirName(p) == p <==> AllSlashes(p)
  {
    var i := match RFindChar(p, '/') case None => 0 case Some(k) => k + 1;
    var head := p[..i];
    if AllSlashes(p) && p != "" {
      assert p[|p| - 1] == '/';
      assert i == |p|;
      assert head == p;
    }
  }

  /** A parent that differs from its directory is strictly shorter: walking up ends. */
  lemma DirNameShrinks(p: string)
    requires DirName(p) != p
    ensures |DirName(p)| < |p|
  {
  }

  /** `os.path.abspath` against the working directory `cwd`. */
  function AbsPath(cwd: string, p: string): (r: string)
    ensures r != ""
  {
    NormPath(if IsAbs(p) then p else PathJoin(cwd, p))
  }

  /** With an absolute working directory, `abspath` is absolute. */
  lemma AbsPathIsAbs(cwd: string, p: string)
    requires IsAbs(cwd)
    ensures IsAbs(AbsPath(cwd, p))
  {
    NormPathAbs(if IsAbs(p) then p else PathJoin(cwd, p));
  }

  /**
    `os.path.expanduser` with `home` for `$HOME` and `users` for the password
    database: "~" and "~/..." use `home`, "~name..." uses `users[name]` and is
    left alone when `name` is unknown; the home directory loses its trailing
    slashes and an empty result becomes "/".
   */
  function ExpandUser(home: string, users: map<string, string>, p: string): (r: string)
    ensures !StartsWith(p, "~") ==> r == p
  {
    if !StartsWith(p, "~") then p
    else
      var i := match FindCharFrom(p, IsSlash, 1) case None => |p| case Some(k) => k;
      var userHome := if i == 1 then Some(home) else if p[1..i] in users then Some(users[p[1..i]]) else None;
      match userHome
      case None => p
      case Some(h) =>
        var expanded := RStripWhile(h, IsSlash) + p[i..];
        if expanded == "" then "/" else expanded
  }

  /** "~" and "~/rest" expand to the home directory, without its trailing slashes, followed by "/rest" ("/" when that is empty). */
  lemma ExpandUserHome(home: string, users: map<string, string>, p: string)
    requires p == "~" || StartsWith(p, "~/")
    ensures var h := RStripWhile(home, IsSlash);
      ExpandUser(home, users, p) == if h + p[1..] == "" then "/" else h + p[1..]
  {
    if p != "~" {
      assert p[1] == '/';
      assert FindCharFrom(p, IsSlash, 1) == Some(1);
    }
  }

  /** With an absolute home directory, "~" and "~/rest" expand to an absolute path. */
  lemma ExpandUserHomeAbs(home: string, users: map<string, string>, p: string)
    requires p == "~" || StartsWith(p, "~/")
    requires IsAbs(home)
    ensures IsAbs(ExpandUser(home, users, p))
  {
    ExpandUserHome(home, users, p);
    var h := RStripWhile(home, IsSlash);
    if h != "" {
      assert h[0] == home[0];
      assert (h + p[1..])[0] == '/';
    }
  }
}
