/**
  Project memory: finding the CLAUDE.md files that apply to a directory and
  reading them with their "@path" imports expanded.

  The environment (working directory, home directory, user table and the
  regular files with their contents) is an `Env` value; a file that is
  missing or unreadable reads as "". The directory walk of the nested search
  is given as a list of (directory, file names) entries.
 */
module ClaudeMemory {
  import opened Options
  import opened Text
  import opened PosixPath

  /** How deep imports are followed: the top-level file is depth 0. */
  const MaxImportDepth: nat := 5

  const MemoryFileName := "CLAUDE.md"

  datatype Env = Env(cwd: string, home: string, users: map<string, string>, files: map<string, string>)

  /** `read_file_content`: the file's text, or "" when it cannot be read. */
  function ReadFile(files: map<string, string>, path: string): string {
    if path in files then files[path] else ""
  }

  /** No element occurs twice. */
  predicate NoDup(s: seq<string>) {
    forall i, j | 0 <= i < j < |s| :: s[i] != s[j]
  }

  // ---------------------------------------------------------------------------
  // Code blocks and spans

  const Fence := "```"

  predicate IsBacktick(c: char) { c == '`' }

  /** The text holds a fenced block: a "```" followed later by another, not overlapping it. */
  predicate HasBlock(s: string) {
    exists i, j | 0 <= i && i + 3 <= j <= |s| :: OccursAt(s, Fence, i) && OccursAt(s, Fence, j)
  }

  /** The text holds an inline span: two backticks. */
  predicate HasSpan(s: string) {
    exists i, j | 0 <= i < j < |s| :: s[i] == '`' && s[j] == '`'
  }

  /**
    `re.sub(r"```[\s\S]*?```", "", s)`: scanning left to right, each "```"
    and the text up to the nearest following "```" are removed; an opening
    fence with no closing one stays, and so does everything after it.
   */
  function RemoveBlocks(s: string): (r: string)
    ensures |r| <= |s|
    decreases |s|
  {
    if |s| < 3 then s
    else if StartsWith(s, Fence) then
      match FindFrom(s, Fence, 3)
      case Some(j) => RemoveBlocks(s[j + 3..])
      case None => s
    else [s[0]] + RemoveBlocks(s[1..])
  }

  /** An occurrence in the text without its first character is an occurrence one place later in the text. */
  lemma OccursShift(s: string, k: nat)
    requires s != []
    ensures OccursAt(s[1..], Fence, k) <==> OccursAt(s, Fence, k + 1)
  {
    if k + 3 <= |s[1..]| {
      assert s[1..][k..k + 3] == s[k + 1..k + 4];
    }
  }

  /** Two non-overlapping fences make a block. */
  lemma BlockAt(s: string, i: nat, j: nat)
    requires i + 3 <= j <= |s| && OccursAt(s, Fence, i) && OccursAt(s, Fence, j)
    ensures HasBlock(s)
  {
  }

  /** Occurrences in a suffix are occurrences in the whole text. */
  lemma ShiftBlock(s: string)
    requires s != []
    ensures HasBlock(s[1..]) ==> HasBlock(s)
    ensures HasBlock(s) && !OccursAt(s, Fence, 0) ==> HasBlock(s[1..])
  {
    if HasBlock(s[1..]) {
      BlockOfSuffix(s);
    }
    if HasBlock(s) && !OccursAt(s, Fence, 0) {
      BlockInSuffix(s);
    }
  }

  lemma BlockOfSuffix(s: string)
    requires s != [] && HasBlock(s[1..])
    ensures HasBlock(s)
  {
    var t := s[1..];
    var i, j :| 0 <= i && i + 3 <= j <= |t| && OccursAt(t, Fence, i) && OccursAt(t, Fence, j);
    OccursShift(s, i);
    OccursShift(s, j);
    BlockAt(s, i + 1, j + 1);
  }

  lemma BlockInSuffix(s: string)
    requires s != [] && HasBlock(s) && !OccursAt(s, Fence, 0)
    ensures HasBlock(s[1..])
  {
    var i, j :| 0 <= i && i + 3 <= j <= |s| && OccursAt(s, Fence, i) && OccursAt(s, Fence, j);
    var i0, j0 := i - 1, j - 1;
    OccursShift(s, i0);
    OccursShift(s, j0);
    BlockAt(s[1..], i0, j0);
  }

  /** Removing blocks changes the text exactly when it holds a block, and then shortens it. */
  lemma {:induction false} RemoveBlocksExact(s: string)
    ensures HasBlock(s) ==> |RemoveBlocks(s)| < |s|
    ensures !HasBlock(s) ==> RemoveBlocks(s) == s
    decreases |s|
  {
    if |s| < 3 {
    } else if StartsWith(s, Fence) {
      assert OccursAt(s, Fence, 0);
      match FindFrom(s, Fence, 3)
      case Some(j) =>
        assert HasBlock(s);
      case None =>
    } else {
      assert !OccursAt(s, Fence, 0);
      ShiftBlock(s);
      RemoveBlocksExact(s[1..]);
      if !HasBlock(s) {
        assert [s[0]] + s[1..] == s;
      }
    }
  }

  /**
    `re.sub(r"`[^`]*`", "", s)`: each backtick and the text up to the next
    backtick are removed, scanning left to right; a lone backtick stays.
   */
  function RemoveSpans(s: string): (r: string)
    ensures |r| <= |s|
    decreases |s|
  {
    if s == [] then s
    else if s[0] == '`' then
      match FindCharFrom(s, IsBacktick, 1)
      case Some(j) => RemoveSpans(s[j + 1..])
      case None => s
    else [s[0]] + RemoveSpans(s[1..])
  }

  /** No span survives span removal, and the text is unchanged exactly when it holds no span. */
  lemma {:induction false} RemoveSpansExact(s: string)
    ensures !HasSpan(RemoveSpans(s))
    ensures RemoveSpans(s) == s <==> !HasSpan(s)
    decreases |s|
  {
    if s == [] {
    } else if s[0] == '`' {
      match FindCharFrom(s, IsBacktick, 1)
      case Some(j) =>
        RemoveSpansExact(s[j + 1..]);
        assert s[0] == '`' && s[j] == '`';
        assert HasSpan(s);
      case None =>
        assert forall k | 1 <= k < |s| :: s[k] != '`';
    } else {
      var rest := RemoveSpans(s[1..]);
      RemoveSpansExact(s[1..]);
      assert RemoveSpans(s) == [s[0]] + rest;
      ShiftSpan(s[0], rest);
      ShiftSpan(s[0], s[1..]);
      assert [s[0]] + s[1..] == s;
    }
  }

  /** A character other than a backtick in front neither makes nor breaks a span. */
  lemma ShiftSpan(c: char, t: string)
    requires c != '`'
    ensures HasSpan([c] + t) <==> HasSpan(t)
  {
    var s := [c] + t;
    if HasSpan(s) {
      var i, j :| 0 <= i < j < |s| && s[i] == '`' && s[j] == '`';
      assert t[i - 1] == '`' && t[j - 1] == '`';
    }
    if HasSpan(t) {
      var i, j :| 0 <= i < j < |t| && t[i] == '`' && t[j] == '`';
      assert s[i + 1] == '`' && s[j + 1] == '`';
    }
  }

  /** `remove_code_spans_and_blocks`: blocks first, then spans. */
  function RemoveCode(text: string): string {
    RemoveSpans(RemoveBlocks(text))
  }

  // ---------------------------------------------------------------------------
  // Import lines

  /** `is_import_line`: the stripped line starts with "@". */
  predicate IsImportLine(line: string) {
    StartsWith(Strip(line), "@")
  }

  /** The import path a line names: the stripped text after "@", when the line is an import line and that text is not empty. */
  function ImportOf(line: string): (r: seq<string>)
    ensures |r| <= 1
    ensures r != [] ==> IsImportLine(line) && r[0] != "" && Strip(r[0]) == r[0]
  {
    var l := Strip(line);
    if StartsWith(l, "@") && Strip(l[1..]) != "" then
      StripIdempotent(l[1..]);
      [Strip(l[1..])]
    else []
  }

  /** The import paths of a list of lines, in line order. */
  function ImportsOf(lines: seq<string>): (r: seq<string>)
    ensures |r| <= |lines|
    ensures forall x | x in r :: x != "" && Strip(x) == x
  {
    if lines == [] then []
    else ImportsOf(lines[..|lines| - 1]) + ImportOf(lines[|lines| - 1])
  }

  lemma ImportsStep(lines: seq<string>, i: nat)
    requires i < |lines|
    ensures ImportsOf(lines[..i + 1]) == ImportsOf(lines[..i]) + ImportOf(lines[i])
  {
    assert lines[..i + 1][..i] == lines[..i];
  }

  /** `parse_import_paths` as a function of the text. */
  function ParseImports(text: string): seq<string> {
    ImportsOf(SplitLines(RemoveCode(text)))
  }

  /** `parse_import_paths`: the lines of the text with code removed, each stripped, kept when they start with "@" and name a non-empty path. */
  method ParseImportPaths(text: string) returns (paths: seq<string>)
    ensures paths == ParseImports(text)
  {
    var cleaned := RemoveCode(text);
    var lines := SplitLines(cleaned);
    paths := [];
    for i := 0 to |lines|
      invariant paths == ImportsOf(lines[..i])
    {
      var line := Strip(lines[i]);
      if StartsWith(line, "@") {
        var path := Strip(line[1..]);
        if path != "" {
          paths := paths + [path];
        }
      }
      ImportsStep(lines, i);
    }
    assert lines[..|lines|] == lines;
  }

  /** A span around text without backticks holds no fence. */
  lemma SpanHasNoBlock(x: string)
    requires forall k | 0 <= k < |x| :: x[k] != '`'
    ensures RemoveBlocks("`" + x + "`") == "`" + x + "`"
  {
    var s := "`" + x + "`";
    assert !HasBlock(s) by {
      forall i | 0 <= i && i + 3 <= |s| ensures !OccursAt(s, Fence, i) {
        assert s[i + 1] == x[i] != '`';
        assert s[i..i + 3][1] == s[i + 1];
      }
    }
    RemoveBlocksExact(s);
  }

  /** The backtick closing a span around text without backticks is the first one after the opening backtick. */
  lemma SpanCloses(x: string)
    requires forall k | 0 <= k < |x| :: x[k] != '`'
    ensures FindCharFrom("`" + x + "`", IsBacktick, 1) == Some(|x| + 1)
  {
    var s := "`" + x + "`";
    var r := FindCharFrom(s, IsBacktick, 1);
    assert IsBacktick(s[|x| + 1]);
  }

  /** An import written inside an inline span is not returned. */
  lemma SpanImportsIgnored(x: string)
    requires forall k | 0 <= k < |x| :: x[k] != '`'
    ensures ParseImports("`" + x + "`") == []
  {
    var s := "`" + x + "`";
    SpanHasNoBlock(x);
    SpanCloses(x);
    assert RemoveSpans(s) == RemoveSpans(s[|s|..]) == "";
  }

  /** An import written inside a fenced block without backticks is not returned. */
  lemma BlockImportsIgnored(x: string)
    requires forall k | 0 <= k < |x| :: x[k] != '`'
    ensures ParseImports("```" + x + "```") == []
  {
    var s := "```" + x + "```";
    assert StartsWith(s, Fence);
    assert OccursAt(s, Fence, 3 + |x|);
    forall k | 3 <= k < 3 + |x| ensures !OccursAt(s, Fence, k) {
      assert s[k] == x[k - 3];
    }
    assert FindFrom(s, Fence, 3) == Some(3 + |x|);
    assert RemoveBlocks(s) == "";
  }

  // ---------------------------------------------------------------------------
  // Resolving and reading

  /** `resolve_path`: "~" paths are home-expanded, absolute paths kept, others joined to `baseDir` and normalised. */
  function ResolvePath(env: Env, baseDir: string, path: string): string {
    if StartsWith(path, "~") then ExpandUser(env.home, env.users, path)
    else if IsAbs(path) then path
    else NormPath(PathJoin(baseDir, path))
  }

  /**
    An absolute path resolves to itself; with an absolute base directory
    every path not starting with "~" resolves to an absolute path, and with
    an absolute home directory so do "~" and "~/rest".
   */
  lemma ResolvePathAbs(env: Env, baseDir: string, path: string)
    ensures !StartsWith(path, "~") && IsAbs(path) ==> ResolvePath(env, baseDir, path) == path
    ensures IsAbs(baseDir) && !StartsWith(path, "~") ==> IsAbs(ResolvePath(env, baseDir, path))
    ensures IsAbs(env.home) && (path == "~" || StartsWith(path, "~/")) ==> IsAbs(ResolvePath(env, baseDir, path))
  {
    if StartsWith(path, "~") {
      assert ResolvePath(env, baseDir, path) == ExpandUser(env.home, env.users, path);
      if IsAbs(env.home) && (path == "~" || StartsWith(path, "~/")) {
        ExpandUserHomeAbs(env.home, env.users, path);
      }
    } else {
      assert path != "~" && !StartsWith(path, "~/") by {
        if |path| >= 2 { assert path[..2][..1] == path[..1]; }
      }
      if !IsAbs(path) {
        NormPathAbs(PathJoin(baseDir, path));
      }
    }
  }

  /** What reading one file with its imports produced: the text, the set of files seen afterwards, and the files whose content was included, in order. */
  datatype Visit = Visit(text: string, seen: set<string>, included: seq<string>)

  /** What reading a list of imports produced: the non-empty texts, the files seen afterwards and the files included. */
  datatype Visits = Visits(texts: seq<string>, seen: set<string>, included: seq<string>)

  /** Reading at `depth` may still follow `Budget(depth)` levels of imports. */
  function Budget(depth: nat): nat {
    if depth > MaxImportDepth then 0 else MaxImportDepth + 1 - depth
  }

  /**
    `read_claude_md(filepath, depth, seen)`: nothing beyond the depth limit or
    for a file already seen; otherwise the file is marked seen and, when it is
    not empty, its content is followed by the non-empty texts of its imports
    (resolved against its directory, read one level deeper), joined with "\n".
   */
  function ReadSpec(env: Env, filepath: string, depth: nat, seen: set<string>): Visit
    decreases Budget(depth), 0, 0
  {
    if depth > MaxImportDepth then Visit("", seen, [])
    else
      var p := AbsPath(env.cwd, filepath);
      if p in seen then Visit("", seen, [])
      else
        var content := ReadFile(env.files, p);
        if content == "" then Visit("", seen + {p}, [])
        else
          var imported := ImportsSpec(env, DirName(p), ParseImports(content), depth + 1, seen + {p});
          Visit(Join([content] + imported.texts, "\n"), imported.seen, [p] + imported.included)
  }

  /** The imports of one file read in order, each seeing the files the earlier ones marked. */
  function ImportsSpec(env: Env, baseDir: string, imports: seq<string>, depth: nat, seen: set<string>): Visits
    decreases Budget(depth), 1, |imports|
  {
    if imports == [] then Visits([], seen, [])
    else
      var v := ReadSpec(env, ResolvePath(env, baseDir, imports[0]), depth, seen);
      var rest := ImportsSpec(env, baseDir, imports[1..], depth, v.seen);
      Visits((if v.text != "" then [v.text] else []) + rest.texts, rest.seen, v.included + rest.included)
  }

  /** The contents of the given files. */
  function Contents(files: map<string, string>, paths: seq<string>): (r: seq<string>)
    ensures |r| == |paths|
  {
    if paths == [] then [] else [ReadFile(files, paths[0])] + Contents(files, paths[1..])
  }

  lemma {:induction false} ContentsConcat(files: map<string, string>, a: seq<string>, b: seq<string>)
    ensures Contents(files, a + b) == Contents(files, a) + Contents(files, b)
  {
    if a != [] {
      assert (a + b)[1..] == a[1..] + b;
      ContentsConcat(files, a[1..], b);
    } else {
      assert a + b == b;
    }
  }

  lemma {:induction false} JoinConcat(a: seq<string>, b: seq<string>, sep: string)
    requires a != [] && b != []
    ensures Join(a + b, sep) == Join(a, sep) + sep + Join(b, sep)
  {
    if |a| == 1 {
      assert a + b == [a[0]] + b;
      JoinCons(a[0], b, sep);
    } else {
      assert a + b == [a[0]] + (a[1..] + b);
      JoinCons(a[0], a[1..] + b, sep);
      JoinConcat(a[1..], b, sep);
      JoinCons(a[0], a[1..], sep);
      assert [a[0]] + a[1..] == a;
    }
  }

  /** A "\n"-join of non-empty pieces is empty exactly when there are none. */
  lemma JoinEmpty(xs: seq<string>, sep: string)
    requires forall k | 0 <= k < |xs| :: xs[k] != ""
    ensures Join(xs, sep) == "" <==> xs == []
  {
    if |xs| > 1 {
      JoinCons(xs[0], xs[1..], sep);
      assert [xs[0]] + xs[1..] == xs;
    }
  }

  /**
    What one read guarantees: seen files are only added; the included files
    are new to this read, each included once, all non-empty; and the text is
    their contents in order, joined with "\n".
   */
  predicate GoodVisit(env: Env, v: Visit, seen: set<string>) {
    && seen <= v.seen
    && (forall f | f in v.included :: f in v.seen && f !in seen && ReadFile(env.files, f) != "")
    && NoDup(v.included)
    && v.text == Join(Contents(env.files, v.included), "\n")
  }

  predicate GoodVisits(env: Env, vs: Visits, seen: set<string>) {
    && seen <= vs.seen
    && (forall f | f in vs.included :: f in vs.seen && f !in seen && ReadFile(env.files, f) != "")
    && NoDup(vs.included)
    && (forall t | t in vs.texts :: t != "")
    && (vs.texts == [] <==> vs.included == [])
    && Join(vs.texts, "\n") == Join(Contents(env.files, vs.included), "\n")
  }

  /** The text of one read is empty exactly when no file was included. */
  lemma VisitTextEmpty(env: Env, v: Visit, seen: set<string>)
    requires GoodVisit(env, v, seen)
    ensures v.text == "" <==> v.included == []
  {
    var cs := Contents(env.files, v.included);
    forall k | 0 <= k < |cs| ensures cs[k] != "" {
      ContentsAt(env.files, v.included, k);
      assert v.included[k] in v.included;
    }
    JoinEmpty(cs, "\n");
  }

  lemma {:induction false} ContentsAt(files: map<string, string>, paths: seq<string>, k: nat)
    requires k < |paths|
    ensures Contents(files, paths)[k] == ReadFile(files, paths[k])
  {
    if k > 0 {
      ContentsAt(files, paths[1..], k - 1);
    }
  }

  /** A file with content, followed by what its imports produced, keeps the guarantees. */
  lemma ConsVisit(env: Env, p: string, seen: set<string>, imported: Visits)
    requires p !in seen && ReadFile(env.files, p) != ""
    requires GoodVisits(env, imported, seen + {p})
    ensures var content := ReadFile(env.files, p);
      GoodVisit(env, Visit(Join([content] + imported.texts, "\n"), imported.seen, [p] + imported.included), seen)
  {
    var content := ReadFile(env.files, p);
    NoDupConcat([p], imported.included, seen + {p});
    ContentsConcat(env.files, [p], imported.included);
    assert Contents(env.files, [p]) == [content];
    if imported.texts != [] {
      JoinCons(content, imported.texts, "\n");
      JoinCons(content, Contents(env.files, imported.included), "\n");
    }
  }

  /** What one import produced, followed by what the later imports produced, keeps the guarantees. */
  lemma ConcatVisits(env: Env, v: Visit, rest: Visits, seen: set<string>)
    requires GoodVisit(env, v, seen)
    requires GoodVisits(env, rest, v.seen)
    ensures var head := if v.text != "" then [v.text] else [];
      GoodVisits(env, Visits(head + rest.texts, rest.seen, v.included + rest.included), seen)
  {
    VisitTextEmpty(env, v, seen);
    var head := if v.text != "" then [v.text] else [];
    var inc := v.included + rest.included;
    var n := |v.included|;
    ContentsConcat(env.files, v.included, rest.included);
    if v.included != [] && rest.included != [] {
      JoinConcat(head, rest.texts, "\n");
      JoinConcat(Contents(env.files, v.included), Contents(env.files, rest.included), "\n");
    } else if v.included == [] {
      assert head + rest.texts == rest.texts;
      assert inc == rest.included;
    } else {
      assert head + rest.texts == head;
      assert inc == v.included;
    }
    NoDupConcat(v.included, rest.included, v.seen);
  }

  /** Two duplicate-free lists, the first inside a set the second avoids, concatenate to a duplicate-free list. */
  lemma NoDupConcat(a: seq<string>, b: seq<string>, inside: set<string>)
    requires NoDup(a) && NoDup(b)
    requires forall x | x in a :: x in inside
    requires forall x | x in b :: x !in inside
    ensures NoDup(a + b)
  {
    var s := a + b;
    forall i, j | 0 <= i < j < |s| ensures s[i] != s[j] {
      if j >= |a| {
        assert s[j] == b[j - |a|];
        if i >= |a| {
          assert s[i] == b[i - |a|];
        } else {
          assert s[i] == a[i] && a[i] in a && b[j - |a|] in b;
        }
      }
    }
  }

  /** Every read keeps the guarantees of `GoodVisit`: each file is included at most once, and only files not seen before. */
  lemma {:induction false} ReadSpecGood(env: Env, filepath: string, depth: nat, seen: set<string>)
    ensures GoodVisit(env, ReadSpec(env, filepath, depth, seen), seen)
    decreases Budget(depth), 0, 1
  {
    var v := ReadSpec(env, filepath, depth, seen);
    if depth > MaxImportDepth || AbsPath(env.cwd, filepath) in seen {
      assert v == Visit("", seen, []);
    } else {
      var p := AbsPath(env.cwd, filepath);
      if ReadFile(env.files, p) == "" {
        assert v == Visit("", seen + {p}, []);
      } else {
        ReadContentGood(env, p, depth, seen);
      }
    }
  }

  /** The case of a file not seen before that has content. */
  lemma {:induction false} ReadContentGood(env: Env, p: string, depth: nat, seen: set<string>)
    requires depth <= MaxImportDepth && p !in seen && ReadFile(env.files, p) != ""
    ensures var content := ReadFile(env.files, p);
      var imported := ImportsSpec(env, DirName(p), ParseImports(content), depth + 1, seen + {p});
      GoodVisit(env, Visit(Join([content] + imported.texts, "\n"), imported.seen, [p] + imported.included), seen)
    decreases Budget(depth), 0, 0
  {
    var content := ReadFile(env.files, p);
    ImportsSpecGood(env, DirName(p), ParseImports(content), depth + 1, seen + {p});
    ConsVisit(env, p, seen, ImportsSpec(env, DirName(p), ParseImports(content), depth + 1, seen + {p}));
  }

  lemma {:induction false} ImportsSpecGood(env: Env, baseDir: string, imports: seq<string>, depth: nat, seen: set<string>)
    ensures GoodVisits(env, ImportsSpec(env, baseDir, imports, depth, seen), seen)
    decreases Budget(depth), 1, |imports|
  {
    if imports != [] {
      var v := ReadSpec(env, ResolvePath(env, baseDir, imports[0]), depth, seen);
      ReadSpecGood(env, ResolvePath(env, baseDir, imports[0]), depth, seen);
      ImportsSpecGood(env, baseDir, imports[1..], depth, v.seen);
      ConcatVisits(env, v, ImportsSpec(env, baseDir, imports[1..], depth, v.seen), seen);
    }
  }

  /** Beyond the depth limit nothing is read and nothing is marked seen. */
  lemma DepthLimit(env: Env, filepath: string, depth: nat, seen: set<string>)
    requires depth > MaxImportDepth
    ensures ReadSpec(env, filepath, depth, seen) == Visit("", seen, [])
  {
  }

  /** `ReadSpec` of a file not seen before that has content, unfolded. */
  lemma ReadSpecUnfold(env: Env, filepath: string, depth: nat, seen: set<string>)
    requires depth <= MaxImportDepth
    requires AbsPath(env.cwd, filepath) !in seen && ReadFile(env.files, AbsPath(env.cwd, filepath)) != ""
    ensures var p := AbsPath(env.cwd, filepath);
      var content := ReadFile(env.files, p);
      var imported := ImportsSpec(env, DirName(p), ParseImports(content), depth + 1, seen + {p});
      ReadSpec(env, filepath, depth, seen) == Visit(Join([content] + imported.texts, "\n"), imported.seen, [p] + imported.included)
  {
  }

  /** `ImportsSpec` of the imports from index `i` on, unfolded once. */
  lemma ImportsSpecStep(env: Env, baseDir: string, imports: seq<string>, i: nat, depth: nat, seen: set<string>)
    requires i < |imports|
    ensures var v := ReadSpec(env, ResolvePath(env, baseDir, imports[i]), depth, seen);
      var rest := ImportsSpec(env, baseDir, imports[i + 1..], depth, v.seen);
      ImportsSpec(env, baseDir, imports[i..], depth, seen)
        == Visits((if v.text != "" then [v.text] else []) + rest.texts, rest.seen, v.included + rest.included)
  {
    assert imports[i..][0] == imports[i];
    assert imports[i..][1..] == imports[i + 1..];
  }

  /**
    `read_claude_md`: marks the file seen in `seen` (threaded in and out as
    the shared set is) and follows the file's imports.
   */
  method ReadClaudeMd(env: Env, filepath: string, depth: nat, seen: set<string>) returns (text: string, seenOut: set<string>)
    ensures text == ReadSpec(env, filepath, depth, seen).text
    ensures seenOut == ReadSpec(env, filepath, depth, seen).seen
    decreases Budget(depth), 0
  {
    if depth > MaxImportDepth {
      return "", seen;
    }
    var p := AbsPath(env.cwd, filepath);
    if p in seen {
      return "", seen;
    }
    seenOut := seen + {p};
    var content := ReadFile(env.files, p);
    if content == "" {
      return "", seenOut;
    }
    var baseDir := DirName(p);
    var importPaths := ParseImportPaths(content);
    var importedTexts;
    importedTexts, seenOut := ReadImports(env, baseDir, importPaths, depth + 1, seenOut);
    text := Join([content] + importedTexts, "\n");
    ReadSpecUnfold(env, filepath, depth, seen);
  }

  /** The loop of `read_claude_md` over the import paths: each is resolved and read one level deeper, and its text kept when it is not empty. */
  method ReadImports(env: Env, baseDir: string, importPaths: seq<string>, depth: nat, seen: set<string>) returns (texts: seq<string>, seenOut: set<string>)
    ensures texts == ImportsSpec(env, baseDir, importPaths, depth, seen).texts
    ensures seenOut == ImportsSpec(env, baseDir, importPaths, depth, seen).seen
    decreases Budget(depth), 1
  {
    ghost var goal := ImportsSpec(env, baseDir, importPaths, depth, seen);
    texts := [];
    seenOut := seen;
    for i := 0 to |importPaths|
      invariant texts + ImportsSpec(env, baseDir, importPaths[i..], depth, seenOut).texts == goal.texts
      invariant ImportsSpec(env, baseDir, importPaths[i..], depth, seenOut).seen == goal.seen
    {
      ImportsSpecStep(env, baseDir, importPaths, i, depth, seenOut);
      var resolved := ResolvePath(env, baseDir, importPaths[i]);
      var importedText, seenAfter := ReadClaudeMd(env, resolved, depth, seenOut);
      var kept := if importedText != "" then [importedText] else [];
      ConcatAssoc(texts, kept, ImportsSpec(env, baseDir, importPaths[i + 1..], depth, seenAfter).texts);
      texts := texts + kept;
      seenOut := seenAfter;
    }
    assert importPaths[|importPaths|..] == [];
    assert texts + [] == texts;
  }

  // ---------------------------------------------------------------------------
  // Finding memory files

  /** The directories from `dir` up to the root, each the `dirname` of the one before, ending at a fixed point. */
  function Ancestors(dir: string): (r: seq<string>)
    ensures r != [] && r[0] == dir
    decreases |dir|
  {
    var parent := DirName(dir);
    if parent == dir then [dir]
    else
      DirNameShrinks(dir);
      [dir] + Ancestors(parent)
  }

  /** The walk up visits each `dirname` in turn, strictly shorter each time, and stops at the root: a path of slashes only. */
  lemma {:induction false} AncestorsReachRoot(dir: string)
    ensures var r := Ancestors(dir);
      && AllSlashes(r[|r| - 1])
      && forall k | 0 <= k < |r| - 1 :: r[k + 1] == DirName(r[k]) && |r[k + 1]| < |r[k]|
    decreases |dir|
  {
    var parent := DirName(dir);
    DirNameFixedPoint(dir);
    if parent != dir {
      DirNameShrinks(dir);
      AncestorsReachRoot(parent);
      var r := Ancestors(dir);
      assert r == [dir] + Ancestors(parent);
      forall k | 1 <= k < |r| - 1 ensures r[k + 1] == DirName(r[k]) && |r[k + 1]| < |r[k]| {
        assert r[k] == Ancestors(parent)[k - 1] && r[k + 1] == Ancestors(parent)[k];
      }
    }
  }

  /** The existing memory files of the given directories, in order. */
  function Candidates(files: map<string, string>, dirs: seq<string>): (r: seq<string>)
    ensures |r| <= |dirs|
    ensures forall k | 0 <= k < |r| :: r[k] in files && EndsWith(r[k], MemoryFileName)
  {
    if dirs == [] then []
    else
      var c := PathJoin(dirs[0], MemoryFileName);
      (if c in files then [c] else []) + Candidates(files, dirs[1..])
  }

  /** The start directory `find_upwards_claude_md_files` uses: the given one, or the working directory, made absolute. */
  function StartDir(env: Env, startDir: Option<string>): string {
    AbsPath(env.cwd, match startDir case Some(d) => d case None => env.cwd)
  }

  /** `find_upwards_claude_md_files` as a function: the memory files of the start directory and all its ancestors, nearest first. */
  function Upwards(env: Env, startDir: Option<string>): seq<string> {
    Candidates(env.files, Ancestors(StartDir(env, startDir)))
  }

  /** The start directory's own memory file, when it exists, comes first. */
  lemma NearestFirst(env: Env, startDir: Option<string>)
    requires PathJoin(StartDir(env, startDir), MemoryFileName) in env.files
    ensures Upwards(env, startDir) != [] && Upwards(env, startDir)[0] == PathJoin(StartDir(env, startDir), MemoryFileName)
  {
    var dirs := Ancestors(StartDir(env, startDir));
    assert dirs[0] == StartDir(env, startDir);
  }

  /** The memory files from `dir` upwards: its own, when it exists, then those from its parent upwards. */
  lemma UpwardsStep(files: map<string, string>, dir: string)
    ensures var c := PathJoin(dir, MemoryFileName);
      var parent := DirName(dir);
      Candidates(files, Ancestors(dir))
        == (if c in files then [c] else []) + (if parent == dir then [] else Candidates(files, Ancestors(parent)))
  {
    var parent := DirName(dir);
    var r := Ancestors(dir);
    if parent == dir {
      assert r == [dir];
    } else {
      DirNameShrinks(dir);
      assert r == [dir] + Ancestors(parent);
      assert r[1..] == Ancestors(parent);
    }
  }

  lemma ConcatAssoc(a: seq<string>, b: seq<string>, c: seq<string>)
    ensures a + b + c == a + (b + c)
  {
  }

  /** `find_upwards_claude_md_files`: walks up with `dirname` until it returns its argument. */
  method FindUpwards(env: Env, startDir: Option<string>) returns (results: seq<string>)
    ensures results == Upwards(env, startDir)
  {
    var currentDir := StartDir(env, startDir);
    ghost var goal := Candidates(env.files, Ancestors(currentDir));
    results := [];
    while true
      invariant results + Candidates(env.files, Ancestors(currentDir)) == goal
      decreases |currentDir|
    {
      var candidate := PathJoin(currentDir, MemoryFileName);
      var parent := DirName(currentDir);
      var here: seq<string> := if candidate in env.files then [candidate] else [];
      ghost var rest: seq<string> := if parent == currentDir then [] else Candidates(env.files, Ancestors(parent));
      UpwardsStep(env.files, currentDir);
      assert Candidates(env.files, Ancestors(currentDir)) == here + rest;
      assert results + (here + rest) == goal;
      ConcatAssoc(results, here, rest);
      results := results + here;
      if parent == currentDir {
        assert results == goal;
        break;
      }
      DirNameShrinks(currentDir);
      currentDir := parent;
      assert results + Candidates(env.files, Ancestors(currentDir)) == goal;
    }
  }

  /** One directory of the walk: its path and the names of the files in it. */
  datatype WalkEntry = WalkEntry(root: string, fileNames: seq<string>)

  /** The memory files the walk passes, in walk order. */
  function Nested(walk: seq<WalkEntry>): (r: seq<string>)
    ensures |r| <= |walk|
    ensures forall k | 0 <= k < |r| :: EndsWith(r[k], MemoryFileName)
  {
    if walk == [] then []
    else
      var e := walk[|walk| - 1];
      Nested(walk[..|walk| - 1]) + (if MemoryFileName in e.fileNames then [PathJoin(e.root, MemoryFileName)] else [])
  }

  /** `find_nested_claude_md_files` over the directory walk. */
  method FindNested(walk: seq<WalkEntry>) returns (matches: seq<string>)
    ensures matches == Nested(walk)
  {
    matches := [];
    for i := 0 to |walk|
      invariant matches == Nested(walk[..i])
    {
      if MemoryFileName in walk[i].fileNames {
        matches := matches + [PathJoin(walk[i].root, MemoryFileName)];
      }
      assert walk[..i + 1][..i] == walk[..i];
    }
    assert walk[..|walk|] == walk;
  }

  /** The distinct elements of `s`, in order of first occurrence. */
  function Dedup(s: seq<string>): (r: seq<string>)
    ensures NoDup(r)
    ensures forall x :: x in r <==> x in s
  {
    if s == [] then []
    else
      var init := Dedup(s[..|s| - 1]);
      var last := s[|s| - 1];
      assert s == s[..|s| - 1] + [last];
      if last in init then init else init + [last]
  }

  /**
    `find_all_claude_md_files`: the union of the upward and nested results
    without duplicates. Python lists a set in an arbitrary order; this model
    lists the upward results first.
   */
  function AllFiles(env: Env, startDir: Option<string>, walk: seq<WalkEntry>): (r: seq<string>)
    ensures NoDup(r)
    ensures forall x :: x in r <==> x in Upwards(env, startDir) || x in Nested(walk)
  {
    Dedup(Upwards(env, startDir) + Nested(walk))
  }

  method FindAll(env: Env, startDir: Option<string>, walk: seq<WalkEntry>) returns (files: seq<string>)
    ensures files == AllFiles(env, startDir, walk)
  {
    var upwards := FindUpwards(env, startDir);
    var nested := FindNested(walk);
    files := Dedup(upwards + nested);
  }

  /** The memory text of each file, each read from depth 0 with nothing seen. */
  function Memories(env: Env, files: seq<string>): (r: seq<string>)
    ensures |r| == |files|
  {
    if files == [] then []
    else Memories(env, files[..|files| - 1]) + [ReadSpec(env, files[|files| - 1], 0, {}).text]
  }

  /** `load_all_claude_memory`: every memory file read on its own, the texts joined with a blank line. */
  method LoadAllClaudeMemory(env: Env, startDir: Option<string>, walk: seq<WalkEntry>) returns (r: string)
    ensures r == Join(Memories(env, AllFiles(env, startDir, walk)), "\n\n")
  {
    var files := FindAll(env, startDir, walk);
    var allMemory := ReadEach(env, files);
    r := Join(allMemory, "\n\n");
  }

  lemma MemoriesStep(env: Env, files: seq<string>, i: nat)
    requires i < |files|
    ensures Memories(env, files[..i + 1]) == Memories(env, files[..i]) + [ReadSpec(env, files[i], 0, {}).text]
  {
    assert files[..i + 1][..i] == files[..i];
  }

  /** The loop of `load_all_claude_memory`: each file read with a fresh set of seen files. */
  method ReadEach(env: Env, files: seq<string>) returns (allMemory: seq<string>)
    ensures allMemory == Memories(env, files)
  {
    allMemory := [];
    for i := 0 to |files|
      invariant allMemory == Memories(env, files[..i])
    {
      var text, _ := ReadClaudeMd(env, files[i], 0, {});
      MemoriesStep(env, files, i);
      allMemory := allMemory + [text];
    }
    assert files[..|files|] == files;
  }
}
