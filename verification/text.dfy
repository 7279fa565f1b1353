/**
  Python string semantics used throughout the model: character classes
  (`str.isspace`, `str.isprintable`, line boundaries of `str.splitlines`),
  stripping, searching, splitting, joining, slicing with Python's index rules
  and integer formatting. A Python `str` is a `seq<char>` of code points.
 */
module Text {
  import opened Options

  /** Python's `str.isspace` for one character. */
  predicate IsSpace(c: char) {
    || ('\t' <= c <= '\r')
    || ('\U{1c}' <= c <= ' ')
    || c == '\U{85}' || c == '\U{a0}' || c == '\U{1680}'
    || ('\U{2000}' <= c <= '\U{200a}')
    || c == '\U{2028}' || c == '\U{2029}' || c == '\U{202f}' || c == '\U{205f}' || c == '\U{3000}'
  }

  /** The characters at which Python's `str.splitlines` ends a line. */
  predicate IsLineBreak(c: char) {
    || ('\n' <= c <= '\r')
    || ('\U{1c}' <= c <= '\U{1e}')
    || c == '\U{85}' || c == '\U{2028}' || c == '\U{2029}'
  }

  /**
    Python's `str.isprintable` for one character: control characters, separators
    other than the ASCII space, the common format characters and the private-use
    area are not printable.
   */
  predicate IsPrintable(c: char) {
    !(|| c < ' '
      || ('\U{7f}' <= c <= '\U{a0}')
      || c == '\U{ad}' || c == '\U{1680}'
      || ('\U{2000}' <= c <= '\U{200f}')
      || ('\U{2028}' <= c <= '\U{202f}')
      || ('\U{205f}' <= c <= '\U{206f}')
      || c == '\U{3000}' || c == '\U{feff}'
      || ('\U{e000}' <= c <= '\U{f8ff}'))
  }

  predicate IsNewline(c: char) { c == '\n' }

  // ---------------------------------------------------------------------------
  // Prefixes, occurrences, searching

  predicate StartsWith(s: string, prefix: string) {
    |prefix| <= |s| && s[..|prefix|] == prefix
  }

  predicate EndsWith(s: string, suffix: string) {
    |suffix| <= |s| && s[|s| - |suffix|..] == suffix
  }

  /** `sub` occurs in `s` starting at index `k`. */
  predicate OccursAt(s: string, sub: string, k: int) {
    0 <= k && k + |sub| <= |s| && s[k..k + |sub|] == sub
  }

  /** Python's `sub in s`. */
  predicate Contains(s: string, sub: string) {
    exists k | 0 <= k <= |s| - |sub| :: OccursAt(s, sub, k)
  }

  /** The first index at or after `from` where `sub` occurs (Python's `s.find(sub, from)`). */
  function FindFrom(s: string, sub: string, from: nat): (r: Option<nat>)
    decreases |s| - from
    ensures r.Some? ==> from <= r.value && OccursAt(s, sub, r.value)
    ensures r.Some? ==> forall k | from <= k < r.value :: !OccursAt(s, sub, k)
    ensures r.None? ==> forall k | from <= k :: !OccursAt(s, sub, k)
  {
    if from + |sub| > |s| then None
    else if s[from..from + |sub|] == sub then Some(from)
    else FindFrom(s, sub, from + 1)
  }

  /** The first index where `sub` occurs, if any. */
  function Find(s: string, sub: string): (r: Option<nat>)
    ensures r.Some? <==> Contains(s, sub)
    ensures r.Some? ==> OccursAt(s, sub, r.value) && forall k | 0 <= k < r.value :: !OccursAt(s, sub, k)
  {
    FindFrom(s, sub, 0)
  }

  /** An occurrence inside a prefix or a suffix of `s` is an occurrence in `s`. */
  lemma OccursInPrefix(s: string, sub: string, i: nat, k: int)
    requires i <= |s| && OccursAt(s[..i], sub, k)
    ensures OccursAt(s, sub, k)
  {
    assert s[k..k + |sub|] == s[..i][k..k + |sub|];
  }

  lemma OccursInSuffix(s: string, sub: string, i: nat, k: int)
    requires i <= |s| && OccursAt(s[i..], sub, k)
    ensures OccursAt(s, sub, i + k)
  {
    assert s[i + k..i + k + |sub|] == s[i..][k..k + |sub|];
  }

  /** A prefix of a string free of `sub` is free of `sub`. */
  lemma PrefixFree(s: string, sub: string, i: nat)
    requires i <= |s| && !Contains(s, sub)
    ensures !Contains(s[..i], sub)
  {
    if Contains(s[..i], sub) {
      var k :| OccursAt(s[..i], sub, k);
      OccursInPrefix(s, sub, i, k);
    }
  }

  /** The text before the first occurrence of `sub` does not contain `sub`. */
  lemma PrefixBeforeFirstIsFree(s: string, sub: string, i: nat)
    requires sub != "" && Find(s, sub) == Some(i)
    ensures !Contains(s[..i], sub)
  {
    if Contains(s[..i], sub) {
      var k :| OccursAt(s[..i], sub, k);
      OccursInPrefix(s, sub, i, k);
    }
  }

  /** The first index at or after `from` whose character satisfies `p`. */
  function FindCharFrom(s: string, p: char -> bool, from: nat): (r: Option<nat>)
    decreases |s| - from
    ensures r.Some? ==> from <= r.value < |s| && p(s[r.value])
    ensures r.Some? ==> forall k | from <= k < r.value :: !p(s[k])
    ensures r.None? ==> forall k | from <= k < |s| :: !p(s[k])
  {
    if from >= |s| then None
    else if p(s[from]) then Some(from)
    else FindCharFrom(s, p, from + 1)
  }

  // ---------------------------------------------------------------------------
  // Stripping

  /** Drops the leading characters satisfying `drop`. */
  function LStripWhile(s: string, drop: char -> bool): (r: string)
    ensures |r| <= |s| && r == s[|s| - |r|..]
    ensures r != [] ==> !drop(r[0])
    ensures forall i | 0 <= i < |s| - |r| :: drop(s[i])
  {
    if s != [] && drop(s[0]) then LStripWhile(s[1..], drop) else s
  }

  /** Drops the trailing characters satisfying `drop`. */
  function RStripWhile(s: string, drop: char -> bool): (r: string)
    ensures |r| <= |s| && r == s[..|r|]
    ensures r != [] ==> !drop(r[|r| - 1])
    ensures forall i | |r| <= i < |s| :: drop(s[i])
  {
    if s != [] && drop(s[|s| - 1]) then RStripWhile(s[..|s| - 1], drop) else s
  }

  /** Drops the characters satisfying `drop` at both ends. */
  function StripWhile(s: string, drop: char -> bool): (r: string)
    ensures |r| <= |s|
    ensures r != [] ==> !drop(r[0]) && !drop(r[|r| - 1])
  {
    RStripWhile(LStripWhile(s, drop), drop)
  }

  /** What stripping leaves is a slice of the string. */
  lemma StripWhileIsSlice(s: string, drop: char -> bool)
    ensures exists i, j :: 0 <= i <= j <= |s| && StripWhile(s, drop) == s[i..j]
  {
    var l := LStripWhile(s, drop);
    var r := RStripWhile(l, drop);
    assert r == s[|s| - |l|..|s| - |l| + |r|];
  }

  /** Python's `s.strip()`. */
  function Strip(s: string): string { StripWhile(s, IsSpace) }

  /** Python's `s.lstrip()`. */
  function LStrip(s: string): string { LStripWhile(s, IsSpace) }

  /** Python's `s.strip("\n")` and `s.rstrip("\n")`. */
  function StripNewlines(s: string): string { StripWhile(s, IsNewline) }
  function RStripNewlines(s: string): string { RStripWhile(s, IsNewline) }

  lemma {:induction false} LStripWhileIdle(s: string, drop: char -> bool)
    requires s == [] || !drop(s[0])
    ensures LStripWhile(s, drop) == s
  {
  }

  lemma {:induction false} RStripWhileIdle(s: string, drop: char -> bool)
    requires s == [] || !drop(s[|s| - 1])
    ensures RStripWhile(s, drop) == s
  {
  }

  /** A string whose first character is kept does not strip to nothing. */
  lemma StripKeepsFirst(s: string, drop: char -> bool)
    requires s != [] && !drop(s[0])
    ensures StripWhile(s, drop) != []
  {
    LStripWhileIdle(s, drop);
  }

  /** Stripping twice is stripping once. */
  lemma StripIdempotent(s: string)
    ensures Strip(Strip(s)) == Strip(s)
  {
    var r := Strip(s);
    LStripWhileIdle(r, IsSpace);
    RStripWhileIdle(r, IsSpace);
  }

  /** A stripped string written with a trailing newline strips back to itself. */
  lemma StripTrailingNewline(s: string)
    requires Strip(s) == s
    ensures Strip(s + "\n") == s
  {
    var t := s + "\n";
    if s == [] {
      assert LStripWhile(t, IsSpace) == [];
    } else {
      assert !IsSpace(s[0]) && !IsSpace(s[|s| - 1]);
      LStripWhileIdle(t, IsSpace);
      var r := RStripWhile(t, IsSpace);
      assert t[|s| - 1] == s[|s| - 1];
      assert |r| == |s|;
      assert r == t[..|s|] == s;
    }
  }

  // ---------------------------------------------------------------------------
  // Joining and splitting

  /** Python's `sep.join(xs)`. */
  function Join(xs: seq<string>, sep: string): (r: string)
    ensures xs == [] ==> r == ""
    ensures |xs| == 1 ==> r == xs[0]
  {
    if |xs| == 0 then "" else if |xs| == 1 then xs[0] else xs[0] + sep + Join(xs[1..], sep)
  }

  lemma JoinCons(x: string, xs: seq<string>, sep: string)
    requires xs != []
    ensures Join([x] + xs, sep) == x + sep + Join(xs, sep)
  {
    assert ([x] + xs)[1..] == xs;
  }

  /** Joining one more piece adds the separator and the piece. */
  lemma JoinAppend(xs: seq<string>, x: string, sep: string)
    requires xs != []
    ensures Join(xs + [x], sep) == Join(xs, sep) + sep + x
  {
    if |xs| == 1 {
      assert xs + [x] == [xs[0]] + [x];
      JoinCons(xs[0], [x], sep);
    } else {
      assert xs + [x] == [xs[0]] + (xs[1..] + [x]);
      JoinCons(xs[0], xs[1..] + [x], sep);
      JoinAppend(xs[1..], x, sep);
    }
  }

  /** Python's `s.split(sep)` for a non-empty separator. */
  function Split(s: string, sep: string): (r: seq<string>)
    requires sep != ""
    ensures |r| >= 1
    decreases |s|
  {
    match Find(s, sep)
    case None => [s]
    case Some(i) => [s[..i]] + Split(s[i + |sep|..], sep)
  }

  /** Splitting and joining again with the same separator gives back the text. */
  lemma {:induction false} JoinSplit(s: string, sep: string)
    requires sep != ""
    ensures Join(Split(s, sep), sep) == s
    decreases |s|
  {
    match Find(s, sep)
    case None =>
    case Some(i) =>
      var rest := s[i + |sep|..];
      var pieces := Split(rest, sep);
      assert Split(s, sep) == [s[..i]] + pieces;
      JoinSplit(rest, sep);
      JoinCons(s[..i], pieces, sep);
      assert s[i..i + |sep|] == sep;
      assert s == s[..i] + s[i..i + |sep|] + rest;
  }

  /** Joining pieces free of the one-character separator and splitting again gives back the pieces. */
  lemma {:induction false} SplitJoinChar(xs: seq<string>, c: char)
    requires xs != [] && forall x | x in xs :: c !in x
    ensures Split(Join(xs, [c]), [c]) == xs
  {
    if |xs| > 1 {
      var rest := Join(xs[1..], [c]);
      var s := xs[0] + [c] + rest;
      JoinCons(xs[0], xs[1..], [c]);
      assert [xs[0]] + xs[1..] == xs;
      FirstCharAt(xs[0], c, rest);
      assert s[|xs[0]| + 1..] == rest && s[..|xs[0]|] == xs[0];
      assert Join(xs, [c]) == s;
      assert Split(s, [c]) == [xs[0]] + Split(rest, [c]);
      SplitJoinChar(xs[1..], c);
    } else {
      assert !Contains(xs[0], [c]) by {
        forall k | 0 <= k < |xs[0]| ensures !OccursAt(xs[0], [c], k) {
          assert xs[0][k] in xs[0];
        }
      }
    }
  }

  /** The first `c` in `x + [c] + y` is the one after `x` when `x` has none. */
  lemma FirstCharAt(x: string, c: char, y: string)
    requires c !in x
    ensures Find(x + [c] + y, [c]) == Some(|x|)
  {
    var s := x + [c] + y;
    assert OccursAt(s, [c], |x|);
    forall k | 0 <= k < |x| ensures !OccursAt(s, [c], k) {
      assert s[k] == x[k] && x[k] in x;
    }
  }

  /** A one-character needle occurs exactly when the character is in the string. */
  lemma ContainsChar(s: string, c: char)
    ensures Contains(s, [c]) <==> c in s
  {
    if c in s {
      var k :| 0 <= k < |s| && s[k] == c;
      assert s[k..k + 1] == [c];
      assert OccursAt(s, [c], k);
    }
    if Contains(s, [c]) {
      var k :| 0 <= k <= |s| - 1 && OccursAt(s, [c], k);
      assert s[k] == s[k..k + 1][0] == c;
    }
  }

  /** No piece produced by `Split` contains the separator. */
  lemma {:induction false} SplitPiecesFree(s: string, sep: string)
    requires sep != ""
    ensures forall p | p in Split(s, sep) :: !Contains(p, sep)
    decreases |s|
  {
    match Find(s, sep)
    case None =>
    case Some(i) =>
      var rest := s[i + |sep|..];
      assert Split(s, sep) == [s[..i]] + Split(rest, sep);
      SplitPiecesFree(rest, sep);
      PrefixBeforeFirstIsFree(s, sep, i);
  }

  /** Every character of a piece produced by `Split` is a character of the text. */
  lemma {:induction false} SplitPiecesChars(s: string, sep: string)
    requires sep != ""
    ensures forall p | p in Split(s, sep) :: forall c | c in p :: c in s
    decreases |s|
  {
    match Find(s, sep)
    case None =>
    case Some(i) =>
      var rest := s[i + |sep|..];
      SplitPiecesChars(rest, sep);
      assert forall c | c in rest :: c in s;
      assert forall c | c in s[..i] :: c in s;
  }

  /** A slice of a string free of `sub` is free of `sub`. */
  lemma SliceFree(s: string, sub: string, i: nat, j: nat)
    requires i <= j <= |s| && !Contains(s, sub)
    ensures !Contains(s[i..j], sub)
  {
    if Contains(s[i..j], sub) {
      var k :| 0 <= k <= |s[i..j]| - |sub| && OccursAt(s[i..j], sub, k);
      assert s[..j][i..] == s[i..j];
      OccursInSuffix(s[..j], sub, i, k);
      OccursInPrefix(s, sub, j, i + k);
    }
  }

  /** Python's `s.split(sep, 1)`. */
  function Split1(s: string, sep: string): (r: seq<string>)
    requires sep != ""
    ensures Contains(s, sep) ==> |r| == 2 && r[0] + sep + r[1] == s && !Contains(r[0], sep)
    ensures !Contains(s, sep) ==> r == [s]
  {
    match Find(s, sep)
    case None => [s]
    case Some(i) =>
      assert s == s[..i] + sep + s[i + |sep|..];
      PrefixBeforeFirstIsFree(s, sep, i);
      [s[..i], s[i + |sep|..]]
  }

  /**
    Python's `s.splitlines()`: lines end at any line-boundary character, "\r\n"
    counts as one boundary, and a final boundary does not start an empty line.
   */
  function SplitLines(s: string): (r: seq<string>)
    ensures forall line | line in r :: forall c | c in line :: !IsLineBreak(c)
    decreases |s|
  {
    match FindCharFrom(s, IsLineBreak, 0)
    case None => if s == [] then [] else [s]
    case Some(i) =>
      var skip := if s[i] == '\r' && i + 1 < |s| && s[i + 1] == '\n' then 2 else 1;
      assert forall c | c in s[..i] :: !IsLineBreak(c);
      [s[..i]] + SplitLines(s[i + skip..])
  }

  /** A line without line breaks, then "\n", is the first line. */
  lemma SplitLinesLine(x: string, rest: string)
    requires forall c | c in x :: !IsLineBreak(c)
    ensures SplitLines(x + "\n" + rest) == [x] + SplitLines(rest)
  {
    var s := x + "\n" + rest;
    assert IsLineBreak(s[|x|]);
    forall k | 0 <= k < |x| ensures !IsLineBreak(s[k]) {
      assert s[k] == x[k] && x[k] in x;
    }
    assert FindCharFrom(s, IsLineBreak, 0) == Some(|x|);
    assert s[..|x|] == x;
    assert s[|x| + 1..] == rest;
  }

  /** Lines without line breaks, joined with "\n" and terminated by "\n", split back into the same lines. */
  lemma {:induction false} SplitLinesJoin(xs: seq<string>)
    requires xs != []
    requires forall x | x in xs :: forall c | c in x :: !IsLineBreak(c)
    ensures SplitLines(Join(xs, "\n") + "\n") == xs
  {
    assert xs[0] in xs;
    if |xs| == 1 {
      SplitLinesLine(xs[0], "");
      assert xs[0] + "\n" + "" == xs[0] + "\n";
    } else {
      JoinCons(xs[0], xs[1..], "\n");
      assert [xs[0]] + xs[1..] == xs;
      var rest := Join(xs[1..], "\n") + "\n";
      assert Join(xs, "\n") + "\n" == xs[0] + "\n" + rest;
      SplitLinesLine(xs[0], rest);
      assert forall x | x in xs[1..] :: x in xs;
      SplitLinesJoin(xs[1..]);
    }
  }

  /** Non-empty last line: lines without line breaks joined with "\n" split back into the same lines. */
  lemma {:induction false} SplitLinesJoinUnterminated(xs: seq<string>)
    requires xs != [] && xs[|xs| - 1] != ""
    requires forall x | x in xs :: forall c | c in x :: !IsLineBreak(c)
    ensures SplitLines(Join(xs, "\n")) == xs
  {
    assert xs[0] in xs;
    if |xs| == 1 {
      assert FindCharFrom(xs[0], IsLineBreak, 0) == None;
    } else {
      JoinCons(xs[0], xs[1..], "\n");
      assert [xs[0]] + xs[1..] == xs;
      var rest := Join(xs[1..], "\n");
      SplitLinesLine(xs[0], rest);
      assert forall x | x in xs[1..] :: x in xs;
      SplitLinesJoinUnterminated(xs[1..]);
    }
  }

  // ---------------------------------------------------------------------------
  // Python slicing and integer formatting

  /** The end index Python uses for the slice `s[:k]` of a sequence of length `n`. */
  function SliceEnd(n: nat, k: int): (r: nat)
    ensures r <= n
    ensures 0 <= k ==> r == if k <= n then k else n
  {
    if 0 <= k then (if k <= n then k else n) else if n + k >= 0 then n + k else 0
  }

  /** Python's `s[:k]`, negative `k` counting from the end. */
  function SliceTo<T>(s: seq<T>, k: int): (r: seq<T>)
    ensures r == s[..SliceEnd(|s|, k)]
  {
    s[..SliceEnd(|s|, k)]
  }

  function DigitChar(d: nat): (c: char)
    requires d < 10
    ensures '0' <= c <= '9'
  {
    "0123456789"[d]
  }

  /** Python's `str(n)` for a natural number. */
  function NatToString(n: nat): (r: string)
    ensures r != [] && forall c | c in r :: '0' <= c <= '9'
  {
    if n < 10 then [DigitChar(n)] else NatToString(n / 10) + [DigitChar(n % 10)]
  }

  /** Python's `str(i)` for an integer. */
  function IntToString(i: int): (r: string)
    ensures r != []
    ensures i < 0 <==> r[0] == '-'
  {
    if i < 0 then "-" + NatToString(-i)
    else
      var digits := NatToString(i);
      assert digits[0] in digits;
      digits
  }

  // ---------------------------------------------------------------------------
  // Python's string ordering

  /** Python's `a <= b` on strings: lexicographic by code point. */
  predicate LessEq(a: string, b: string) {
    a == [] || (b != [] && (a[0] < b[0] || (a[0] == b[0] && LessEq(a[1..], b[1..]))))
  }

  lemma LessEqReflexive(a: string)
    ensures LessEq(a, a)
  {
  }

  lemma LessEqTotal(a: string, b: string)
    ensures LessEq(a, b) || LessEq(b, a)
  {
  }

  lemma LessEqTransitive(a: string, b: string, c: string)
    requires LessEq(a, b) && LessEq(b, c)
    ensures LessEq(a, c)
  {
  }

  lemma {:induction false} LessEqAntisymmetric(a: string, b: string)
    requires LessEq(a, b) && LessEq(b, a)
    ensures a == b
  {
    if a != [] && b != [] {
      LessEqAntisymmetric(a[1..], b[1..]);
      assert a == [a[0]] + a[1..] && b == [b[0]] + b[1..];
    }
  }
}
