/**
  Two helpers of the tools (src/util.py): the decorator that refuses a
  repeated tool call, and the whitespace clean-up that `extract_text` applies
  to the text it extracted from a page.
 */
module Util {
  import opened Options
  import opened Text
  import opened Sorting
  import opened Messages

  // ---------------------------------------------------------------------------
  // refuse_if_duplicate

  /** The name of a keyword argument. */
  function ItemName(kv: (string, Value)): string { kv.0 }

  /** Keyword arguments as the (name, value) tuples of `kwargs.items()`. */
  function ItemTuples(items: seq<(string, Value)>): seq<Value> {
    seq(|items|, k requires 0 <= k < |items| => Tuple([Str(items[k].0), items[k].1]))
  }

  /**
    The cache key of a call: the positional arguments, followed, when there
    are keyword arguments, by their (name, value) tuples in name order.
   */
  function CallKey(args: seq<Value>, kwargs: seq<(string, Value)>): (key: seq<Value>)
    ensures |key| == |args| + |kwargs| && key[..|args|] == args
    ensures NamedPairsInOrder(key[|args|..])
    ensures forall kv | kv in kwargs :: Tuple([Str(kv.0), kv.1]) in key[|args|..]
  {
    if kwargs == [] then args
    else
      var sorted := SortBy(kwargs, ItemName);
      assert |sorted| == |multiset(sorted)| == |kwargs|;
      SortedHoldsAll(kwargs, sorted);
      ItemTuplesHold(sorted);
      ItemTuplesInOrder(sorted);
      assert (args + ItemTuples(sorted))[|args|..] == ItemTuples(sorted);
      args + ItemTuples(sorted)
  }

  /** Every value is a (name, value) tuple, and the names are in order. */
  predicate NamedPairsInOrder(tail: seq<Value>) {
    && (forall k | 0 <= k < |tail| :: tail[k].Tuple? && |tail[k].items| == 2 && tail[k].items[0].Str?)
    && (forall k, l | 0 <= k < l < |tail| :: LessEq(tail[k].items[0].s, tail[l].items[0].s))
  }

  lemma ItemTuplesInOrder(items: seq<(string, Value)>)
    requires SortedBy(items, ItemName)
    ensures NamedPairsInOrder(ItemTuples(items))
  {
  }

  lemma SortedHoldsAll(kwargs: seq<(string, Value)>, sorted: seq<(string, Value)>)
    requires multiset(sorted) == multiset(kwargs)
    ensures forall kv | kv in kwargs :: kv in sorted
  {
    assert forall kv | kv in kwargs :: kv in multiset(sorted);
  }

  lemma ItemTuplesHold(items: seq<(string, Value)>)
    ensures forall kv | kv in items :: Tuple([Str(kv.0), kv.1]) in ItemTuples(items)
  {
    forall kv | kv in items ensures Tuple([Str(kv.0), kv.1]) in ItemTuples(items) {
      var k :| 0 <= k < |items| && items[k] == kv;
      assert ItemTuples(items)[k] == Tuple([Str(kv.0), kv.1]);
    }
  }

  /**
    The order in which keyword arguments are written does not change the key:
    two calls passing the same keyword arguments (no name twice, as in a
    dict) in any order have the same key.
   */
  lemma KeyOrderIndependent(args: seq<Value>, kw1: seq<(string, Value)>, kw2: seq<(string, Value)>)
    requires DistinctKeys(kw1, ItemName) && multiset(kw1) == multiset(kw2)
    ensures CallKey(args, kw1) == CallKey(args, kw2)
  {
    if kw1 == [] {
      assert |kw2| == |multiset(kw2)| == 0;
    } else {
      assert kw1[0] in multiset(kw2);
      var s1, s2 := SortBy(kw1, ItemName), SortBy(kw2, ItemName);
      PermutationDistinctKeys(kw1, s1, ItemName);
      SortedUnique(s1, s2, ItemName);
    }
  }

  /** A positional (name, value) tuple and the keyword argument name=value give the same key. */
  lemma PositionalPairCollides(name: string, v: Value)
    ensures CallKey([Tuple([Str(name), v])], []) == CallKey([], [(name, v)])
  {
    assert SortBy([(name, v)], ItemName) == [(name, v)];
  }

  /**
    A function wrapped by `refuse_if_duplicate`: its own cache of the keys of
    the calls it has let through, and the calls it has passed on to the
    function, in order. The first call with a key runs the function; every
    later call with that key returns "" and does not run it.
   */
  class DuplicateRefuser {
    const func: (seq<Value>, seq<(string, Value)>) -> string
    var cache: set<seq<Value>>
    var forwarded: seq<(seq<Value>, seq<(string, Value)>)>

    /** Decorating a function: a fresh, empty cache. */
    constructor (func: (seq<Value>, seq<(string, Value)>) -> string)
      ensures this.func == func && cache == {} && forwarded == []
    {
      this.func := func;
      cache := {};
      forwarded := [];
    }

    /** The wrapped call: refused with "" when its key is cached, otherwise recorded and passed on. */
    method Call(args: seq<Value>, kwargs: seq<(string, Value)>) returns (r: string)
      modifies this
      ensures CallKey(args, kwargs) in old(cache) ==> r == "" && forwarded == old(forwarded)
      ensures CallKey(args, kwargs) !in old(cache) ==>
        r == func(args, kwargs) && forwarded == old(forwarded) + [(args, kwargs)]
      ensures cache == old(cache) + {CallKey(args, kwargs)}
    {
      var key := args;
      if kwargs != [] {
        key := key + ItemTuples(SortBy(kwargs, ItemName));
      }
      if key in cache {
        r := "";
      } else {
        cache := cache + {key};
        forwarded := forwarded + [(args, kwargs)];
        r := func(args, kwargs);
      }
    }
  }

  // ---------------------------------------------------------------------------
  // The whitespace clean-up of extract_text

  /** The stripped pieces, in order, without the empty ones. */
  function StrippedPhrases(pieces: seq<string>): seq<string> {
    if pieces == [] then []
    else
      var p := Strip(pieces[|pieces| - 1]);
      StrippedPhrases(pieces[..|pieces| - 1]) + (if p == "" then [] else [p])
  }

  /** The phrases of one line: the stripped line split on every double space, each piece stripped, empty ones dropped. */
  function LinePhrases(line: string): seq<string> {
    StrippedPhrases(Split(Strip(line), "  "))
  }

  /** The phrases of all lines, in line order. */
  function Chunks(lines: seq<string>): seq<string> {
    if lines == [] then []
    else Chunks(lines[..|lines| - 1]) + LinePhrases(lines[|lines| - 1])
  }

  /** The clean-up: the phrases of the text's lines joined with "\n". */
  function Tidy(text: string): string {
    Join(Chunks(SplitLines(text)), "\n")
  }

  /** No character of `s` is a line break. */
  predicate OneLine(s: string) {
    forall c | c in s :: !IsLineBreak(c)
  }

  /** What an output line of the clean-up is: non-empty, stripped, one line and free of double spaces. */
  predicate Phrase(c: string) {
    c != "" && Strip(c) == c && OneLine(c) && !Contains(c, "  ")
  }

  /** Stripping a one-line piece free of double spaces gives a phrase, unless nothing is left. */
  lemma StripPiece(p: string)
    requires OneLine(p) && !Contains(p, "  ") && Strip(p) != ""
    ensures Phrase(Strip(p))
  {
    StripWhileIsSlice(p, IsSpace);
    var i, j :| 0 <= i <= j <= |p| && Strip(p) == p[i..j];
    SliceFree(p, "  ", i, j);
    assert forall c | c in p[i..j] :: c in p;
    StripIdempotent(p);
  }

  lemma {:induction false} StrippedPhrasesArePhrases(pieces: seq<string>)
    requires forall p | p in pieces :: OneLine(p) && !Contains(p, "  ")
    ensures forall c | c in StrippedPhrases(pieces) :: Phrase(c)
  {
    if pieces != [] {
      var init, last := pieces[..|pieces| - 1], pieces[|pieces| - 1];
      assert forall p | p in init :: p in pieces;
      StrippedPhrasesArePhrases(init);
      assert last in pieces;
      if Strip(last) != "" {
        StripPiece(last);
      }
    }
  }

  /** The phrases of a line without line breaks are phrases. */
  lemma LinePhrasesArePhrases(line: string)
    requires OneLine(line)
    ensures forall c | c in LinePhrases(line) :: Phrase(c)
  {
    var s := Strip(line);
    StripWhileIsSlice(line, IsSpace);
    var i, j :| 0 <= i <= j <= |line| && s == line[i..j];
    assert forall c | c in line[i..j] :: c in line;
    SplitPiecesFree(s, "  ");
    SplitPiecesChars(s, "  ");
    StrippedPhrasesArePhrases(Split(s, "  "));
  }

  lemma {:induction false} ChunksArePhrases(lines: seq<string>)
    requires forall l | l in lines :: OneLine(l)
    ensures forall c | c in Chunks(lines) :: Phrase(c)
  {
    if lines != [] {
      var init, last := lines[..|lines| - 1], lines[|lines| - 1];
      assert forall l | l in init :: l in lines;
      ChunksArePhrases(init);
      assert last in lines;
      LinePhrasesArePhrases(last);
    }
  }

  /** A phrase is its own only phrase. */
  lemma PhraseIsItsLine(c: string)
    requires Phrase(c)
    ensures LinePhrases(c) == [c]
  {
    SplitWithout(c, "  ");
    StrippedPhrase(c);
  }

  lemma SplitWithout(s: string, sep: string)
    requires sep != "" && !Contains(s, sep)
    ensures Split(s, sep) == [s]
  {
    assert Find(s, sep) == None;
  }

  lemma StrippedPhrase(c: string)
    requires Phrase(c)
    ensures StrippedPhrases([c]) == [c]
  {
    assert [c][..0] == [];
  }

  /** Phrases that are already clean come out unchanged. */
  lemma ChunksOfPhrases(cs: seq<string>)
    requires forall c | c in cs :: Phrase(c)
    ensures Chunks(cs) == cs
  {
    forall c | c in cs ensures LinePhrases(c) == [c] {
      PhraseIsItsLine(c);
    }
    ChunksOfOwnLines(cs);
  }

  lemma InitLast(cs: seq<string>)
    requires cs != []
    ensures cs[..|cs| - 1] + [cs[|cs| - 1]] == cs
  {
  }

  lemma {:induction false} ChunksOfOwnLines(cs: seq<string>)
    requires forall c | c in cs :: LinePhrases(c) == [c]
    ensures Chunks(cs) == cs
  {
    if cs != [] {
      var init, last := cs[..|cs| - 1], cs[|cs| - 1];
      assert forall c | c in init :: c in cs;
      ChunksOfOwnLines(init);
      assert last in cs;
      assert Chunks(cs) == init + [last];
      InitLast(cs);
    }
  }

  /**
    The lines of the cleaned text are the phrases of the input's lines, in
    order, and each is a non-empty stripped phrase without double spaces;
    a text without phrases cleans to "".
   */
  lemma TidyLines(text: string)
    ensures forall c | c in Chunks(SplitLines(text)) :: Phrase(c)
    ensures Chunks(SplitLines(text)) == [] ==> Tidy(text) == ""
    ensures Chunks(SplitLines(text)) != [] ==> SplitLines(Tidy(text)) == Chunks(SplitLines(text))
  {
    var cs := Chunks(SplitLines(text));
    ChunksArePhrases(SplitLines(text));
    if cs != [] {
      assert cs[|cs| - 1] in cs;
      SplitLinesJoinUnterminated(cs);
    }
  }

  /** Cleaning twice is cleaning once. */
  lemma TidyIdempotent(text: string)
    ensures Tidy(Tidy(text)) == Tidy(text)
  {
    var cs := Chunks(SplitLines(text));
    TidyLines(text);
    if cs == [] {
      assert SplitLines("") == [];
    } else {
      ChunksOfPhrases(cs);
    }
  }

  /** A single phrase cleans to itself (the repository's test: "Hello World!"). */
  lemma TidyPhrase(c: string)
    requires Phrase(c)
    ensures Tidy(c) == c
  {
    assert FindCharFrom(c, IsLineBreak, 0) == None;
    assert SplitLines(c) == [c];
    ChunksOfPhrases([c]);
  }
}
