/**
  Python list comprehensions with a condition, `[x for x in s if p(x)]`, and
  the prefix filter used for command and model-name completion.
 */
module Lists {
  import opened Text

  /** The elements of `s` satisfying `p`, in order. */
  function Filter<T(==)>(s: seq<T>, p: T -> bool): (r: seq<T>)
    ensures |r| <= |s|
    ensures forall x | x in r :: x in s && p(x)
    ensures forall x | x in s && p(x) :: x in r
    ensures (forall x | x in s :: p(x)) ==> r == s
  {
    if s == [] then []
    else
      var init := s[..|s| - 1];
      assert s == init + [s[|s| - 1]];
      Filter(init, p) + (if p(s[|s| - 1]) then [s[|s| - 1]] else [])
  }

  /** Filtering one more element. */
  lemma FilterStep<T>(s: seq<T>, p: T -> bool, i: nat)
    requires i < |s|
    ensures Filter(s[..i + 1], p) == Filter(s[..i], p) + (if p(s[i]) then [s[i]] else [])
  {
    assert s[..i + 1][..i] == s[..i];
  }

  /** Filtering distributes over concatenation: the kept elements stay in their original order. */
  lemma {:induction false} FilterConcat<T>(a: seq<T>, b: seq<T>, p: T -> bool)
    ensures Filter(a + b, p) == Filter(a, p) + Filter(b, p)
  {
    if b == [] {
      assert a + b == a;
    } else {
      var init, x := b[..|b| - 1], b[|b| - 1];
      var last := if p(x) then [x] else [];
      assert (a + b)[..|a + b| - 1] == a + init;
      assert (a + b)[|a + b| - 1] == x;
      assert Filter(a + b, p) == Filter(a + init, p) + last;
      assert Filter(b, p) == Filter(init, p) + last;
      FilterConcat(a, init, p);
      Assoc(Filter(a, p), Filter(init, p), last);
    }
  }

  lemma Assoc<T>(a: seq<T>, b: seq<T>, c: seq<T>)
    ensures a + b + c == a + (b + c)
  {
  }

  /**
    `filter_prefix` in src/commands.py and `filter_completions` in
    src/models.py: all candidates for an empty prefix, otherwise those that
    start with it (case-sensitively), in order.
   */
  function FilterPrefix(candidates: seq<string>, prefix: string): (r: seq<string>)
    ensures prefix == "" ==> r == candidates
    ensures forall c | c in r :: c in candidates && StartsWith(c, prefix)
    ensures forall c | c in candidates && StartsWith(c, prefix) :: c in r
  {
    if prefix == "" then candidates
    else Filter(candidates, c => StartsWith(c, prefix))
  }

  /**
    The empty-prefix shortcut agrees with the filter, and the filter keeps
    order: completing over `a + b` completes over `a`, then over `b`, and a
    single candidate is kept exactly when it starts with the prefix.
   */
  lemma FilterPrefixOrder(a: seq<string>, b: seq<string>, prefix: string)
    ensures FilterPrefix(a + b, prefix) == FilterPrefix(a, prefix) + FilterPrefix(b, prefix)
    ensures forall c :: FilterPrefix([c], prefix) == if StartsWith(c, prefix) then [c] else []
  {
    if prefix != "" {
      FilterConcat(a, b, c => StartsWith(c, prefix));
    }
    forall c ensures FilterPrefix([c], prefix) == if StartsWith(c, prefix) then [c] else [] {
      assert [c][..0] == [];
    }
  }
}
