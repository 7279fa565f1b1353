/**
  Python's `sorted(xs, key=...)` / `list.sort(key=...)` over string keys, and
  `sorted(set(xs))` over strings: an insertion sort that places each later
  element after the earlier ones with an equal key, as Python's stable sort does.
 */
module Sorting {
  import opened Text
  import opened Lists

  /** Every element's key is at most the key of every later element. */
  predicate SortedBy<T>(s: seq<T>, key: T -> string) {
    forall i, j | 0 <= i < j < |s| :: LessEq(key(s[i]), key(s[j]))
  }

  /** Strictly increasing: sorted and without duplicates. */
  predicate StrictlyIncreasing(s: seq<string>) {
    forall i, j | 0 <= i < j < |s| :: LessEq(s[i], s[j]) && s[i] != s[j]
  }

  function Self(s: string): string { s }

  /** The set of elements of a sequence (Python's `set(xs)`). */
  function Elems<T>(s: seq<T>): set<T> { set x | x in s }

  /** Inserts `x` after every element whose key is at most `key(x)`. */
  function InsertBy<T(==)>(x: T, s: seq<T>, key: T -> string): (r: seq<T>)
    ensures multiset(r) == multiset(s) + multiset{x}
  {
    if s == [] || !LessEq(key(s[0]), key(x)) then [x] + s
    else
      assert s == [s[0]] + s[1..];
      [s[0]] + InsertBy(x, s[1..], key)
  }

  lemma {:induction false} InsertBySorted<T>(x: T, s: seq<T>, key: T -> string)
    requires SortedBy(s, key)
    ensures SortedBy(InsertBy(x, s, key), key)
  {
    if s == [] {
    } else if !LessEq(key(s[0]), key(x)) {
      LessEqTotal(key(s[0]), key(x));
      var r := InsertBy(x, s, key);
      assert r == [x] + s;
      forall j | 1 <= j < |r| ensures LessEq(key(x), key(r[j])) {
        if j > 1 { LessEqTransitive(key(x), key(s[0]), key(s[j - 1])); }
      }
    } else {
      var tail := InsertBy(x, s[1..], key);
      InsertBySorted(x, s[1..], key);
      var r := [s[0]] + tail;
      assert InsertBy(x, s, key) == r;
      forall j | 0 <= j < |tail| ensures LessEq(key(s[0]), key(tail[j])) {
        var y := tail[j];
        assert y in multiset(tail);
        if y != x {
          assert y in multiset(s[1..]);
          var k :| 0 <= k < |s[1..]| && s[1..][k] == y;
          assert s[k + 1] == y;
        }
      }
    }
  }

  /** Python's stable `sorted(s, key=key)`. */
  function SortBy<T(==)>(s: seq<T>, key: T -> string): (r: seq<T>)
    ensures multiset(r) == multiset(s)
    ensures SortedBy(r, key)
  {
    if s == [] then []
    else
      var init := SortBy(s[..|s| - 1], key);
      InsertBySorted(s[|s| - 1], init, key);
      assert s == s[..|s| - 1] + [s[|s| - 1]];
      InsertBy(s[|s| - 1], init, key)
  }

  /** Whether an element's key is `k`. */
  function HasKey<T>(key: T -> string, k: string): T -> bool {
    x => key(x) == k
  }

  /** Inserting into a sorted list puts `x` after every element with the same key. */
  lemma {:induction false} InsertByStable<T>(x: T, s: seq<T>, key: T -> string, k: string)
    requires SortedBy(s, key)
    ensures Filter(InsertBy(x, s, key), HasKey(key, k)) ==
            Filter(s, HasKey(key, k)) + (if key(x) == k then [x] else [])
  {
    if s == [] {
      FilterOne(x, HasKey(key, k));
      assert InsertBy(x, s, key) == [x];
    } else if !LessEq(key(s[0]), key(x)) {
      InsertFrontStable(x, s, key, k);
    } else {
      InsertByStable(x, s[1..], key, k);
      InsertLaterStable(x, s, key, k);
    }
  }

  /** `x` goes in front of a sorted list whose keys are all above its own. */
  lemma InsertFrontStable<T>(x: T, s: seq<T>, key: T -> string, k: string)
    requires SortedBy(s, key) && s != [] && !LessEq(key(s[0]), key(x))
    ensures Filter(InsertBy(x, s, key), HasKey(key, k)) ==
            Filter(s, HasKey(key, k)) + (if key(x) == k then [x] else [])
  {
    assert InsertBy(x, s, key) == [x] + s;
    if key(x) == k {
      AllKeysAbove(x, s, key);
    }
    FilterFront(x, s, HasKey(key, k));
  }

  /** Filtering a list with `x` in front. */
  lemma FilterFront<T>(x: T, s: seq<T>, p: T -> bool)
    ensures Filter([x] + s, p) == (if p(x) then [x] else []) + Filter(s, p)
  {
    FilterConcat([x], s, p);
    FilterOne(x, p);
  }

  /** `x` goes past the first element of the list and is inserted into the rest. */
  lemma InsertLaterStable<T>(x: T, s: seq<T>, key: T -> string, k: string)
    requires s != [] && LessEq(key(s[0]), key(x))
    requires Filter(InsertBy(x, s[1..], key), HasKey(key, k)) ==
             Filter(s[1..], HasKey(key, k)) + (if key(x) == k then [x] else [])
    ensures Filter(InsertBy(x, s, key), HasKey(key, k)) ==
            Filter(s, HasKey(key, k)) + (if key(x) == k then [x] else [])
  {
    var p := HasKey(key, k);
    var rest := InsertBy(x, s[1..], key);
    assert InsertBy(x, s, key) == [s[0]] + rest;
    assert s == [s[0]] + s[1..];
    FilterFront(s[0], rest, p);
    FilterFront(s[0], s[1..], p);
    Assoc(if p(s[0]) then [s[0]] else [], Filter(s[1..], p), if key(x) == k then [x] else []);
  }

  lemma FilterOne<T>(x: T, p: T -> bool)
    ensures Filter([x], p) == if p(x) then [x] else []
  {
    assert [x][..0] == [];
  }

  /** A sorted list whose first key is above `key(x)` holds no element with the key of `x`. */
  lemma AllKeysAbove<T>(x: T, s: seq<T>, key: T -> string)
    requires SortedBy(s, key) && s != [] && !LessEq(key(s[0]), key(x))
    ensures Filter(s, HasKey(key, key(x))) == []
  {
    forall j | 0 <= j < |s| ensures key(s[j]) != key(x) {
      if j == 0 {
        LessEqReflexive(key(x));
      } else {
        assert LessEq(key(s[0]), key(s[j]));
      }
    }
  }

  /**
    `SortBy` is stable: the elements with any one key come out in the order
    they had in the input.
   */
  lemma {:induction false} SortByStable<T>(s: seq<T>, key: T -> string, k: string)
    ensures Filter(SortBy(s, key), HasKey(key, k)) == Filter(s, HasKey(key, k))
  {
    if s != [] {
      var init := s[..|s| - 1];
      SortByStable(init, key, k);
      InsertByStable(s[|s| - 1], SortBy(init, key), key, k);
    }
  }

  /** Two sorted arrangements of the same non-empty elements start alike when no two elements share a key. */
  lemma SortedSameHead<T>(a: seq<T>, b: seq<T>, key: T -> string)
    requires a != [] && SortedBy(a, key) && SortedBy(b, key) && multiset(a) == multiset(b)
    requires DistinctKeys(a, key)
    ensures b != [] && a[0] == b[0]
  {
    assert a[0] in multiset(b);
    var k :| 0 <= k < |b| && b[k] == a[0];
    assert b[0] in multiset(a);
    var m :| 0 <= m < |a| && a[m] == b[0];
    LessEqReflexive(key(a[0]));
    assert LessEq(key(b[0]), key(a[0]));
    assert LessEq(key(a[0]), key(b[0]));
    LessEqAntisymmetric(key(a[0]), key(b[0]));
    assert key(a[m]) == key(a[0]);
  }

  lemma SameTails<T>(a: seq<T>, b: seq<T>)
    requires a != [] && b != [] && a[0] == b[0] && multiset(a) == multiset(b)
    ensures multiset(a[1..]) == multiset(b[1..])
  {
    assert a == [a[0]] + a[1..] && b == [b[0]] + b[1..];
    var ma, mb := multiset(a[1..]), multiset(b[1..]);
    assert multiset(a) == multiset([a[0]]) + ma;
    assert multiset(b) == multiset([a[0]]) + mb;
    forall x ensures ma[x] == mb[x] {
      assert multiset(a)[x] == multiset([a[0]])[x] + ma[x];
      assert multiset(b)[x] == multiset([a[0]])[x] + mb[x];
    }
    assert ma == mb;
  }

  /** Two sorted arrangements of the same elements are the same sequence when no two elements share a key. */
  lemma {:induction false} SortedUnique<T>(a: seq<T>, b: seq<T>, key: T -> string)
    requires SortedBy(a, key) && SortedBy(b, key) && multiset(a) == multiset(b)
    requires DistinctKeys(a, key)
    ensures a == b
    decreases |a|
  {
    if a == [] {
      assert |b| == |multiset(b)| == 0;
    } else {
      SortedSameHead(a, b, key);
      var a', b' := a[1..], b[1..];
      assert a == [a[0]] + a' && b == [b[0]] + b';
      SameTails(a, b);
      assert SortedBy(a', key) && SortedBy(b', key);
      assert DistinctKeys(a', key) by {
        forall i, j | 0 <= i < j < |a'| ensures key(a'[i]) != key(a'[j]) {
          assert a'[i] == a[i + 1] && a'[j] == a[j + 1];
        }
      }
      SortedUnique(a', b', key);
    }
  }

  /** No two elements share a key. */
  predicate DistinctKeys<T>(s: seq<T>, key: T -> string) {
    forall i, j | 0 <= i < j < |s| :: key(s[i]) != key(s[j])
  }

  /** An element standing at two places is counted at least twice. */
  lemma TwoPlaces<T>(s: seq<T>, i: nat, j: nat)
    requires i < j < |s| && s[i] == s[j]
    ensures multiset(s)[s[i]] >= 2
  {
    assert s == s[..j] + s[j..];
    assert s[..j][i] == s[i] && s[j..][0] == s[i];
    assert multiset(s) == multiset(s[..j]) + multiset(s[j..]);
  }

  /** An element counted at least twice stands at two places. */
  lemma CountedTwice<T>(s: seq<T>, x: T) returns (i: nat, j: nat)
    requires multiset(s)[x] >= 2
    ensures i < j < |s| && s[i] == x && s[j] == x
  {
    assert x in multiset(s);
    var p :| 0 <= p < |s| && s[p] == x;
    assert s == s[..p] + [x] + s[p + 1..];
    assert multiset(s) == multiset(s[..p]) + multiset([x]) + multiset(s[p + 1..]);
    if x in multiset(s[..p]) {
      var q :| 0 <= q < p && s[..p][q] == x;
      i, j := q, p;
    } else {
      assert x in multiset(s[p + 1..]);
      var q :| 0 <= q < |s| - p - 1 && s[p + 1..][q] == x;
      i, j := p, p + 1 + q;
    }
  }

  lemma SameMembers<T>(s: seq<T>, t: seq<T>, x: T)
    requires multiset(s) == multiset(t) && x in t
    ensures x in s
  {
    assert x in multiset(t);
  }

  /** Rearranging elements with distinct keys keeps them distinct. */
  lemma PermutationDistinctKeys<T>(s: seq<T>, t: seq<T>, key: T -> string)
    requires DistinctKeys(s, key) && multiset(s) == multiset(t)
    ensures DistinctKeys(t, key)
  {
    forall i, j | 0 <= i < j < |t| ensures key(t[i]) != key(t[j]) {
      SameMembers(s, t, t[i]);
      SameMembers(s, t, t[j]);
      if t[i] == t[j] {
        TwoPlaces(t, i, j);
        var p, q := CountedTwice(s, t[i]);
      }
    }
  }

  /** Drops each element equal to its successor. */
  function DedupSorted(s: seq<string>): (r: seq<string>)
    requires SortedBy(s, Self)
    ensures Elems(r) == Elems(s)
    ensures s != [] ==> r != [] && r[0] == s[0]
    ensures StrictlyIncreasing(r)
  {
    if |s| <= 1 then s
    else
      var tail := DedupSorted(s[1..]);
      if s[0] == s[1] then tail
      else
        HeadBelowRest(s, tail);
        assert s == [s[0]] + s[1..];
        assert Elems(s) == {s[0]} + Elems(s[1..]);
        [s[0]] + tail
  }

  /** In a sorted list whose first two elements differ, the first is strictly below everything after it. */
  lemma HeadBelowRest(s: seq<string>, rest: seq<string>)
    requires SortedBy(s, Self) && |s| >= 2 && s[0] != s[1]
    requires Elems(rest) == Elems(s[1..])
    ensures forall j | 0 <= j < |rest| :: LessEq(s[0], rest[j]) && s[0] != rest[j]
  {
    forall j | 0 <= j < |rest| ensures LessEq(s[0], rest[j]) && s[0] != rest[j] {
      var y := rest[j];
      assert y in Elems(s[1..]);
      var k :| 0 <= k < |s[1..]| && s[1..][k] == y;
      assert LessEq(Self(s[0]), Self(s[k + 1]));
      assert LessEq(Self(s[1]), Self(s[k + 1])) || k == 0;
      if y == s[0] {
        assert LessEq(Self(s[0]), Self(s[1]));
        if k > 0 { LessEqAntisymmetric(s[0], s[1]); } else { }
      }
    }
  }

  /** Python's `sorted(set(xs))` for strings. */
  function SortedSet(xs: seq<string>): (r: seq<string>)
    ensures StrictlyIncreasing(r)
    ensures Elems(r) == Elems(xs)
  {
    var sorted := SortBy(xs, Self);
    assert forall x :: x in sorted <==> x in multiset(sorted);
    DedupSorted(sorted)
  }
}
