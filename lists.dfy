/** The JavaScript array operations the workspace code is built from: `filter`,
    spreading through a `Set` (keep first occurrences), removal by index and
    `slice(0, n)`. Each is defined by recursion on the LAST element, and its
    contract says what the operation means independently of that recursion. */
module Lists {

  predicate Distinct<T(==)>(s: seq<T>) {
    forall i, j :: 0 <= i < j < |s| ==> s[i] != s[j]
  }

  /** `r` is obtained from `s` by deleting elements, keeping the order of the rest. */
  ghost predicate Subsequence<T>(r: seq<T>, s: seq<T>)
    decreases |s|
  {
    r == [] ||
    (s != [] &&
     ((r[|r| - 1] == s[|s| - 1] && Subsequence(r[..|r| - 1], s[..|s| - 1])) ||
      Subsequence(r, s[..|s| - 1])))
  }

  /** Index of the first occurrence of `x` in `s`. */
  function FirstIndex<T(==)>(s: seq<T>, x: T): (k: nat)
    requires x in s
    ensures k < |s| && s[k] == x && x !in s[..k]
  {
    if s[0] == x then 0 else 1 + FirstIndex(s[1..], x)
  }

  /** Every element of a subsequence is an element of the whole. */
  lemma {:induction false} SubsequenceMembers<T>(r: seq<T>, s: seq<T>)
    requires Subsequence(r, s)
    ensures forall x :: x in r ==> x in s
    decreases |s|
  {
    if r != [] {
      var s0, r0 := s[..|s| - 1], r[..|r| - 1];
      assert s == s0 + [s[|s| - 1]] && r == r0 + [r[|r| - 1]];
      if r[|r| - 1] == s[|s| - 1] && Subsequence(r0, s0) {
        SubsequenceMembers(r0, s0);
      } else {
        SubsequenceMembers(r, s0);
      }
    }
  }

  /** `a.filter(p)`. */
  function Filter<T(!new)>(s: seq<T>, p: T -> bool): (r: seq<T>)
    ensures |r| <= |s|
    ensures forall x :: x in r <==> x in s && p(x)
    ensures forall x :: p(x) ==> multiset(r)[x] == multiset(s)[x]
    ensures forall k :: 0 <= k < |r| ==> p(r[k])
    ensures (forall k :: 0 <= k < |s| ==> p(s[k])) ==> r == s
    decreases |s|
  {
    if s == [] then []
    else
      var init, last := s[..|s| - 1], s[|s| - 1];
      assert s == init + [last];
      var f := Filter(init, p);
      if p(last) then f + [last]
      else
        f
  }

  lemma {:induction false} FilterUnfold<T(!new)>(s: seq<T>, p: T -> bool)
    requires s != []
    ensures Filter(s, p) == Filter(s[..|s| - 1], p) + (if p(s[|s| - 1]) then [s[|s| - 1]] else [])
  {
  }

  /** Filtering a concatenation filters each part. */
  lemma {:induction false} FilterDistributes<T(!new)>(a: seq<T>, b: seq<T>, p: T -> bool)
    ensures Filter(a + b, p) == Filter(a, p) + Filter(b, p)
    decreases |b|
  {
    if b == [] {
      assert a + b == a;
    } else {
      var b0, last := b[..|b| - 1], b[|b| - 1];
      var ab := a + b;
      assert ab[..|ab| - 1] == a + b0 && ab[|ab| - 1] == last;
      FilterUnfold(ab, p);
      FilterUnfold(b, p);
      FilterDistributes(a, b0, p);
    }
  }

  /** `[...new Set(s)]`: the distinct elements of `s`, each at its first occurrence. */
  function Dedupe<T(==,!new)>(s: seq<T>): (r: seq<T>)
    ensures Distinct(r)
    ensures forall x :: x in r <==> x in s
    ensures Distinct(s) ==> r == s
    decreases |s|
  {
    if s == [] then []
    else
      var init, last := s[..|s| - 1], s[|s| - 1];
      assert s == init + [last];
      var d := Dedupe(init);
      if last in d then
        d
      else d + [last]
  }

  lemma {:induction false} DedupeUnfold<T(!new)>(s: seq<T>)
    requires s != []
    ensures Dedupe(s) == if s[|s| - 1] in s[..|s| - 1] then Dedupe(s[..|s| - 1])
                         else Dedupe(s[..|s| - 1]) + [s[|s| - 1]]
  {
  }

  /** The order `Dedupe` keeps: its elements appear in the order of their first
      occurrences in the input. */
  lemma {:induction false} DedupeKeepsFirstOccurrenceOrder<T(!new)>(s: seq<T>, i: nat, j: nat)
    requires i < j < |Dedupe(s)|
    ensures Dedupe(s)[i] in s && Dedupe(s)[j] in s
    ensures FirstIndex(s, Dedupe(s)[i]) < FirstIndex(s, Dedupe(s)[j])
    decreases |s|
  {
    var init, last := s[..|s| - 1], s[|s| - 1];
    assert s == init + [last];
    var d := Dedupe(init);
    DedupeUnfold(s);
    if j < |d| {
      DedupeKeepsFirstOccurrenceOrder(init, i, j);
      FirstIndexOfPrefix(init, last, d[i]);
      FirstIndexOfPrefix(init, last, d[j]);
    } else {
      // the j-th element is `last`, new to the prefix, so its first index is |init|
      assert last !in init;
      FirstIndexOfPrefix(init, last, d[i]);
      FirstIndexNotInPrefix(init, last);
    }
  }

  lemma {:induction false} FirstIndexOfPrefix<T>(init: seq<T>, last: T, x: T)
    requires x in init
    ensures x in init + [last] && FirstIndex(init + [last], x) == FirstIndex(init, x)
    decreases |init|
  {
    if init[0] != x {
      assert (init + [last])[1..] == init[1..] + [last];
      FirstIndexOfPrefix(init[1..], last, x);
    }
  }

  lemma {:induction false} FirstIndexNotInPrefix<T>(init: seq<T>, last: T)
    requires last !in init
    ensures FirstIndex(init + [last], last) == |init|
    decreases |init|
  {
    if init != [] {
      assert (init + [last])[1..] == init[1..] + [last];
      FirstIndexNotInPrefix(init[1..], last);
    }
  }

  /** `[...new Set([...s, x])]`: appending through a set adds `x` at the end
      exactly when it is new. */
  lemma {:induction false} DedupeAppend<T(!new)>(s: seq<T>, x: T)
    ensures Dedupe(s + [x]) == Dedupe(s) + (if x in s then [] else [x])
  {
    assert (s + [x])[..|s|] == s;
  }

  /** `filter` keeps the order of what it keeps. */
  lemma {:induction false} FilterIsSubsequence<T(!new)>(s: seq<T>, p: T -> bool)
    ensures Subsequence(Filter(s, p), s)
    decreases |s|
  {
    if s != [] {
      var init, last := s[..|s| - 1], s[|s| - 1];
      assert s == init + [last];
      var f := Filter(init, p);
      FilterIsSubsequence(init, p);
      if p(last) {
        assert (f + [last])[..|f|] == f;
      }
    }
  }

  /** Spreading through a `Set` keeps the order of the first occurrences. */
  lemma {:induction false} DedupeIsSubsequence<T(!new)>(s: seq<T>)
    ensures Subsequence(Dedupe(s), s)
    decreases |s|
  {
    if s != [] {
      var init, last := s[..|s| - 1], s[|s| - 1];
      assert s == init + [last];
      var d := Dedupe(init);
      DedupeIsSubsequence(init);
      if last !in d {
        assert (d + [last])[..|d|] == d;
      }
    }
  }

  /** `s.filter(y => y !== x)`. */
  function Without<T(==,!new)>(s: seq<T>, x: T): seq<T> {
    Filter(s, Differs(x))
  }

  function Differs<T(==)>(x: T): T -> bool {
    y => y != x
  }

  /** Removing an element keeps the others in order. */
  lemma WithoutIsSubsequence<T(!new)>(s: seq<T>, x: T)
    ensures Subsequence(Without(s, x), s)
  {
    FilterIsSubsequence(s, Differs(x));
  }

  /** `s.filter((_, i) => i !== index)`: keeps every element whose position is not `index`. */
  function DropIndex<T>(s: seq<T>, index: int): (r: seq<T>)
    ensures r == if 0 <= index < |s| then s[..index] + s[index + 1..] else s
    decreases |s|
  {
    if s == [] then []
    else
      var init, last := s[..|s| - 1], s[|s| - 1];
      assert s == init + [last];
      DropIndex(init, index) + (if |s| - 1 == index then [] else [last])
  }

  /** `s.slice(0, n)`. */
  function Take<T>(s: seq<T>, n: nat): (r: seq<T>)
    ensures |r| == if n < |s| then n else |s|
    ensures forall k :: 0 <= k < |r| ==> r[k] == s[k]
  {
    if n < |s| then s[..n] else s
  }
}
