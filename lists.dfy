/** Sequence operations the admin pages build on: `Array.prototype.filter`,
    an `Array.prototype.map` that rewrites only the elements a predicate
    selects, and the de-duplication `Array.from(new Set(xs))`. */
module Lists {

  /** `a` is obtained from `b` by deleting elements, keeping the order. */
  predicate IsSubsequence<T(==)>(a: seq<T>, b: seq<T>)
    decreases |b|
  {
    if a == [] then true
    else if b == [] then false
    else if a[0] == b[0] then IsSubsequence(a[1..], b[1..])
    else IsSubsequence(a, b[1..])
  }

  predicate NoDuplicates<T(==)>(s: seq<T>)
  {
    forall i, j :: 0 <= i < j < |s| ==> s[i] != s[j]
  }

  // ---------------------------------------------------------------------
  // filter
  // ---------------------------------------------------------------------

  /** `s.filter(p)`. */
  function Filter<T>(s: seq<T>, p: T -> bool): (r: seq<T>)
    ensures |r| <= |s|
    ensures forall i :: 0 <= i < |r| ==> p(r[i])
  {
    if s == [] then []
    else (if p(s[0]) then [s[0]] else []) + Filter(s[1..], p)
  }

  /** An element is kept iff it was there and passes the predicate. */
  lemma {:induction false} FilterMembers<T>(s: seq<T>, p: T -> bool)
    ensures forall x :: x in Filter(s, p) <==> x in s && p(x)
  {
    if s != [] {
      FilterMembers(s[1..], p);
      assert s == [s[0]] + s[1..];
    }
  }

  /** Filtering keeps the surviving elements in their original order. */
  lemma {:induction false} FilterIsSubsequence<T>(s: seq<T>, p: T -> bool)
    ensures IsSubsequence(Filter(s, p), s)
  {
    if s != [] {
      FilterIsSubsequence(s[1..], p);
      var rest := Filter(s[1..], p);
      if p(s[0]) {
        assert Filter(s, p) == [s[0]] + rest;
        assert (Filter(s, p))[1..] == rest;
      } else {
        assert Filter(s, p) == rest;
        SubsequenceSkip(rest, s);
      }
    }
  }

  /** Dropping the head of the longer sequence is harmless when the shorter
      one is already a subsequence of its tail. */
  lemma {:induction false} SubsequenceSkip<T>(a: seq<T>, b: seq<T>)
    requires b != [] && IsSubsequence(a, b[1..])
    ensures IsSubsequence(a, b)
    decreases |b|, 0
  {
    if a != [] && a[0] == b[0] {
      // `a[1..]` is a subsequence of `a`'s own subsequence `b[1..]`.
      SubsequenceTail(a, b[1..]);
    }
  }

  lemma {:induction false} SubsequenceTail<T>(a: seq<T>, b: seq<T>)
    requires a != [] && IsSubsequence(a, b)
    ensures IsSubsequence(a[1..], b)
    decreases |b|, 1
  {
    assert b != [];
    if a[0] == b[0] {
      SubsequenceSkip(a[1..], b);
    } else {
      SubsequenceTail(a, b[1..]);
      SubsequenceSkip(a[1..], b);
    }
  }

  /** Each kept element occurs as often as in the input; each dropped one not at all. */
  lemma {:induction false} FilterCounts<T>(s: seq<T>, p: T -> bool)
    ensures forall x :: p(x) ==> multiset(Filter(s, p))[x] == multiset(s)[x]
    ensures forall x :: !p(x) ==> multiset(Filter(s, p))[x] == 0
  {
    if s != [] {
      FilterCounts(s[1..], p);
      assert s == [s[0]] + s[1..];
      assert multiset(s) == multiset{s[0]} + multiset(s[1..]);
      var head := if p(s[0]) then [s[0]] else [];
      assert multiset(Filter(s, p)) == multiset(head) + multiset(Filter(s[1..], p));
    }
  }

  /** A filter that rejects nothing returns its input unchanged. */
  lemma {:induction false} FilterKeepsAll<T>(s: seq<T>, p: T -> bool)
    requires forall i :: 0 <= i < |s| ==> p(s[i])
    ensures Filter(s, p) == s
  {
    if s != [] {
      FilterKeepsAll(s[1..], p);
      assert s == [s[0]] + s[1..];
    }
  }

  /** Two predicates that agree on the elements give the same filter. */
  lemma {:induction false} FilterAgree<T>(s: seq<T>, p: T -> bool, q: T -> bool)
    requires forall i :: 0 <= i < |s| ==> p(s[i]) == q(s[i])
    ensures Filter(s, p) == Filter(s, q)
  {
    if s != [] {
      FilterAgree(s[1..], p, q);
    }
  }

  // ---------------------------------------------------------------------
  // map that rewrites the selected elements
  // ---------------------------------------------------------------------

  /** `s.map(x => p(x) ? f(x) : x)`. */
  function MapWhere<T>(s: seq<T>, p: T -> bool, f: T -> T): (r: seq<T>)
    ensures |r| == |s|
  {
    if s == [] then []
    else [if p(s[0]) then f(s[0]) else s[0]] + MapWhere(s[1..], p, f)
  }

  /** Position by position, a selected element is rewritten and every other one kept. */
  lemma {:induction false} MapWhereAt<T>(s: seq<T>, p: T -> bool, f: T -> T)
    ensures forall i :: 0 <= i < |s| ==>
      MapWhere(s, p, f)[i] == if p(s[i]) then f(s[i]) else s[i]
  {
    if s != [] {
      MapWhereAt(s[1..], p, f);
      forall i | 1 <= i < |s|
        ensures MapWhere(s, p, f)[i] == if p(s[i]) then f(s[i]) else s[i]
      {
        assert MapWhere(s, p, f)[i] == MapWhere(s[1..], p, f)[i - 1];
      }
    }
  }

  /** Rewriting twice with an involution that keeps the selection is the identity. */
  lemma {:induction false} MapWhereTwice<T>(s: seq<T>, p: T -> bool, f: T -> T)
    requires forall x :: p(x) ==> p(f(x)) && f(f(x)) == x
    ensures MapWhere(MapWhere(s, p, f), p, f) == s
  {
    if s != [] {
      MapWhereTwice(s[1..], p, f);
      var once := MapWhere(s, p, f);
      assert once[1..] == MapWhere(s[1..], p, f);
      assert s == [s[0]] + s[1..];
    }
  }

  // ---------------------------------------------------------------------
  // de-duplication in first-occurrence order
  // ---------------------------------------------------------------------

  /** Index of the first occurrence of `x` in `s`. */
  function FirstIndex<T(==)>(s: seq<T>, x: T): (i: nat)
    requires x in s
    ensures i < |s| && s[i] == x && x !in s[..i]
  {
    if s[0] == x then 0 else 1 + FirstIndex(s[1..], x)
  }

  lemma {:induction false} FirstIndexInPrefix<T>(s: seq<T>, t: seq<T>, x: T)
    requires x in s
    ensures x in s + t && FirstIndex(s + t, x) == FirstIndex(s, x)
  {
    if s[0] != x {
      FirstIndexInPrefix(s[1..], t, x);
      assert (s + t)[1..] == s[1..] + t;
    }
  }

  /** `Array.from(new Set(s))`: a `Set` remembers insertion order, so each
      value is kept at its first occurrence. */
  function Distinct<T(==)>(s: seq<T>): (r: seq<T>)
    ensures NoDuplicates(r)
    ensures forall i :: 0 <= i < |s| ==> s[i] in r
    ensures forall i :: 0 <= i < |r| ==> r[i] in s
  {
    if s == [] then []
    else
      var r := Distinct(s[..|s| - 1]);
      assert s == s[..|s| - 1] + [s[|s| - 1]];
      if s[|s| - 1] in r then r else r + [s[|s| - 1]]
  }

  /** The distinct values appear in the order of their first occurrences. */
  lemma {:induction false} DistinctFirstOccurrenceOrder<T>(s: seq<T>)
    ensures forall i, j :: 0 <= i < j < |Distinct(s)| ==>
      FirstIndex(s, Distinct(s)[i]) < FirstIndex(s, Distinct(s)[j])
  {
    if s != [] {
      var init, x := s[..|s| - 1], s[|s| - 1];
      assert s == init + [x];
      DistinctFirstOccurrenceOrder(init);
      var r := Distinct(init);
      forall y | y in r
        ensures FirstIndex(s, y) == FirstIndex(init, y) < |init|
      {
        FirstIndexInPrefix(init, [x], y);
      }
      if x !in r {
        assert x !in init;
        assert s[..|init|] == init;
        assert FirstIndex(s, x) == |init|;
      }
    }
  }
}
