/** Order-preserving filtering of sequences: the model of Python's list
    comprehensions with an `if` clause and of `itertools.ifilter`. */
module Seqs {

  /** `sub` is obtained from `xs` by deleting some elements, keeping order. */
  predicate IsSubsequence<T(==)>(sub: seq<T>, xs: seq<T>)
    decreases |xs|
  {
    if sub == [] then true
    else if xs == [] then false
    else if sub[|sub| - 1] == xs[|xs| - 1] then IsSubsequence(sub[..|sub| - 1], xs[..|xs| - 1])
    else IsSubsequence(sub, xs[..|xs| - 1])
  }

  /** The elements of `xs` that satisfy `p`, in their original order. */
  function Filter<T>(p: T -> bool, xs: seq<T>): (r: seq<T>)
    ensures |r| <= |xs|
    ensures forall i :: 0 <= i < |r| ==> p(r[i])
    decreases |xs|
  {
    if xs == [] then []
    else
      var r := Filter(p, xs[..|xs| - 1]);
      if p(xs[|xs| - 1]) then r + [xs[|xs| - 1]] else r
  }

  /** Filtering keeps the order of what it keeps. */
  lemma {:induction false} FilterIsSubsequence<T>(p: T -> bool, xs: seq<T>)
    ensures IsSubsequence(Filter(p, xs), xs)
    decreases |xs|
  {
    if xs != [] {
      var init, last := xs[..|xs| - 1], xs[|xs| - 1];
      FilterIsSubsequence(p, init);
      var r := Filter(p, init);
      if p(last) {
        assert (r + [last])[..|r|] == r;
      } else if r != [] {
        assert p(r[|r| - 1]);
      }
    }
  }

  /** Filtering keeps every occurrence of an element that satisfies `p` and
      no occurrence of one that does not. */
  lemma {:induction false} FilterCounts<T(!new)>(p: T -> bool, xs: seq<T>)
    ensures forall x :: multiset(Filter(p, xs))[x] == if p(x) then multiset(xs)[x] else 0
    decreases |xs|
  {
    if xs != [] {
      var init, last := xs[..|xs| - 1], xs[|xs| - 1];
      assert xs == init + [last];
      FilterCounts(p, init);
    }
  }

  /** An element is kept exactly when it occurs and satisfies `p`. */
  lemma {:induction false} FilterKeepsOnlySatisfying<T(!new)>(p: T -> bool, xs: seq<T>)
    ensures forall x :: x in Filter(p, xs) <==> x in xs && p(x)
  {
    FilterCounts(p, xs);
    forall x ensures x in Filter(p, xs) <==> x in xs && p(x) {
      assert x in Filter(p, xs) <==> multiset(Filter(p, xs))[x] > 0;
      assert x in xs <==> multiset(xs)[x] > 0;
    }
  }

  /** A filter that keeps nothing gives the empty sequence, and a sequence
      filtered to nothing holds no element satisfying the predicate. */
  lemma {:induction false} FilterEmpty<T(!new)>(p: T -> bool, xs: seq<T>)
    ensures Filter(p, xs) == [] <==> forall i :: 0 <= i < |xs| ==> !p(xs[i])
  {
    FilterKeepsOnlySatisfying(p, xs);
    if Filter(p, xs) != [] {
      var y := Filter(p, xs)[0];
      assert y in Filter(p, xs);
      var i :| 0 <= i < |xs| && xs[i] == y;
    } else {
      forall i | 0 <= i < |xs| ensures !p(xs[i]) {
        assert xs[i] in xs;
      }
    }
  }
}
