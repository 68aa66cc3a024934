/** LINQ `Where` over lists, and what it means to keep some elements of a list in order. */
module Sequences {

  /** `xs.Where(p).ToList()`: the elements of `xs` that satisfy `p`, in their original order. */
  function Filter<T>(p: T -> bool, xs: seq<T>): (r: seq<T>)
    ensures |r| <= |xs|
    ensures forall i :: 0 <= i < |r| ==> r[i] in xs && p(r[i])
    ensures forall i :: 0 <= i < |xs| && p(xs[i]) ==> xs[i] in r
  {
    if xs == [] then []
    else if p(xs[0]) then [xs[0]] + Filter(p, xs[1..])
    else Filter(p, xs[1..])
  }

  /** `Where` keeps every occurrence: an element satisfying `p` occurs in the result as often as in `xs`, any
      other element not at all. */
  lemma {:induction false} FilterMultiset<T>(p: T -> bool, xs: seq<T>)
    ensures forall i :: 0 <= i < |xs| ==>
              multiset(Filter(p, xs))[xs[i]] == if p(xs[i]) then multiset(xs)[xs[i]] else 0
  {
    if xs != [] {
      FilterMultiset(p, xs[1..]);
      assert xs == [xs[0]] + xs[1..];
      forall i | 0 <= i < |xs|
        ensures multiset(Filter(p, xs))[xs[i]] == if p(xs[i]) then multiset(xs)[xs[i]] else 0
      {
        var x := xs[i];
        if x !in xs[1..] {
          assert x == xs[0];
          assert multiset(Filter(p, xs[1..]))[x] == 0;
        } else {
          var j :| 0 <= j < |xs[1..]| && xs[1..][j] == x;
        }
      }
    }
  }

  /** `a` is `b` with some elements removed, the rest kept in order. */
  predicate IsSubsequence<T(==)>(a: seq<T>, b: seq<T>)
    decreases |b|
  {
    a == [] || (b != [] && if a[0] == b[0] then IsSubsequence(a[1..], b[1..]) else IsSubsequence(a, b[1..]))
  }

  lemma {:induction false} FilterIsSubsequence<T>(p: T -> bool, xs: seq<T>)
    ensures IsSubsequence(Filter(p, xs), xs)
  {
    if xs != [] {
      FilterIsSubsequence(p, xs[1..]);
      if !p(xs[0]) {
        var r := Filter(p, xs[1..]);
        assert r != [] ==> p(r[0]);
      }
    }
  }

  /** Keeping the elements of `xs` that satisfy `p` and, separately, those that satisfy `q`, where no element
      satisfies both, takes at most `|xs|` elements in all. */
  lemma {:induction false} FilterDisjointLength<T>(p: T -> bool, q: T -> bool, xs: seq<T>)
    requires forall i :: 0 <= i < |xs| ==> !(p(xs[i]) && q(xs[i]))
    ensures |Filter(p, xs)| + |Filter(q, xs)| <= |xs|
  {
    if xs != [] {
      assert !(p(xs[0]) && q(xs[0]));
      FilterDisjointLength(p, q, xs[1..]);
    }
  }

  /** The filter keeps nothing exactly when no element satisfies `p`. */
  lemma {:induction false} FilterNone<T>(p: T -> bool, xs: seq<T>)
    ensures Filter(p, xs) == [] <==> forall i :: 0 <= i < |xs| ==> !p(xs[i])
  {
    if xs != [] {
      FilterNone(p, xs[1..]);
      if forall i :: 0 <= i < |xs| ==> !p(xs[i]) {
        assert forall i :: 0 <= i < |xs[1..]| ==> !p(xs[1..][i]) by {
          forall i | 0 <= i < |xs[1..]| ensures !p(xs[1..][i]) { assert xs[1..][i] == xs[i + 1]; }
        }
      }
    }
  }
}
