/** `Array.prototype.filter` over sequences, and the order-preserving subsequence relation
    the filtering screens promise. */
module Seqs {

  /** The elements of `xs` that `keep` accepts, in their original order; an accepted
      element is kept as many times as it occurs. */
  function Filter<T(==,!new)>(xs: seq<T>, keep: T -> bool): (r: seq<T>)
    ensures |r| <= |xs|
    ensures forall i | 0 <= i < |r| :: r[i] in xs && keep(r[i])
    ensures forall i | 0 <= i < |xs| :: keep(xs[i]) ==> xs[i] in r
    ensures forall x {:trigger multiset(r)[x]} :: multiset(r)[x] == if keep(x) then multiset(xs)[x] else 0
  {
    if |xs| == 0 then []
    else
      assert xs == [xs[0]] + xs[1..];
      var rest := Filter(xs[1..], keep);
      if keep(xs[0]) then
        assert multiset([xs[0]] + rest) == multiset([xs[0]]) + multiset(rest);
        [xs[0]] + rest
      else rest
  }

  /** `xs` can be obtained from `ys` by deleting elements, without reordering. */
  predicate IsSubsequence<T(==,!new)>(xs: seq<T>, ys: seq<T>)
    decreases |ys|
  {
    || |xs| == 0
    || (&& |ys| > 0
        && (|| (xs[0] == ys[0] && IsSubsequence(xs[1..], ys[1..]))
            || IsSubsequence(xs, ys[1..])))
  }

  /** Filtering keeps the order of what it keeps. */
  lemma {:induction false} FilterIsSubsequence<T(!new)>(xs: seq<T>, keep: T -> bool)
    ensures IsSubsequence(Filter(xs, keep), xs)
  {
    if |xs| > 0 {
      FilterIsSubsequence(xs[1..], keep);
      if keep(xs[0]) {
        assert ([xs[0]] + Filter(xs[1..], keep))[1..] == Filter(xs[1..], keep);
      }
    }
  }

  /** Filtering with a stronger condition after a weaker one is filtering with the stronger. */
  lemma {:induction false} FilterOfFilter<T(!new)>(xs: seq<T>, weak: T -> bool, strong: T -> bool)
    requires forall x :: strong(x) ==> weak(x)
    ensures Filter(Filter(xs, weak), strong) == Filter(xs, strong)
  {
    if |xs| > 0 {
      FilterOfFilter(xs[1..], weak, strong);
      if weak(xs[0]) {
        assert ([xs[0]] + Filter(xs[1..], weak))[1..] == Filter(xs[1..], weak);
      }
    }
  }

  /** Filtering distributes over concatenation. */
  lemma {:induction false} FilterAppend<T(!new)>(a: seq<T>, b: seq<T>, keep: T -> bool)
    ensures Filter(a + b, keep) == Filter(a, keep) + Filter(b, keep)
  {
    if |a| == 0 {
      assert a + b == b;
    } else {
      assert (a + b)[1..] == a[1..] + b;
      FilterAppend(a[1..], b, keep);
    }
  }

  /** The length of a filtered sequence is the number of positions whose element is
      accepted. */
  lemma {:induction false} FilterCountsPositions<T(!new)>(xs: seq<T>, keep: T -> bool)
    ensures |Filter(xs, keep)| == |Positions(xs, keep)|
  {
    if |xs| == 0 {
      assert Positions(xs, keep) == {};
    } else {
      var ys, z := xs[..|xs| - 1], xs[|xs| - 1];
      assert xs == ys + [z];
      FilterAppend(ys, [z], keep);
      assert Filter([z], keep) == if keep(z) then [z] else [] by {
        assert [z][1..] == [];
      }
      FilterCountsPositions(ys, keep);
      PositionsSnoc(ys, z, keep);
    }
  }

  /** The positions of `xs` whose element `keep` accepts. */
  function Positions<T(!new)>(xs: seq<T>, keep: T -> bool): set<int>
  {
    set i | 0 <= i < |xs| && keep(xs[i])
  }

  lemma PositionsSnoc<T(!new)>(ys: seq<T>, z: T, keep: T -> bool)
    ensures |Positions(ys + [z], keep)| == |Positions(ys, keep)| + if keep(z) then 1 else 0
  {
    var last: set<int> := if keep(z) then {|ys|} else {};
    PositionsSnocSet(ys, z, keep);
    assert Positions(ys, keep) !! last;
  }

  lemma PositionsSnocSet<T(!new)>(ys: seq<T>, z: T, keep: T -> bool)
    ensures Positions(ys + [z], keep) == Positions(ys, keep) + if keep(z) then {|ys|} else {}
  {
    var xs := ys + [z];
    forall i | 0 <= i < |ys|
      ensures xs[i] == ys[i]
    {
    }
  }

  /** Filtering twice with the same condition is filtering once. */
  lemma FilterIdempotent<T(!new)>(xs: seq<T>, keep: T -> bool)
    ensures Filter(Filter(xs, keep), keep) == Filter(xs, keep)
  {
    FilterOfFilter(xs, keep, keep);
  }

  /** A condition every element meets keeps the whole sequence. */
  lemma {:induction false} FilterAll<T(!new)>(xs: seq<T>, keep: T -> bool)
    requires forall i | 0 <= i < |xs| :: keep(xs[i])
    ensures Filter(xs, keep) == xs
  {
    if |xs| > 0 {
      FilterAll(xs[1..], keep);
    }
  }

  /** A condition no element meets keeps nothing. */
  lemma {:induction false} FilterNone<T(!new)>(xs: seq<T>, keep: T -> bool)
    requires forall i | 0 <= i < |xs| :: !keep(xs[i])
    ensures Filter(xs, keep) == []
  {
    if |xs| > 0 {
      FilterNone(xs[1..], keep);
    }
  }

  /** Conditions that agree on every element keep the same elements. */
  lemma {:induction false} FilterCongruent<T(!new)>(xs: seq<T>, p: T -> bool, q: T -> bool)
    requires forall i | 0 <= i < |xs| :: p(xs[i]) == q(xs[i])
    ensures Filter(xs, p) == Filter(xs, q)
  {
    if |xs| > 0 {
      FilterCongruent(xs[1..], p, q);
    }
  }
}
