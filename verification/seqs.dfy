/** Folds over finite sequences of rows: selection, sums, maxima and
    first-appearance de-duplication. Each is defined from the last element,
    so that a loop growing a prefix one row at a time can follow it. */
module Seqs {

  ghost predicate NoDuplicates<T>(xs: seq<T>) {
    forall i, j :: 0 <= i < j < |xs| ==> xs[i] != xs[j]
  }

  lemma SnocSplit<T(!new)>(xs: seq<T>)
    requires |xs| > 0
    ensures xs == xs[..|xs| - 1] + [xs[|xs| - 1]]
    ensures forall x :: x in xs <==> x in xs[..|xs| - 1] || x == xs[|xs| - 1]
  {
  }

  /** The rows of xs that satisfy p, in their original order. */
  function Filter<T(!new)>(xs: seq<T>, p: T -> bool): (r: seq<T>)
    ensures |r| <= |xs|
    ensures forall x :: x in r <==> x in xs && p(x)
  {
    if xs == [] then []
    else
      SnocSplit(xs);
      var r := Filter(xs[..|xs| - 1], p);
      if p(xs[|xs| - 1]) then r + [xs[|xs| - 1]] else r
  }

  lemma FilterSnoc<T(!new)>(xs: seq<T>, x: T, p: T -> bool)
    ensures Filter(xs + [x], p) == Filter(xs, p) + (if p(x) then [x] else [])
  {
    assert (xs + [x])[..|xs|] == xs;
  }

  /** Filtering keeps everything when every row passes. */
  lemma {:induction false} FilterAll<T(!new)>(xs: seq<T>, p: T -> bool)
    requires forall x :: x in xs ==> p(x)
    ensures Filter(xs, p) == xs
  {
    if xs != [] {
      SnocSplit(xs);
      FilterAll(xs[..|xs| - 1], p);
    }
  }

  /** Sum of f over the rows of xs. */
  function Sum<T>(xs: seq<T>, f: T -> real): real {
    if xs == [] then 0.0 else Sum(xs[..|xs| - 1], f) + f(xs[|xs| - 1])
  }

  /** Sum of an integer column f over the rows of xs. */
  function SumInt<T>(xs: seq<T>, f: T -> int): int {
    if xs == [] then 0 else SumInt(xs[..|xs| - 1], f) + f(xs[|xs| - 1])
  }

  lemma SumSnoc<T>(xs: seq<T>, x: T, f: T -> real)
    ensures Sum(xs + [x], f) == Sum(xs, f) + f(x)
  {
    assert (xs + [x])[..|xs|] == xs;
  }

  lemma SumIntSnoc<T>(xs: seq<T>, x: T, f: T -> int)
    ensures SumInt(xs + [x], f) == SumInt(xs, f) + f(x)
  {
    assert (xs + [x])[..|xs|] == xs;
  }

  /** A sum of values that each lie in [lo, hi] lies between |xs| lo and |xs| hi. */
  lemma {:induction false} SumBounds<T(!new)>(xs: seq<T>, f: T -> real, lo: real, hi: real)
    requires forall x :: x in xs ==> lo <= f(x) <= hi
    ensures |xs| as real * lo <= Sum(xs, f) <= |xs| as real * hi
  {
    if xs != [] {
      SnocSplit(xs);
      SumBounds(xs[..|xs| - 1], f, lo, hi);
    }
  }

  /** The largest value of f over a non-empty xs: it is attained, and it
      bounds every row. */
  function MaxInt<T(!new)>(xs: seq<T>, f: T -> int): (m: int)
    requires |xs| > 0
    ensures exists x :: x in xs && f(x) == m
    ensures forall x :: x in xs ==> f(x) <= m
  {
    SnocSplit(xs);
    var last := f(xs[|xs| - 1]);
    if |xs| == 1 then last
    else
      var m := MaxInt(xs[..|xs| - 1], f);
      if m < last then last else m
  }

  /** The largest element of a non-empty sequence of reals. */
  function MaxReal(xs: seq<real>): (m: real)
    requires |xs| > 0
    ensures m in xs
    ensures forall i :: 0 <= i < |xs| ==> xs[i] <= m
  {
    SnocSplit(xs);
    if |xs| == 1 then xs[0]
    else
      var m := MaxReal(xs[..|xs| - 1]);
      if m < xs[|xs| - 1] then xs[|xs| - 1] else m
  }

  /** The elements of xs, each once, in the order they first appear. */
  function Distinct<T(==,!new)>(xs: seq<T>): (r: seq<T>)
    ensures NoDuplicates(r)
    ensures forall x :: x in r <==> x in xs
  {
    if xs == [] then []
    else
      SnocSplit(xs);
      var r := Distinct(xs[..|xs| - 1]);
      if xs[|xs| - 1] in r then r else r + [xs[|xs| - 1]]
  }

  /** The values of key over xs, each once, in the order they first appear. */
  function DistinctKeys<T(!new), K(==,!new)>(xs: seq<T>, key: T -> K): (ks: seq<K>)
    ensures NoDuplicates(ks)
    ensures forall k :: k in ks <==> exists x :: x in xs && key(x) == k
  {
    var all := seq(|xs|, i requires 0 <= i < |xs| => key(xs[i]));
    assert forall k :: k in all <==> exists x :: x in xs && key(x) == k by {
      forall k | k in all
        ensures exists x :: x in xs && key(x) == k
      {
        var i :| 0 <= i < |all| && all[i] == k;
        assert xs[i] in xs;
      }
      forall k | exists x :: x in xs && key(x) == k
        ensures k in all
      {
        var x :| x in xs && key(x) == k;
        var i :| 0 <= i < |xs| && xs[i] == x;
        assert all[i] == k;
      }
    }
    Distinct(all)
  }
}
