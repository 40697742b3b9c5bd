/** Ranking a column of values the way pandas' `rank()` does by default:
    tied values share the average of the positions they occupy. A rank is
    then scaled so that the largest rank in the column becomes 100. */
module Ranking {
  import opened Seqs

  datatype Direction = Ascending | Descending

  /** How many values of xs are below, equal to, and above v. */
  function Below(xs: seq<real>, v: real): nat {
    if xs == [] then 0 else Below(xs[..|xs| - 1], v) + (if xs[|xs| - 1] < v then 1 else 0)
  }

  function Equal(xs: seq<real>, v: real): nat {
    if xs == [] then 0 else Equal(xs[..|xs| - 1], v) + (if xs[|xs| - 1] == v then 1 else 0)
  }

  function Above(xs: seq<real>, v: real): nat {
    if xs == [] then 0 else Above(xs[..|xs| - 1], v) + (if xs[|xs| - 1] > v then 1 else 0)
  }

  lemma {:induction false} CountsCover(xs: seq<real>, v: real)
    ensures Below(xs, v) + Equal(xs, v) + Above(xs, v) == |xs|
  {
    if xs != [] {
      CountsCover(xs[..|xs| - 1], v);
    }
  }

  lemma {:induction false} MemberIsEqual(xs: seq<real>, i: int)
    requires 0 <= i < |xs|
    ensures Equal(xs, xs[i]) >= 1
  {
    var init := xs[..|xs| - 1];
    if i < |xs| - 1 {
      assert init[i] == xs[i];
      MemberIsEqual(init, i);
    }
  }

  /** Everything below or equal to a is below any b above a. */
  lemma {:induction false} BelowGrows(xs: seq<real>, a: real, b: real)
    requires a < b
    ensures Below(xs, b) >= Below(xs, a) + Equal(xs, a)
  {
    if xs != [] {
      BelowGrows(xs[..|xs| - 1], a, b);
    }
  }

  /** Everything above or equal to b is above any a below b. */
  lemma {:induction false} AboveShrinks(xs: seq<real>, a: real, b: real)
    requires a < b
    ensures Above(xs, a) >= Above(xs, b) + Equal(xs, b)
  {
    if xs != [] {
      AboveShrinks(xs[..|xs| - 1], a, b);
    }
  }

  /** The average rank of v among xs: the values ranked before it, plus the
      mean of the positions 1 .. Equal that its ties share. Ascending ranks
      the smallest value first, descending the largest. */
  function Rank(xs: seq<real>, v: real, dir: Direction): (r: real)
    ensures v in xs ==> 1.0 <= r <= |xs| as real
  {
    CountsCover(xs, v);
    MemberOccurs(xs, v);
    var before := if dir == Ascending then Below(xs, v) else Above(xs, v);
    before as real + (Equal(xs, v) as real + 1.0) / 2.0
  }

  lemma MemberOccurs(xs: seq<real>, v: real)
    ensures v in xs ==> Equal(xs, v) >= 1
  {
    if v in xs {
      var i :| 0 <= i < |xs| && xs[i] == v;
      MemberIsEqual(xs, i);
    }
  }

  /** Ranking in the other direction mirrors the rank: the two ranks of a
      value always add up to one more than the column length. */
  lemma RankMirror(xs: seq<real>, v: real)
    ensures Rank(xs, v, Ascending) + Rank(xs, v, Descending) == (|xs| + 1) as real
  {
    CountsCover(xs, v);
  }

  lemma RankBounds(xs: seq<real>, i: int, dir: Direction)
    requires 0 <= i < |xs|
    ensures 1.0 <= Rank(xs, xs[i], dir) <= |xs| as real
  {
    assert xs[i] in xs;
  }

  /** Every value's rank in a column. */
  function Ranks(xs: seq<real>, dir: Direction): (r: seq<real>)
    ensures |r| == |xs|
    ensures forall i :: 0 <= i < |xs| ==> 1.0 <= r[i] <= |xs| as real
    ensures forall i :: 0 <= i < |xs| ==> r[i] == Rank(xs, xs[i], dir)
  {
    assert forall i :: 0 <= i < |xs| ==> 1.0 <= Rank(xs, xs[i], dir) <= |xs| as real by {
      forall i | 0 <= i < |xs| {
        RankBounds(xs, i, dir);
      }
    }
    seq(|xs|, i requires 0 <= i < |xs| => Rank(xs, xs[i], dir))
  }

  /** Ranks follow the values: strictly, in the direction asked for, and
      tied values share a rank. */
  lemma RanksFollowValues(xs: seq<real>, dir: Direction, i: int, j: int)
    requires 0 <= i < |xs| && 0 <= j < |xs|
    ensures xs[i] == xs[j] ==> Ranks(xs, dir)[i] == Ranks(xs, dir)[j]
    ensures xs[i] < xs[j] && dir == Ascending ==> Ranks(xs, dir)[i] < Ranks(xs, dir)[j]
    ensures xs[i] < xs[j] && dir == Descending ==> Ranks(xs, dir)[i] > Ranks(xs, dir)[j]
  {
    if xs[i] < xs[j] {
      MemberIsEqual(xs, i);
      MemberIsEqual(xs, j);
      if dir == Ascending {
        BelowGrows(xs, xs[i], xs[j]);
      } else {
        AboveShrinks(xs, xs[i], xs[j]);
      }
    }
  }

  /** A rank as a percentage of the largest rank. */
  function Scaled(rank: real, top: real): real
    requires top > 0.0
  {
    rank / top * 100.0
  }

  lemma ScaledBounds(rank: real, top: real)
    requires 0.0 < rank <= top
    ensures 0.0 < Scaled(rank, top) <= 100.0
  {
    assert rank / top <= 1.0;
  }

  lemma ScaledTop(top: real)
    requires top > 0.0
    ensures Scaled(top, top) == 100.0
  {
    assert top / top == 1.0;
  }

  lemma ScaledMonotone(a: real, b: real, top: real)
    requires top > 0.0
    ensures a <= b ==> Scaled(a, top) <= Scaled(b, top)
    ensures a < b ==> Scaled(a, top) < Scaled(b, top)
  {
    assert a / top - b / top == (a - b) / top;
  }

  /** Every rank of a column as a percentage of top. */
  function ScaleAll(r: seq<real>, top: real): (p: seq<real>)
    requires top > 0.0
    ensures |p| == |r|
    ensures forall i :: 0 <= i < |r| ==> p[i] == Scaled(r[i], top)
  {
    seq(|r|, i requires 0 <= i < |r| => Scaled(r[i], top))
  }

  lemma ScaleAllKeepsOrder(r: seq<real>, top: real)
    requires top > 0.0
    ensures forall i, j :: 0 <= i < |r| && 0 <= j < |r| && r[i] <= r[j] ==> ScaleAll(r, top)[i] <= ScaleAll(r, top)[j]
    ensures forall i, j :: 0 <= i < |r| && 0 <= j < |r| && r[i] < r[j] ==> ScaleAll(r, top)[i] < ScaleAll(r, top)[j]
  {
    forall i, j | 0 <= i < |r| && 0 <= j < |r| {
      ScaledMonotone(r[i], r[j], top);
    }
  }

  lemma ScaleAllBounds(r: seq<real>, top: real)
    requires top > 0.0
    requires forall i :: 0 <= i < |r| ==> 0.0 < r[i] <= top
    ensures forall i :: 0 <= i < |r| ==> 0.0 < ScaleAll(r, top)[i] <= 100.0
  {
    forall i | 0 <= i < |r| {
      ScaledBounds(r[i], top);
    }
  }

  /** The ranks scaled to the largest rank: each in (0, 100], and for a
      non-empty column the largest is exactly 100. Scaling keeps the order
      of the ranks. */
  function Percentiles(xs: seq<real>, dir: Direction): (p: seq<real>)
    ensures |p| == |xs|
    ensures forall i :: 0 <= i < |xs| ==> 0.0 < p[i] <= 100.0
    ensures |xs| > 0 ==> exists i :: 0 <= i < |xs| && p[i] == 100.0
    ensures forall i, j :: 0 <= i < |xs| && 0 <= j < |xs| && Ranks(xs, dir)[i] <= Ranks(xs, dir)[j] ==> p[i] <= p[j]
    ensures forall i, j :: 0 <= i < |xs| && 0 <= j < |xs| && Ranks(xs, dir)[i] < Ranks(xs, dir)[j] ==> p[i] < p[j]
  {
    var r := Ranks(xs, dir);
    if r == [] then []
    else
      var top := MaxReal(r);
      ScaleAllBounds(r, top);
      ScaleAllKeepsOrder(r, top);
      var k :| 0 <= k < |r| && r[k] == top;
      ScaledTop(top);
      assert ScaleAll(r, top)[k] == Scaled(top, top);
      ScaleAll(r, top)
  }

  /** Percentiles inherit the order of the values: ties share a percentile,
      and in the given direction a larger value gets a larger one. */
  lemma PercentilesFollowValues(xs: seq<real>, dir: Direction, i: int, j: int)
    requires 0 <= i < |xs| && 0 <= j < |xs|
    ensures xs[i] == xs[j] ==> Percentiles(xs, dir)[i] == Percentiles(xs, dir)[j]
    ensures xs[i] < xs[j] && dir == Ascending ==> Percentiles(xs, dir)[i] < Percentiles(xs, dir)[j]
    ensures xs[i] < xs[j] && dir == Descending ==> Percentiles(xs, dir)[i] > Percentiles(xs, dir)[j]
  {
    RanksFollowValues(xs, dir, i, j);
  }

  /** In a column of equal values every percentile is 100. */
  lemma TiedColumnIsTop(xs: seq<real>, dir: Direction)
    requires forall i :: 0 <= i < |xs| ==> xs[i] == xs[0]
    ensures forall i :: 0 <= i < |xs| ==> Percentiles(xs, dir)[i] == 100.0
  {
    if |xs| > 0 {
      var k :| 0 <= k < |xs| && Percentiles(xs, dir)[k] == 100.0;
      forall i | 0 <= i < |xs|
        ensures Percentiles(xs, dir)[i] == 100.0
      {
        PercentilesFollowValues(xs, dir, i, k);
      }
    }
  }
}
