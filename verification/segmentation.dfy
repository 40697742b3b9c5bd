/** Scoring every RFM record from its three percentile ranks and counting
    the customers in each of five segments. */
module Segmentation {
  import opened Records
  import opened Seqs
  import opened Grouping
  import opened Ranking
  import opened Rfm

  datatype Segment =
    | TopCustomer
    | HighValueCustomer
    | MediumValueCustomer
    | LowValueCustomer
    | LostCustomer

  /** The segment names the dashboard shows. */
  function Label(s: Segment): string {
    match s
    case TopCustomer => "Top Customer"
    case HighValueCustomer => "High Value Customer"
    case MediumValueCustomer => "Medium Value Customer"
    case LowValueCustomer => "Low Value Customer"
    case LostCustomer => "Lost Customer"
  }

  /** No two segments share a label, so counting customers per label counts
      them per segment. */
  lemma LabelsDistinct(a: Segment, b: Segment)
    ensures Label(a) == Label(b) <==> a == b
  {
  }

  /** The weighted score of three percentile ranks: weights 0.15, 0.28 and
      0.57 for recency, frequency and monetary value, scaled by 0.05. */
  function Score(r: real, f: real, m: real): (s: real)
    ensures r == f == m ==> s == 0.05 * r
    ensures 0.0 < r && 0.0 < f && 0.0 < m ==> 0.0 < s
    ensures r <= 100.0 && f <= 100.0 && m <= 100.0 ==> s <= 5.0
  {
    0.05 * (0.15 * r + 0.28 * f + 0.57 * m)
  }

  /** The weights sum to one, so percentiles in (0, 100] give a score in
      (0, 5], and the score is 5 exactly when all three percentiles are 100. */
  lemma ScoreBounds(r: real, f: real, m: real)
    requires 0.0 < r <= 100.0 && 0.0 < f <= 100.0 && 0.0 < m <= 100.0
    ensures 0.0 < Score(r, f, m) <= 5.0
    ensures Score(r, f, m) == 5.0 <==> r == 100.0 && f == 100.0 && m == 100.0
  {
  }

  /** A better percentile never lowers the score, and a strictly better one
      raises it. */
  lemma ScoreIncreasing(r: real, f: real, m: real, r': real, f': real, m': real)
    requires r <= r' && f <= f' && m <= m'
    ensures Score(r, f, m) <= Score(r', f', m')
    ensures r < r' || f < f' || m < m' ==> Score(r, f, m) < Score(r', f', m')
  {
  }

  /** The thresholds, each an exclusive lower bound of the segments from
      its own upward. */
  function SegmentOf(score: real): (s: Segment)
    ensures s == TopCustomer <==> score > 4.5
    ensures Tier(s) >= 3 <==> score > 4.0
    ensures Tier(s) >= 2 <==> score > 3.0
    ensures Tier(s) >= 1 <==> score > 1.6
  {
    if score > 4.5 then TopCustomer
    else if score > 4.0 then HighValueCustomer
    else if score > 3.0 then MediumValueCustomer
    else if score > 1.6 then LowValueCustomer
    else LostCustomer
  }

  /** Segments from the lowest (0) to the highest (4). */
  function Tier(s: Segment): nat {
    match s
    case LostCustomer => 0
    case LowValueCustomer => 1
    case MediumValueCustomer => 2
    case HighValueCustomer => 3
    case TopCustomer => 4
  }

  /** A higher score never lands in a lower segment. */
  lemma SegmentMonotone(a: real, b: real)
    requires a <= b
    ensures Tier(SegmentOf(a)) <= Tier(SegmentOf(b))
  {
  }

  function RecencyOf(r: RfmRecord): real { r.recency as real }
  function FrequencyOf(r: RfmRecord): real { r.frequency as real }
  function MonetaryOf(r: RfmRecord): real { r.monetary }

  /** One column of the table. */
  function Column(table: seq<RfmRecord>, f: RfmRecord -> real): (col: seq<real>)
    ensures |col| == |table|
    ensures forall i :: 0 <= i < |table| ==> col[i] == f(table[i])
  {
    seq(|table|, i requires 0 <= i < |table| => f(table[i]))
  }

  function ScoreAll(r: seq<real>, f: seq<real>, m: seq<real>): (scores: seq<real>)
    requires |f| == |r| && |m| == |r|
    ensures |scores| == |r|
    ensures forall i :: 0 <= i < |r| ==> scores[i] == Score(r[i], f[i], m[i])
  {
    seq(|r|, i requires 0 <= i < |r| => Score(r[i], f[i], m[i]))
  }

  lemma ScoreAllBounds(r: seq<real>, f: seq<real>, m: seq<real>)
    requires |f| == |r| && |m| == |r|
    requires forall i :: 0 <= i < |r| ==> 0.0 < r[i] <= 100.0 && 0.0 < f[i] <= 100.0 && 0.0 < m[i] <= 100.0
    ensures forall i :: 0 <= i < |r| ==> 0.0 < ScoreAll(r, f, m)[i] <= 5.0
  {
    forall i | 0 <= i < |r|
      ensures 0.0 < ScoreAll(r, f, m)[i] <= 5.0
    {
      ScoreBounds(r[i], f[i], m[i]);
    }
  }

  /** Every customer's score. Recency is ranked descending, so the most
      recent customer ranks highest; frequency ascending; monetary value in
      the direction given. */
  function Scores(table: seq<RfmRecord>, monetaryDir: Direction): (scores: seq<real>)
    ensures |scores| == |table|
    ensures forall i :: 0 <= i < |table| ==> 0.0 < scores[i] <= 5.0
  {
    var r := Percentiles(Column(table, RecencyOf), Descending);
    var f := Percentiles(Column(table, FrequencyOf), Ascending);
    var m := Percentiles(Column(table, MonetaryOf), monetaryDir);
    ScoreAllBounds(r, f, m);
    ScoreAll(r, f, m)
  }

  function SegmentTag(t: (Segment, CustomerId)): Segment { t.0 }
  function CustomerTag(t: (Segment, CustomerId)): CustomerId { t.1 }

  /** The segment of every score. */
  function SegmentsOf(scores: seq<real>): (segs: seq<Segment>)
    ensures |segs| == |scores|
    ensures forall i :: 0 <= i < |scores| ==> segs[i] == SegmentOf(scores[i])
  {
    seq(|scores|, i requires 0 <= i < |scores| => SegmentOf(scores[i]))
  }

  /** Every customer paired with its segment. */
  function Tagged(table: seq<RfmRecord>, segs: seq<Segment>): (tags: seq<(Segment, CustomerId)>)
    requires |segs| == |table|
    ensures |tags| == |table|
    ensures forall i :: 0 <= i < |table| ==> tags[i] == (segs[i], table[i].customerId)
  {
    seq(|table|, i requires 0 <= i < |table| => (segs[i], table[i].customerId))
  }

  /** The distinct customers in segment s. */
  function CustomersIn(table: seq<RfmRecord>, segs: seq<Segment>, s: Segment): set<CustomerId>
    requires |segs| == |table|
  {
    set i | 0 <= i < |table| && segs[i] == s :: table[i].customerId
  }

  /** Some customer is in segment s. */
  predicate Occupied(table: seq<RfmRecord>, segs: seq<Segment>, s: Segment)
    requires |segs| == |table|
  {
    exists i :: 0 <= i < |table| && segs[i] == s
  }

  lemma TaggedValues(table: seq<RfmRecord>, segs: seq<Segment>, s: Segment)
    requires |segs| == |table|
    ensures ValuesFor(Tagged(table, segs), SegmentTag, CustomerTag, s) == CustomersIn(table, segs, s)
    ensures (exists t :: t in Tagged(table, segs) && SegmentTag(t) == s) <==> Occupied(table, segs, s)
  {
    var tags := Tagged(table, segs);
    forall c | c in CustomersIn(table, segs, s)
      ensures c in ValuesFor(tags, SegmentTag, CustomerTag, s)
    {
      var i :| 0 <= i < |table| && segs[i] == s && table[i].customerId == c;
      assert tags[i] in tags;
    }
    if Occupied(table, segs, s) {
      var i :| 0 <= i < |table| && segs[i] == s;
      assert tags[i] in tags;
    }
  }

  /** Customers per segment, each customer id counted once. Only segments
      that some customer falls in have an entry. */
  function CountSegments(table: seq<RfmRecord>, segs: seq<Segment>): (counts: map<Segment, nat>)
    requires |segs| == |table|
    ensures forall s :: s in counts <==> Occupied(table, segs, s)
    ensures forall s :: s in counts ==> counts[s] == |CustomersIn(table, segs, s)| && counts[s] >= 1
  {
    var tags := Tagged(table, segs);
    assert forall s :: (ValuesFor(tags, SegmentTag, CustomerTag, s) == CustomersIn(table, segs, s)
      && ((exists t :: t in tags && SegmentTag(t) == s) <==> Occupied(table, segs, s))) by {
      forall s {
        TaggedValues(table, segs, s);
      }
    }
    CountDistinctBy(tags, SegmentTag, CustomerTag)
  }

  /** The segment counts with monetary value ranked in the direction given. */
  function SegmentCounts(table: seq<RfmRecord>, monetaryDir: Direction): (counts: map<Segment, nat>)
    ensures forall s :: s in counts <==>
      exists i :: 0 <= i < |table| && SegmentOf(Scores(table, monetaryDir)[i]) == s
    ensures forall s :: s in counts ==>
      counts[s] == |CustomersIn(table, SegmentsOf(Scores(table, monetaryDir)), s)| && counts[s] >= 1
  {
    CountSegments(table, SegmentsOf(Scores(table, monetaryDir)))
  }

  /** The segment table as the dashboard computes it: monetary value is
      ranked descending. Over a table with one row per customer, every
      customer is counted in exactly one segment. */
  function CustomerSegments(table: seq<RfmRecord>): (counts: map<Segment, nat>)
    ensures (forall i, j :: 0 <= i < j < |table| ==> table[i].customerId != table[j].customerId) ==>
      Total(counts) == |table|
  {
    PartitionWhenDistinct(table, Descending);
    SegmentCounts(table, Descending)
  }

  const AllSegments: seq<Segment> :=
    [TopCustomer, HighValueCustomer, MediumValueCustomer, LowValueCustomer, LostCustomer]

  function CountOf(counts: map<Segment, nat>, s: Segment): nat {
    if s in counts then counts[s] else 0
  }

  /** The customers counted over all five segments. */
  function Total(counts: map<Segment, nat>): nat {
    CountOf(counts, TopCustomer) + CountOf(counts, HighValueCustomer) + CountOf(counts, MediumValueCustomer)
    + CountOf(counts, LowValueCustomer) + CountOf(counts, LostCustomer)
  }

  lemma {:induction false} FiveWay(tags: seq<(Segment, CustomerId)>)
    ensures CountKey(tags, SegmentTag, TopCustomer) + CountKey(tags, SegmentTag, HighValueCustomer)
      + CountKey(tags, SegmentTag, MediumValueCustomer) + CountKey(tags, SegmentTag, LowValueCustomer)
      + CountKey(tags, SegmentTag, LostCustomer) == |tags|
  {
    if tags != [] {
      var init, x := tags[..|tags| - 1], tags[|tags| - 1];
      FiveWay(init);
      assert SegmentTag(x) == x.0;
      match x.0
      case TopCustomer =>
      case HighValueCustomer =>
      case MediumValueCustomer =>
      case LowValueCustomer =>
      case LostCustomer =>
    }
  }

  lemma SegmentCount(table: seq<RfmRecord>, segs: seq<Segment>, s: Segment)
    requires |segs| == |table|
    requires forall i, j :: 0 <= i < j < |table| ==> table[i].customerId != table[j].customerId
    ensures CountOf(CountSegments(table, segs), s) == CountKey(Tagged(table, segs), SegmentTag, s)
  {
    var tags := Tagged(table, segs);
    TaggedValues(table, segs, s);
    DistinctValuesAreRows(tags, SegmentTag, CustomerTag, s);
    if s !in CountSegments(table, segs) {
      assert ValuesFor(tags, SegmentTag, CustomerTag, s) == {};
    }
  }

  /** With one row per customer, the five segments partition the customers:
      their counts add up to the number of rows. */
  lemma SegmentsPartition(table: seq<RfmRecord>, segs: seq<Segment>)
    requires |segs| == |table|
    requires forall i, j :: 0 <= i < j < |table| ==> table[i].customerId != table[j].customerId
    ensures Total(CountSegments(table, segs)) == |table|
  {
    forall s | s in AllSegments
      ensures CountOf(CountSegments(table, segs), s) == CountKey(Tagged(table, segs), SegmentTag, s)
    {
      SegmentCount(table, segs, s);
    }
    FiveWay(Tagged(table, segs));
  }

  lemma PartitionWhenDistinct(table: seq<RfmRecord>, dir: Direction)
    ensures (forall i, j :: 0 <= i < j < |table| ==> table[i].customerId != table[j].customerId) ==>
      Total(SegmentCounts(table, dir)) == |table|
  {
    if forall i, j :: 0 <= i < j < |table| ==> table[i].customerId != table[j].customerId {
      SegmentsPartition(table, SegmentsOf(Scores(table, dir)));
    }
  }

  lemma OneScore(r: RfmRecord, dir: Direction)
    ensures Scores([r], dir) == [5.0]
  {
    var table := [r];
    var rs := Percentiles(Column(table, RecencyOf), Descending);
    var fs := Percentiles(Column(table, FrequencyOf), Ascending);
    var ms := Percentiles(Column(table, MonetaryOf), dir);
    TiedColumnIsTop(Column(table, RecencyOf), Descending);
    TiedColumnIsTop(Column(table, FrequencyOf), Ascending);
    TiedColumnIsTop(Column(table, MonetaryOf), dir);
    ScoreBounds(rs[0], fs[0], ms[0]);
    ScoreAt(table, dir, 0);
  }

  lemma OneSegment(table: seq<RfmRecord>, segs: seq<Segment>, s: Segment)
    requires |table| == 1 && segs == [s]
    ensures CountSegments(table, segs) == map[s := 1]
  {
    var counts := CountSegments(table, segs);
    assert counts.Keys == {s} by {
      assert Occupied(table, segs, s);
    }
    assert CustomersIn(table, segs, s) == {table[0].customerId};
  }

  /** A table of one customer: every percentile is 100, so its score is 5
      and it is the only Top Customer. */
  lemma SingleCustomerIsTop(r: RfmRecord, dir: Direction)
    ensures Scores([r], dir) == [5.0]
    ensures SegmentCounts([r], dir) == map[TopCustomer := 1]
  {
    OneScore(r, dir);
    assert SegmentsOf([5.0]) == [TopCustomer];
    OneSegment([r], SegmentsOf(Scores([r], dir)), TopCustomer);
  }

  /** No customers, no segments. */
  lemma NoCustomersNoSegments(dir: Direction)
    ensures SegmentCounts([], dir) == map[]
  {
  }

  /** Two customers alike in recency and frequency: the one who spent less
      scores strictly lower when monetary value is ranked ascending, and
      strictly higher when it is ranked descending. */
  lemma MonetaryDirection(table: seq<RfmRecord>, dir: Direction, i: int, j: int)
    requires 0 <= i < |table| && 0 <= j < |table|
    requires table[i].recency == table[j].recency && table[i].frequency == table[j].frequency
    requires table[i].monetary < table[j].monetary
    ensures dir == Ascending ==> Scores(table, dir)[i] < Scores(table, dir)[j]
    ensures dir == Descending ==> Scores(table, dir)[i] > Scores(table, dir)[j]
  {
    PercentilesFollowValues(Column(table, RecencyOf), Descending, i, j);
    PercentilesFollowValues(Column(table, FrequencyOf), Ascending, i, j);
    PercentilesFollowValues(Column(table, MonetaryOf), dir, i, j);
  }

  lemma ScoreAt(table: seq<RfmRecord>, dir: Direction, i: int)
    requires 0 <= i < |table|
    ensures Scores(table, dir)[i] == Score(
      Percentiles(Column(table, RecencyOf), Descending)[i],
      Percentiles(Column(table, FrequencyOf), Ascending)[i],
      Percentiles(Column(table, MonetaryOf), dir)[i])
  {
  }

  /** With monetary value ranked ascending, a customer at least as recent,
      as frequent and as valuable as another never lands in a lower
      segment. */
  lemma DominanceKeepsTier(table: seq<RfmRecord>, i: int, j: int)
    requires 0 <= i < |table| && 0 <= j < |table|
    requires table[j].recency <= table[i].recency
    requires table[i].frequency <= table[j].frequency
    requires table[i].monetary <= table[j].monetary
    ensures Scores(table, Ascending)[i] <= Scores(table, Ascending)[j]
    ensures Tier(SegmentOf(Scores(table, Ascending)[i])) <= Tier(SegmentOf(Scores(table, Ascending)[j]))
  {
    var rs := Percentiles(Column(table, RecencyOf), Descending);
    var fs := Percentiles(Column(table, FrequencyOf), Ascending);
    var ms := Percentiles(Column(table, MonetaryOf), Ascending);
    PercentilesFollowValues(Column(table, RecencyOf), Descending, j, i);
    PercentilesFollowValues(Column(table, FrequencyOf), Ascending, i, j);
    PercentilesFollowValues(Column(table, MonetaryOf), Ascending, i, j);
    assert rs[i] <= rs[j] && fs[i] <= fs[j] && ms[i] <= ms[j];
    ScoreIncreasing(rs[i], fs[i], ms[i], rs[j], fs[j], ms[j]);
    ScoreAt(table, Ascending, i);
    ScoreAt(table, Ascending, j);
    var scores := Scores(table, Ascending);
    SegmentMonotone(scores[i], scores[j]);
  }

  /** The segment table with monetary value ranked ascending, so that
      spending more never lowers a customer's segment. Over a table with one
      row per customer, every customer is counted in exactly one segment. */
  function CustomerSegmentsCorrected(table: seq<RfmRecord>): (counts: map<Segment, nat>)
    ensures (forall i, j :: 0 <= i < j < |table| ==> table[i].customerId != table[j].customerId) ==>
      Total(counts) == |table|
  {
    PartitionWhenDistinct(table, Ascending);
    SegmentCounts(table, Ascending)
  }

  /** Two customers who differ only in spending. */
  const BigAndSmallSpender: seq<RfmRecord> :=
    [RfmRecord("a", 1, 100.0, 0), RfmRecord("b", 1, 10.0, 0)]

  lemma SpendPercentiles()
    ensures Percentiles([100.0, 10.0], Descending) == [50.0, 100.0]
  {
    var xs := [100.0, 10.0];
    assert xs[..1] == [100.0];
    assert [100.0][..0] == [];
    assert Rank(xs, 100.0, Descending) == 1.0;
    assert Rank(xs, 10.0, Descending) == 2.0;
    var r := Ranks(xs, Descending);
    assert r == [1.0, 2.0];
    assert MaxReal(r) == 2.0;
    assert Scaled(1.0, 2.0) == 50.0;
    ScaledTop(2.0);
  }

  lemma BigAndSmallRecency()
    ensures Percentiles(Column(BigAndSmallSpender, RecencyOf), Descending) == [100.0, 100.0]
  {
    assert Column(BigAndSmallSpender, RecencyOf) == [0.0, 0.0];
    TiedColumnIsTop([0.0, 0.0], Descending);
  }

  lemma BigAndSmallFrequency()
    ensures Percentiles(Column(BigAndSmallSpender, FrequencyOf), Ascending) == [100.0, 100.0]
  {
    assert Column(BigAndSmallSpender, FrequencyOf) == [1.0, 1.0];
    TiedColumnIsTop([1.0, 1.0], Ascending);
  }

  lemma BigAndSmallMonetary()
    ensures Percentiles(Column(BigAndSmallSpender, MonetaryOf), Descending) == [50.0, 100.0]
  {
    assert Column(BigAndSmallSpender, MonetaryOf) == [100.0, 10.0];
    SpendPercentiles();
  }

  lemma BigSpenderScore()
    ensures Scores(BigAndSmallSpender, Descending)[0] == 3.575
  {
    BigAndSmallRecency();
    BigAndSmallFrequency();
    BigAndSmallMonetary();
    ScoreAt(BigAndSmallSpender, Descending, 0);
    assert Score(100.0, 100.0, 50.0) == 3.575;
  }

  lemma SmallSpenderScore()
    ensures Scores(BigAndSmallSpender, Descending)[1] == 5.0
  {
    BigAndSmallRecency();
    BigAndSmallFrequency();
    BigAndSmallMonetary();
    ScoreAt(BigAndSmallSpender, Descending, 1);
    assert Score(100.0, 100.0, 100.0) == 5.0;
  }

  lemma BigAndSmallScores()
    ensures Scores(BigAndSmallSpender, Descending) == [3.575, 5.0]
  {
    BigSpenderScore();
    SmallSpenderScore();
    PairIs(Scores(BigAndSmallSpender, Descending), 3.575, 5.0);
  }

  lemma PairIs(xs: seq<real>, a: real, b: real)
    requires |xs| == 2 && xs[0] == a && xs[1] == b
    ensures xs == [a, b]
  {
  }

  /** Of two rows, a segment that only row k is in holds exactly that
      row's customer. */
  lemma OnlyOneIn(table: seq<RfmRecord>, segs: seq<Segment>, s: Segment, k: int)
    requires |segs| == |table| == 2 && 0 <= k < 2
    requires segs[k] == s && segs[1 - k] != s
    ensures CustomersIn(table, segs, s) == {table[k].customerId}
  {
    forall c | c in CustomersIn(table, segs, s)
      ensures c == table[k].customerId
    {
      var i :| 0 <= i < |table| && segs[i] == s && table[i].customerId == c;
    }
    assert table[k].customerId in CustomersIn(table, segs, s);
  }

  lemma TwoKeyMap(m: map<Segment, nat>, a: Segment, b: Segment)
    requires m.Keys == {a, b} && m[a] == 1 && m[b] == 1
    ensures m == map[a := 1, b := 1]
  {
  }

  /** Two customers in two different segments. */
  lemma TwoSegments(table: seq<RfmRecord>, segs: seq<Segment>)
    requires |table| == 2 && segs == [MediumValueCustomer, TopCustomer]
    ensures CountSegments(table, segs) == map[MediumValueCustomer := 1, TopCustomer := 1]
  {
    var counts := CountSegments(table, segs);
    assert counts.Keys == {MediumValueCustomer, TopCustomer} by {
      forall s ensures s in counts <==> s == MediumValueCustomer || s == TopCustomer {
        assert Occupied(table, segs, s) <==> s == segs[0] || s == segs[1];
      }
    }
    assert counts[MediumValueCustomer] == 1 by {
      OnlyOneIn(table, segs, MediumValueCustomer, 0);
    }
    assert counts[TopCustomer] == 1 by {
      OnlyOneIn(table, segs, TopCustomer, 1);
    }
    TwoKeyMap(counts, MediumValueCustomer, TopCustomer);
  }

  lemma BigAndSmallSegments()
    ensures SegmentsOf([3.575, 5.0]) == [MediumValueCustomer, TopCustomer]
  {
  }

  /** As computed, the customer who spent 100 lands in a lower segment than
      the one who spent 10. */
  lemma BigSpenderLandsLower()
    ensures Scores(BigAndSmallSpender, Descending) == [3.575, 5.0]
    ensures CustomerSegments(BigAndSmallSpender) == map[MediumValueCustomer := 1, TopCustomer := 1]
  {
    BigAndSmallScores();
    BigAndSmallSegments();
    TwoSegments(BigAndSmallSpender, [MediumValueCustomer, TopCustomer]);
  }
}
