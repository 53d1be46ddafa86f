/** The load generator's percentile: linear interpolation between the two neighbouring ranks. */
module Percentile {
  predicate Sorted(samples: seq<real>) {
    forall i, j :: 0 <= i < j < |samples| ==> samples[i] <= samples[j]
  }

  function Clamp(p: real): real {
    if p < 0.0 then 0.0 else if p > 1.0 then 1.0 else p
  }

  /** Smallest integer not below x. */
  function Ceil(x: real): int {
    if x == x.Floor as real then x.Floor else x.Floor + 1
  }

  function Scale(c: real, k: real): real {
    c * k
  }

  function Rank(n: nat, p: real): real
    requires n > 0
  {
    Scale(Clamp(p), n as real - 1.0)
  }

  /** Value at a possibly fractional rank. */
  function AtRank(samples: seq<real>, rank: real): real
    requires samples != [] && 0.0 <= rank <= (|samples| - 1) as real
  {
    var lo, hi := rank.Floor, Ceil(rank);
    if lo == hi then samples[lo]
    else
      var w := rank - lo as real;
      samples[lo] * (1.0 - w) + samples[hi] * w
  }

  lemma RankInRange(n: nat, p: real)
    requires n > 0
    ensures 0.0 <= Rank(n, p) <= (n - 1) as real
  {
    assert (n - 1) as real == n as real - 1.0;
    ScaledInRange(Clamp(p), n as real - 1.0);
  }

  lemma ScaledInRange(c: real, k: real)
    requires 0.0 <= c <= 1.0 && k >= 0.0
    ensures 0.0 <= Scale(c, k) <= k
  {
    MulMonotone(c, 1.0, k);
  }

  lemma ScaleMonotone(c: real, d: real, k: real)
    requires c <= d && k >= 0.0
    ensures Scale(c, k) <= Scale(d, k)
  {
    MulMonotone(c, d, k);
  }

  lemma MulMonotone(a: real, b: real, k: real)
    requires a <= b && k >= 0.0
    ensures a * k <= b * k
  {
    assert 0.0 <= (b - a) * k == b * k - a * k;
  }

  function Percentile(samples: seq<real>, p: real): real {
    if samples == [] then 0.0
    else
      RankInRange(|samples|, p);
      AtRank(samples, Rank(|samples|, p))
  }

  // ---------------------------------------------------------------- laws

  lemma Regroup(a: real, b: real, w: real)
    ensures a * (1.0 - w) + b * w == a + w * (b - a)
  {
    assert a * (1.0 - w) == a - a * w;
    assert w * (b - a) == w * b - w * a;
  }

  /** An interpolated value lies between its two neighbours. */
  lemma Between(a: real, b: real, w: real)
    requires a <= b && 0.0 <= w <= 1.0
    ensures a <= a * (1.0 - w) + b * w <= b
  {
    Regroup(a, b, w);
    MulMonotone(0.0, w, b - a);
    MulMonotone(w, 1.0, b - a);
  }

  /** More weight on the larger neighbour gives a larger value. */
  lemma WeightMonotone(a: real, b: real, v: real, w: real)
    requires a <= b && v <= w
    ensures a * (1.0 - v) + b * v <= a * (1.0 - w) + b * w
  {
    Regroup(a, b, v);
    Regroup(a, b, w);
    MulMonotone(v, w, b - a);
  }

  lemma AtRankBetweenNeighbours(samples: seq<real>, rank: real)
    requires Sorted(samples) && samples != [] && 0.0 <= rank <= (|samples| - 1) as real
    ensures samples[rank.Floor] <= AtRank(samples, rank) <= samples[Ceil(rank)]
  {
    if rank.Floor != Ceil(rank) {
      Between(samples[rank.Floor], samples[Ceil(rank)], rank - rank.Floor as real);
    }
  }

  lemma AtRankMonotone(samples: seq<real>, r: real, s: real)
    requires Sorted(samples) && samples != [] && 0.0 <= r <= s <= (|samples| - 1) as real
    ensures AtRank(samples, r) <= AtRank(samples, s)
  {
    AtRankBetweenNeighbours(samples, r);
    AtRankBetweenNeighbours(samples, s);
    if r.Floor == s.Floor && Ceil(r) == Ceil(s) {
      if r.Floor != Ceil(r) {
        WeightMonotone(samples[r.Floor], samples[Ceil(r)], r - r.Floor as real, s - r.Floor as real);
      }
    } else {
      assert Ceil(r) <= s.Floor || r.Floor == s.Floor == Ceil(r);
    }
  }

  /** On sorted samples every percentile lies between the smallest and the largest sample. */
  lemma PercentileWithinExtremes(samples: seq<real>, p: real)
    requires Sorted(samples) && samples != []
    ensures samples[0] <= Percentile(samples, p) <= samples[|samples| - 1]
  {
    RankInRange(|samples|, p);
    AtRankBetweenNeighbours(samples, Rank(|samples|, p));
  }

  lemma RankMonotone(n: nat, p: real, q: real)
    requires n > 0 && p <= q
    ensures Rank(n, p) <= Rank(n, q)
  {
    ScaleMonotone(Clamp(p), Clamp(q), n as real - 1.0);
  }

  /** On sorted samples a larger p never gives a smaller percentile. */
  lemma PercentileMonotone(samples: seq<real>, p: real, q: real)
    requires Sorted(samples) && p <= q
    ensures Percentile(samples, p) <= Percentile(samples, q)
  {
    if samples != [] {
      RankInRange(|samples|, p);
      RankInRange(|samples|, q);
      RankMonotone(|samples|, p, q);
      AtRankMonotone(samples, Rank(|samples|, p), Rank(|samples|, q));
    }
  }

  /** The three figures the load generator reports are in order. */
  lemma ReportedFiguresInOrder(samples: seq<real>)
    requires Sorted(samples)
    ensures Percentile(samples, 0.50) <= Percentile(samples, 0.95) <= Percentile(samples, 0.99)
  {
    PercentileMonotone(samples, 0.50, 0.95);
    PercentileMonotone(samples, 0.95, 0.99);
  }

  /** At a rank that is a whole number the percentile is that very sample. */
  lemma PercentileAtWholeRank(samples: seq<real>, p: real, k: nat)
    requires k < |samples| && 0.0 <= p <= 1.0 && p * (|samples| as real - 1.0) == k as real
    ensures Percentile(samples, p) == samples[k]
  {
    RankInRange(|samples|, p);
    assert Rank(|samples|, p) == k as real;
  }

  /** Between two neighbouring ranks the percentile moves on a straight line from one sample to the next. */
  lemma PercentileIsLinear(samples: seq<real>, p: real, k: nat, t: real)
    requires k + 1 < |samples| && 0.0 <= p <= 1.0 && 0.0 <= t <= 1.0
    requires p * (|samples| as real - 1.0) == k as real + t
    ensures Percentile(samples, p) == samples[k] + t * (samples[k + 1] - samples[k])
  {
    RankInRange(|samples|, p);
    assert Rank(|samples|, p) == k as real + t;
    if t == 1.0 {
      PercentileAtWholeRank(samples, p, k + 1);
    } else if t == 0.0 {
      PercentileAtWholeRank(samples, p, k);
    } else {
      assert (k as real + t).Floor == k && Ceil(k as real + t) == k + 1;
      Interpolate(samples[k], samples[k + 1], t);
    }
  }

  lemma Interpolate(a: real, b: real, t: real)
    ensures a * (1.0 - t) + b * t == a + t * (b - a)
  {
  }

  /** The median of two samples is their mean. */
  lemma MedianOfTwo(a: real, b: real)
    ensures Percentile([a, b], 0.5) == (a + b) / 2.0
  {
    PercentileIsLinear([a, b], 0.5, 0, 0.5);
  }

  /** Outside the range of percentages the extreme samples are meant, and without samples it is zero. */
  lemma PercentileOutside(samples: seq<real>, p: real)
    ensures samples == [] ==> Percentile(samples, p) == 0.0
    ensures samples != [] && p <= 0.0 ==> Percentile(samples, p) == samples[0]
    ensures samples != [] && p >= 1.0 ==> Percentile(samples, p) == samples[|samples| - 1]
  {
    if samples != [] {
      RankInRange(|samples|, p);
      if p <= 0.0 {
        assert Rank(|samples|, p) == 0.0;
      } else if p >= 1.0 {
        assert Rank(|samples|, p) == (|samples| - 1) as real;
      }
    }
  }
}
