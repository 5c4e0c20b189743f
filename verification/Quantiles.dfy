/** The three nearest-rank quantile readers (budgets.py, report.py and template-matching-efficiency.py). */
module Quantiles {
  import opened Wrappers
  import opened OrderStatistics

  /** The p-percent value of a sample, counted from the smallest. */
  function Rank(count: nat, p: nat): nat
    requires count > 0 && 0 < p <= 100
  {
    (count * p + 99) / 100 - 1
  }

  lemma RankInRange(count: nat, p: nat)
    requires count > 0 && 0 < p <= 100
    ensures 0 <= Rank(count, p) < count
    ensures forall n: nat :: n > Rank(count, p) <==> 100 * n >= p * count
  {
    assert p * count == count * p;
    assert 0 < count * p <= count * 100 by {
      if p < 100 {
        assert count * 100 == count * p + count * (100 - p);
      }
      assert count * p >= count by { assert count * p == count + count * (p - 1); }
    }
  }

  function Quantile(samples: seq<real>, p: nat): real
    requires samples != [] && 0 < p <= 100
  {
    RankInRange(|samples|, p);
    Kth(samples, Rank(|samples|, p))
  }

  /** `_quantiles_ns`. */
  function QuantilesNs(samples: seq<real>): (real, real, real)
    requires samples != []
  {
    RankInRange(|samples|, 50);
    RankInRange(|samples|, 95);
    var ordered, count := Sort(samples), |samples|;
    (ordered[(count * 50 + 99) / 100 - 1], ordered[(count * 95 + 99) / 100 - 1], ordered[|ordered| - 1])
  }

  datatype Percentile = Percentile(count: nat, p50: Option<real>, p95: Option<real>, max: Option<real>)

  /** `_percentiles`. */
  function Percentiles(values: seq<real>): Percentile {
    var ordered := Sort(values);
    if ordered == [] then Percentile(0, None, None, None)
    else
      RankInRange(|ordered|, 50);
      RankInRange(|ordered|, 95);
      Percentile(|ordered|, Some(ordered[(|ordered| * 50 + 99) / 100 - 1]),
                 Some(ordered[(|ordered| * 95 + 99) / 100 - 1]), Some(ordered[|ordered| - 1]))
  }

  lemma CeilOf95(count: nat)
    requires count > 0
    ensures Ceiling(0.95 * count as real) == (count * 95 + 99) / 100 && 0 < Ceiling(0.95 * count as real) <= count
  {
    var n := (count * 95 + 99) / 100;
    assert 100 * (n - 1) < 95 * count <= 100 * n;
    assert 0.95 * count as real == (95 * count) as real / 100.0;
    assert (n - 1) as real < 0.95 * count as real <= n as real;
  }

  /** The retained-sample summary of `observations`, in exact arithmetic. */
  function RetainedQuantiles(samples: seq<real>): (real, real, real)
    requires samples != []
  {
    CeilOf95(|samples|);
    var elapsed, count := Sort(samples), |samples|;
    (elapsed[(count - 1) / 2], elapsed[Ceiling(0.95 * count as real) - 1], elapsed[|elapsed| - 1])
  }

  /** The three implementations return the 50th, the 95th and the 100th percentile of the same order. */
  lemma ImplementationsAgree(samples: seq<real>)
    requires samples != []
    ensures QuantilesNs(samples) == (Quantile(samples, 50), Quantile(samples, 95), Quantile(samples, 100))
    ensures RetainedQuantiles(samples) == QuantilesNs(samples)
    ensures Percentiles(samples) == Percentile(|samples|, Some(QuantilesNs(samples).0), Some(QuantilesNs(samples).1),
                                               Some(QuantilesNs(samples).2))
  {
    hide Sort;
    CeilOf95(|samples|);
    assert (|samples| * 100 + 99) / 100 == |samples|;
    assert (|samples| * 50 + 99) / 100 - 1 == (|samples| - 1) / 2;
  }

  /** Without samples there is nothing to report. */
  lemma NoPercentiles()
    ensures Percentiles([]) == Percentile(0, None, None, None)
  {
  }

  /** The quantile is the smallest sample with at least the required fraction of the samples at or below it. */
  lemma QuantileIsLeast(samples: seq<real>, p: nat)
    requires samples != [] && 0 < p <= 100
    ensures Quantile(samples, p) in samples
    ensures 100 * CountLe(samples, Quantile(samples, p)) >= p * |samples|
    ensures forall x :: Quantile(samples, p) <= x <==> 100 * CountLe(samples, x) >= p * |samples|
  {
    RankInRange(|samples|, p);
    var k := Rank(|samples|, p);
    hide Rank, CountLe, Kth;
    KthIsValue(samples, k);
    forall x ensures Quantile(samples, p) <= x <==> 100 * CountLe(samples, x) >= p * |samples| {
      KthAtMost(samples, k, x);
    }
  }

  lemma QuantilePermutation(s: seq<real>, t: seq<real>, p: nat)
    requires multiset(s) == multiset(t) && s != [] && 0 < p <= 100
    ensures t != [] && Quantile(s, p) == Quantile(t, p)
  {
    RankInRange(|s|, p);
    KthPermutation(s, t, Rank(|s|, p));
  }

  lemma RankMonotone(count: nat, p: nat, q: nat)
    requires count > 0 && 0 < p <= q <= 100
    ensures Rank(count, p) <= Rank(count, q)
  {
    assert count * q == count * p + count * (q - p);
  }

  lemma LastRank(count: nat)
    requires count > 0
    ensures Rank(count, 100) == count - 1
  {
  }

  lemma QuantilesOrdered(s: seq<real>, p: nat, q: nat)
    requires s != [] && 0 < p <= q <= 100
    ensures Quantile(s, p) <= Quantile(s, q)
    ensures forall i | 0 <= i < |s| :: s[i] <= Quantile(s, 100)
  {
    hide Rank, Kth;
    RankInRange(|s|, p);
    RankInRange(|s|, q);
    RankMonotone(|s|, p, q);
    LastRank(|s|);
    KthMonotone(s, Rank(|s|, p), Rank(|s|, q));
    forall i | 0 <= i < |s| ensures s[i] <= Quantile(s, 100) {
      ValueBetween(s, i);
    }
  }

  // ----- paired cancellation endpoints ----------------------------------------------------------

  function Paired(a: seq<real>, b: seq<real>): (r: seq<real>)
    requires |a| == |b|
    ensures |r| == |a|
  {
    seq(|a|, i requires 0 <= i < |a| => if a[i] >= b[i] then a[i] else b[i])
  }

  lemma {:induction false} PairedCount(a: seq<real>, b: seq<real>, x: real)
    requires |a| == |b|
    ensures CountLe(Paired(a, b), x) <= CountLe(a, x) && CountLe(Paired(a, b), x) <= CountLe(b, x)
    ensures CountLe(a, x) + CountLe(b, x) <= CountLe(Paired(a, b), x) + |a|
  {
    if a != [] {
      PairedCount(a[1..], b[1..], x);
      assert Paired(a, b)[1..] == Paired(a[1..], b[1..]);
    }
  }

  /**
   A quantile of the paired maxima is at least that of each column, and at most the larger column quantile that leaves
   out half as many samples: the paired 90th percentile is within the larger 95th percentile.
   */
  lemma PairedQuantile(a: seq<real>, b: seq<real>, p: nat)
    requires |a| == |b| && a != [] && 0 < p <= 100
    ensures Quantile(a, p) <= Quantile(Paired(a, b), p) && Quantile(b, p) <= Quantile(Paired(a, b), p)
    ensures p > 50 ==> || Quantile(Paired(a, b), 2 * p - 100) <= Quantile(a, p)
                       || Quantile(Paired(a, b), 2 * p - 100) <= Quantile(b, p)
  {
    PairedAtLeast(a, b, p);
    if p > 50 {
      PairedAtMost(a, b, p, if Quantile(a, p) >= Quantile(b, p) then Quantile(a, p) else Quantile(b, p));
    }
  }

  lemma QuantileAtMost(samples: seq<real>, p: nat, x: real)
    requires samples != [] && 0 < p <= 100
    ensures Quantile(samples, p) <= x <==> 100 * CountLe(samples, x) >= p * |samples|
  {
    QuantileIsLeast(samples, p);
  }

  lemma PairedAtLeast(a: seq<real>, b: seq<real>, p: nat)
    requires |a| == |b| && a != [] && 0 < p <= 100
    ensures Quantile(a, p) <= Quantile(Paired(a, b), p) && Quantile(b, p) <= Quantile(Paired(a, b), p)
  {
    hide CountLe, Quantile, Paired;
    var top := Quantile(Paired(a, b), p);
    QuantileAtMost(Paired(a, b), p, top);
    PairedCount(a, b, top);
    QuantileAtMost(a, p, top);
    QuantileAtMost(b, p, top);
  }

  lemma PairedAtMost(a: seq<real>, b: seq<real>, p: nat, x: real)
    requires |a| == |b| && a != [] && 50 < p <= 100 && Quantile(a, p) <= x && Quantile(b, p) <= x
    ensures Quantile(Paired(a, b), 2 * p - 100) <= x
  {
    hide CountLe, Quantile, Paired;
    QuantileAtMost(a, p, x);
    QuantileAtMost(b, p, x);
    PairedCount(a, b, x);
    QuantileAtMost(Paired(a, b), 2 * p - 100, x);
    assert (2 * p - 100) * |a| == 2 * (p * |a|) - 100 * |a|;
  }
}
